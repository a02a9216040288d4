/** The IDL grammar: comments and delimiters, identifiers, field types with
    bounded nesting, fields, data, options, choices, topics, enumerations,
    the package and import headers, constructs and whole files. Every rule
    is a parser value built from the combinators. */
module IdlParser {
  import opened Core
  import opened CoreLaws
  import opened IdlTypes
  import opened IdlString

  // ---------------------------------------------------------------------
  // Comments and delimiters

  /** `//`, the rest of the line, and the newline; the value is the text
      between `//` and the newline. */
  function PComment(): (r: Parser<string>)
    ensures Advances(r)
  {
    AdvancesKeeps(PChar('\n'));
    AndRFrames(PString("//"), PAllUntilNewline());
    AndLFrames(AndR(PString("//"), PAllUntilNewline()), PChar('\n'));
    AndL(AndR(PString("//"), PAllUntilNewline()), PChar('\n'))
  }

  /** Any number of runs of whitespace. */
  function Spaces(): (r: Parser<seq<char>>)
    ensures Keeps(r)
  {
    ZeroOrMore(PWhitespace(), Spliced)
  }

  /** What may separate two tokens: whitespace, or else a comment. */
  function Delimiters(): (r: Parser<()>)
    ensures Keeps(r)
  {
    AdvancesKeeps(PComment());
    IgnoreFrames(Spaces());
    IgnoreFrames(PComment());
    OrFrames(Ignore(Spaces()), Ignore(PComment()));
    Or(Ignore(Spaces()), Ignore(PComment()))
  }

  /** Optional delimiters: they never fail and never move back. */
  function OptionalDelimiters(): (r: Parser<Maybe<()>>)
    ensures Keeps(r)
  {
    OptionalFrames(Delimiters());
    Optional(Delimiters())
  }

  // ---------------------------------------------------------------------
  // Identifiers

  const Alpha := Uppercase + Lowercase + "_"

  /** A character of `first`, then any number of characters of `other`;
      failures are reported under `l`. */
  function Word(first: seq<char>, other: seq<char>, l: string): (r: Parser<seq<char>>)
    requires |first| > 0 && |other| > 0
    ensures r.name == Just(l)
    ensures Advances(r)
  {
    var w := And(PAnyOf(first), ZeroOrMore(PAnyOf(other), Scalar), Scalar, Spliced);
    AndFrames(PAnyOf(first), ZeroOrMore(PAnyOf(other), Scalar), Scalar, Spliced);
    LabelFrames(w, l);
    Label(w, l)
  }

  function ToIdentifier(cs: seq<char>): Identifier {
    Identifier(cs)
  }

  function ToTypeIdentifier(cs: seq<char>): TypeIdentifier {
    TypeIdentifier(cs)
  }

  /** A letter or underscore, then letters, digits and underscores. */
  function PIdentifier(): (r: Parser<Identifier>)
    ensures Advances(r)
  {
    MapFrames(Word(Alpha, Alpha + Digits, "identifier"), ToIdentifier);
    Map(Word(Alpha, Alpha + Digits, "identifier"), ToIdentifier)
  }

  const TypeTail := Digits + Uppercase + Lowercase + "_"

  /** An upper-case letter, then letters, digits and underscores. */
  function PTypeIdentifier(): (r: Parser<TypeIdentifier>)
    ensures Advances(r)
  {
    MapFrames(Word(Uppercase, TypeTail, "type-identifier"), ToTypeIdentifier);
    Map(Word(Uppercase, TypeTail, "type-identifier"), ToTypeIdentifier)
  }

  // ---------------------------------------------------------------------
  // Tags

  function Third<A, B, C>(x: (A, B, C)): C {
    x.2
  }

  /** `tag`, `=` and an integer, with delimiters between them. */
  function PTag(): (r: Parser<int>)
    ensures Advances(r)
  {
    var p := PDelimited3(Delimiters(), PString("tag"), PChar('='), PInt());
    AdvancesKeeps(PChar('='));
    AdvancesKeeps(PInt());
    PDelimited3Frames(Delimiters(), PString("tag"), PChar('='), PInt());
    MapFrames(p, Third);
    Map(p, Third)
  }

  // ---------------------------------------------------------------------
  // Field types

  /** A primitive keyword answering its primitive type. */
  function Keyword(word: string, t: FieldType): (r: Parser<FieldType>)
    requires |word| > 0
    ensures Advances(r)
  {
    MapToFrames(PString(word), t);
    MapTo(PString(word), t)
  }

  /** The eight primitive keywords and their types, in the order tried. */
  const KeywordNames: seq<string> :=
    ["Int8", "Int16", "Int32", "String", "Boolean", "Float", "GUID", "DateTime"]
  const Primitives: seq<FieldType> := [Int8, Int16, Int32, String, Boolean, Float, GUID, DateTime]

  lemma KeywordTable()
    ensures |KeywordNames| == |Primitives| == 8
    ensures forall i :: 0 <= i < 8 ==> |KeywordNames[i]| > 0 && Primitives[i].IsPrimitive()
  {
  }

  /** One parser per primitive keyword, in order. */
  function Keywords(): (ps: seq<Parser<FieldType>>)
    ensures |ps| == 8
    ensures forall i :: 0 <= i < 8 ==> ps[i] == Keyword(KeywordNames[i], Primitives[i]) && Advances(ps[i])
  {
    KeywordTable();
    seq(8, i requires 0 <= i < 8 => Keyword(KeywordNames[i], Primitives[i]))
  }

  /** A map key: one of the primitive keywords, the first that matches. */
  function PMapKeyType(): (r: Parser<FieldType>)
    ensures Advances(r)
  {
    OrAllFrames(Keywords());
    OrAll(Keywords())
  }

  /** How many more levels of `List<..>` or `Map<..>` may open at `level`. */
  function Room(level: nat): nat {
    if level < 2 then 2 - level else 0
  }

  function Ends<A, B, C>(x: (A, B, C)): (A, C) {
    (x.0, x.2)
  }

  function ListOfMiddle(x: (string, FieldType, string)): FieldType {
    ListOf(x.1)
  }

  function MapOfMiddle(x: (string, (FieldType, FieldType), string)): FieldType {
    MapOf(x.1.0, x.1.1)
  }

  function CustomOf(id: TypeIdentifier): FieldType {
    CustomType(id)
  }

  const TooDeep := "too many nested type specifiers"

  /** A map key, `,` and the value type one level deeper. */
  function PKeyValuePair(level: nat): (r: Parser<(FieldType, FieldType)>)
    ensures Advances(r)
    decreases Room(level + 1) + 1, 0
  {
    var value := PFieldType(level + 1);
    var p := PDelimited3(Delimiters(), PMapKeyType(), PChar(','), value);
    AdvancesKeeps(PMapKeyType());
    AdvancesKeeps(PChar(','));
    AdvancesKeeps(value);
    PDelimited3Frames(Delimiters(), PMapKeyType(), PChar(','), value);
    MapFrames(p, Ends);
    Map(p, Ends)
  }

  /** `Map<`, a key-value pair and `>`; below two levels of nesting only. */
  function PMap(level: nat): (r: Parser<FieldType>)
    ensures Advances(r)
    decreases Room(level), 2
  {
    if level < 2 then
      var p := PDelimited3(Delimiters(), PString("Map<"), PKeyValuePair(level), PString(">"));
      AdvancesKeeps(PKeyValuePair(level));
      PDelimited3Frames(Delimiters(), PString("Map<"), PKeyValuePair(level), PString(">"));
      MapFrames(p, MapOfMiddle);
      Map(p, MapOfMiddle)
    else
      Fail(TooDeep)
  }

  /** `List<`, the element type and `>`; below two levels of nesting only. */
  function PList(level: nat): (r: Parser<FieldType>)
    ensures Advances(r)
    decreases Room(level), 2
  {
    if level < 2 then
      var p := PDelimited3(Delimiters(), PString("List<"), PFieldType(level + 1), PString(">"));
      AdvancesKeeps(PFieldType(level + 1));
      PDelimited3Frames(Delimiters(), PString("List<"), PFieldType(level + 1), PString(">"));
      MapFrames(p, ListOfMiddle);
      Map(p, ListOfMiddle)
    else
      Fail(TooDeep)
  }

  /** A type named by a type identifier. */
  function PCustomType(): (r: Parser<FieldType>)
    ensures Advances(r)
  {
    MapFrames(PTypeIdentifier(), CustomOf);
    Map(PTypeIdentifier(), CustomOf)
  }

  /** A field type: a primitive keyword, a list, a map or a custom type, the
      first that matches. The keywords come first, in the order of
      `PMapKeyType`. */
  function PFieldType(level: nat): (r: Parser<FieldType>)
    ensures Advances(r)
    decreases Room(level), 3
  {
    var p := Or(Or(PMapKeyType(), PList(level)), PMap(level));
    OrFrames(PMapKeyType(), PList(level));
    OrFrames(Or(PMapKeyType(), PList(level)), PMap(level));
    OrFrames(p, PCustomType());
    Or(p, PCustomType())
  }

  // ---------------------------------------------------------------------
  // Fields and data

  function FieldOf(x: (Identifier, char, FieldType, char, int, char)): Field {
    Field(x.0, x.2, x.4)
  }

  /** `name : type , tag = n ;`, with delimiters between the tokens. */
  function PField(): (r: Parser<Field>)
    ensures r.name == Just("field-definition")
    ensures Advances(r)
  {
    var d := Delimiters();
    var p := PDelimited6(d, PIdentifier(), PChar(':'), PFieldType(0), PChar(','), PTag(), PChar(';'));
    AdvancesKeeps(PIdentifier());
    AdvancesKeeps(PChar(':'));
    AdvancesKeeps(PFieldType(0));
    AdvancesKeeps(PChar(','));
    AdvancesKeeps(PTag());
    AdvancesKeeps(PChar(';'));
    PDelimited6Frames(d, PIdentifier(), PChar(':'), PFieldType(0), PChar(','), PTag(), PChar(';'));
    MapFrames(p, FieldOf);
    LabelFrames(Map(p, FieldOf), "field-definition");
    Label(Map(p, FieldOf), "field-definition")
  }

  function Middle<A, B, C>(x: (A, B, C)): B {
    x.1
  }

  /** Zero or more items of `p`, each followed by delimiters. */
  function Repeated<T>(p: Parser<T>): (r: Parser<seq<T>>)
    requires Advances(p)
    ensures Keeps(r)
  {
    AndLFrames(p, Delimiters());
    ZeroOrMore(AndL(p, Delimiters()), Scalar)
  }

  /** `{`, zero or more `p` each followed by delimiters, and `}`. */
  function Braced<T>(p: Parser<T>): (r: Parser<seq<T>>)
    requires Advances(p)
    ensures Advances(r)
  {
    var b := PDelimited3(Delimiters(), PChar('{'), Repeated(p), PChar('}'));
    AdvancesKeeps(PChar('{'));
    AdvancesKeeps(PChar('}'));
    PDelimited3Frames(Delimiters(), PChar('{'), Repeated(p), PChar('}'));
    MapFrames(b, Middle);
    Map(b, Middle)
  }

  /** `{`, zero or more fields, `}`. */
  function PListOfFields(): (r: Parser<seq<Field>>)
    ensures Advances(r)
  {
    Braced(PField())
  }

  function DataOf(x: ((string, TypeIdentifier), seq<Field>)): Data {
    Data(x.0.1, x.1)
  }

  /** `data Name { fields }`. */
  function PData(): (r: Parser<Data>)
    ensures Advances(r)
  {
    var d := Delimiters();
    var header := PDelimited2(d, PString("data"), PTypeIdentifier());
    var p := PDelimited2(d, header, PListOfFields());
    AdvancesKeeps(PTypeIdentifier());
    AdvancesKeeps(PListOfFields());
    PDelimited2Frames(d, PString("data"), PTypeIdentifier());
    AdvancesKeeps(header);
    PDelimited2Frames(d, header, PListOfFields());
    LabelFrames(p, "data-definition");
    MapFrames(Label(p, "data-definition"), DataOf);
    Map(Label(p, "data-definition"), DataOf)
  }

  // ---------------------------------------------------------------------
  // Choices

  function OptionOf(x: (string, TypeIdentifier, Maybe<seq<Field>>, char, int, char)): Option {
    Option(x.1, x.2, x.4)
  }

  /** `option Name [{ fields }] , tag = n ;`. */
  function POption(): (r: Parser<Option>)
    ensures Advances(r)
  {
    var d := Delimiters();
    var body := Optional(PListOfFields());
    var p := PDelimited6(d, PString("option"), PTypeIdentifier(), body, PChar(','), PTag(), PChar(';'));
    AdvancesKeeps(PListOfFields());
    OptionalFrames(PListOfFields());
    AdvancesKeeps(PTypeIdentifier());
    AdvancesKeeps(PChar(','));
    AdvancesKeeps(PTag());
    AdvancesKeeps(PChar(';'));
    PDelimited6Frames(d, PString("option"), PTypeIdentifier(), body, PChar(','), PTag(), PChar(';'));
    MapFrames(p, OptionOf);
    Map(p, OptionOf)
  }

  /** `{`, zero or more options, `}`. */
  function PChoiceBody(): (r: Parser<seq<Option>>)
    ensures Advances(r)
  {
    Braced(POption())
  }

  function Second<A, B>(x: (A, B)): B {
    x.1
  }

  function ChoiceOf(x: (TypeIdentifier, seq<Option>)): Choice {
    Choice(x.0, x.1)
  }

  /** `choice Name { options }`. */
  function PChoice(): (r: Parser<Choice>)
    ensures Advances(r)
  {
    var d := Delimiters();
    var header := PDelimited2(d, PString("choice"), PTypeIdentifier());
    var p := PDelimited2(d, Map(header, Second), PChoiceBody());
    AdvancesKeeps(PTypeIdentifier());
    AdvancesKeeps(PChoiceBody());
    PDelimited2Frames(d, PString("choice"), PTypeIdentifier());
    MapFrames(header, Second);
    AdvancesKeeps(Map(header, Second));
    PDelimited2Frames(d, Map(header, Second), PChoiceBody());
    MapFrames(p, ChoiceOf);
    Map(p, ChoiceOf)
  }

  // ---------------------------------------------------------------------
  // Topics

  lemma QuotedStringAdvances()
    ensures Advances(QuotedString())
  {
    var z := ZeroOrMore(JChar(), Scalar);
    LabelFrames(PChar('"'), "quote");
    AndRFrames(Quote(), z);
    AdvancesKeeps(Quote());
    AndLFrames(AndR(Quote(), z), Quote());
    MapFrames(AndL(AndR(Quote(), z), Quote()), Join);
  }

  function Fourth<A, B, C, E>(x: (A, B, C, E)): E {
    x.3
  }

  /** `, word = Name`: the type named after `request` or `response`. */
  function TopicPart(word: string): (r: Parser<TypeIdentifier>)
    requires |word| > 0
    ensures Advances(r)
  {
    var d := Delimiters();
    var p := PDelimited4(d, PChar(','), PString(word), PChar('='), PTypeIdentifier());
    AdvancesKeeps(PChar(','));
    AdvancesKeeps(PChar('='));
    AdvancesKeeps(PTypeIdentifier());
    PDelimited4Frames(d, PChar(','), PString(word), PChar('='), PTypeIdentifier());
    MapFrames(p, Fourth);
    Map(p, Fourth)
  }

  function TopicOf(x: (string, string, TypeIdentifier, Maybe<TypeIdentifier>)): Topic {
    Topic(x.1, x.2, x.3)
  }

  /** `topic "text" , request = Name [, response = Name]`. */
  function PTopic(): (r: Parser<Topic>)
    ensures Advances(r)
  {
    var d := Delimiters();
    var response := Optional(TopicPart("response"));
    var p := PDelimited4(d, PString("topic"), QuotedString(), TopicPart("request"), response);
    QuotedStringAdvances();
    AdvancesKeeps(QuotedString());
    AdvancesKeeps(TopicPart("request"));
    AdvancesKeeps(TopicPart("response"));
    OptionalFrames(TopicPart("response"));
    PDelimited4Frames(d, PString("topic"), QuotedString(), TopicPart("request"), response);
    MapFrames(p, TopicOf);
    Map(p, TopicOf)
  }

  // ---------------------------------------------------------------------
  // Enumerations

  /** `p`, then any number of `sep p`; the values of `p` in order. */
  function SeparatedBy<A, B>(p: Parser<A>, sep: Parser<B>): (r: Parser<seq<A>>)
    requires Advances(p) && Keeps(sep)
    ensures Advances(r)
  {
    AndRFrames(sep, p);
    var z := ZeroOrMore(AndR(sep, p), Scalar);
    AndFrames(p, z, Scalar, Spliced);
    And(p, z, Scalar, Spliced)
  }

  function ItemOf(x: (string, char, int, Maybe<char>)): EnumerationItem {
    EnumerationItem(x.0, x.2)
  }

  /** `name = n` optionally ended by `;` or `,`, after optional delimiters. */
  function PEnumerationItem(): (r: Parser<EnumerationItem>)
    ensures Advances(r)
  {
    var d := Delimiters();
    var id := Map(Word(Alpha, Alpha + Digits, "enum-item"), Join);
    var terminal := Optional(Or(PChar(';'), PChar(',')));
    var p := PDelimited4(d, id, PChar('='), PInt(), terminal);
    MapFrames(Word(Alpha, Alpha + Digits, "enum-item"), Join);
    AdvancesKeeps(PChar('='));
    AdvancesKeeps(PInt());
    OrFrames(PChar(';'), PChar(','));
    AdvancesKeeps(Or(PChar(';'), PChar(',')));
    OptionalFrames(Or(PChar(';'), PChar(',')));
    AdvancesKeeps(id);
    PDelimited4Frames(d, id, PChar('='), PInt(), terminal);
    AndRFrames(OptionalDelimiters(), p);
    MapFrames(AndR(OptionalDelimiters(), p), ItemOf);
    Map(AndR(OptionalDelimiters(), p), ItemOf)
  }

  function EnumerationOf(x: (string, TypeIdentifier, char, seq<EnumerationItem>, char)): Enumeration {
    IdlTypes.Enumeration.Enumeration(x.1, x.3)
  }

  /** `enum Name { items }` with at least one item, after optional delimiters. */
  function PEnumeration(): (r: Parser<Enumeration>)
    ensures Advances(r)
  {
    var d := Delimiters();
    var items := OneOrMore(PEnumerationItem());
    var p := PDelimited5(d, PString("enum"), PTypeIdentifier(), PChar('{'), items, PChar('}'));
    AdvancesKeeps(PTypeIdentifier());
    AdvancesKeeps(PChar('{'));
    AdvancesKeeps(items);
    AdvancesKeeps(PChar('}'));
    PDelimited5Frames(d, PString("enum"), PTypeIdentifier(), PChar('{'), items, PChar('}'));
    AndRFrames(OptionalDelimiters(), p);
    MapFrames(AndR(OptionalDelimiters(), p), EnumerationOf);
    Map(AndR(OptionalDelimiters(), p), EnumerationOf)
  }

  // ---------------------------------------------------------------------
  // Package and imports

  /** The identifiers joined with `.` between each two of them. */
  function DottedPath(ids: seq<Identifier>): string
    decreases |ids|
  {
    if |ids| == 0 then ""
    else if |ids| == 1 then ids[0].id
    else ids[0].id + "." + DottedPath(ids[1..])
  }

  /** Identifiers separated by `.`; the value is the dotted text. */
  function DottedName(): (r: Parser<string>)
    ensures Advances(r)
  {
    AdvancesKeeps(PChar('.'));
    var p := SeparatedBy(PIdentifier(), PChar('.'));
    MapFrames(p, DottedPath);
    Map(p, DottedPath)
  }

  function PackageOf(text: string): Package {
    Package(text)
  }

  /** Optional delimiters, `package`, delimiters, a dotted name and optional
      delimiters. */
  function PPackage(): (r: Parser<Package>)
    ensures Advances(r)
  {
    var od := OptionalDelimiters();
    var a := AndR(AndR(AndR(od, PString("package")), Delimiters()), DottedName());
    AndRFrames(od, PString("package"));
    AndRFrames(AndR(od, PString("package")), Delimiters());
    AndRFrames(AndR(AndR(od, PString("package")), Delimiters()), DottedName());
    AndLFrames(a, od);
    MapFrames(AndL(a, od), PackageOf);
    Map(AndL(a, od), PackageOf)
  }

  function ImportOf(x: (string, string)): Import {
    Import(x.1)
  }

  /** `import` and a dotted name. */
  function PImport(): (r: Parser<Import>)
    ensures Advances(r)
  {
    var p := PDelimited2(Delimiters(), PString("import"), DottedName());
    AdvancesKeeps(DottedName());
    PDelimited2Frames(Delimiters(), PString("import"), DottedName());
    MapFrames(p, ImportOf);
    Map(p, ImportOf)
  }

  /** `p` with optional delimiters on both sides. */
  function Padded<T>(p: Parser<T>): (r: Parser<T>)
    requires Advances(p)
    ensures Advances(r)
  {
    AndRFrames(OptionalDelimiters(), p);
    AndLFrames(AndR(OptionalDelimiters(), p), OptionalDelimiters());
    AndL(AndR(OptionalDelimiters(), p), OptionalDelimiters())
  }

  /** Zero or more imports. */
  function PImports(): (r: Parser<seq<Import>>)
    ensures Keeps(r)
  {
    ZeroOrMore(Padded(PImport()), Scalar)
  }

  // ---------------------------------------------------------------------
  // Constructs and files

  function AsData(x: Data): Construct {
    DataObject(x)
  }

  function AsEnumeration(x: Enumeration): Construct {
    Construct.Enumeration(x)
  }

  function AsChoice(x: Choice): Construct {
    ChoiceObject(x)
  }

  function AsTopic(x: Topic): Construct {
    TopicObject(x)
  }

  /** A construct rule followed by optional delimiters, reported under `l`
      and wrapped by `f`. */
  function Alternative<T>(p: Parser<T>, l: string, f: T -> Construct): (r: Parser<Construct>)
    requires Advances(p)
    ensures Advances(r)
  {
    var q := AndL(p, OptionalDelimiters());
    AndLFrames(p, OptionalDelimiters());
    LabelFrames(q, l);
    MapFrames(Label(q, l), f);
    Map(Label(q, l), f)
  }

  /** Delimiters and a data definition, or else an enumeration, a choice or a
      topic on the original cursor; then optional delimiters. Only the data
      alternative is preceded by the delimiters. The four rules are
      parameters here; `PConstruct` passes the grammar's own. */
  function ConstructOf(data: Parser<Data>, enumeration: Parser<Enumeration>, choice: Parser<Choice>, topic: Parser<Topic>): (r: Parser<Construct>)
    requires Advances(data) && Advances(enumeration) && Advances(choice) && Advances(topic)
    ensures Advances(r)
  {
    var d := AndR(Delimiters(), Alternative(data, "data-construct", AsData));
    var e := Alternative(enumeration, "enumeration-construct", AsEnumeration);
    var c := Alternative(choice, "choice-construct", AsChoice);
    var t := Alternative(topic, "topic-construct", AsTopic);
    AndRFrames(Delimiters(), Alternative(data, "data-construct", AsData));
    OrFrames(d, e);
    OrFrames(Or(d, e), c);
    OrFrames(Or(Or(d, e), c), t);
    AndLFrames(Or(Or(Or(d, e), c), t), OptionalDelimiters());
    AndL(Or(Or(Or(d, e), c), t), OptionalDelimiters())
  }

  /** A construct of the grammar. */
  function PConstruct(): (r: Parser<Construct>)
    ensures Advances(r)
  {
    ConstructOf(PData(), PEnumeration(), PChoice(), PTopic())
  }

  /** Zero or more constructs. */
  function PConstructs(): (r: Parser<seq<Construct>>)
    ensures Keeps(r)
  {
    ZeroOrMore(Padded(PConstruct()), Scalar)
  }

  function FileOf(x: (Package, seq<Import>, seq<Construct>)): File {
    File(x.0, x.1, x.2)
  }

  /** A package header, the imports and the constructs. The file parser may
      stop before the end of the input. */
  function PFile(): (r: Parser<File>)
    ensures Advances(r)
  {
    var p := PDelimited3(Delimiters(), PPackage(), PImports(), PConstructs());
    AdvancesKeeps(PPackage());
    PDelimited3Frames(Delimiters(), PPackage(), PImports(), PConstructs());
    MapFrames(p, FileOf);
    Map(p, FileOf)
  }

  // ---------------------------------------------------------------------
  // Duplicates

  /** The position of the first occurrence of `x` in `xs`. */
  function FirstIndex<T(==)>(xs: seq<T>, x: T): (i: nat)
    requires x in xs
    ensures i < |xs| && xs[i] == x && x !in xs[..i]
  {
    if xs[0] == x then 0
    else
      var j := FirstIndex(xs[1..], x);
      assert xs[..j + 1] == [xs[0]] + xs[1..][..j];
      1 + j
  }

  lemma {:induction false} FirstIndexIs<T>(xs: seq<T>, x: T, i: nat)
    requires i < |xs| && xs[i] == x && x !in xs[..i]
    ensures FirstIndex(xs, x) == i
  {
    if i > 0 {
      assert xs[0] in xs[..i];
      assert xs[1..][..i - 1] == xs[1..i];
      assert forall y :: y in xs[1..i] ==> y in xs[..i];
      FirstIndexIs(xs[1..], x, i - 1);
    }
  }

  /** The distinct elements of `xs`, in the order of their first occurrence. */
  function Distinct<T(==)>(xs: seq<T>): (d: seq<T>)
    ensures forall i :: 0 <= i < |d| ==> d[i] in xs
    ensures forall i :: 0 <= i < |xs| ==> xs[i] in d
    ensures forall i, j :: 0 <= i < j < |d| ==> FirstIndex(xs, d[i]) < FirstIndex(xs, d[j])
    decreases |xs|
  {
    if |xs| == 0 then []
    else
      var d := Distinct(xs[..|xs| - 1]);
      DistinctExtend(xs, d);
      if xs[|xs| - 1] in d then d else d + [xs[|xs| - 1]]
  }

  /** Adding the last element of `xs`, when it is new, to the distinct
      elements of the rest keeps them distinct and in first-occurrence
      order. */
  lemma DistinctExtend<T>(xs: seq<T>, d: seq<T>)
    requires |xs| > 0
    requires forall i :: 0 <= i < |d| ==> d[i] in xs[..|xs| - 1]
    requires forall i :: 0 <= i < |xs| - 1 ==> xs[i] in d
    requires forall i, j :: 0 <= i < j < |d| ==> FirstIndex(xs[..|xs| - 1], d[i]) < FirstIndex(xs[..|xs| - 1], d[j])
    ensures var e := if xs[|xs| - 1] in d then d else d + [xs[|xs| - 1]];
      && (forall i :: 0 <= i < |e| ==> e[i] in xs)
      && (forall i :: 0 <= i < |xs| ==> xs[i] in e)
      && (forall i, j :: 0 <= i < j < |e| ==> FirstIndex(xs, e[i]) < FirstIndex(xs, e[j]))
  {
    var init := xs[..|xs| - 1];
    var x := xs[|xs| - 1];
    assert xs == init + [x];
    DistinctStep(xs, d);
    var e := if x in d then d else d + [x];
    forall i | 0 <= i < |e| ensures e[i] in xs {
      if i < |d| {
        assert d[i] in init;
      }
    }
    forall i | 0 <= i < |xs| ensures xs[i] in e {
      if i < |xs| - 1 {
        assert xs[i] in d;
      }
    }
    forall i, j | 0 <= i < j < |e| ensures FirstIndex(xs, e[i]) < FirstIndex(xs, e[j]) {
      if j < |d| {
        assert FirstIndex(init, d[i]) < FirstIndex(init, d[j]);
      } else {
        assert e[i] == d[i] && e[j] == x;
        assert FirstIndex(xs, d[i]) == FirstIndex(init, d[i]);
      }
    }
  }

  /** An element of a prefix is first found within that prefix. */
  lemma FirstIndexPrefix<T>(xs: seq<T>, k: nat, x: T)
    requires k <= |xs| && x in xs[..k]
    ensures FirstIndex(xs, x) == FirstIndex(xs[..k], x)
  {
    var i := FirstIndex(xs[..k], x);
    assert xs[..k][..i] == xs[..i];
    FirstIndexIs(xs, x, i);
  }

  lemma DistinctStep<T>(xs: seq<T>, d: seq<T>)
    requires |xs| > 0
    requires forall i :: 0 <= i < |d| ==> d[i] in xs[..|xs| - 1]
    requires forall i :: 0 <= i < |xs| - 1 ==> xs[i] in d
    ensures forall i :: 0 <= i < |d| ==> FirstIndex(xs, d[i]) == FirstIndex(xs[..|xs| - 1], d[i])
    ensures xs[|xs| - 1] !in d ==> FirstIndex(xs, xs[|xs| - 1]) == |xs| - 1
  {
    forall i | 0 <= i < |d|
      ensures FirstIndex(xs, d[i]) == FirstIndex(xs[..|xs| - 1], d[i])
    {
      FirstIndexPrefix(xs, |xs| - 1, d[i]);
    }
    if xs[|xs| - 1] !in d {
      var init := xs[..|xs| - 1];
      assert forall k | 0 <= k < |init| :: init[k] != xs[|xs| - 1];
      FirstIndexIs(xs, xs[|xs| - 1], |xs| - 1);
    }
  }

  /** Each element of `d` that occurs more than once in `xs`, with its count,
      in the order of `d`. */
  function Repeats<T(==)>(xs: seq<T>, d: seq<T>): (r: seq<(T, nat)>)
    requires forall i :: 0 <= i < |d| ==> d[i] in xs
    requires forall i, j :: 0 <= i < j < |d| ==> FirstIndex(xs, d[i]) < FirstIndex(xs, d[j])
    ensures forall i :: 0 <= i < |r| ==> r[i].0 in d && r[i].1 == multiset(xs)[r[i].0] > 1
    ensures forall i :: 0 <= i < |d| && multiset(xs)[d[i]] > 1 ==> (d[i], multiset(xs)[d[i]]) in r
    ensures forall i, j :: 0 <= i < j < |r| ==> FirstIndex(xs, r[i].0) < FirstIndex(xs, r[j].0)
    decreases |d|
  {
    if |d| == 0 then []
    else
      var rest := Repeats(xs, d[1..]);
      var n := multiset(xs)[d[0]];
      if n > 1 then [(d[0], n)] + rest else rest
  }

  /** Each element occurring more than once in `xs`, with its count, in the
      order of first occurrence. */
  function FindDuplicates<T(==)>(xs: seq<T>): (r: seq<(T, nat)>)
    ensures forall i :: 0 <= i < |r| ==> r[i].1 == multiset(xs)[r[i].0] > 1
    ensures forall i :: 0 <= i < |xs| && multiset(xs)[xs[i]] > 1 ==> (xs[i], multiset(xs)[xs[i]]) in r
    ensures forall i, j :: 0 <= i < j < |r| ==> r[i].0 in xs && r[j].0 in xs && FirstIndex(xs, r[i].0) < FirstIndex(xs, r[j].0)
  {
    var d := Distinct(xs);
    var r := Repeats(xs, d);
    assert forall i :: 0 <= i < |xs| && multiset(xs)[xs[i]] > 1 ==> xs[i] in d;
    r
  }

  /** Two equal elements at different positions count at least twice. */
  lemma CountsTwice<T>(xs: seq<T>, i: nat, j: nat)
    requires i < j < |xs| && xs[i] == xs[j]
    ensures multiset(xs)[xs[i]] > 1
  {
    assert xs == xs[..j] + xs[j..];
    assert xs[..j][i] == xs[i];
    assert xs[j..][0] == xs[i];
  }

  /** Pairwise different elements count at most once. */
  lemma {:induction false} CountsOnce<T>(xs: seq<T>)
    requires AllDifferent(xs)
    ensures forall x :: multiset(xs)[x] <= 1
  {
    if |xs| > 0 {
      var init := xs[..|xs| - 1];
      CountsOnce(init);
      assert xs == init + [xs[|xs| - 1]];
      assert forall k | 0 <= k < |init| :: init[k] != xs[|xs| - 1];
      assert multiset(init)[xs[|xs| - 1]] == 0;
    }
  }

  predicate AllDifferent<T(==)>(xs: seq<T>) {
    forall i, j :: 0 <= i < j < |xs| ==> xs[i] != xs[j]
  }

  /** No element is reported exactly when the elements are pairwise different. */
  lemma NoDuplicates<T>(xs: seq<T>)
    ensures FindDuplicates(xs) == [] <==> AllDifferent(xs)
  {
    var r := FindDuplicates(xs);
    if AllDifferent(xs) {
      CountsOnce(xs);
      assert |r| > 0 ==> multiset(xs)[r[0].0] > 1;
    } else {
      var i, j :| 0 <= i < j < |xs| && xs[i] == xs[j];
      CountsTwice(xs, i, j);
      assert (xs[i], multiset(xs)[xs[i]]) in r;
    }
  }
}
