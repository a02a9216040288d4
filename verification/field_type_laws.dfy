/** Laws of the field-type grammar: which keyword wins, how deeply lists and
    maps nest, and what a nested type must look like. */
module FieldTypeLaws {
  import opened Core
  import opened CoreLaws
  import opened IdlTypes
  import opened IdlParser

  // ---------------------------------------------------------------------
  // Primitive keywords

  /** Input that starts with `str` has `str[p]` at offset `p`. */
  lemma StartsWithAt(s: State, str: string, p: nat)
    requires StartsWith(s, str) && p < |str|
    ensures s.pos + p < |s.input| && s.input[s.pos + p] == str[p]
  {
    assert s.input[s.pos..s.pos + |str|][p] == str[p];
  }

  /** The input does not start with a word whose `p`-th letter is not there. */
  lemma DiffersAt(s: State, str: string, p: nat)
    requires p < |str| && (s.pos + p >= |s.input| || s.input[s.pos + p] != str[p])
    ensures !StartsWith(s, str)
  {
    if s.pos + |str| <= |s.input| {
      assert s.input[s.pos..s.pos + |str|][p] == s.input[s.pos + p];
    }
  }

  /** Two different keywords differ in their first or their fourth letter. */
  lemma KeywordNamesDiffer(i: nat, j: nat)
    requires i < 8 && j < 8 && i != j
    ensures |KeywordNames[i]| >= 4 && |KeywordNames[j]| >= 4
    ensures KeywordNames[i][0] != KeywordNames[j][0] || KeywordNames[i][3] != KeywordNames[j][3]
  {
  }

  /** No keyword is a prefix of another, so at most one keyword starts the
      input and the order in which they are tried never decides the result. */
  lemma KeywordsExclusive(s: State, i: nat, j: nat)
    requires i < 8 && j < 8 && i != j && StartsWith(s, KeywordNames[i])
    ensures !StartsWith(s, KeywordNames[j])
  {
    KeywordNamesDiffer(i, j);
    StartsWithAt(s, KeywordNames[i], 0);
    StartsWithAt(s, KeywordNames[i], 3);
    if KeywordNames[i][0] != KeywordNames[j][0] {
      DiffersAt(s, KeywordNames[j], 0);
    } else {
      DiffersAt(s, KeywordNames[j], 3);
    }
  }

  /** A keyword parser succeeds exactly where its word starts the input, and
      then answers its type and moves past the word. */
  lemma KeywordCases(word: string, t: FieldType, s: State)
    requires |word| > 0 && s.pos <= |s.input|
    ensures Keyword(word, t).run(s).Success? <==> StartsWith(s, word)
    ensures StartsWith(s, word) ==> Keyword(word, t).run(s) == Success(t, Skip(s, |word|))
  {
    PStringSucceeds(word, s);
    MapToCases(PString(word), t, s);
  }

  /** Where the keyword `KeywordNames[i]` starts the input, a map key is that
      keyword's primitive type: every keyword tried before it fails. */
  lemma MapKeyTypeReads(s: State, i: nat)
    requires i < 8 && StartsWith(s, KeywordNames[i])
    ensures PMapKeyType().run(s) == Success(Primitives[i], Skip(s, |KeywordNames[i]|))
  {
    KeywordTable();
    var ps := Keywords();
    forall j | 0 <= j < i
      ensures ps[j].run(s).Failure?
    {
      KeywordsExclusive(s, i, j);
      KeywordCases(KeywordNames[j], Primitives[j], s);
    }
    KeywordCases(KeywordNames[i], Primitives[i], s);
    FirstSuccessIs(ps, s, i);
    OrAllFirstMatch(ps, s);
  }

  /** Where no keyword starts the input, a map key fails. */
  lemma MapKeyTypeRejects(s: State)
    requires s.pos <= |s.input|
    requires forall i :: 0 <= i < 8 ==> !StartsWith(s, KeywordNames[i])
    ensures PMapKeyType().run(s).Failure?
  {
    KeywordTable();
    var ps := Keywords();
    forall j | 0 <= j < 8
      ensures ps[j].run(s).Failure?
    {
      KeywordCases(KeywordNames[j], Primitives[j], s);
    }
    FirstSuccessIs(ps, s, 8);
    OrAllFirstMatch(ps, s);
  }

  /** A keyword wins over every other field type: where `KeywordNames[i]`
      starts the input, the field type is that primitive and only the keyword
      is read, even when more letters follow (`Stringy` reads as `String`). */
  lemma FieldTypeKeyword(level: nat, s: State, i: nat)
    requires i < 8 && StartsWith(s, KeywordNames[i])
    ensures PFieldType(level).run(s) == Success(Primitives[i], Skip(s, |KeywordNames[i]|))
  {
    MapKeyTypeReads(s, i);
    OrLeftBiased(PMapKeyType(), PList(level), s);
    OrLeftBiased(Or(PMapKeyType(), PList(level)), PMap(level), s);
    OrLeftBiased(Or(Or(PMapKeyType(), PList(level)), PMap(level)), PCustomType(), s);
  }

  // ---------------------------------------------------------------------
  // Where a value comes from

  /** `p` produces `v` from some cursor. */
  ghost predicate Yields<T>(p: Parser<T>, v: T) {
    exists t: State :: p.run(t).Success? && p.run(t).value == v
  }

  /** The value of `Map(p, f)` is `f` of the value of `p`: the converse
      reading of `CoreLaws.MapTransforms`, from the mapped success back to
      the inner one. */
  lemma MapFrom<T, R>(p: Parser<T>, f: T -> R, s: State)
    requires Map(p, f).run(s).Success?
    ensures p.run(s).Success? && Map(p, f).run(s).value == f(p.run(s).value)
  {
    MapTransforms(p, f, s);
  }

  /** The value of `AndL(p, q)` is the value of `p`. */
  lemma AndLFrom<T, U>(p: Parser<T>, q: Parser<U>, s: State)
    requires AndL(p, q).run(s).Success?
    ensures p.run(s).Success? && AndL(p, q).run(s).value == p.run(s).value
  {
    AndLCases(p, q, s);
  }

  /** The pair `FollowedBy(p, q)` produces is `p`'s value here and a value
      that `q` produces. */
  lemma FollowedByFrom<T, U>(p: Parser<T>, q: Parser<U>, s: State)
    requires FollowedBy(p, q).run(s).Success?
    ensures p.run(s).Success? && FollowedBy(p, q).run(s).value.0 == p.run(s).value
    ensures Yields(q, FollowedBy(p, q).run(s).value.1)
  {
    FollowedByCases(p, q, s);
    var t := p.run(s).state;
    assert q.run(t).Success? && q.run(t).value == FollowedBy(p, q).run(s).value.1;
  }

  /** The parts of `PDelimited2(d, a, b)`: `a`'s value here and a value `b`
      produces. */
  lemma Delimited2From<D, A, B>(d: Parser<D>, a: Parser<A>, b: Parser<B>, s: State)
    requires PDelimited2(d, a, b).run(s).Success?
    ensures a.run(s).Success? && PDelimited2(d, a, b).run(s).value.0 == a.run(s).value
    ensures Yields(b, PDelimited2(d, a, b).run(s).value.1)
  {
    var f := FollowedBy(AndL(a, d), b);
    MapFrom(f, (x: (A, B)) => (x.0, x.1), s);
    FollowedByFrom(AndL(a, d), b, s);
    AndLFrom(a, d, s);
  }

  /** The parts of `PDelimited3(d, a, b, c)`: `a`'s value here and values
      that `b` and `c` produce. */
  lemma Delimited3From<D, A, B, C>(d: Parser<D>, a: Parser<A>, b: Parser<B>, c: Parser<C>, s: State)
    requires PDelimited3(d, a, b, c).run(s).Success?
    ensures a.run(s).Success? && PDelimited3(d, a, b, c).run(s).value.0 == a.run(s).value
    ensures Yields(b, PDelimited3(d, a, b, c).run(s).value.1)
    ensures Yields(c, PDelimited3(d, a, b, c).run(s).value.2)
  {
    var two := PDelimited2(d, a, b);
    var f := FollowedBy(AndL(two, d), c);
    MapFrom(f, (x: ((A, B), C)) => (x.0.0, x.0.1, x.1), s);
    FollowedByFrom(AndL(two, d), c, s);
    AndLFrom(two, d, s);
    Delimited2From(d, a, b, s);
  }

  /** A success of four alternatives is the success of one of them. */
  lemma Or4From<T>(p: Parser<T>, q: Parser<T>, u: Parser<T>, w: Parser<T>, s: State)
    requires Or(Or(Or(p, q), u), w).run(s).Success?
    ensures var r := Or(Or(Or(p, q), u), w).run(s);
      || (p.run(s).Success? && r == p.run(s))
      || (q.run(s).Success? && r == q.run(s))
      || (u.run(s).Success? && r == u.run(s))
      || (w.run(s).Success? && r == w.run(s))
  {
  }

  // ---------------------------------------------------------------------
  // Nesting

  /** A map key is always one of the eight primitive types. */
  lemma MapKeyTypeFrom(s: State)
    requires PMapKeyType().run(s).Success?
    ensures PMapKeyType().run(s).value.IsPrimitive()
  {
    KeywordTable();
    var ps := Keywords();
    OrAllFirstMatch(ps, s);
    var i := FirstSuccess(ps, s);
    assert i < 8;
    MapToCases(PString(KeywordNames[i]), Primitives[i], s);
  }

  /** A custom type parser produces only custom types. */
  lemma CustomTypeFrom(s: State)
    requires PCustomType().run(s).Success?
    ensures PCustomType().run(s).value.CustomType?
  {
    MapFrom(PTypeIdentifier(), CustomOf, s);
  }

  /** From the third level of nesting on, `List<` is refused with the error
      "too many nested type specifiers" at the cursor. */
  lemma ListTooDeep(level: nat, s: State)
    requires level >= 2
    ensures PList(level).run(s) == Failure(SyntaxError(Just(TooDeep), s.line, s.col))
  {
  }

  /** From the third level of nesting on, `Map<` is refused likewise. */
  lemma MapTooDeep(level: nat, s: State)
    requires level >= 2
    ensures PMap(level).run(s) == Failure(SyntaxError(Just(TooDeep), s.line, s.col))
  {
  }

  /** A list type holds an element type read one level deeper. */
  lemma ListFrom(level: nat, s: State)
    requires level < 2 && PList(level).run(s).Success?
    ensures PList(level).run(s).value.ListOf?
    ensures Yields(PFieldType(level + 1), PList(level).run(s).value.valType)
  {
    var p := PDelimited3(Delimiters(), PString("List<"), PFieldType(level + 1), PString(">"));
    MapFrom(p, ListOfMiddle, s);
    Delimited3From(Delimiters(), PString("List<"), PFieldType(level + 1), PString(">"), s);
  }

  /** A key-value pair holds a map key and a value type one level deeper. */
  lemma KeyValuePairFrom(level: nat, s: State)
    requires PKeyValuePair(level).run(s).Success?
    ensures PKeyValuePair(level).run(s).value.0.IsPrimitive()
    ensures Yields(PFieldType(level + 1), PKeyValuePair(level).run(s).value.1)
  {
    var p := PDelimited3(Delimiters(), PMapKeyType(), PChar(','), PFieldType(level + 1));
    MapFrom(p, Ends, s);
    Delimited3From(Delimiters(), PMapKeyType(), PChar(','), PFieldType(level + 1), s);
    MapKeyTypeFrom(s);
  }

  /** A map type holds a primitive key and a value type one level deeper. */
  lemma MapTypeFrom(level: nat, s: State)
    requires level < 2 && PMap(level).run(s).Success?
    ensures PMap(level).run(s).value.MapOf? && PMap(level).run(s).value.keyType.IsPrimitive()
    ensures Yields(PFieldType(level + 1), PMap(level).run(s).value.valType)
  {
    var p := PDelimited3(Delimiters(), PString("Map<"), PKeyValuePair(level), PString(">"));
    MapFrom(p, MapOfMiddle, s);
    Delimited3From(Delimiters(), PString("Map<"), PKeyValuePair(level), PString(">"), s);
    var t :| PKeyValuePair(level).run(t).Success? && PKeyValuePair(level).run(t).value == p.run(s).value.1;
    KeyValuePairFrom(level, t);
  }

  /** `t` opens at most `room` more levels of lists and maps, and every map
      in it has a primitive key. */
  predicate Nested(t: FieldType, room: nat) {
    match t
    case ListOf(v) => room > 0 && Nested(v, room - 1)
    case MapOf(k, v) => room > 0 && k.IsPrimitive() && Nested(v, room - 1)
    case _ => true
  }

  /** A field type read at `level` is a primitive, a custom type, or (below
      two levels of nesting) a list or a map with a primitive key whose
      element or value type is read one level deeper. */
  lemma FieldTypeFrom(level: nat, s: State)
    requires PFieldType(level).run(s).Success?
    ensures var v := PFieldType(level).run(s).value;
      || v.IsPrimitive()
      || v.CustomType?
      || (level < 2 && v.ListOf? && Yields(PFieldType(level + 1), v.valType))
      || (level < 2 && v.MapOf? && v.keyType.IsPrimitive() && Yields(PFieldType(level + 1), v.valType))
  {
    var r := PFieldType(level).run(s);
    Or4From(PMapKeyType(), PList(level), PMap(level), PCustomType(), s);
    if level >= 2 {
      ListTooDeep(level, s);
      MapTooDeep(level, s);
    }
    if PMapKeyType().run(s).Success? && r == PMapKeyType().run(s) {
      MapKeyTypeFrom(s);
    } else if PList(level).run(s).Success? && r == PList(level).run(s) {
      ListFrom(level, s);
    } else if PMap(level).run(s).Success? && r == PMap(level).run(s) {
      MapTypeFrom(level, s);
    } else {
      CustomTypeFrom(s);
    }
  }

  /** What `FieldTypeFrom` says, for a family `ft` of field-type parsers
      indexed by level. */
  ghost predicate Shaped(ft: nat -> Parser<FieldType>, level: nat, s: State) {
    ft(level).run(s).Success? ==>
      var v := ft(level).run(s).value;
      || v.IsPrimitive()
      || v.CustomType?
      || (level < 2 && v.ListOf? && Yields(ft(level + 1), v.valType))
      || (level < 2 && v.MapOf? && v.keyType.IsPrimitive() && Yields(ft(level + 1), v.valType))
  }

  /** Induction on the room left: a family of parsers shaped like the
      field-type grammar only produces types that fit that room. */
  lemma {:induction false} ShapedNested(ft: nat -> Parser<FieldType>, level: nat, s: State)
    requires forall l: nat, t: State :: Shaped(ft, l, t)
    requires ft(level).run(s).Success?
    ensures Nested(ft(level).run(s).value, Room(level))
    decreases Room(level)
  {
    var v := ft(level).run(s).value;
    assert Shaped(ft, level, s);
    if level < 2 && (v.ListOf? || v.MapOf?) {
      var t :| ft(level + 1).run(t).Success? && ft(level + 1).run(t).value == v.valType;
      ShapedNested(ft, level + 1, t);
    }
  }

  /** Every field type read at `level` fits in the room left at that level:
      lists and maps nest at most two deep from a field, and map keys are
      primitives. */
  lemma FieldTypeNested(level: nat, s: State)
    requires PFieldType(level).run(s).Success?
    ensures Nested(PFieldType(level).run(s).value, Room(level))
  {
    var ft := (l: nat) => PFieldType(l);
    forall l: nat, t: State
      ensures Shaped(ft, l, t)
    {
      if PFieldType(l).run(t).Success? {
        FieldTypeFrom(l, t);
      }
    }
    ShapedNested(ft, level, s);
  }

  /** Room bounds depth. */
  lemma {:induction false} NestedDepth(t: FieldType, room: nat)
    requires Nested(t, room)
    ensures Depth(t) <= room
  {
    match t
    case ListOf(v) => NestedDepth(v, room - 1);
    case MapOf(k, v) => NestedDepth(v, room - 1);
    case _ =>
  }

  /** No field type nests lists or maps more than two deep: in particular
      `List<List<List<..>>>` is never the type of a field. */
  lemma FieldTypeDepth(s: State)
    requires PFieldType(0).run(s).Success?
    ensures Depth(PFieldType(0).run(s).value) <= 2
  {
    FieldTypeNested(0, s);
    NestedDepth(PFieldType(0).run(s).value, 2);
  }
}
