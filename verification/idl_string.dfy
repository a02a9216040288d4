/** The quoted-string lexer of the IDL: a double quote, then characters that
    are plain, two-character escapes or `\uXXXX` escapes, then a double quote.
    The escape set is that of section 7 of RFC 8259. */
module IdlString {
  import opened Core
  import opened CoreLaws

  // ---------------------------------------------------------------------
  // Plain characters

  /** Any character but a backslash or a double quote stands for itself. */
  predicate IsUnescaped(c: char) {
    c != '\\' && c != '"'
  }

  function JUnescapedChar(): (r: Parser<char>)
    ensures r.name == Just("char")
    ensures Advances(r)
  {
    Satisfy("char", IsUnescaped)
  }

  // ---------------------------------------------------------------------
  // Two-character escapes

  /** Escapes and the characters they stand for, tried in order. */
  type EscapeTable = seq<(string, char)>

  /** Every escape is a backslash and one more character. */
  predicate WellFormed(table: EscapeTable) {
    |table| > 0 && forall i :: 0 <= i < |table| ==> |table[i].0| == 2 && table[i].0[0] == '\\'
  }

  const Backspace: char := '\U{8}'
  const FormFeed: char := '\U{C}'

  /** The escapes as the lexer lists them: `\f` stands for the letter `f`. */
  const WrittenEscapes: EscapeTable := [
    ("\\\"", '"'), ("\\\\", '\\'), ("\\/", '/'), ("\\b", Backspace),
    ("\\f", 'f'), ("\\n", '\n'), ("\\r", '\r'), ("\\t", '\t')]

  /** The same escapes with `\f` standing for form feed. */
  const Escapes: EscapeTable := [
    ("\\\"", '"'), ("\\\\", '\\'), ("\\/", '/'), ("\\b", Backspace),
    ("\\f", FormFeed), ("\\n", '\n'), ("\\r", '\r'), ("\\t", '\t')]

  /** One parser per escape: the escape's text, answering its character. */
  function EscapeParsers(table: EscapeTable): (ps: seq<Parser<char>>)
    requires WellFormed(table)
    ensures |ps| == |table|
    ensures forall i :: 0 <= i < |table| ==> ps[i] == MapTo(PString(table[i].0), table[i].1)
  {
    seq(|table|, i requires 0 <= i < |table| => MapTo(PString(table[i].0), table[i].1))
  }

  lemma EscapeParsersAdvance(table: EscapeTable)
    requires WellFormed(table)
    ensures forall i :: 0 <= i < |table| ==> Advances(EscapeParsers(table)[i])
  {
    forall i | 0 <= i < |table|
      ensures Advances(EscapeParsers(table)[i])
    {
      MapToFrames(PString(table[i].0), table[i].1);
    }
  }

  /** The first escape of `table` that matches, under the label "escaped-char". */
  function EscapedChar(table: EscapeTable): (r: Parser<char>)
    requires WellFormed(table)
    ensures r.name == Just("escaped-char")
    ensures Advances(r)
  {
    EscapeParsersAdvance(table);
    ChoiceFrames(EscapeParsers(table));
    LabelFrames(Choice(EscapeParsers(table)), "escaped-char");
    Label(Choice(EscapeParsers(table)), "escaped-char")
  }

  /** The escaped-character lexer as written. */
  function JEscapedCharAsWritten(): (r: Parser<char>)
    ensures r.name == Just("escaped-char")
    ensures Advances(r)
  {
    TablesAgree();
    EscapedChar(WrittenEscapes)
  }

  /** The escaped-character lexer with `\f` decoding to form feed. */
  function JEscapedChar(): (r: Parser<char>)
    ensures r.name == Just("escaped-char")
    ensures Advances(r)
  {
    TablesAgree();
    EscapedChar(Escapes)
  }

  /** The input at `s` starts with a backslash and one more character. */
  predicate EscapeAt(s: State) {
    s.pos + 2 <= |s.input| && s.input[s.pos] == '\\'
  }

  /** The index of the first escape in `table`, from `k` on, whose second
      character is `c`; `|table|` when there is none. */
  function EscapeIndex(table: EscapeTable, c: char, k: nat): (i: nat)
    requires WellFormed(table) && k <= |table|
    ensures k <= i <= |table|
    ensures forall j :: k <= j < i ==> table[j].0[1] != c
    ensures i < |table| ==> table[i].0[1] == c
    decreases |table| - k
  {
    if k == |table| then k
    else if table[k].0[1] == c then k
    else EscapeIndex(table, c, k + 1)
  }

  /** With a backslash first, a two-character key is at the cursor exactly
      when the next character is its second one. */
  lemma TwoCharKey(s: State, key: string)
    requires |key| == 2 && key[0] == '\\' && s.pos <= |s.input|
    ensures StartsWith(s, key) <==> EscapeAt(s) && s.input[s.pos + 1] == key[1]
  {
    assert key == [key[0], key[1]];
    if s.pos + 2 <= |s.input| {
      assert s.input[s.pos..s.pos + 2] == [s.input[s.pos], s.input[s.pos + 1]];
    }
  }

  /** One escape's parser succeeds exactly when the input starts with a
      backslash and that escape's second character. */
  lemma EscapeEntryCases(table: EscapeTable, j: nat, s: State)
    requires WellFormed(table) && j < |table| && s.pos <= |s.input|
    ensures EscapeParsers(table)[j].run(s).Success? <==> EscapeAt(s) && s.input[s.pos + 1] == table[j].0[1]
    ensures EscapeParsers(table)[j].run(s).Success? ==>
      EscapeParsers(table)[j].run(s) == Success(table[j].1, Skip(s, 2))
  {
    var key := table[j].0;
    PStringSucceeds(key, s);
    MapToCases(PString(key), table[j].1, s);
    TwoCharKey(s, key);
  }

  /** The first escape parser to succeed is the first entry whose second
      character follows the backslash; none succeeds without a backslash. */
  lemma EscapeFirstSuccess(table: EscapeTable, s: State)
    requires WellFormed(table) && s.pos <= |s.input|
    ensures EscapeAt(s) ==> FirstSuccess(EscapeParsers(table), s) == EscapeIndex(table, s.input[s.pos + 1], 0)
    ensures !EscapeAt(s) ==> FirstSuccess(EscapeParsers(table), s) == |table|
  {
    var ps := EscapeParsers(table);
    var l := if EscapeAt(s) then EscapeIndex(table, s.input[s.pos + 1], 0) else |table|;
    forall j | 0 <= j < |table|
      ensures ps[j].run(s).Success? <==> EscapeAt(s) && s.input[s.pos + 1] == table[j].0[1]
    {
      EscapeEntryCases(table, j, s);
    }
    FirstSuccessIs(ps, s, l);
  }

  /** An escape lexer answers the character of the first escape that matches
      the backslash and the character after it, and otherwise fails under the
      label "escaped-char". */
  lemma EscapedCharReads(table: EscapeTable, s: State)
    requires WellFormed(table) && s.pos <= |s.input|
    ensures var r := EscapedChar(table).run(s);
      if EscapeAt(s) && EscapeIndex(table, s.input[s.pos + 1], 0) < |table|
      then r == Success(table[EscapeIndex(table, s.input[s.pos + 1], 0)].1, Skip(s, 2))
      else r.Failure? && r.error.name == Just("escaped-char")
  {
    var ps := EscapeParsers(table);
    EscapeFirstSuccess(table, s);
    ChoiceFirstMatch(ps, s);
    LabelRelabels(Choice(ps), "escaped-char", s);
    var i := FirstSuccess(ps, s);
    if i < |table| {
      EscapeEntryCases(table, i, s);
    }
  }

  /** The characters that section 7 of RFC 8259 writes as a backslash and a
      letter or symbol, and the letter or symbol for each. */
  function EscapeOf(c: char): (e: Maybe<char>)
  {
    match c
    case '"' => Just('"')
    case '\\' => Just('\\')
    case '/' => Just('/')
    case '\U{8}' => Just('b')
    case '\U{C}' => Just('f')
    case '\n' => Just('n')
    case '\r' => Just('r')
    case '\t' => Just('t')
    case _ => None
  }

  /** Different characters have different escapes. */
  lemma EscapeOfInjective(a: char, b: char)
    requires EscapeOf(a).Just? && EscapeOf(a) == EscapeOf(b)
    ensures a == b
  {
  }

  /** The letters after the backslash, in the order of the tables. */
  const EscapeLetters := "\"\\/bfnrt"

  /** Both tables are well formed, list the escape letters in order and
      differ only in what `\f` stands for; the corrected table sends each
      escape to the character that the escape encodes. */
  lemma TablesAgree()
    ensures WellFormed(Escapes) && WellFormed(WrittenEscapes)
    ensures |Escapes| == |WrittenEscapes| == |EscapeLetters| == 8
    ensures forall k :: 0 <= k < 8 ==> Escapes[k].0[1] == WrittenEscapes[k].0[1] == EscapeLetters[k]
    ensures forall k :: 0 <= k < 8 && k != 4 ==> Escapes[k].1 == WrittenEscapes[k].1
    ensures forall k :: 0 <= k < 8 ==> EscapeOf(Escapes[k].1) == Just(EscapeLetters[k])
    ensures WrittenEscapes[4].1 == 'f' && EscapeLetters[4] == 'f'
  {
  }

  /** In a table that lists the escape letters in order, a character has an
      entry exactly when it is an escape letter, and the entry found is the
      one at that letter's place. */
  lemma LetterIndex(table: EscapeTable, c: char)
    requires WellFormed(table) && |table| == |EscapeLetters|
    requires forall k :: 0 <= k < |table| ==> table[k].0[1] == EscapeLetters[k]
    ensures var i := EscapeIndex(table, c, 0);
      && (i < |table| <==> c in EscapeLetters)
      && (i < |table| ==> EscapeLetters[i] == c)
  {
  }

  /** The corrected table decodes each short escape to the character it
      encodes. */
  lemma EscapesCover(c: char)
    requires EscapeOf(c).Just?
    ensures var i := EscapeIndex(Escapes, EscapeOf(c).value, 0);
      i < |Escapes| && Escapes[i].1 == c
  {
    TablesAgree();
    var l := EscapeOf(c).value;
    assert l in EscapeLetters;
    LetterIndex(Escapes, l);
    var i := EscapeIndex(Escapes, l, 0);
    EscapeOfInjective(c, Escapes[i].1);
  }

  /** The two characters at `s` are those of `key`. */
  lemma StartsWithTwo(s: State, key: string)
    requires |key| == 2 && StartsWith(s, key)
    ensures EscapeAt(s) == (key[0] == '\\') && s.input[s.pos + 1] == key[1]
  {
    assert s.input[s.pos..s.pos + 2][0] == s.input[s.pos];
    assert s.input[s.pos..s.pos + 2][1] == s.input[s.pos + 1];
  }

  /** Round trip: a character written as its short escape is read back as
      itself. */
  lemma JEscapedCharRoundTrip(c: char, s: State)
    requires EscapeOf(c).Just? && s.pos <= |s.input|
    requires StartsWith(s, ['\\', EscapeOf(c).value])
    ensures JEscapedChar().run(s) == Success(c, Skip(s, 2))
  {
    var l := EscapeOf(c).value;
    TablesAgree();
    StartsWithTwo(s, ['\\', l]);
    EscapesCover(c);
    EscapedCharDecodes(Escapes, s, EscapeIndex(Escapes, l, 0), c);
  }

  /** An escape lexer reads a backslash and a letter that has an entry as
      that entry's character. */
  lemma EscapedCharDecodes(table: EscapeTable, s: State, i: nat, c: char)
    requires WellFormed(table) && s.pos <= |s.input| && EscapeAt(s)
    requires i == EscapeIndex(table, s.input[s.pos + 1], 0) && i < |table| && table[i].1 == c
    ensures EscapedChar(table).run(s) == Success(c, Skip(s, 2))
  {
    EscapedCharReads(table, s);
  }

  /** A backslash followed by a character that is not one of the eight
      escape letters is not an escape. */
  lemma JEscapedCharRejects(s: State)
    requires s.pos <= |s.input|
    requires EscapeAt(s) ==> s.input[s.pos + 1] !in EscapeLetters
    ensures JEscapedChar().run(s).Failure? && JEscapedChar().run(s).error.name == Just("escaped-char")
    ensures JEscapedCharAsWritten().run(s).Failure? && JEscapedCharAsWritten().run(s).error.name == Just("escaped-char")
  {
    TablesAgree();
    if EscapeAt(s) {
      LetterIndex(Escapes, s.input[s.pos + 1]);
      LetterIndex(WrittenEscapes, s.input[s.pos + 1]);
    }
    EscapedCharReads(Escapes, s);
    EscapedCharReads(WrittenEscapes, s);
  }

  /** As written, the escape `\f` is read as the letter `f`, so a form feed
      written as its escape does not come back. */
  lemma WrittenFormFeedIsLetter(s: State)
    requires s.pos <= |s.input| && StartsWith(s, "\\f")
    ensures JEscapedCharAsWritten().run(s) == Success('f', Skip(s, 2))
    ensures EscapeOf(FormFeed) == Just('f') && 'f' != FormFeed
  {
    FormFeedEscape();
    WrittenEscapeF();
    StartsWithTwo(s, "\\f");
    EscapedCharReads(WrittenEscapes, s);
  }

  /** Form feed is written `\f`. */
  lemma FormFeedEscape()
    ensures EscapeOf(FormFeed) == Just('f')
  {
    assert FormFeed == '\U{C}';
    assert EscapeOf('\U{C}') == Just('f');
  }

  /** In the table as written, the escape letter `f` finds the letter `f`. */
  lemma WrittenEscapeF()
    ensures WellFormed(WrittenEscapes)
    ensures EscapeIndex(WrittenEscapes, 'f', 0) == 4 && WrittenEscapes[4].1 == 'f'
  {
    TablesAgree();
    LetterIndex(WrittenEscapes, 'f');
  }

  // ---------------------------------------------------------------------
  // Unicode escapes

  const HexDigits := "0123456789ABCDEFabcdef"

  function HexDigitValue(c: char): (d: nat)
    ensures d < 16
  {
    if '0' <= c <= '9' then (c as int - '0' as int) as nat
    else if 'A' <= c <= 'F' then (c as int - 'A' as int + 10) as nat
    else if 'a' <= c <= 'f' then (c as int - 'a' as int + 10) as nat
    else 0
  }

  /** The base-16 value of a string of hex digits, read left to right. */
  function HexValue(ds: string): (n: nat)
    ensures n < Power16(|ds|)
    decreases |ds|
  {
    if |ds| == 0 then 0 else 16 * HexValue(ds[..|ds| - 1]) + HexDigitValue(ds[|ds| - 1])
  }

  function Power16(k: nat): (p: nat)
    ensures p > 0
  {
    if k == 0 then 1 else 16 * Power16(k - 1)
  }

  /** The character for a UTF-16 code unit. A Dafny character is a Unicode
      scalar value, so the surrogate code units D800-DFFF, which only make
      sense in pairs, become the replacement character U+FFFD. */
  function CodeUnit(n: nat): (c: char)
    requires n < 0x1_0000
    ensures !(0xD800 <= n < 0xE000) ==> c as int == n
  {
    if 0xD800 <= n < 0xE000 then '\U{FFFD}' else n as char
  }

  /** The character that hex digits spell, keeping the low 16 bits of their
      value as a conversion from a 32-bit integer to a 16-bit character does. */
  function HexChar(ds: string): char {
    CodeUnit(HexValue(ds) % 0x1_0000)
  }

  /** The parser of one hex digit. */
  function HexDigit(): (r: Parser<char>)
    ensures Advances(r)
  {
    AnyOfRecognizes(HexDigits);
    RecognizesAdvances(PAnyOf(HexDigits), c => c in HexDigits);
    PAnyOf(HexDigits)
  }

  /** `h` reads a hex digit as itself (the lemmas below take the hex digit
      parser as a parameter with this property). */
  ghost predicate ReadsHex(h: Parser<char>) {
    forall t: State :: !t.Eof() && t.Char() in HexDigits ==> h.run(t) == Success(t.Char(), t.Next())
  }

  lemma HexDigitReadsHex()
    ensures ReadsHex(HexDigit())
  {
    AnyOfRecognizes(HexDigits);
  }

  /** A backslash, `u` and the first hex digit, keeping the digit. */
  function UnicodeIntro(h: Parser<char>): Parser<char> {
    AndR(AndR(PChar('\\'), PChar('u')), h)
  }

  /** The introduction and three more hex digits: the four digits in order. */
  function UnicodeDigits(h: Parser<char>): Parser<seq<char>> {
    And(And(And(UnicodeIntro(h), h, Scalar, Scalar), h, Spliced, Scalar), h, Spliced, Scalar)
  }

  lemma UnicodeDigitsFrames(h: Parser<char>)
    requires Advances(h)
    ensures Advances(UnicodeDigits(h))
  {
    var two := And(UnicodeIntro(h), h, Scalar, Scalar);
    var three := And(two, h, Spliced, Scalar);
    AdvancesKeeps(h);
    AndRFrames(PChar('\\'), PChar('u'));
    AndRFrames(AndR(PChar('\\'), PChar('u')), h);
    AndFrames(UnicodeIntro(h), h, Scalar, Scalar);
    AndFrames(two, h, Spliced, Scalar);
    AndFrames(three, h, Spliced, Scalar);
  }

  /** A backslash, `u` and four hex digits, as the code unit they spell. */
  function JUnicodeChar(): (r: Parser<char>)
    ensures r.name == None
    ensures Advances(r)
  {
    UnicodeDigitsFrames(HexDigit());
    MapFrames(UnicodeDigits(HexDigit()), HexChar);
    Map(UnicodeDigits(HexDigit()), HexChar)
  }

  /** The input at `s` is a backslash, `u` and four hex digits. */
  predicate UnicodeAt(s: State) {
    && s.pos + 6 <= |s.input| && s.input[s.pos] == '\\' && s.input[s.pos + 1] == 'u'
    && s.input[s.pos + 2] in HexDigits && s.input[s.pos + 3] in HexDigits
    && s.input[s.pos + 4] in HexDigits && s.input[s.pos + 5] in HexDigits
  }

  lemma UnicodeIntroReads(h: Parser<char>, s: State)
    requires ReadsHex(h)
    requires s.pos + 3 <= |s.input| && s.input[s.pos] == '\\' && s.input[s.pos + 1] == 'u'
    requires s.input[s.pos + 2] in HexDigits
    ensures UnicodeIntro(h).run(s) == Success(s.input[s.pos + 2], Skip(s, 3))
  {
    var s1 := s.Next();
    var s2 := s1.Next();
    assert s2.input == s.input && s2.pos == s.pos + 2;
    PCharCases('\\', s);
    PCharCases('u', s1);
    AndRCases(PChar('\\'), PChar('u'), s);
    AndRCases(AndR(PChar('\\'), PChar('u')), h, s);
    assert Skip(s, 1) == s1;
    assert Skip(s, 2) == s2;
  }

  /** One more hex digit appended to the digits `v` read so far. */
  lemma UnicodeDigitStep<T>(p: Parser<T>, h: Parser<char>, view: T -> Piece<char>, s: State, a: T, v: seq<char>, t: State)
    requires ReadsHex(h)
    requires p.run(s) == Success(a, t) && Flatten(view(a)) == v
    requires !t.Eof() && t.Char() in HexDigits
    ensures And(p, h, view, Scalar).run(s) == Success(v + [t.Char()], t.Next())
  {
    AndConcatenates(p, h, view, Scalar, s);
  }

  lemma UnicodeTwoReads(h: Parser<char>, s: State)
    requires ReadsHex(h) && UnicodeAt(s)
    ensures And(UnicodeIntro(h), h, Scalar, Scalar).run(s)
      == Success([s.input[s.pos + 2]] + [s.input[s.pos + 3]], Skip(s, 4))
  {
    var t := Skip(s, 3);
    assert t.input == s.input && t.pos == s.pos + 3;
    assert t.Char() == s.input[s.pos + 3];
    assert Skip(s, 4) == t.Next();
    UnicodeIntroReads(h, s);
    UnicodeDigitStep(UnicodeIntro(h), h, Scalar, s, s.input[s.pos + 2], [s.input[s.pos + 2]], t);
  }

  lemma UnicodeThreeReads(h: Parser<char>, s: State)
    requires ReadsHex(h) && UnicodeAt(s)
    ensures And(And(UnicodeIntro(h), h, Scalar, Scalar), h, Spliced, Scalar).run(s)
      == Success([s.input[s.pos + 2]] + [s.input[s.pos + 3]] + [s.input[s.pos + 4]], Skip(s, 5))
  {
    var t := Skip(s, 4);
    var v := [s.input[s.pos + 2]] + [s.input[s.pos + 3]];
    assert t.input == s.input && t.pos == s.pos + 4;
    assert t.Char() == s.input[s.pos + 4];
    assert Skip(s, 5) == t.Next();
    UnicodeTwoReads(h, s);
    UnicodeDigitStep(And(UnicodeIntro(h), h, Scalar, Scalar), h, Spliced, s, v, v, t);
  }

  lemma UnicodeFourReads(h: Parser<char>, s: State)
    requires ReadsHex(h) && UnicodeAt(s)
    ensures UnicodeDigits(h).run(s)
      == Success([s.input[s.pos + 2]] + [s.input[s.pos + 3]] + [s.input[s.pos + 4]] + [s.input[s.pos + 5]], Skip(s, 6))
  {
    var t := Skip(s, 5);
    var v := [s.input[s.pos + 2]] + [s.input[s.pos + 3]] + [s.input[s.pos + 4]];
    assert t.input == s.input && t.pos == s.pos + 5;
    assert t.Char() == s.input[s.pos + 5];
    assert Skip(s, 6) == t.Next();
    UnicodeThreeReads(h, s);
    UnicodeDigitStep(And(And(UnicodeIntro(h), h, Scalar, Scalar), h, Spliced, Scalar), h, Spliced, s, v, v, t);
  }

  lemma SliceFour(s: State)
    requires s.pos + 6 <= |s.input|
    ensures s.input[s.pos + 2..s.pos + 6] == [s.input[s.pos + 2]] + [s.input[s.pos + 3]] + [s.input[s.pos + 4]] + [s.input[s.pos + 5]]
  {
  }

  /** `\uXXXX` is read as the code unit with the hex value XXXX. */
  lemma JUnicodeCharReads(s: State)
    requires UnicodeAt(s)
    ensures JUnicodeChar().run(s) == Success(HexChar(s.input[s.pos + 2..s.pos + 6]), Skip(s, 6))
  {
    HexDigitReadsHex();
    UnicodeFourReads(HexDigit(), s);
    SliceFour(s);
    MapTransforms(UnicodeDigits(HexDigit()), HexChar, s);
  }

  /** Four upper-case hex digits spelling a 16-bit value, most significant
      first. */
  function Hex4(n: nat): (ds: string)
    requires n < 0x1_0000
    ensures |ds| == 4 && forall i :: 0 <= i < 4 ==> ds[i] in HexDigits
  {
    var q1 := n / 16;
    var q2 := q1 / 16;
    [HexDigits[q2 / 16], HexDigits[q2 % 16], HexDigits[q1 % 16], HexDigits[n % 16]]
  }

  lemma HexDigitValueOf(d: nat)
    requires d < 16
    ensures HexDigitValue(HexDigits[d]) == d
  {
    if d < 10 {
      assert HexDigits[d] as int == '0' as int + d by {
        if d == 0 {} else if d == 1 {} else if d == 2 {} else if d == 3 {} else if d == 4 {}
        else if d == 5 {} else if d == 6 {} else if d == 7 {} else if d == 8 {} else {}
      }
    } else {
      assert HexDigits[d] as int == 'A' as int + d - 10 by {
        if d == 10 {} else if d == 11 {} else if d == 12 {} else if d == 13 {} else if d == 14 {} else {}
      }
    }
  }

  /** The value of four hex digits, digit by digit. */
  lemma HexValueFour(ds: string)
    requires |ds| == 4
    ensures HexValue(ds) == ((HexDigitValue(ds[0]) * 16 + HexDigitValue(ds[1])) * 16 + HexDigitValue(ds[2])) * 16 + HexDigitValue(ds[3])
  {
    var three, two, one := ds[..3], ds[..2], ds[..1];
    assert three[..2] == two && three[2] == ds[2];
    assert two[..1] == one && two[1] == ds[1];
    assert one[..0] == [] && one[0] == ds[0];
    assert HexValue(one) == HexDigitValue(ds[0]);
    assert HexValue(two) == 16 * HexValue(one) + HexDigitValue(ds[1]);
    assert HexValue(three) == 16 * HexValue(two) + HexDigitValue(ds[2]);
  }

  /** The digits of `n` in base 16 put back together. */
  lemma HexDigitsRebuild(n: nat)
    requires n < 0x1_0000
    ensures var q1 := n / 16; var q2 := q1 / 16;
      ((q2 / 16 * 16 + q2 % 16) * 16 + q1 % 16) * 16 + n % 16 == n
  {
    var q1 := n / 16;
    var q2 := q1 / 16;
    assert n == 16 * q1 + n % 16;
    assert q1 == 16 * q2 + q1 % 16;
    assert q2 == 16 * (q2 / 16) + q2 % 16;
  }

  /** Reading back four hex digits gives the value they were written from. */
  lemma Hex4RoundTrip(n: nat)
    requires n < 0x1_0000
    ensures HexValue(Hex4(n)) == n
  {
    var q1 := n / 16;
    var q2 := q1 / 16;
    var ds := Hex4(n);
    HexValueFour(ds);
    HexDigitValueOf(q2 / 16);
    HexDigitValueOf(q2 % 16);
    HexDigitValueOf(q1 % 16);
    HexDigitValueOf(n % 16);
    HexDigitsRebuild(n);
  }

  /** The input starts with a backslash, `u` and the four characters `ds`. */
  lemma StartsWithUnicode(s: State, ds: string)
    requires |ds| == 4 && StartsWith(s, "\\u" + ds)
    ensures s.pos + 6 <= |s.input| && s.input[s.pos] == '\\' && s.input[s.pos + 1] == 'u'
    ensures s.input[s.pos + 2] == ds[0] && s.input[s.pos + 3] == ds[1]
    ensures s.input[s.pos + 4] == ds[2] && s.input[s.pos + 5] == ds[3]
    ensures s.input[s.pos + 2..s.pos + 6] == ds
  {
    var w := "\\u" + ds;
    assert s.input[s.pos..s.pos + 6] == w;
    assert s.input[s.pos] == w[0] && s.input[s.pos + 1] == w[1];
    assert s.input[s.pos + 2] == w[2] && s.input[s.pos + 3] == w[3];
    assert s.input[s.pos + 4] == w[4] && s.input[s.pos + 5] == w[5];
  }

  /** Round trip: `\u` followed by the four hex digits of a code unit that is
      not a surrogate is read as that character. */
  lemma JUnicodeCharRoundTrip(n: nat, s: State)
    requires n < 0x1_0000 && !(0xD800 <= n < 0xE000)
    requires StartsWith(s, "\\u" + Hex4(n))
    ensures JUnicodeChar().run(s) == Success(n as char, Skip(s, 6))
  {
    var ds := Hex4(n);
    StartsWithUnicode(s, ds);
    assert UnicodeAt(s);
    JUnicodeCharReads(s);
    HexCharOf(n);
  }

  /** The four hex digits of a code unit that is not a surrogate spell that
      character. */
  lemma HexCharOf(n: nat)
    requires n < 0x1_0000 && !(0xD800 <= n < 0xE000)
    ensures HexChar(Hex4(n)) == n as char
  {
    Hex4RoundTrip(n);
    HexCharIs(Hex4(n), n);
  }

  lemma HexCharIs(ds: string, n: nat)
    requires HexValue(ds) == n && n < 0x1_0000 && !(0xD800 <= n < 0xE000)
    ensures HexChar(ds) == n as char
  {
  }

  /** Without a backslash and `u` there is no unicode escape. */
  lemma UnicodeNeedsIntro(h: Parser<char>, s: State)
    requires !(s.pos + 2 <= |s.input| && s.input[s.pos] == '\\' && s.input[s.pos + 1] == 'u')
    ensures UnicodeDigits(h).run(s).Failure?
  {
    var two := And(UnicodeIntro(h), h, Scalar, Scalar);
    var three := And(two, h, Spliced, Scalar);
    UnicodeIntroFails(h, s);
    AndFailsLeft(UnicodeIntro(h), h, Scalar, Scalar, s);
    AndFailsLeft(two, h, Spliced, Scalar, s);
    AndFailsLeft(three, h, Spliced, Scalar, s);
  }

  lemma UnicodeIntroFails(h: Parser<char>, s: State)
    requires !(s.pos + 2 <= |s.input| && s.input[s.pos] == '\\' && s.input[s.pos + 1] == 'u')
    ensures UnicodeIntro(h).run(s).Failure?
  {
    PCharCases('\\', s);
    if !s.Eof() {
      PCharCases('u', s.Next());
    }
    AndRCases(PChar('\\'), PChar('u'), s);
    AndRCases(AndR(PChar('\\'), PChar('u')), h, s);
  }

  lemma JUnicodeCharNeedsIntro(s: State)
    requires !(s.pos + 2 <= |s.input| && s.input[s.pos] == '\\' && s.input[s.pos + 1] == 'u')
    ensures JUnicodeChar().run(s).Failure?
  {
    UnicodeNeedsIntro(HexDigit(), s);
    MapTransforms(UnicodeDigits(HexDigit()), HexChar, s);
  }

  // ---------------------------------------------------------------------
  // Quoted strings

  /** One character of a string body: plain, a two-character escape read by
      `escapes`, or a unicode escape, tried in that order. */
  function CharOf(escapes: Parser<char>): (r: Parser<char>)
    requires Advances(escapes)
    ensures Advances(r)
  {
    OrFrames(JUnescapedChar(), escapes);
    OrFrames(Or(JUnescapedChar(), escapes), JUnicodeChar());
    Or(Or(JUnescapedChar(), escapes), JUnicodeChar())
  }

  /** One character of a string body as the lexer writes it: `\f` is the
      letter `f`. */
  function JChar(): (r: Parser<char>)
    ensures Advances(r)
  {
    CharOf(JEscapedCharAsWritten())
  }

  /** One character of a string body with `\f` read as form feed. */
  function IntendedJChar(): (r: Parser<char>)
    ensures Advances(r)
  {
    CharOf(JEscapedChar())
  }

  function Quote(): (r: Parser<char>)
    ensures r.name == Just("quote")
  {
    Label(PChar('"'), "quote")
  }

  /** A double quote, the characters of the body read by `jc` and a closing
      double quote. */
  function QuotedOf(jc: Parser<char>): Parser<string>
    requires Advances(jc)
  {
    Map(AndL(AndR(Quote(), ZeroOrMore(jc, Scalar)), Quote()), Join)
  }

  /** A double quote, the characters of the body and a closing double quote;
      the value is the decoded body. */
  function QuotedString(): Parser<string> {
    QuotedOf(JChar())
  }

  /** The quoted string with `\f` read as form feed. */
  function IntendedQuotedString(): Parser<string> {
    QuotedOf(IntendedJChar())
  }

  /** A plain character stands for itself. */
  lemma JCharPlain(s: State)
    requires !s.Eof() && IsUnescaped(s.Char())
    ensures JChar().run(s) == Success(s.Char(), s.Next())
  {
    SatisfyCases("char", IsUnescaped, s);
    OrLeftBiased(JUnescapedChar(), JEscapedCharAsWritten(), s);
    OrLeftBiased(Or(JUnescapedChar(), JEscapedCharAsWritten()), JUnicodeChar(), s);
  }

  /** At a backslash and a letter the table lists, a body character is the
      character the table gives that letter. */
  lemma CharOfEscaped(table: EscapeTable, n: State)
    requires WellFormed(table) && EscapeAt(n)
    requires EscapeIndex(table, n.input[n.pos + 1], 0) < |table|
    ensures CharOf(EscapedChar(table)).run(n)
      == Success(table[EscapeIndex(table, n.input[n.pos + 1], 0)].1, Skip(n, 2))
  {
    EscapedCharReads(table, n);
    SatisfyCases("char", IsUnescaped, n);
    OrFallsBack(JUnescapedChar(), EscapedChar(table), n);
    OrLeftBiased(Or(JUnescapedChar(), EscapedChar(table)), JUnicodeChar(), n);
  }

  /** No character of a string body is read at the end of the input, at a
      double quote, or at a backslash followed by a letter that starts no
      escape. */
  lemma JCharFails(s: State)
    requires s.pos <= |s.input|
    requires || s.Eof()
             || s.Char() == '"'
             || (s.Char() == '\\' && s.pos + 1 < |s.input|
                 && s.input[s.pos + 1] !in EscapeLetters && s.input[s.pos + 1] != 'u')
    ensures JChar().run(s).Failure? && IntendedJChar().run(s).Failure?
  {
    SatisfyCases("char", IsUnescaped, s);
    JEscapedCharRejects(s);
    JUnicodeCharNeedsIntro(s);
    OrFallsBack(JUnescapedChar(), JEscapedCharAsWritten(), s);
    OrFallsBack(Or(JUnescapedChar(), JEscapedCharAsWritten()), JUnicodeChar(), s);
    OrFallsBack(JUnescapedChar(), JEscapedChar(), s);
    OrFallsBack(Or(JUnescapedChar(), JEscapedChar()), JUnicodeChar(), s);
  }

  /** `jc` reads a plain character as itself. */
  ghost predicate ReadsPlain(jc: Parser<char>) {
    forall t: State :: !t.Eof() && IsUnescaped(t.Char()) ==> jc.run(t) == Success(t.Char(), t.Next())
  }

  lemma JCharReadsPlain()
    ensures ReadsPlain(JChar())
  {
    forall t: State | !t.Eof() && IsUnescaped(t.Char())
      ensures JChar().run(t) == Success(t.Char(), t.Next())
    {
      JCharPlain(t);
    }
  }

  /** The `k` characters of `input` from `i` on are plain. */
  predicate PlainRun(input: string, i: nat, k: nat) {
    i + k <= |input| && forall j :: i <= j < i + k ==> IsUnescaped(input[j])
  }

  /** From `n` on, `jc` reads each of the next `k` plain characters. */
  lemma PlainRunReads(jc: Parser<char>, n: State, k: nat)
    requires ReadsPlain(jc) && PlainRun(n.input, n.pos, k)
    ensures forall j :: 0 <= j < k ==> ReadsAt(jc, n, j)
  {
    forall j | 0 <= j < k
      ensures ReadsAt(jc, n, j)
    {
      var t := Skip(n, j);
      assert t.input == n.input && t.pos == n.pos + j;
      assert Skip(n, j + 1) == t.Next();
    }
  }

  /** The opening quote is read. */
  lemma QuoteReads(s: State)
    requires !s.Eof() && s.Char() == '"'
    ensures Quote().run(s) == Success('"', s.Next())
  {
    PCharCases('"', s);
    LabelRelabels(PChar('"'), "quote", s);
  }

  /** Anything but a double quote is not a closing quote. */
  lemma QuoteFails(s: State)
    requires s.Eof() || s.Char() != '"'
    ensures Quote().run(s).Failure?
  {
    PCharCases('"', s);
    LabelRelabels(PChar('"'), "quote", s);
  }

  /** After the opening quote, the body reads the run of `k` plain characters
      when `jc` cannot read the character after the run. */
  lemma QuotedBody(jc: Parser<char>, s: State, k: nat)
    requires Advances(jc) && ReadsPlain(jc)
    requires !s.Eof() && s.Char() == '"' && PlainRun(s.input, s.pos + 1, k)
    requires jc.run(Skip(s, k + 1)).Failure?
    ensures AndR(Quote(), ZeroOrMore(jc, Scalar)).run(s)
      == Success(s.input[s.pos + 1..s.pos + 1 + k], Skip(s, k + 1))
  {
    var n := s.Next();
    assert n.input == s.input && n.pos == s.pos + 1;
    SkipNext(s, k);
    PlainRunReads(jc, n, k);
    ZeroOrMoreCollects(jc, n, k);
    QuoteReads(s);
    AndRThen(Quote(), ZeroOrMore(jc, Scalar), s, '"', n, n.input[n.pos..n.pos + k], Skip(n, k));
  }

  /** The run of plain characters is followed by the closing quote. */
  lemma QuotedCloses(jc: Parser<char>, s: State, k: nat)
    requires Advances(jc) && ReadsPlain(jc)
    requires !s.Eof() && s.Char() == '"' && PlainRun(s.input, s.pos + 1, k)
    requires jc.run(Skip(s, k + 1)).Failure?
    requires s.pos + 1 + k < |s.input| && s.input[s.pos + 1 + k] == '"'
    ensures QuotedOf(jc).run(s) == Success(s.input[s.pos + 1..s.pos + 1 + k], Skip(s, k + 2))
  {
    var body := AndR(Quote(), ZeroOrMore(jc, Scalar));
    var t := Skip(s, k + 1);
    var v := s.input[s.pos + 1..s.pos + 1 + k];
    assert t.input == s.input && t.pos == s.pos + 1 + k;
    QuotedBody(jc, s, k);
    QuoteReads(t);
    AndLThen(body, Quote(), s, v, t, '"', t.Next());
    assert Skip(s, k + 2) == t.Next();
    MapTransforms(AndL(body, Quote()), Join, s);
  }

  /** The run of plain characters is not followed by a closing quote. */
  lemma QuotedOpen(jc: Parser<char>, s: State, k: nat)
    requires Advances(jc) && ReadsPlain(jc)
    requires !s.Eof() && s.Char() == '"' && PlainRun(s.input, s.pos + 1, k)
    requires jc.run(Skip(s, k + 1)).Failure?
    requires !(s.pos + 1 + k < |s.input| && s.input[s.pos + 1 + k] == '"')
    ensures QuotedOf(jc).run(s).Failure?
  {
    var body := AndR(Quote(), ZeroOrMore(jc, Scalar));
    var t := Skip(s, k + 1);
    assert t.input == s.input && t.pos == s.pos + 1 + k;
    assert t.Eof() || t.Char() != '"';
    QuoteFails(t);
    QuotedBody(jc, s, k);
    SequenceFailsRight(body, Quote(), s, s.input[s.pos + 1..s.pos + 1 + k], t);
    MapTransforms(AndL(body, Quote()), Join, s);
  }

  /** A quoted string whose body starts with `k` plain characters, after
      which no character of a body can be read, succeeds exactly when the run
      ends at a closing double quote, with the run as its value. */
  lemma QuotedStringReads(s: State, k: nat)
    requires !s.Eof() && s.Char() == '"'
    requires k == Span(IsUnescaped, s.input, s.pos + 1)
    requires JChar().run(Skip(s, k + 1)).Failure?
    ensures var r := QuotedString().run(s);
      if s.pos + 1 + k < |s.input| && s.input[s.pos + 1 + k] == '"'
      then r == Success(s.input[s.pos + 1..s.pos + 1 + k], Skip(s, k + 2))
      else r.Failure?
  {
    assert PlainRun(s.input, s.pos + 1, k);
    JCharReadsPlain();
    if s.pos + 1 + k < |s.input| && s.input[s.pos + 1 + k] == '"' {
      QuotedCloses(JChar(), s, k);
    } else {
      QuotedOpen(JChar(), s, k);
    }
  }

  /** The pieces of a string written between double quotes. */
  lemma QuotedText(input: string, i: nat, text: string)
    requires i + |text| + 2 <= |input| && input[i..i + |text| + 2] == ['"'] + text + ['"']
    ensures input[i] == '"' && input[i + 1 + |text|] == '"'
    ensures input[i + 1..i + 1 + |text|] == text
    ensures forall j :: i + 1 <= j < i + 1 + |text| ==> input[j] == text[j - i - 1]
  {
    var w := ['"'] + text + ['"'];
    assert input[i] == w[0];
    assert input[i + 1 + |text|] == w[|text| + 1];
    forall j | i + 1 <= j < i + 1 + |text|
      ensures input[j] == text[j - i - 1]
    {
      assert input[j] == w[j - i];
    }
  }

  /** The body of a quoted plain text is a run of plain characters between
      two double quotes. */
  lemma QuotedSpan(s: State, text: string)
    requires forall c :: c in text ==> IsUnescaped(c)
    requires StartsWith(s, ['"'] + text + ['"'])
    ensures !s.Eof() && s.Char() == '"' && PlainRun(s.input, s.pos + 1, |text|)
    ensures s.pos + 1 + |text| < |s.input| && s.input[s.pos + 1 + |text|] == '"'
    ensures s.input[s.pos + 1..s.pos + 1 + |text|] == text
  {
    var i := s.pos;
    QuotedText(s.input, i, text);
    forall j | i + 1 <= j < i + 1 + |text|
      ensures IsUnescaped(s.input[j])
    {
      assert text[j - i - 1] in text;
    }
  }

  /** Round trip: a text without backslashes or double quotes, written
      between double quotes, is read back as itself. */
  lemma QuotedStringRoundTrip(text: string, s: State)
    requires forall c :: c in text ==> IsUnescaped(c)
    requires StartsWith(s, ['"'] + text + ['"'])
    ensures QuotedString().run(s) == Success(text, Skip(s, |text| + 2))
  {
    QuotedSpan(s, text);
    QuotedSpanCloses(s, text);
  }

  /** The quoted text found by `QuotedSpan` is read back as itself. */
  lemma QuotedSpanCloses(s: State, text: string)
    requires !s.Eof() && s.Char() == '"' && PlainRun(s.input, s.pos + 1, |text|)
    requires s.pos + 1 + |text| < |s.input| && s.input[s.pos + 1 + |text|] == '"'
    requires s.input[s.pos + 1..s.pos + 1 + |text|] == text
    ensures QuotedString().run(s) == Success(text, Skip(s, |text| + 2))
  {
    QuotedPlainCloses(s, |text|, text);
  }

  /** A run of plain characters between double quotes is read as itself. */
  lemma QuotedPlainCloses(s: State, k: nat, v: string)
    requires !s.Eof() && s.Char() == '"' && PlainRun(s.input, s.pos + 1, k)
    requires s.pos + 1 + k < |s.input| && s.input[s.pos + 1 + k] == '"'
    requires v == s.input[s.pos + 1..s.pos + 1 + k]
    ensures QuotedString().run(s) == Success(v, Skip(s, k + 2))
  {
    var t := Skip(s, k + 1);
    assert t.input == s.input && t.pos == s.pos + 1 + k;
    JCharFails(t);
    JCharReadsPlain();
    QuotedCloses(JChar(), s, k);
  }

  /** A string that is not closed before the end of the input is rejected. */
  lemma QuotedStringUnterminated(s: State)
    requires !s.Eof() && s.Char() == '"'
    requires forall j :: s.pos < j < |s.input| ==> IsUnescaped(s.input[j])
    ensures QuotedString().run(s).Failure?
  {
    var k := |s.input| - s.pos - 1;
    SpanExact(IsUnescaped, s.input, s.pos + 1, k);
    var t := Skip(s, k + 1);
    assert t.input == s.input && t.pos == s.pos + 1 + k;
    JCharFails(t);
    QuotedStringReads(s, k);
  }

  /** A backslash followed by a letter that starts no escape rejects the
      string. */
  lemma QuotedStringBadEscape(s: State, k: nat)
    requires !s.Eof() && s.Char() == '"'
    requires k == Span(IsUnescaped, s.input, s.pos + 1)
    requires s.pos + 2 + k < |s.input| && s.input[s.pos + 1 + k] == '\\'
    requires s.input[s.pos + 2 + k] !in EscapeLetters && s.input[s.pos + 2 + k] != 'u'
    ensures QuotedString().run(s).Failure?
  {
    var t := Skip(s, k + 1);
    assert t.input == s.input && t.pos == s.pos + 1 + k;
    JCharFails(t);
    QuotedStringReads(s, k);
  }

  /** A body of one character read by `jc` between double quotes is read as
      that character. */
  lemma QuotedOne(jc: Parser<char>, s: State, c: char)
    requires Advances(jc)
    requires !s.Eof() && s.Char() == '"' && s.pos + 3 < |s.input| && s.input[s.pos + 3] == '"'
    requires jc.run(s.Next()) == Success(c, Skip(s, 3))
    requires jc.run(Skip(s, 3)).Failure?
    ensures QuotedOf(jc).run(s) == Success([c], Skip(s, 4))
  {
    var n := s.Next();
    var t := Skip(s, 3);
    var z := ZeroOrMore(jc, Scalar);
    var body := AndR(Quote(), z);
    assert t.input == s.input && t.pos == s.pos + 3;
    QuoteReads(s);
    ZeroOrMoreStep(jc, Scalar, n);
    ZeroOrMoreStops(jc, Scalar, t);
    assert Flatten(Scalar(c)) == [c];
    assert z.run(n) == Success([c] + [], t);
    assert [c] + [] == [c];
    AndRThen(Quote(), z, s, '"', n, [c], t);
    QuoteReads(t);
    assert t.Next() == Skip(s, 4);
    AndLThen(body, Quote(), s, [c], t, '"', t.Next());
    MapTransforms(AndL(body, Quote()), Join, s);
  }

  /** At a backslash and `f`, a body character as written is the letter
      `f`, and with the intended table it is form feed. */
  lemma JCharFormFeed(n: State)
    requires StartsWith(n, "\\f")
    ensures JChar().run(n) == Success('f', Skip(n, 2))
    ensures IntendedJChar().run(n) == Success(FormFeed, Skip(n, 2))
  {
    StartsWithTwo(n, "\\f");
    SatisfyCases("char", IsUnescaped, n);
    WrittenFormFeedIsLetter(n);
    OrFallsBack(JUnescapedChar(), JEscapedCharAsWritten(), n);
    OrLeftBiased(Or(JUnescapedChar(), JEscapedCharAsWritten()), JUnicodeChar(), n);
    FormFeedEscape();
    JEscapedCharRoundTrip(FormFeed, n);
    OrFallsBack(JUnescapedChar(), JEscapedChar(), n);
    OrLeftBiased(Or(JUnescapedChar(), JEscapedChar()), JUnicodeChar(), n);
  }

  /** The string `"\f"`: as written it reads as the letter `f`; with the
      intended table it reads as form feed, the character whose escape it
      is. */
  lemma QuotedFormFeed(s: State)
    requires StartsWith(s, ['"', '\\', 'f', '"'])
    ensures QuotedString().run(s) == Success("f", Skip(s, 4))
    ensures IntendedQuotedString().run(s) == Success([FormFeed], Skip(s, 4))
    ensures EscapeOf(FormFeed) == Just('f')
  {
    var n := s.Next();
    var t := Skip(s, 3);
    QuotedFormFeedText(s);
    SkipNext(s, 2);
    JCharFormFeed(n);
    JCharFails(t);
    FormFeedEscape();
    QuotedOne(JChar(), s, 'f');
    QuotedOne(IntendedJChar(), s, FormFeed);
  }

  /** The four characters of `"\f"` at `s`. */
  lemma QuotedFormFeedText(s: State)
    requires StartsWith(s, ['"', '\\', 'f', '"'])
    ensures !s.Eof() && s.Char() == '"' && s.pos + 3 < |s.input| && s.input[s.pos + 3] == '"'
    ensures StartsWith(s.Next(), "\\f")
    ensures Skip(s, 3).Char() == '"'
  {
    var w: string := ['"', '\\', 'f', '"'];
    assert s.input[s.pos] == w[0] && s.input[s.pos + 1] == w[1];
    assert s.input[s.pos + 2] == w[2] && s.input[s.pos + 3] == w[3];
    var n := s.Next();
    assert n.input[n.pos..n.pos + 2] == [s.input[s.pos + 1], s.input[s.pos + 2]];
  }
}
