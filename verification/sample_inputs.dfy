/** Inputs read end to end: an import with a dotted name, a list nested
    inside a list, and a quoted string mixing plain characters and an
    escape. */
module SampleInputs {
  import opened Core
  import opened CoreLaws
  import opened IdlTypes
  import opened IdlString
  import opened IdlParser
  import opened IdlParserLaws
  import opened FieldTypeLaws
  import opened GrammarLaws

  /** The identifier characters after the first letter of `w`, found at
      index `i` of `text`, form the whole run `Span` measures. */
  lemma WordSpan(text: string, i: nat, w: string)
    requires |w| > 0 && i + |w| <= |text| && text[i..i + |w|] == w
    requires forall j :: 1 <= j < |w| ==> IsIdentifierChar(w[j])
    requires i + |w| == |text| || !IsIdentifierChar(text[i + |w|])
    ensures text[i] == w[0] && Span(IsIdentifierChar, text, i + 1) == |w| - 1
  {
    forall j | i + 1 <= j < i + |w|
      ensures IsIdentifierChar(text[j])
    {
      assert text[i..i + |w|][j - i] == text[j];
    }
    assert text[i..i + |w|][0] == text[i];
    SpanExact(IsIdentifierChar, text, i + 1, |w| - 1);
  }

  /** An identifier `w` is next at `u` and no identifier character follows
      it: the identifier is read whole. */
  lemma IdentifierWord(u: State, w: string)
    requires |w| > 0 && IsAlpha(w[0]) && forall j :: 1 <= j < |w| ==> IsIdentifierChar(w[j])
    requires StartsWith(u, w)
    requires u.pos + |w| == |u.input| || !IsIdentifierChar(u.input[u.pos + |w|])
    ensures PIdentifier().run(u) == Success(Identifier(w), Skip(u, |w|))
  {
    var k := |w| - 1;
    WordSpan(u.input, u.pos, w);
    assert IsAlpha(u.Char());
    IdentifierReads(u, k);
    assert u.input[u.pos..u.pos + 1 + k] == w;
  }

  const ImportLine: string := "import bla.fazl"

  lemma ImportLineText()
    ensures |ImportLine| == 15
    ensures ImportLine[0..6] == "import" && ImportLine[7..10] == "bla" && ImportLine[11..15] == "fazl"
    ensures IsSpace(ImportLine[6]) && !IsSpace(ImportLine[7]) && ImportLine[10] == '.'
    ensures !IsIdentifierChar('.')
  {
  }

  /** Every letter and the underscore may start an identifier and continue
      one. */
  lemma AlphaAt(i: nat)
    requires i < |Alpha|
    ensures IsAlpha(Alpha[i]) && IsIdentifierChar(Alpha[i])
  {
    assert (Alpha + Digits)[i] == Alpha[i];
  }

  lemma NameChars()
    ensures IsAlpha('b') && IsAlpha('f')
    ensures IsIdentifierChar('l') && IsIdentifierChar('a') && IsIdentifierChar('z')
  {
    assert Lowercase == "abcdefghijklmnopqrstuvwxyz";
    assert Alpha[27] == 'b' && Alpha[31] == 'f' && Alpha[37] == 'l' && Alpha[26] == 'a' && Alpha[51] == 'z';
    AlphaAt(27);
    AlphaAt(31);
    AlphaAt(37);
    AlphaAt(26);
    AlphaAt(51);
  }

  /** `bla` is read as an identifier, stopping at the dot. */
  lemma FirstNameReads(u: State)
    requires u.input == ImportLine && u.pos == 7
    ensures PIdentifier().run(u) == Success(Identifier("bla"), Skip(u, 3))
  {
    ImportLineText();
    NameChars();
    IdentifierWord(u, "bla");
  }

  /** `.fazl` is read as one more part of the dotted name, up to the end of
      the input. */
  lemma SecondNameReads(u: State)
    requires u.input == ImportLine && u.pos == 10
    ensures AndR(PChar('.'), PIdentifier()).run(u) == Success(Identifier("fazl"), Skip(u.Next(), 4))
    ensures Skip(u.Next(), 4).Eof()
  {
    ImportLineText();
    NameChars();
    PCharCases('.', u);
    IdentifierWord(u.Next(), "fazl");
    AndRThen(PChar('.'), PIdentifier(), u, '.', u.Next(), Identifier("fazl"), Skip(u.Next(), 4));
  }

  /** At the end of input no further part of a dotted name is read. */
  lemma NoMoreParts(u: State)
    requires u.Eof()
    ensures AndR(PChar('.'), PIdentifier()).run(u).Failure?
  {
    PCharCases('.', u);
    SequenceFailsLeft(PChar('.'), PIdentifier(), u);
  }

  /** `bla.fazl` is read as the dotted name "bla.fazl". */
  lemma DottedSampleReads(u: State)
    requires u.input == ImportLine && u.pos == 7
    ensures Reads(DottedName(), u, "bla.fazl", Skip(Skip(u, 3).Next(), 4))
  {
    var u3 := Skip(u, 3);
    var u5 := Skip(u3.Next(), 4);
    var q := AndR(PChar('.'), PIdentifier());
    FirstNameReads(u);
    SecondNameReads(u3);
    NoMoreParts(u5);
    assert Iterates(q, u5, [], u5);
    assert Iterates(q, u3, [Identifier("fazl")], u5);
    DottedNameReads(u, Identifier("bla"), u3, [Identifier("fazl")], u5);
    SampleDottedPath();
  }

  lemma SampleDottedPath()
    ensures DottedPath([Identifier("bla")] + [Identifier("fazl")]) == "bla.fazl"
  {
    assert ([Identifier("bla")] + [Identifier("fazl")])[1..] == [Identifier("fazl")];
  }

  /** The cursor after the import line is at its end. */
  lemma ImportLineEnd(s: State)
    requires s.input == ImportLine && s.pos == 0
    ensures Skip(Skip(Skip(Skip(s, 6), 1), 3).Next(), 4) == Skip(s, 15) && Skip(s, 15).Eof()
  {
    ImportLineText();
    SkipSkip(s, 6, 1);
    SkipSkip(s, 7, 3);
    assert Skip(s, 10).Next() == Skip(s, 11);
    SkipSkip(s, 11, 4);
  }

  /** One space separates the keyword from the name. */
  lemma ImportGap()
    ensures Span(IsSpace, ImportLine, 6) == 1
  {
    ImportLineText();
    SpanExact(IsSpace, ImportLine, 6, 1);
  }

  /** `import bla.fazl` is the import of `bla.fazl`, and reading it consumes
      the whole line. */
  lemma ImportSample()
    ensures var s := State(ImportLine, 0, 0, 0);
      PImport().run(s) == Success(Import("bla.fazl"), Skip(s, 15)) && Skip(s, 15).Eof()
  {
    var s := State(ImportLine, 0, 0, 0);
    var u1 := Skip(s, 6);
    var u2 := Skip(u1, 1);
    var t := Skip(Skip(u2, 3).Next(), 4);
    ImportLineText();
    PStringSucceeds("import", s);
    ImportGap();
    DelimitersReads(u1, 1);
    DottedSampleReads(u2);
    ImportReads(s, u1, "bla.fazl", t);
    ImportLineEnd(s);
  }

  /** Delimiters at a character other than whitespace stay where they are. */
  lemma NoGap(u: State)
    requires u.pos < |u.input| && !IsSpace(u.input[u.pos])
    ensures Delimiters().run(u) == Success((), u)
  {
    SpanExact(IsSpace, u.input, u.pos, 0);
    DelimitersReads(u, 0);
  }

  const NestedList: string := "List<List<Boolean>>"

  lemma NestedListText()
    ensures |NestedList| == 19
    ensures NestedList[0..5] == "List<" && NestedList[5..10] == "List<"
    ensures NestedList[10..17] == "Boolean" && NestedList[17..18] == ">" && NestedList[18..19] == ">"
    ensures !IsSpace(NestedList[5]) && !IsSpace(NestedList[10]) && NestedList[17] == '>' && NestedList[18] == '>'
  {
  }

  /** `Boolean` is read as the primitive at any level. */
  lemma BooleanAt(level: nat, v: State)
    requires StartsWith(v, "Boolean")
    ensures PFieldType(level).run(v) == Success(Boolean, Skip(v, 7))
  {
    assert KeywordNames[4] == "Boolean" && Primitives[4] == Boolean;
    FieldTypeKeyword(level, v, 4);
  }

  /** `List<` opens both lists. */
  lemma ListOpens(u: State)
    requires u.input == NestedList && (u.pos == 0 || u.pos == 5)
    ensures StartsWith(u, "List<") && Reads(PString("List<"), u, "List<", Skip(u, 5))
  {
    NestedListText();
    PStringSucceeds("List<", u);
  }

  /** `Boolean` is read right after the inner `List<`. */
  lemma ElementReads(level: nat, v: State)
    requires v.input == NestedList && v.pos == 10
    ensures ReadsAfter(Delimiters(), PFieldType(level), v, Boolean, Skip(v, 7))
  {
    NestedListText();
    NoGap(v);
    BooleanAt(level, v);
  }

  /** `>` is read where it is next. */
  lemma AngleReads(v: State)
    requires v.pos < |v.input| && v.input[v.pos] == '>'
    ensures PString(">").run(v) == Success(">", Skip(v, 1))
  {
    assert v.input[v.pos..v.pos + 1] == [v.input[v.pos]];
    PStringSucceeds(">", v);
  }

  /** `>` closes a list; no whitespace stands before it. */
  lemma ListCloses(v: State)
    requires v.pos < |v.input| && v.input[v.pos] == '>'
    ensures ReadsAfter(Delimiters(), PString(">"), v, ">", Skip(v, 1))
  {
    assert !IsSpace('>');
    NoGap(v);
    AngleReads(v);
  }

  /** The inner `List<Boolean>` is read one level down. */
  lemma InnerListReads(level: nat, u: State)
    requires level == 1 && u.input == NestedList && u.pos == 5
    ensures Reads(PFieldType(level), u, ListOf(Boolean), Skip(Skip(Skip(u, 5), 7), 1))
  {
    var u10 := Skip(u, 5);
    var u17 := Skip(u10, 7);
    var u18 := Skip(u17, 1);
    ListOpens(u);
    ElementReads(level + 1, u10);
    NestedListText();
    ListCloses(u17);
    ListReads(level, u, u10, Boolean, u17, u18);
    FieldTypeList(level, u, ListOf(Boolean), u18);
  }

  /** The inner list is read right after the outer `List<`. */
  lemma InnerListAfter(level: nat, u: State)
    requires level == 1 && u.input == NestedList && u.pos == 5
    ensures ReadsAfter(Delimiters(), PFieldType(level), u, ListOf(Boolean), Skip(Skip(Skip(u, 5), 7), 1))
  {
    NestedListText();
    NoGap(u);
    InnerListReads(level, u);
  }

  /** The cursor after the nested list is at the end of the text. */
  lemma NestedListEnd(s: State)
    requires s.input == NestedList && s.pos == 0
    ensures Skip(Skip(Skip(Skip(Skip(s, 5), 5), 7), 1), 1) == Skip(s, 19) && Skip(s, 19).Eof()
  {
    NestedListText();
    SkipSkip(s, 5, 5);
    SkipSkip(s, 10, 7);
    SkipSkip(s, 17, 1);
    SkipSkip(s, 18, 1);
  }

  /** The closing `>` of the outer list. */
  lemma OuterClose(s: State)
    requires s.input == NestedList && s.pos == 0
    ensures var u18 := Skip(Skip(Skip(Skip(s, 5), 5), 7), 1);
      ReadsAfter(Delimiters(), PString(">"), u18, ">", Skip(u18, 1))
  {
    NestedListText();
    ListCloses(Skip(Skip(Skip(Skip(s, 5), 5), 7), 1));
  }

  /** The inner list follows the outer `List<`. */
  lemma OuterElement(level: nat, s: State)
    requires level == 0 && s.input == NestedList && s.pos == 0
    ensures var u5 := Skip(s, 5);
      ReadsAfter(Delimiters(), PFieldType(level + 1), u5, ListOf(Boolean), Skip(Skip(Skip(u5, 5), 7), 1))
  {
    InnerListAfter(level + 1, Skip(s, 5));
  }

  /** The outer list rule reads `List<List<Boolean>>` whole. */
  lemma OuterListReads(level: nat, s: State)
    requires level == 0 && s.input == NestedList && s.pos == 0
    ensures StartsWith(s, "List<")
    ensures Reads(PList(level), s, ListOf(ListOf(Boolean)), Skip(Skip(Skip(Skip(Skip(s, 5), 5), 7), 1), 1))
  {
    var u5 := Skip(s, 5);
    var u18 := Skip(Skip(Skip(u5, 5), 7), 1);
    ListOpens(s);
    OuterElement(level, s);
    OuterClose(s);
    ListReads(level, s, u5, ListOf(Boolean), u18, Skip(u18, 1));
  }

  /** From the start of `List<List<Boolean>>` the field type is a list of
      lists of booleans. */
  lemma NestedListReads(level: nat, s: State)
    requires level == 0 && s.input == NestedList && s.pos == 0
    ensures Reads(PFieldType(level), s, ListOf(ListOf(Boolean)), Skip(Skip(Skip(Skip(Skip(s, 5), 5), 7), 1), 1))
  {
    OuterListReads(level, s);
    FieldTypeList(level, s, ListOf(ListOf(Boolean)), Skip(Skip(Skip(Skip(Skip(s, 5), 5), 7), 1), 1));
  }

  /** `List<List<Boolean>>` is a list of lists of booleans, read whole. */
  lemma NestedListSample()
    ensures var s := State(NestedList, 0, 0, 0);
      PFieldType(0).run(s) == Success(ListOf(ListOf(Boolean)), Skip(s, 19)) && Skip(s, 19).Eof()
  {
    var s := State(NestedList, 0, 0, 0);
    NestedListReads(0, s);
    NestedListEnd(s);
  }

  // ---------------------------------------------------------------------
  // A quoted string with an escape

  /** The six characters `"a\nb"`: quote, `a`, backslash, `n`, `b`, quote. */
  const EscapedLine: string := "\"a\\nb\""

  lemma EscapedLineText()
    ensures |EscapedLine| == 6
    ensures EscapedLine[0] == '"' && EscapedLine[1] == 'a' && EscapedLine[2] == '\\'
    ensures EscapedLine[3] == 'n' && EscapedLine[4] == 'b' && EscapedLine[5] == '"'
  {
  }

  /** In both tables `\n` stands for newline. */
  lemma NewlineEscape()
    ensures WellFormed(WrittenEscapes)
    ensures EscapeIndex(WrittenEscapes, 'n', 0) == 5 && WrittenEscapes[5].1 == '\n'
  {
    TablesAgree();
    LetterIndex(WrittenEscapes, 'n');
  }

  /** Three values read in turn, then a failure. */
  lemma IteratesThree<A>(q: Parser<A>, s0: State, x0: A, s1: State, x1: A, s2: State, x2: A, s3: State)
    requires q.run(s0) == Success(x0, s1) && q.run(s1) == Success(x1, s2)
    requires q.run(s2) == Success(x2, s3) && q.run(s3).Failure?
    ensures Iterates(q, s0, [x0, x1, x2], s3)
  {
    assert Iterates(q, s3, [], s3);
    assert [x2][1..] == [];
    assert Iterates(q, s2, [x2], s3);
    assert [x1, x2][1..] == [x2];
    assert Iterates(q, s1, [x1, x2], s3);
    assert [x0, x1, x2][1..] == [x1, x2];
  }

  /** The plain characters of `"a\nb"` stand for themselves, and its closing
      quote ends the body. */
  lemma EscapedPlain(u1: State, u4: State, u5: State)
    requires u1 == State(EscapedLine, 0, 1, 1) && u4 == State(EscapedLine, 0, 4, 4)
    requires u5 == State(EscapedLine, 0, 5, 5)
    ensures JChar().run(u1) == Success('a', State(EscapedLine, 0, 2, 2))
    ensures JChar().run(u4) == Success('b', u5)
    ensures JChar().run(u5).Failure?
  {
    EscapedLineText();
    JCharPlain(u1);
    JCharPlain(u4);
    JCharFails(u5);
  }

  /** The escape `\n` in `"a\nb"` stands for newline. */
  lemma EscapedNewline(u2: State)
    requires u2 == State(EscapedLine, 0, 2, 2)
    ensures JChar().run(u2) == Success('\n', State(EscapedLine, 0, 4, 4))
  {
    EscapedLineText();
    NewlineEscape();
    CharOfEscaped(WrittenEscapes, u2);
    assert Skip(u2, 2) == State(EscapedLine, 0, 4, 4);
  }

  /** The body of `"a\nb"` is read character by character: `a`, the escape
      `\n` as a newline, `b`, and then the closing quote stops it. */
  lemma EscapedBody(u1: State, u5: State)
    requires u1 == State(EscapedLine, 0, 1, 1) && u5 == State(EscapedLine, 0, 5, 5)
    ensures Iterates(JChar(), u1, "a\nb", u5)
  {
    var u2 := State(EscapedLine, 0, 2, 2);
    var u4 := State(EscapedLine, 0, 4, 4);
    EscapedPlain(u1, u4, u5);
    EscapedNewline(u2);
    IteratesThree(JChar(), u1, 'a', u2, '\n', u4, 'b', u5);
    assert "a\nb" == ['a', '\n', 'b'];
  }

  /** `"a\nb"` is read as the three characters `a`, newline, `b`, and
      reading it consumes the whole input. */
  lemma EscapedSample()
    ensures var s := State(EscapedLine, 0, 0, 0);
      QuotedString().run(s) == Success("a\nb", State(EscapedLine, 0, 6, 6)) && State(EscapedLine, 0, 6, 6).Eof()
  {
    var s := State(EscapedLine, 0, 0, 0);
    var u5 := State(EscapedLine, 0, 5, 5);
    EscapedLineText();
    EscapedBody(s.Next(), u5);
    QuotedStringIterates(s, "a\nb", u5);
  }
}
