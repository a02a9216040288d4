/** Properties of the IDL grammar: what identifiers and delimiters read,
    which field type wins, how deep field types nest, and what the construct
    rules require of their input. */
module IdlParserLaws {
  import opened Core
  import opened CoreLaws
  import opened IdlTypes
  import opened IdlString
  import opened IdlParser

  // ---------------------------------------------------------------------
  // Cursor arithmetic

  /** Moving `a` characters and then `b` more is moving `a + b`. */
  lemma {:induction false} SkipSkip(s: State, a: nat, b: nat)
    requires s.pos + a + b <= |s.input|
    ensures Skip(Skip(s, a), b) == Skip(s, a + b)
    decreases b
  {
    if b > 0 {
      SkipSkip(s, a, b - 1);
    }
  }

  /** Input that starts with a non-empty string starts with its first
      character. */
  lemma StartsWithFirst(s: State, str: string)
    requires |str| > 0 && StartsWith(s, str)
    ensures s.pos < |s.input| && s.input[s.pos] == str[0]
  {
    assert s.input[s.pos..s.pos + |str|][0] == str[0];
  }

  /** The character `n` ahead, and one step past it. */
  lemma SkipChar(t: State, n: nat)
    requires t.pos + n < |t.input|
    ensures !Skip(t, n).Eof() && Skip(t, n).Char() == t.input[t.pos + n]
    ensures Skip(t, n + 1) == Skip(t, n).Next()
  {
  }

  /** `Map` applied to a known success: the success case of
      `CoreLaws.MapTransforms`, stated for a given value and cursor. */
  lemma MapReads<T, R>(p: Parser<T>, f: T -> R, s: State, v: T, t: State)
    requires p.run(s) == Success(v, t)
    ensures Map(p, f).run(s) == Success(f(v), t)
  {
    MapTransforms(p, f, s);
  }

  // ---------------------------------------------------------------------
  // Words

  /** A word whose first character is in `first` is that character and the
      longest run of `other` characters after it. */
  lemma WordReads(first: seq<char>, other: seq<char>, l: string, po: char -> bool, s: State, k: nat)
    requires |first| > 0 && |other| > 0 && Recognizes(PAnyOf(other), po)
    requires !s.Eof() && s.Char() in first && k == Span(po, s.input, s.pos + 1)
    ensures s.pos + 1 + k <= |s.input|
    ensures Word(first, other, l).run(s) == Success(s.input[s.pos..s.pos + 1 + k], Skip(s, 1 + k))
  {
    var n := s.Next();
    var z := ZeroOrMore(PAnyOf(other), Scalar);
    AnyOfAccepts(first, s);
    assert PAnyOf(first).run(s) == Success(s.Char(), n);
    ZeroOrMoreSpan(PAnyOf(other), po, n, k);
    AndConcatenates(PAnyOf(first), z, Scalar, Spliced, s);
    SignedSliceSign(s, n, k);
    LabelRelabels(And(PAnyOf(first), z, Scalar, Spliced), l, s);
  }

  /** A word fails, under its own label, where its first character is
      missing: no input left, or the unexpected character and its place. */
  lemma WordRejects(first: seq<char>, other: seq<char>, l: string, s: State)
    requires |first| > 0 && |other| > 0
    requires s.Eof() || s.Char() !in first
    ensures s.Eof() ==> Word(first, other, l).run(s) == Failure(NoMoreInput(Just(l)))
    ensures !s.Eof() ==> Word(first, other, l).run(s) == Failure(UnexpectedToken(Just(l), s.Char(), s.line, s.col))
  {
    var z := ZeroOrMore(PAnyOf(other), Scalar);
    AnyOfAccepts(first, s);
    SatisfyCases("choice-of " + ListText(first), (c: char) => c in first, s);
    AndConcatenates(PAnyOf(first), z, Scalar, Spliced, s);
    LabelRelabels(And(PAnyOf(first), z, Scalar, Spliced), l, s);
  }

  // ---------------------------------------------------------------------
  // Identifiers

  predicate IsAlpha(c: char) {
    c in Alpha
  }

  predicate IsIdentifierChar(c: char) {
    c in Alpha + Digits
  }

  predicate IsUpper(c: char) {
    c in Uppercase
  }

  predicate IsTypeIdentifierChar(c: char) {
    c in TypeTail
  }

  lemma IdentifierCharRecognizes()
    ensures Recognizes(PAnyOf(Alpha + Digits), IsIdentifierChar)
  {
    AnyOfRecognizes(Alpha + Digits);
  }

  lemma TypeIdentifierCharRecognizes()
    ensures Recognizes(PAnyOf(TypeTail), IsTypeIdentifierChar)
  {
    AnyOfRecognizes(TypeTail);
  }

  /** An identifier is a letter or underscore followed by the longest run of
      letters, digits and underscores. */
  lemma IdentifierReads(s: State, k: nat)
    requires !s.Eof() && IsAlpha(s.Char())
    requires k == Span(IsIdentifierChar, s.input, s.pos + 1)
    ensures s.pos + 1 + k <= |s.input|
    ensures PIdentifier().run(s) == Success(Identifier(s.input[s.pos..s.pos + 1 + k]), Skip(s, 1 + k))
  {
    var w := Word(Alpha, Alpha + Digits, "identifier");
    IdentifierCharRecognizes();
    WordReads(Alpha, Alpha + Digits, "identifier", IsIdentifierChar, s, k);
    MapReads(w, ToIdentifier, s, s.input[s.pos..s.pos + 1 + k], Skip(s, 1 + k));
  }

  /** Without a letter or underscore first, an identifier fails under the
      label "identifier". */
  lemma IdentifierRejects(s: State)
    requires s.Eof() || !IsAlpha(s.Char())
    ensures s.Eof() ==> PIdentifier().run(s) == Failure(NoMoreInput(Just("identifier")))
    ensures !s.Eof() ==> PIdentifier().run(s) == Failure(UnexpectedToken(Just("identifier"), s.Char(), s.line, s.col))
  {
    var w := Word(Alpha, Alpha + Digits, "identifier");
    WordRejects(Alpha, Alpha + Digits, "identifier", s);
    MapTransforms(w, ToIdentifier, s);
  }

  /** A type identifier is an upper-case letter followed by the longest run
      of letters, digits and underscores. */
  lemma TypeIdentifierReads(s: State, k: nat)
    requires !s.Eof() && IsUpper(s.Char())
    requires k == Span(IsTypeIdentifierChar, s.input, s.pos + 1)
    ensures s.pos + 1 + k <= |s.input|
    ensures PTypeIdentifier().run(s) == Success(TypeIdentifier(s.input[s.pos..s.pos + 1 + k]), Skip(s, 1 + k))
  {
    var w := Word(Uppercase, TypeTail, "type-identifier");
    TypeIdentifierCharRecognizes();
    WordReads(Uppercase, TypeTail, "type-identifier", IsTypeIdentifierChar, s, k);
    MapReads(w, ToTypeIdentifier, s, s.input[s.pos..s.pos + 1 + k], Skip(s, 1 + k));
  }

  /** Without an upper-case letter first, a type identifier fails under the
      label "type-identifier". */
  lemma TypeIdentifierRejects(s: State)
    requires s.Eof() || !IsUpper(s.Char())
    ensures s.Eof() ==> PTypeIdentifier().run(s) == Failure(NoMoreInput(Just("type-identifier")))
    ensures !s.Eof() ==> PTypeIdentifier().run(s) == Failure(UnexpectedToken(Just("type-identifier"), s.Char(), s.line, s.col))
  {
    var w := Word(Uppercase, TypeTail, "type-identifier");
    WordRejects(Uppercase, TypeTail, "type-identifier", s);
    MapTransforms(w, ToTypeIdentifier, s);
  }

  /** A type identifier cannot start with a lower-case letter: on "abcd" it
      reports the 'a' at line 0, column 0. */
  lemma TypeIdentifierRejectsLowercase()
    ensures PTypeIdentifier().run(State("abcd", 0, 0, 0)) ==
      Failure(UnexpectedToken(Just("type-identifier"), 'a', 0, 0))
  {
    var s := State("abcd", 0, 0, 0);
    assert s.Char() == 'a' && !IsUpper('a');
    TypeIdentifierRejects(s);
  }

  // ---------------------------------------------------------------------
  // Delimiters and comments

  predicate IsSpace(c: char) {
    c in " \t\n"
  }

  lemma WhitespaceCharRecognizes()
    ensures Recognizes(PWhitespaceChar(), IsSpace)
  {
    AnyOfRecognizes(" \t\n");
    LabelRecognizes(PAnyOf(" \t\n"), (c: char) => c in " \t\n", "whitespace-char");
  }

  /** Right after a longest run, a run of the same characters is empty. */
  lemma SpanStops(pred: char -> bool, text: string, i: nat, k: nat)
    requires i <= |text| && k == Span(pred, text, i)
    ensures i + k <= |text| && Span(pred, text, i + k) == 0
  {
    SpanExact(pred, text, i + k, 0);
  }

  /** One run of whitespace takes all the `k` whitespace characters ahead, and
      fails when there are none. */
  lemma WhitespaceReads(s: State, k: nat)
    requires s.pos <= |s.input| && k == Span(IsSpace, s.input, s.pos)
    ensures s.pos + k <= |s.input|
    ensures k > 0 ==> PWhitespace().run(s) == Success(s.input[s.pos..s.pos + k], Skip(s, k))
    ensures k == 0 ==> PWhitespace().run(s).Failure?
  {
    WhitespaceCharRecognizes();
    OneOrMoreSpan(PWhitespaceChar(), IsSpace, s, k);
    LabelRelabels(OneOrMore(PWhitespaceChar()), "whitespace", s);
  }

  /** Where no whitespace is ahead, `Spaces` reads nothing. */
  lemma SpacesNone(s: State)
    requires s.pos <= |s.input| && Span(IsSpace, s.input, s.pos) == 0
    ensures Spaces().run(s) == Success([], s)
  {
    WhitespaceReads(s, 0);
    ZeroOrMoreStops(PWhitespace(), Spliced, s);
  }

  /** `Spaces` takes the whole run of `k > 0` whitespace characters in one
      round, and the next round finds none. */
  lemma SpacesSome(s: State, k: nat)
    requires s.pos <= |s.input| && k == Span(IsSpace, s.input, s.pos) && k > 0
    ensures s.pos + k <= |s.input|
    ensures Spaces().run(s) == Success(s.input[s.pos..s.pos + k], Skip(s, k))
  {
    WhitespaceReads(s, k);
    var t := Skip(s, k);
    SpanStops(IsSpace, s.input, s.pos, k);
    SpacesNone(t);
    ZeroOrMoreStep(PWhitespace(), Spliced, s);
    assert Flatten(Spliced(s.input[s.pos..s.pos + k])) + [] == s.input[s.pos..s.pos + k];
  }

  /** `Spaces` reads exactly the whitespace ahead. */
  lemma SpacesReads(s: State, k: nat)
    requires s.pos <= |s.input| && k == Span(IsSpace, s.input, s.pos)
    ensures s.pos + k <= |s.input|
    ensures Spaces().run(s) == Success(s.input[s.pos..s.pos + k], Skip(s, k))
  {
    if k == 0 {
      SpacesNone(s);
      assert s.input[s.pos..s.pos + k] == [];
    } else {
      SpacesSome(s, k);
    }
  }

  /** Delimiters skip exactly the whitespace ahead and never fail. Since the
      whitespace alternative always succeeds, the comment alternative is
      never tried. */
  lemma DelimitersReads(s: State, k: nat)
    requires s.pos <= |s.input| && k == Span(IsSpace, s.input, s.pos)
    ensures s.pos + k <= |s.input|
    ensures Delimiters().run(s) == Success((), Skip(s, k))
  {
    SpacesReads(s, k);
    MapReads(Spaces(), (_: seq<char>) => (), s, s.input[s.pos..s.pos + k], Skip(s, k));
    OrLeftBiased(Ignore(Spaces()), Ignore(PComment()), s);
  }

  /** Delimiters do not skip a comment: at `//` they succeed without moving. */
  lemma DelimitersKeepComments(s: State)
    requires StartsWith(s, "//")
    ensures Delimiters().run(s) == Success((), s)
  {
    StartsWithFirst(s, "//");
    SpanExact(IsSpace, s.input, s.pos, 0);
    DelimitersReads(s, 0);
  }

  /** Optional delimiters, likewise, skip exactly the whitespace ahead. */
  lemma OptionalDelimitersReads(s: State, k: nat)
    requires s.pos <= |s.input| && k == Span(IsSpace, s.input, s.pos)
    ensures s.pos + k <= |s.input|
    ensures OptionalDelimiters().run(s) == Success(Just(()), Skip(s, k))
  {
    DelimitersReads(s, k);
    OptionalCases(Delimiters(), s);
  }

  /** A run of non-newline characters that stops before the end of the text
      stops at a newline. */
  lemma NewlineEndsSpan(text: string, i: nat, n: nat)
    requires i <= |text| && n == Span(NotNewline, text, i) && i + n < |text|
    ensures text[i + n] == '\n'
  {
  }

  /** The rest of a line is the longest run of characters other than a
      newline. */
  lemma AllUntilNewlineReads(t: State, n: nat)
    requires t.pos <= |t.input| && n == Span(NotNewline, t.input, t.pos)
    ensures t.pos + n <= |t.input|
    ensures PAllUntilNewline().run(t) == Success(t.input[t.pos..t.pos + n], Skip(t, n))
  {
    var z := ZeroOrMore(Satisfy("comment", NotNewline), Scalar);
    SatisfyRecognizes("comment", NotNewline);
    ZeroOrMoreSpan(Satisfy("comment", NotNewline), NotNewline, t, n);
    MapReads(z, Join, t, t.input[t.pos..t.pos + n], Skip(t, n));
  }

  /** A parser followed by a required character `c`: the pair succeeds
      with the parser's value exactly when `c` comes next. */
  lemma ClosedByReads<T>(body: Parser<T>, c: char, s: State, v: T, u: State)
    requires body.run(s) == Success(v, u)
    ensures !u.Eof() && u.Char() == c ==> AndL(body, PChar(c)).run(s) == Success(v, u.Next())
    ensures u.Eof() || u.Char() != c ==> AndL(body, PChar(c)).run(s).Failure?
  {
    PCharCases(c, u);
    AndLCases(body, PChar(c), s);
  }

  /** After `//` the rest of the line `v` leads to `u`; a newline there
      closes the comment, ending at `w`. */
  lemma CommentClosesAt(s: State, t: State, v: string, u: State, w: State)
    requires StartsWith(s, "//") && t == Skip(s, 2)
    requires PAllUntilNewline().run(t) == Success(v, u)
    requires !u.Eof() && u.Char() == '\n' && w == u.Next()
    ensures PComment().run(s) == Success(v, w)
  {
    PStringSucceeds("//", s);
    AndRThen(PString("//"), PAllUntilNewline(), s, "//", t, v, u);
    ClosedByReads(AndR(PString("//"), PAllUntilNewline()), '\n', s, v, u);
  }

  /** After `//` the rest of the line runs to the end of the input at `u`:
      no newline closes the comment. */
  lemma CommentUnclosedAt(s: State, t: State, v: string, u: State)
    requires StartsWith(s, "//") && t == Skip(s, 2)
    requires PAllUntilNewline().run(t) == Success(v, u) && u.Eof()
    ensures PComment().run(s).Failure?
  {
    PStringSucceeds("//", s);
    AndRThen(PString("//"), PAllUntilNewline(), s, "//", t, v, u);
    ClosedByReads(AndR(PString("//"), PAllUntilNewline()), '\n', s, v, u);
  }

  /** A comment closed by a newline `n` characters after its `//`; `t` is
      the state just after the `//`. */
  lemma CommentCloses(s: State, t: State, n: nat)
    requires StartsWith(s, "//") && t == Skip(s, 2)
    requires n == Span(NotNewline, t.input, t.pos) && t.pos + n < |t.input|
    ensures PComment().run(s) == Success(t.input[t.pos..t.pos + n], Skip(t, n + 1))
  {
    NewlineEndsSpan(t.input, t.pos, n);
    SkipChar(t, n);
    var u := Skip(t, n);
    assert !u.Eof() && u.Char() == '\n';
    AllUntilNewlineReads(t, n);
    CommentClosesAt(s, t, t.input[t.pos..t.pos + n], Skip(t, n), Skip(t, n + 1));
  }

  /** A comment whose line runs to the end of the input fails. */
  lemma CommentUnclosed(s: State, t: State, n: nat)
    requires StartsWith(s, "//") && t == Skip(s, 2)
    requires n == Span(NotNewline, t.input, t.pos) && t.pos + n == |t.input|
    ensures PComment().run(s).Failure?
  {
    AllUntilNewlineReads(t, n);
    CommentUnclosedAt(s, t, t.input[t.pos..t.pos + n], Skip(t, n));
  }

  /** A comment is `//`, the `n` characters up to the next newline, and the
      newline; `t` is the state just after the `//`. The value is the text
      between, leading spaces included. With no newline before the end of
      the input it fails. */
  lemma CommentReads(s: State, t: State, n: nat)
    requires StartsWith(s, "//") && t == Skip(s, 2)
    requires n == Span(NotNewline, t.input, t.pos)
    ensures t.pos + n <= |t.input|
    ensures t.pos + n < |t.input| ==>
      PComment().run(s) == Success(t.input[t.pos..t.pos + n], Skip(t, n + 1))
    ensures t.pos + n == |t.input| ==> PComment().run(s).Failure?
  {
    if t.pos + n < |t.input| {
      CommentCloses(s, t, n);
    } else {
      CommentUnclosed(s, t, n);
    }
  }
}
