/** Properties of the parser-combinator library: how the cursor tracks lines,
    how each combinator treats successes and failures, and what the primitive
    parsers accept. */
module CoreLaws {
  import opened Core

  // ---------------------------------------------------------------------
  // The cursor

  /** The number of newlines among `text[i..j]`. */
  function Newlines(text: string, i: nat, j: nat): nat
    requires i <= j <= |text|
    decreases j
  {
    if j == i then 0 else Newlines(text, i, j - 1) + (if text[j - 1] == '\n' then 1 else 0)
  }

  /** The index of the last newline among `text[i..j]`, if there is one. */
  function LastNewline(text: string, i: nat, j: nat): (r: Maybe<nat>)
    requires i <= j <= |text|
    ensures r.Just? ==> i <= r.value < j && text[r.value] == '\n'
    ensures r.Just? ==> forall l :: r.value < l < j ==> text[l] != '\n'
    ensures r.None? ==> forall l :: i <= l < j ==> text[l] != '\n'
    decreases j
  {
    if j == i then None
    else if text[j - 1] == '\n' then Just(j - 1)
    else LastNewline(text, i, j - 1)
  }

  /** Advancing `n` characters adds one line per newline passed over. */
  lemma {:induction false} SkipTracksLines(s: State, n: nat)
    requires s.pos + n <= |s.input|
    ensures Skip(s, n).line == s.line + Newlines(s.input, s.pos, s.pos + n)
  {
    if n > 0 {
      SkipTracksLines(s, n - 1);
    }
  }

  /** After advancing `n` characters the column counts the characters since
      the last newline passed over, or grows by `n` when there was none. */
  lemma {:induction false} SkipTracksColumns(s: State, n: nat)
    requires s.pos + n <= |s.input|
    ensures Skip(s, n).col == match LastNewline(s.input, s.pos, s.pos + n)
      case None => s.col + n
      case Just(k) => s.pos + n - 1 - k
  {
    if n > 0 {
      SkipTracksColumns(s, n - 1);
    }
  }

  /** Moving one character and then `n` more is moving `n + 1`. */
  lemma {:induction false} SkipNext(s: State, n: nat)
    requires s.pos + n + 1 <= |s.input|
    ensures Skip(s.Next(), n) == Skip(s, n + 1)
  {
    if n > 0 {
      SkipNext(s, n - 1);
    }
  }

  // ---------------------------------------------------------------------
  // Primitive: satisfy

  /** At the end of the input `Satisfy` reports that no input is left; on a
      character that satisfies the predicate it returns that character and
      moves one step; otherwise it reports the character and its position. */
  lemma SatisfyCases(l: string, pred: char -> bool, s: State)
    ensures s.Eof() ==> Satisfy(l, pred).run(s) == Failure(NoMoreInput(Just(l)))
    ensures !s.Eof() && pred(s.Char()) ==> Satisfy(l, pred).run(s) == Success(s.Char(), s.Next())
    ensures !s.Eof() && !pred(s.Char()) ==>
      Satisfy(l, pred).run(s) == Failure(UnexpectedToken(Just(l), s.Char(), s.line, s.col))
  {
    if s.Eof() {
      assert NoMoreInput(Just(l)).Relabel(Just(l)) == NoMoreInput(Just(l));
    } else {
      assert UnexpectedToken(Just(l), s.Char(), s.line, s.col).Relabel(Just(l))
        == UnexpectedToken(Just(l), s.Char(), s.line, s.col);
    }
  }

  /** `PChar(c)`: the character `c` itself, or an error labelled `c`. */
  lemma PCharCases(c: char, s: State)
    ensures s.Eof() ==> PChar(c).run(s) == Failure(NoMoreInput(Just([c])))
    ensures !s.Eof() && s.Char() == c ==> PChar(c).run(s) == Success(c, s.Next())
    ensures !s.Eof() && s.Char() != c ==>
      PChar(c).run(s) == Failure(UnexpectedToken(Just([c]), s.Char(), s.line, s.col))
  {
    if s.Eof() {
      assert NoMoreInput(Just([c])).Relabel(Just([c])) == NoMoreInput(Just([c]));
    } else {
      assert UnexpectedToken(Just([c]), s.Char(), s.line, s.col).Relabel(Just([c]))
        == UnexpectedToken(Just([c]), s.Char(), s.line, s.col);
    }
  }

  // ---------------------------------------------------------------------
  // Relabelling combinators

  /** `Label` leaves a success untouched and puts its label on a failure. */
  lemma LabelRelabels<T>(p: Parser<T>, l: string, s: State)
    ensures p.run(s).Success? ==> Label(p, l).run(s) == p.run(s)
    ensures p.run(s).Failure? ==> Label(p, l).run(s) == Failure(p.run(s).error.Relabel(Just(l)))
  {
  }

  /** Only the outermost label survives. */
  lemma LabelOverrides<T>(p: Parser<T>, l1: string, l2: string, s: State)
    ensures Label(Label(p, l1), l2).run(s) == Label(p, l2).run(s)
  {
    if p.run(s).Failure? {
      var e := p.run(s).error;
      assert e.Relabel(Just(l1)).Relabel(Just(l2)) == e.Relabel(Just(l2));
    }
  }

  /** `Map` transforms a success's value and keeps its cursor; a failure is
      reported under the label of the parser it maps, possibly null. */
  lemma MapTransforms<T, R>(p: Parser<T>, f: T -> R, s: State)
    ensures p.run(s).Success? ==> Map(p, f).run(s) == Success(f(p.run(s).value), p.run(s).state)
    ensures p.run(s).Failure? ==> Map(p, f).run(s) == Failure(p.run(s).error.Relabel(p.name))
  {
  }

  /** Mapping twice loses the label: the outer map reports a failure under the
      inner map's null label. */
  lemma MapTwiceDropsLabel<T, R, S>(p: Parser<T>, f: T -> R, g: R -> S, s: State)
    requires p.run(s).Failure?
    ensures Map(Map(p, f), g).run(s) == Failure(p.run(s).error.Relabel(None))
  {
    var e := p.run(s).error;
    assert e.Relabel(p.name).Relabel(None) == e.Relabel(None);
  }

  // ---------------------------------------------------------------------
  // Ordered choice

  /** `MapTo` replaces the value of a success by a constant; a failure is
      reported under the label of `p` itself. */
  lemma MapToCases<T, R>(p: Parser<T>, x: R, s: State)
    ensures p.run(s).Success? ==> MapTo(p, x).run(s) == Success(x, p.run(s).state)
    ensures p.run(s).Failure? ==> MapTo(p, x).run(s) == Failure(p.run(s).error.Relabel(p.name))
  {
  }

  /** If the left parser succeeds, `Or` returns exactly its result. */
  lemma OrLeftBiased<T>(p: Parser<T>, q: Parser<T>, s: State)
    requires p.run(s).Success?
    ensures Or(p, q).run(s) == p.run(s)
  {
  }

  /** If the left parser fails, `Or` runs the right parser on the original
      cursor, relabelling its failure "<left> or <right>". */
  lemma OrFallsBack<T>(p: Parser<T>, q: Parser<T>, s: State)
    requires p.run(s).Failure?
    ensures q.run(s).Success? ==> Or(p, q).run(s) == q.run(s)
    ensures q.run(s).Failure? ==>
      Or(p, q).run(s) == Failure(q.run(s).error.Relabel(Just(Joined(p.name, "or", q.name))))
  {
  }

  /** `e` is `f` under some label. */
  predicate SameButLabel(e: ParserError, f: ParserError) {
    e == f.Relabel(e.name)
  }

  /** Relabelling changes nothing but the label, and the last label wins. */
  lemma RelabelTwice(e: ParserError, l: Maybe<string>, m: Maybe<string>)
    ensures SameButLabel(e.Relabel(l), e) && SameButLabel(e, e)
    ensures e.Relabel(l).Relabel(m) == e.Relabel(m)
  {
  }

  lemma SameButLabelTrans(e: ParserError, f: ParserError, g: ParserError)
    requires SameButLabel(e, f) && SameButLabel(f, g)
    ensures SameButLabel(e, g)
  {
    RelabelTwice(g, f.name, e.name);
  }

  lemma RelabelSameButLabel(e: ParserError, f: ParserError, l: Maybe<string>)
    requires SameButLabel(e, f)
    ensures SameButLabel(e.Relabel(l), f) && e.Relabel(l) == f.Relabel(l)
  {
    RelabelTwice(f, e.name, l);
  }

  /** The index of the first parser in `ps` that succeeds at `s`, if any. */
  function FirstSuccess<T>(ps: seq<Parser<T>>, s: State): (i: nat)
    ensures i <= |ps|
    ensures forall j :: 0 <= j < i ==> ps[j].run(s).Failure?
    ensures i < |ps| ==> ps[i].run(s).Success?
    decreases |ps|
  {
    if |ps| == 0 then 0
    else if ps[0].run(s).Success? then 0
    else 1 + FirstSuccess(ps[1..], s)
  }

  /** The first success is at `i` when every parser before `i` fails and the
      one at `i`, if any, succeeds. */
  lemma {:induction false} FirstSuccessIs<T>(ps: seq<Parser<T>>, s: State, i: nat)
    requires i <= |ps|
    requires forall j :: 0 <= j < i ==> ps[j].run(s).Failure?
    requires i < |ps| ==> ps[i].run(s).Success?
    ensures FirstSuccess(ps, s) == i
    decreases |ps|
  {
    if i > 0 {
      FirstSuccessIs(ps[1..], s, i - 1);
    }
  }

  /** The left fold of `or` returns the result of the first alternative that
      succeeds; when none does, it fails with the last alternative's error. */
  lemma {:induction false} OrAllFirstMatch<T>(ps: seq<Parser<T>>, s: State)
    requires |ps| > 0
    ensures var i := FirstSuccess(ps, s);
      && (i < |ps| ==> OrAll(ps).run(s) == ps[i].run(s))
      && (i == |ps| ==>
            OrAll(ps).run(s).Failure? &&
            SameButLabel(OrAll(ps).run(s).error, ps[|ps| - 1].run(s).error))
    decreases |ps|
  {
    var last := ps[|ps| - 1];
    if |ps| == 1 {
      if last.run(s).Failure? {
        RelabelTwice(last.run(s).error, None, None);
      }
    } else {
      var init := ps[..|ps| - 1];
      OrAllFirstMatch(init, s);
      FirstSuccessPrefix(ps, s);
      if last.run(s).Failure? {
        RelabelTwice(last.run(s).error, Just(Joined(OrAll(init).name, "or", last.name)), None);
      }
    }
  }

  /** Dropping the last alternative changes the first success only when it
      was that alternative or none. */
  lemma {:induction false} FirstSuccessPrefix<T>(ps: seq<Parser<T>>, s: State)
    requires |ps| > 0
    ensures var i := FirstSuccess(ps[..|ps| - 1], s);
      i < |ps| - 1 ==> FirstSuccess(ps, s) == i
    ensures var i := FirstSuccess(ps[..|ps| - 1], s);
      i == |ps| - 1 ==> FirstSuccess(ps, s) == (if ps[|ps| - 1].run(s).Success? then |ps| - 1 else |ps|)
    decreases |ps|
  {
    if |ps| > 1 && ps[0].run(s).Failure? {
      assert ps[1..][..|ps| - 2] == ps[..|ps| - 1][1..];
      FirstSuccessPrefix(ps[1..], s);
    }
  }

  /** `Choice` is first-match ordered choice; its failures are labelled "choice". */
  lemma ChoiceFirstMatch<T>(ps: seq<Parser<T>>, s: State)
    requires |ps| > 0
    ensures var i := FirstSuccess(ps, s);
      && (i < |ps| ==> Choice(ps).run(s) == ps[i].run(s))
      && (i == |ps| ==>
            Choice(ps).run(s).Failure? &&
            Choice(ps).run(s).error.name == Just("choice") &&
            SameButLabel(Choice(ps).run(s).error, ps[|ps| - 1].run(s).error))
  {
    OrAllFirstMatch(ps, s);
    if FirstSuccess(ps, s) == |ps| {
      RelabelSameButLabel(OrAll(ps).run(s).error, ps[|ps| - 1].run(s).error, Just("choice"));
    }
  }

  // ---------------------------------------------------------------------
  // Character classes

  /** `PAnyOf(cs)` behaves exactly like a `Satisfy` that accepts the members
      of `cs`, under the label "choice-of [..]". */
  lemma AnyOfAccepts(cs: seq<char>, s: State)
    requires |cs| > 0
    ensures PAnyOf(cs).run(s) == Satisfy("choice-of " + ListText(cs), (c: char) => c in cs).run(s)
  {
    var ps, l := CharParsers(cs), "choice-of " + ListText(cs);
    ChoiceFirstMatch(ps, s);
    LabelRelabels(Choice(ps), l, s);
    SatisfyCases(l, (c: char) => c in cs, s);
    var i := FirstSuccess(ps, s);
    if i < |ps| {
      PCharCases(cs[i], s);
    } else {
      var c := cs[|cs| - 1];
      PCharCases(c, s);
      RelabelSameButLabel(Choice(ps).run(s).error, ps[|ps| - 1].run(s).error, Just(l));
      forall k | 0 <= k < |cs|
        ensures s.Eof() || s.Char() != cs[k]
      {
        PCharCases(cs[k], s);
      }
    }
  }

  /** `p` accepts exactly one character satisfying `pred` and returns it. */
  ghost predicate Recognizes(p: Parser<char>, pred: char -> bool) {
    forall s: State {:trigger p.run(s)} ::
      && p.run(s).Success? == (!s.Eof() && pred(s.Char()))
      && (p.run(s).Success? ==> p.run(s) == Success(s.Char(), s.Next()))
  }

  lemma SatisfyRecognizes(l: string, pred: char -> bool)
    ensures Recognizes(Satisfy(l, pred), pred)
  {
  }

  lemma AnyOfRecognizes(cs: seq<char>)
    requires |cs| > 0
    ensures Recognizes(PAnyOf(cs), (c: char) => c in cs)
  {
    forall s: State ensures
      && PAnyOf(cs).run(s).Success? == (!s.Eof() && s.Char() in cs)
      && (PAnyOf(cs).run(s).Success? ==> PAnyOf(cs).run(s) == Success(s.Char(), s.Next()))
    {
      AnyOfAccepts(cs, s);
    }
  }

  lemma RecognizesAdvances(p: Parser<char>, pred: char -> bool)
    requires Recognizes(p, pred)
    ensures Advances(p)
  {
    forall s: State | p.run(s).Success?
      ensures Beyond(s, p.run(s).state)
    {
      assert p.run(s) == Success(s.Char(), s.Next());
    }
  }

  lemma LabelRecognizes(p: Parser<char>, pred: char -> bool, l: string)
    requires Recognizes(p, pred)
    ensures Recognizes(Label(p, l), pred)
  {
  }

  /** The length of the longest run of characters satisfying `pred` in `text`
      from index `i`. */
  function Span(pred: char -> bool, text: string, i: nat): (k: nat)
    requires i <= |text|
    ensures i + k <= |text|
    ensures forall j :: i <= j < i + k ==> pred(text[j])
    ensures i + k == |text| || !pred(text[i + k])
    decreases |text| - i
  {
    if i == |text| || !pred(text[i]) then 0 else 1 + Span(pred, text, i + 1)
  }

  /** `Span` is exactly the length of a run of `pred` characters that ends at
      the end of the text or at a character outside `pred`. */
  lemma {:induction false} SpanExact(pred: char -> bool, text: string, i: nat, n: nat)
    requires i + n <= |text|
    requires forall j :: i <= j < i + n ==> pred(text[j])
    requires i + n == |text| || !pred(text[i + n])
    ensures Span(pred, text, i) == n
    decreases n
  {
    if n > 0 {
      SpanExact(pred, text, i + 1, n - 1);
    }
  }

  // ---------------------------------------------------------------------
  // Repetition

  /** `ZeroOrMore` never fails: when `p` fails at once it succeeds with no
      values on the unchanged cursor. */
  lemma ZeroOrMoreStops<A, T>(p: Parser<A>, view: A -> Piece<T>, s: State)
    requires Advances(p)
    requires p.run(s).Failure?
    ensures ZeroOrMore(p, view).run(s) == Success([], s)
  {
  }

  /** One round of `ZeroOrMore`: a success of `p` is followed by the rest of
      the repetition from where `p` stopped. */
  lemma ZeroOrMoreStep<A, T>(p: Parser<A>, view: A -> Piece<T>, s: State)
    requires Advances(p)
    requires p.run(s).Success?
    ensures var rest := ZeroOrMore(p, view).run(p.run(s).state);
      ZeroOrMore(p, view).run(s) == Success(Flatten(view(p.run(s).value)) + rest.value, rest.state)
  {
  }

  /** From `s`, `p` reads the character at offset `j` and stops right after it. */
  ghost predicate ReadsAt(p: Parser<char>, s: State, j: nat) {
    s.pos + j < |s.input| && p.run(Skip(s, j)) == Success(s.input[s.pos + j], Skip(s, j + 1))
  }

  /** What `p` reads from offset `j + 1` on is what it reads from offset `j`
      after one step. */
  lemma ReadsAtShift(p: Parser<char>, s: State, k: nat)
    requires 0 < k && s.pos + k <= |s.input|
    requires forall j :: 0 <= j < k ==> ReadsAt(p, s, j)
    ensures forall j :: 0 <= j < k - 1 ==> ReadsAt(p, s.Next(), j)
  {
    forall j | 0 <= j < k - 1
      ensures ReadsAt(p, s.Next(), j)
    {
      ReadsAtNext(p, s, j);
    }
  }

  lemma ReadsAtNext(p: Parser<char>, s: State, j: nat)
    requires s.pos < |s.input| && ReadsAt(p, s, j + 1)
    ensures ReadsAt(p, s.Next(), j)
  {
    SkipNext(s, j);
    SkipNext(s, j + 1);
  }

  /** The next `k` characters are the current one followed by the `k - 1`
      after it. */
  lemma SliceNext(s: State, k: nat)
    requires 0 < k && s.pos + k <= |s.input|
    ensures var n := s.Next();
      s.input[s.pos..s.pos + k] == [s.Char()] + n.input[n.pos..n.pos + (k - 1)]
  {
    var n := s.Next();
    assert n.input == s.input && n.pos == s.pos + 1;
  }

  /** Reading at offset 0 is one step of `p` from `s` itself. */
  lemma ReadsFirst(p: Parser<char>, s: State)
    requires ReadsAt(p, s, 0)
    ensures !s.Eof() && p.run(s) == Success(s.Char(), s.Next())
  {
  }

  /** `SkipNext` in the form the inductions below use. */
  lemma SkipAfterNext(s: State, k: nat)
    requires 0 < k && s.pos + k <= |s.input|
    ensures Skip(s.Next(), k - 1) == Skip(s, k)
  {
    SkipNext(s, k - 1);
  }

  /** When `p` reads the next `k` characters one by one and then fails,
      `ZeroOrMore(p)` returns exactly those `k` characters. */
  lemma {:induction false} ZeroOrMoreCollects(p: Parser<char>, s: State, k: nat)
    requires Advances(p)
    requires s.pos + k <= |s.input|
    requires forall j :: 0 <= j < k ==> ReadsAt(p, s, j)
    requires p.run(Skip(s, k)).Failure?
    ensures ZeroOrMore(p, Scalar).run(s) == Success(s.input[s.pos..s.pos + k], Skip(s, k))
    decreases k
  {
    if k > 0 {
      ReadsAtShift(p, s, k);
      SkipAfterNext(s, k);
      ZeroOrMoreCollects(p, s.Next(), k - 1);
      ZeroOrMoreCollectsStep(p, s, k);
    } else {
      ZeroOrMoreStops(p, Scalar, s);
      assert s.input[s.pos..s.pos + k] == [];
    }
  }

  /** The inductive step of `ZeroOrMoreCollects`: one character read by `p`,
      then the rest of the run from the next cursor. */
  lemma ZeroOrMoreCollectsStep(p: Parser<char>, s: State, k: nat)
    requires Advances(p) && 0 < k && s.pos + k <= |s.input|
    requires ReadsAt(p, s, 0)
    requires var n := s.Next();
      ZeroOrMore(p, Scalar).run(n) == Success(n.input[n.pos..n.pos + (k - 1)], Skip(n, k - 1))
    ensures ZeroOrMore(p, Scalar).run(s) == Success(s.input[s.pos..s.pos + k], Skip(s, k))
  {
    ReadsFirst(p, s);
    SkipAfterNext(s, k);
    ZeroOrMoreStep(p, Scalar, s);
    assert Flatten(Scalar(s.Char())) == [s.Char()];
    SliceNext(s, k);
  }

  /** A parser recognizing `pred` reads, one by one, each character of the
      run of length `k` that `Span` measures, and fails right after it. */
  lemma SpanReads(p: Parser<char>, pred: char -> bool, s: State, k: nat)
    requires Recognizes(p, pred)
    requires s.pos <= |s.input| && k == Span(pred, s.input, s.pos)
    ensures s.pos + k <= |s.input|
    ensures forall j :: 0 <= j < k ==> ReadsAt(p, s, j)
    ensures p.run(Skip(s, k)).Failure?
  {
    forall j | 0 <= j < k
      ensures ReadsAt(p, s, j)
    {
      var t := Skip(s, j);
      assert pred(s.input[s.pos + j]);
      assert !t.Eof() && pred(t.Char());
      assert p.run(t) == Success(t.Char(), t.Next());
    }
    var t := Skip(s, k);
    assert t.Eof() || !pred(t.Char());
  }

  /** Over a character class, `ZeroOrMore` takes the longest run of matching
      characters: the `k` characters that `Span` counts. */
  lemma ZeroOrMoreSpan(p: Parser<char>, pred: char -> bool, s: State, k: nat)
    requires Recognizes(p, pred)
    requires s.pos <= |s.input| && k == Span(pred, s.input, s.pos)
    ensures Advances(p) && s.pos + k <= |s.input|
    ensures ZeroOrMore(p, Scalar).run(s) == Success(s.input[s.pos..s.pos + k], Skip(s, k))
  {
    RecognizesAdvances(p, pred);
    SpanReads(p, pred, s, k);
    ZeroOrMoreCollects(p, s, k);
  }

  /** `OneOrMore(p)` fails exactly when its first attempt fails, and then under
      the label "one-or-more"; otherwise its values are the first value
      followed by those of `ZeroOrMore(p)` from there. */
  lemma OneOrMoreNeedsOne<T>(p: Parser<T>, s: State)
    requires Advances(p)
    ensures OneOrMore(p).run(s).Failure? <==> p.run(s).Failure?
    ensures p.run(s).Failure? ==>
      OneOrMore(p).run(s) == Failure(p.run(s).error.Relabel(Just("one-or-more")))
    ensures p.run(s).Success? ==>
      var rest := ZeroOrMore(p, Scalar).run(p.run(s).state);
      OneOrMore(p).run(s) == Success([p.run(s).value] + rest.value, rest.state)
  {
    var z := ZeroOrMore(p, Scalar);
    AndConcatenates(p, z, Scalar, Spliced, s);
    if p.run(s).Success? {
      var rest := z.run(p.run(s).state);
      assert rest.Success?;
      assert Flatten(Scalar(p.run(s).value)) + Flatten(Spliced(rest.value)) == [p.run(s).value] + rest.value;
    }
  }

  /** Over a character class, `OneOrMore` takes the longest run of matching
      characters, the `k` that `Span` counts, and fails when there is none. */
  lemma OneOrMoreSpan(p: Parser<char>, pred: char -> bool, s: State, k: nat)
    requires Recognizes(p, pred)
    requires s.pos <= |s.input| && k == Span(pred, s.input, s.pos)
    ensures Advances(p) && s.pos + k <= |s.input|
    ensures k > 0 ==> OneOrMore(p).run(s) == Success(s.input[s.pos..s.pos + k], Skip(s, k))
    ensures k == 0 ==> OneOrMore(p).run(s) == Failure(p.run(s).error.Relabel(Just("one-or-more")))
  {
    RecognizesAdvances(p, pred);
    if k > 0 {
      OneOrMoreSpanSome(p, pred, s, k);
    } else {
      assert s.Eof() || !pred(s.Char());
      assert p.run(s).Failure?;
      OneOrMoreNeedsOne(p, s);
    }
  }

  /** Once `p` has succeeded, `OneOrMore(p)` and `ZeroOrMore(p)` agree. */
  lemma OneOrMoreAgrees<T>(p: Parser<T>, s: State)
    requires Advances(p) && p.run(s).Success?
    ensures OneOrMore(p).run(s) == ZeroOrMore(p, Scalar).run(s)
  {
    OneOrMoreNeedsOne(p, s);
    ZeroOrMoreStep(p, Scalar, s);
  }

  lemma OneOrMoreSpanSome(p: Parser<char>, pred: char -> bool, s: State, k: nat)
    requires Recognizes(p, pred) && Advances(p)
    requires s.pos <= |s.input| && k == Span(pred, s.input, s.pos) && k > 0
    ensures s.pos + k <= |s.input|
    ensures OneOrMore(p).run(s) == Success(s.input[s.pos..s.pos + k], Skip(s, k))
  {
    assert p.run(s).Success?;
    OneOrMoreAgrees(p, s);
    ZeroOrMoreSpan(p, pred, s, k);
  }

  /** `Optional` never fails: it wraps a success of `p` in `Just` and answers
      `None` on the unchanged cursor when `p` fails. */
  lemma OptionalCases<T>(p: Parser<T>, s: State)
    ensures p.run(s).Success? ==> Optional(p).run(s) == Success(Just(p.run(s).value), p.run(s).state)
    ensures p.run(s).Failure? ==> Optional(p).run(s) == Success(None, s)
  {
  }

  // ---------------------------------------------------------------------
  // Sequencing

  /** `And` succeeds when both parsers do in turn, with the flattened list of
      both values; a failure of either is relabelled "<left> and <right>". */
  lemma AndConcatenates<T, U, V>(p: Parser<T>, q: Parser<U>, vp: T -> Piece<V>, vq: U -> Piece<V>, s: State)
    ensures var l := Just(Joined(p.name, "and", q.name));
      match p.run(s)
      case Failure(e) => And(p, q, vp, vq).run(s) == Failure(e.Relabel(l))
      case Success(a, t) =>
        match q.run(t)
        case Failure(e) => And(p, q, vp, vq).run(s) == Failure(e.Relabel(l))
        case Success(b, u) => And(p, q, vp, vq).run(s) == Success(Flatten(vp(a)) + Flatten(vq(b)), u)
  {
    var l := Just(Joined(p.name, "and", q.name));
    match p.run(s)
    case Failure(e) => RelabelTwice(e, None, l);
    case Success(a, t) =>
      match q.run(t)
      case Failure(e) => RelabelTwice(e, None, l);
      case Success(_, _) =>
  }

  /** `AndR` keeps the right value; a failure of either side is relabelled
      "<left> andr <right>". */
  lemma AndRCases<T, U>(p: Parser<T>, q: Parser<U>, s: State)
    ensures var l := Just(Joined(p.name, "andr", q.name));
      match p.run(s)
      case Failure(e) => AndR(p, q).run(s) == Failure(e.Relabel(l))
      case Success(_, t) =>
        match q.run(t)
        case Failure(e) => AndR(p, q).run(s) == Failure(e.Relabel(l))
        case Success(b, u) => AndR(p, q).run(s) == Success(b, u)
  {
    var l := Just(Joined(p.name, "andr", q.name));
    match p.run(s)
    case Failure(e) => RelabelTwice(e, None, l);
    case Success(a, t) =>
      match q.run(t)
      case Failure(e) => RelabelTwice(e, None, l);
      case Success(_, _) =>
  }

  /** `AndL` keeps the left value; a failure of either side is relabelled
      "<left> andl <right>". */
  lemma AndLCases<T, U>(p: Parser<T>, q: Parser<U>, s: State)
    ensures var l := Just(Joined(p.name, "andl", q.name));
      match p.run(s)
      case Failure(e) => AndL(p, q).run(s) == Failure(e.Relabel(l))
      case Success(a, t) =>
        match q.run(t)
        case Failure(e) => AndL(p, q).run(s) == Failure(e.Relabel(l))
        case Success(_, u) => AndL(p, q).run(s) == Success(a, u)
  {
    var l := Just(Joined(p.name, "andl", q.name));
    match p.run(s)
    case Failure(e) => RelabelTwice(e, None, l);
    case Success(a, t) =>
      match q.run(t)
      case Failure(e) => RelabelTwice(e, None, l);
      case Success(_, _) =>
  }

  /** `FollowedBy` pairs both values; a failure of either side is relabelled
      "<left> followedBy <right>". */
  lemma FollowedByCases<T, U>(p: Parser<T>, q: Parser<U>, s: State)
    ensures var l := Just(Joined(p.name, "followedBy", q.name));
      match p.run(s)
      case Failure(e) => FollowedBy(p, q).run(s) == Failure(e.Relabel(l))
      case Success(a, t) =>
        match q.run(t)
        case Failure(e) => FollowedBy(p, q).run(s) == Failure(e.Relabel(l))
        case Success(b, u) => FollowedBy(p, q).run(s) == Success((a, b), u)
  {
    var l := Just(Joined(p.name, "followedBy", q.name));
    match p.run(s)
    case Failure(e) => RelabelTwice(e, None, l);
    case Success(a, t) =>
      match q.run(t)
      case Failure(e) => RelabelTwice(e, None, l);
      case Success(_, _) =>
  }

  /** Both sides of an `AndR` succeed in turn: the right value survives. */
  lemma AndRThen<T, U>(p: Parser<T>, q: Parser<U>, s: State, a: T, t: State, b: U, u: State)
    requires p.run(s) == Success(a, t) && q.run(t) == Success(b, u)
    ensures AndR(p, q).run(s) == Success(b, u)
  {
    AndRCases(p, q, s);
  }

  /** Both sides of an `AndL` succeed in turn: the left value survives. */
  lemma AndLThen<T, U>(p: Parser<T>, q: Parser<U>, s: State, a: T, t: State, b: U, u: State)
    requires p.run(s) == Success(a, t) && q.run(t) == Success(b, u)
    ensures AndL(p, q).run(s) == Success(a, u)
  {
    AndLCases(p, q, s);
  }

  /** Both sides of a `FollowedBy` succeed in turn: the values are paired. */
  lemma FollowedByThen<T, U>(p: Parser<T>, q: Parser<U>, s: State, a: T, t: State, b: U, u: State)
    requires p.run(s) == Success(a, t) && q.run(t) == Success(b, u)
    ensures FollowedBy(p, q).run(s) == Success((a, b), u)
  {
    FollowedByCases(p, q, s);
  }

  /** A sequence fails when its right side fails after its left side. */
  lemma SequenceFailsRight<T, U>(p: Parser<T>, q: Parser<U>, s: State, a: T, t: State)
    requires p.run(s) == Success(a, t) && q.run(t).Failure?
    ensures AndL(p, q).run(s).Failure? && AndR(p, q).run(s).Failure? && FollowedBy(p, q).run(s).Failure?
  {
    AndLCases(p, q, s);
    AndRCases(p, q, s);
    FollowedByCases(p, q, s);
  }

  /** `And` fails when its left side fails. */
  lemma AndFailsLeft<T, U, V>(p: Parser<T>, q: Parser<U>, vp: T -> Piece<V>, vq: U -> Piece<V>, s: State)
    requires p.run(s).Failure?
    ensures And(p, q, vp, vq).run(s).Failure?
  {
    AndConcatenates(p, q, vp, vq, s);
  }

  /** A sequence fails when its left side fails. */
  lemma SequenceFailsLeft<T, U>(p: Parser<T>, q: Parser<U>, s: State)
    requires p.run(s).Failure?
    ensures AndL(p, q).run(s).Failure? && AndR(p, q).run(s).Failure? && FollowedBy(p, q).run(s).Failure?
  {
    AndLCases(p, q, s);
    AndRCases(p, q, s);
    FollowedByCases(p, q, s);
  }

  /** The input from `s` has the character `str[j]` at offset `j`. */
  predicate Agrees(s: State, str: string, j: nat) {
    j < |str| && s.pos + j < |s.input| && s.input[s.pos + j] == str[j]
  }

  /** How many characters of `str`, from index `i` on, the input matches
      from `s` before the first difference. */
  function Matched(s: State, str: string, i: nat): (m: nat)
    requires i <= |str|
    ensures i <= m <= |str|
    ensures forall j :: i <= j < m ==> Agrees(s, str, j)
    ensures m < |str| ==> !Agrees(s, str, m)
    ensures s.pos + i <= |s.input| ==> s.pos + m <= |s.input|
    decreases |str| - i
  {
    if i == |str| || !Agrees(s, str, i) then i else Matched(s, str, i + 1)
  }

  /** The input agrees with `str` on its first `m` characters and differs
      at character `m`, if `str` has one. */
  ghost predicate MatchesUpTo(s: State, str: string, m: nat) {
    && m <= |str| && s.pos + m <= |s.input|
    && (forall j :: 0 <= j < m ==> Agrees(s, str, j))
    && (m < |str| ==> !Agrees(s, str, m))
  }

  /** The input starts with `str` exactly when all of `str` is matched. */
  lemma StartsWithMatched(s: State, str: string)
    requires s.pos <= |s.input|
    ensures StartsWith(s, str) <==> Matched(s, str, 0) == |str|
  {
    var m := Matched(s, str, 0);
    if m == |str| {
      assert s.pos + |str| <= |s.input| by {
        if |str| > 0 {
          assert Agrees(s, str, |str| - 1);
        }
      }
      forall j | 0 <= j < |str|
        ensures s.input[s.pos..s.pos + |str|][j] == str[j]
      {
        assert Agrees(s, str, j);
      }
    }
  }

  /** The error reported for a character-by-character match that stops `m`
      characters after `s`: no more input at the end, otherwise the
      unexpected character and its position. */
  function ErrorAt(s: State, m: nat): ParserError
    requires s.pos + m <= |s.input|
  {
    if s.pos + m == |s.input| then NoMoreInput(None)
    else UnexpectedToken(None, s.input[s.pos + m], Skip(s, m).line, Skip(s, m).col)
  }

  /** One step of the fold behind `Sequence`. */
  lemma AndPrefixStep<T>(ps: seq<Parser<T>>, k: nat, s: State)
    requires 0 < k <= |ps|
    ensures var q, last := AndPrefix(ps, k - 1), ps[k - 1];
      var l := Just(Joined(q.name, "and", last.name));
      match q.run(s)
      case Failure(e) => AndPrefix(ps, k).run(s) == Failure(e.Relabel(l))
      case Success(a, t) =>
        match last.run(t)
        case Failure(e) => AndPrefix(ps, k).run(s) == Failure(e.Relabel(l))
        case Success(b, u) => AndPrefix(ps, k).run(s) == Success(a + [b], u)
  {
    var q, last := AndPrefix(ps, k - 1), ps[k - 1];
    assert AndPrefix(ps, k) == And(q, last, Spliced, Scalar);
    AndConcatenates(q, last, Spliced, Scalar, s);
  }

  /** A failure of the fold so far is the failure of the longer fold, under
      another label. */
  lemma AndPrefixPropagates<T>(ps: seq<Parser<T>>, k: nat, s: State)
    requires 0 < k <= |ps| && AndPrefix(ps, k - 1).run(s).Failure?
    ensures AndPrefix(ps, k).run(s).Failure?
    ensures SameButLabel(AndPrefix(ps, k).run(s).error, AndPrefix(ps, k - 1).run(s).error)
  {
    AndPrefixStep(ps, k, s);
    RelabelTwice(AndPrefix(ps, k - 1).run(s).error, Just(Joined(AndPrefix(ps, k - 1).name, "and", ps[k - 1].name)), None);
  }

  /** One step of the fold after a successful prefix. */
  lemma AndPrefixStepAfter<T>(ps: seq<Parser<T>>, k: nat, s: State, a: seq<T>, t: State)
    requires 0 < k <= |ps| && AndPrefix(ps, k - 1).run(s) == Success(a, t)
    ensures ps[k - 1].run(t).Success? ==>
      AndPrefix(ps, k).run(s) == Success(a + [ps[k - 1].run(t).value], ps[k - 1].run(t).state)
    ensures ps[k - 1].run(t).Failure? ==>
      AndPrefix(ps, k).run(s).Failure? && SameButLabel(AndPrefix(ps, k).run(s).error, ps[k - 1].run(t).error)
  {
    AndPrefixStep(ps, k, s);
    if ps[k - 1].run(t).Failure? {
      RelabelTwice(ps[k - 1].run(t).error, Just(Joined(AndPrefix(ps, k - 1).name, "and", ps[k - 1].name)), None);
    }
  }

  /** Where the input differs from `str` at `j`, `PChar(str[j])` fails with
      the error `ErrorAt` describes. */
  lemma PCharMismatch(str: string, j: nat, s: State)
    requires j < |str| && s.pos + j <= |s.input| && !Agrees(s, str, j)
    ensures PChar(str[j]).run(Skip(s, j)).Failure?
    ensures SameButLabel(PChar(str[j]).run(Skip(s, j)).error, ErrorAt(s, j))
  {
    var t := Skip(s, j);
    PCharCases(str[j], t);
    RelabelTwice(ErrorAt(s, j), Just([str[j]]), None);
  }

  /** After the first `k - 1` characters of `str` have matched, the fold
      over `k` reads character `k - 1` where the input agrees with it. */
  lemma AndPrefixExtends(str: string, k: nat, s: State)
    requires 0 < k <= |str| && s.pos + k - 1 <= |s.input|
    requires AndPrefix(CharParsers(str), k - 1).run(s) == Success(str[..k - 1], Skip(s, k - 1))
    requires Agrees(s, str, k - 1)
    ensures AndPrefix(CharParsers(str), k).run(s) == Success(str[..k], Skip(s, k))
  {
    var t := Skip(s, k - 1);
    assert CharParsers(str)[k - 1] == PChar(str[k - 1]);
    PCharCases(str[k - 1], t);
    assert PChar(str[k - 1]).run(t) == Success(str[k - 1], Skip(s, k));
    AndPrefixStepAfter(CharParsers(str), k, s, str[..k - 1], t);
    TakeSnoc(str, k);
  }

  lemma TakeSnoc(str: string, k: nat)
    requires 0 < k <= |str|
    ensures str[..k] == str[..k - 1] + [str[k - 1]]
  {
  }

  /** After the first `k - 1` characters of `str` have matched, the fold
      over `k` fails where the input differs from character `k - 1`. */
  lemma AndPrefixStops(str: string, k: nat, s: State)
    requires 0 < k <= |str| && s.pos + k - 1 <= |s.input|
    requires AndPrefix(CharParsers(str), k - 1).run(s) == Success(str[..k - 1], Skip(s, k - 1))
    requires !Agrees(s, str, k - 1)
    ensures AndPrefix(CharParsers(str), k).run(s).Failure?
    ensures SameButLabel(AndPrefix(CharParsers(str), k).run(s).error, ErrorAt(s, k - 1))
  {
    var ps := CharParsers(str);
    var t := Skip(s, k - 1);
    PCharMismatch(str, k - 1, s);
    assert ps[k - 1] == PChar(str[k - 1]);
    assert ps[k - 1].run(t).Failure?;
    AndPrefixStepAfter(ps, k, s, str[..k - 1], t);
    SameButLabelTrans(AndPrefix(ps, k).run(s).error, ps[k - 1].run(t).error, ErrorAt(s, k - 1));
  }

  /** The first `k` characters of `str`, matched in turn: their text when the
      input matches that far, otherwise the error where matching stops. */
  lemma {:induction false} AndPrefixMatches(str: string, k: nat, s: State, m: nat)
    requires k <= |str| && MatchesUpTo(s, str, m)
    ensures k <= m ==> AndPrefix(CharParsers(str), k).run(s) == Success(str[..k], Skip(s, k))
    ensures m < k ==> AndPrefix(CharParsers(str), k).run(s).Failure?
    ensures m < k ==> SameButLabel(AndPrefix(CharParsers(str), k).run(s).error, ErrorAt(s, m))
    decreases k
  {
    if k > 0 {
      AndPrefixMatches(str, k - 1, s, m);
      if m < k - 1 {
        AndPrefixFailed(str, k, s, m);
      } else {
        AndPrefixMatched(str, k, s, m);
      }
    } else {
      assert str[..0] == [];
    }
  }

  /** The step of `AndPrefixMatches` once the input differs before `k - 1`. */
  lemma AndPrefixFailed(str: string, k: nat, s: State, m: nat)
    requires 0 < k <= |str| && MatchesUpTo(s, str, m) && m < k - 1
    requires AndPrefix(CharParsers(str), k - 1).run(s).Failure?
    requires SameButLabel(AndPrefix(CharParsers(str), k - 1).run(s).error, ErrorAt(s, m))
    ensures AndPrefix(CharParsers(str), k).run(s).Failure?
    ensures SameButLabel(AndPrefix(CharParsers(str), k).run(s).error, ErrorAt(s, m))
  {
    var ps := CharParsers(str);
    AndPrefixPropagates(ps, k, s);
    SameButLabelTrans(AndPrefix(ps, k).run(s).error, AndPrefix(ps, k - 1).run(s).error, ErrorAt(s, m));
  }

  /** The step of `AndPrefixMatches` once the first `k - 1` characters match. */
  lemma AndPrefixMatched(str: string, k: nat, s: State, m: nat)
    requires 0 < k <= |str| && MatchesUpTo(s, str, m) && k - 1 <= m
    requires AndPrefix(CharParsers(str), k - 1).run(s) == Success(str[..k - 1], Skip(s, k - 1))
    ensures k <= m ==> AndPrefix(CharParsers(str), k).run(s) == Success(str[..k], Skip(s, k))
    ensures m < k ==> AndPrefix(CharParsers(str), k).run(s).Failure?
    ensures m < k ==> SameButLabel(AndPrefix(CharParsers(str), k).run(s).error, ErrorAt(s, m))
  {
    if m == k - 1 {
      AndPrefixStops(str, k, s);
    } else {
      assert Agrees(s, str, k - 1);
      AndPrefixExtends(str, k, s);
    }
  }

  /** `PString(str)` is the fold over the characters of `str` with every
      failure relabelled `str`. */
  lemma PStringUnfolds(str: string, s: State)
    ensures var r := AndPrefix(CharParsers(str), |str|).run(s);
      && (r.Success? ==> PString(str).run(s) == r)
      && (r.Failure? ==> PString(str).run(s) == Failure(r.error.Relabel(Just(str))))
  {
    var q := AndAll(CharParsers(str));
    var r := q.run(s);
    if r.Failure? {
      var e := r.error;
      RelabelTwice(e, Just("sequence"), Just("sequence"));
      RelabelTwice(e.Relabel(Just("sequence")), Just("sequence"), Just(str));
      RelabelTwice(e, Just("sequence"), Just(str));
    }
  }

  /** `PString(str)` succeeds exactly when the remaining input starts with
      `str`, returning `str` and moving `|str|` characters; otherwise it fails
      with the error met at the first mismatching character, labelled `str`. */
  lemma PStringMatches(str: string, s: State)
    requires s.pos <= |s.input|
    ensures StartsWith(s, str) ==> PString(str).run(s) == Success(str, Skip(s, |str|))
    ensures !StartsWith(s, str) ==>
      PString(str).run(s) == Failure(ErrorAt(s, Matched(s, str, 0)).Relabel(Just(str)))
  {
    StartsWithMatched(s, str);
    AndPrefixMatches(str, |str|, s, Matched(s, str, 0));
    PStringUnfolds(str, s);
    var r := AndPrefix(CharParsers(str), |str|).run(s);
    if StartsWith(s, str) {
      assert str[..|str|] == str;
    } else {
      RelabelSameButLabel(r.error, ErrorAt(s, Matched(s, str, 0)), Just(str));
    }
  }

  // ---------------------------------------------------------------------
  // Integers

  /** A decimal digit, the class `pDigit` accepts. */
  predicate IsDigit(c: char) {
    c in Digits
  }

  lemma DigitRecognizes()
    ensures Recognizes(PDigit(), IsDigit)
  {
    AnyOfRecognizes(Digits);
    LabelRecognizes(PAnyOf(Digits), (c: char) => c in Digits, "digit");
  }

  /** The sign of an integer, if there is one, is one character. */
  function SignLength(s: State): (i: nat)
    ensures i <= 1
    ensures i == 1 <==> !s.Eof() && s.Char() in "-+"
  {
    if !s.Eof() && s.Char() in "-+" then 1 else 0
  }

  lemma OptionalSign(s: State, i: nat)
    requires s.pos <= |s.input| && i == SignLength(s)
    ensures s.pos + i <= |s.input|
    ensures Optional(PSign()).run(s) == Success(if i == 1 then Just(s.Char()) else None, Skip(s, i))
  {
    AnyOfRecognizes("-+");
    OptionalCases(PSign(), s);
  }

  /** `pDigits` takes the whole run of digits, and fails when there is none. */
  lemma DigitsSpan(t: State, k: nat)
    requires t.pos <= |t.input| && k == Span(IsDigit, t.input, t.pos)
    ensures t.pos + k <= |t.input|
    ensures k > 0 ==> PDigits().run(t) == Success(t.input[t.pos..t.pos + k], Skip(t, k))
    ensures k == 0 ==> PDigits().run(t).Failure?
  {
    DigitRecognizes();
    OneOrMoreSpan(PDigit(), IsDigit, t, k);
    LabelRelabels(OneOrMore(PDigit()), "digits", t);
  }

  /** Reading the optional sign then the digits covers one stretch of input. */
  lemma SignedSlice(s: State, i: nat, m: Maybe<char>, t: State, k: nat)
    requires s.pos + i + k <= |s.input| && i == SignLength(s) && t == Skip(s, i)
    requires m == if i == 1 then Just(s.Char()) else None
    ensures Flatten(OfMaybe(m)) + t.input[t.pos..t.pos + k] == s.input[s.pos..s.pos + i + k]
    ensures Skip(t, k) == Skip(s, i + k)
  {
    if i == 1 {
      assert Skip(s, 1) == s.Next();
      assert Flatten(OfMaybe(m)) == [s.Char()];
      SignedSliceSign(s, t, k);
    } else {
      assert Flatten(OfMaybe(m)) == [];
      UnsignedSlice(s, i, t, k);
    }
  }

  lemma UnsignedSlice(s: State, i: nat, t: State, k: nat)
    requires s.pos + i + k <= |s.input| && i == 0 && t == Skip(s, i)
    ensures [] + t.input[t.pos..t.pos + k] == s.input[s.pos..s.pos + i + k]
    ensures Skip(t, k) == Skip(s, i + k)
  {
    assert t == s;
  }

  lemma SignedSliceSign(s: State, t: State, k: nat)
    requires s.pos + 1 + k <= |s.input| && t == s.Next()
    ensures [s.Char()] + t.input[t.pos..t.pos + k] == s.input[s.pos..s.pos + 1 + k]
    ensures Skip(t, k) == Skip(s, 1 + k)
  {
    SliceNext(s, k + 1);
    SkipNext(s, k);
  }

  lemma PIntDigits(s: State, i: nat, t: State, k: nat)
    requires s.pos + i + k <= |s.input| && i == SignLength(s) && t == Skip(s, i) && 0 < k
    requires PDigits().run(t) == Success(t.input[t.pos..t.pos + k], Skip(t, k))
    ensures PInt().run(s) == Success(IntValue(s.input[s.pos..s.pos + i + k]), Skip(s, i + k))
  {
    var o := Optional(PSign());
    var a := And(o, PDigits(), OfMaybe, Spliced);
    var m := if i == 1 then Just(s.Char()) else None;
    var ds := t.input[t.pos..t.pos + k];
    OptionalSign(s, i);
    AndConcatenates(o, PDigits(), OfMaybe, Spliced, s);
    assert a.run(s) == Success(Flatten(OfMaybe(m)) + Flatten(Spliced(ds)), Skip(t, k));
    assert Flatten(Spliced(ds)) == ds;
    SignedSlice(s, i, m, t, k);
    assert a.run(s) == Success(s.input[s.pos..s.pos + i + k], Skip(s, i + k));
    MapTransforms(a, IntValue, s);
    LabelRelabels(Map(a, IntValue), "int", s);
    assert PInt() == Label(Map(a, IntValue), "int");
  }

  lemma PIntNoDigits(s: State, i: nat)
    requires s.pos + i <= |s.input| && i == SignLength(s)
    requires PDigits().run(Skip(s, i)).Failure?
    ensures PInt().run(s).Failure? && PInt().run(s).error.name == Just("int")
  {
    var o := Optional(PSign());
    var a := And(o, PDigits(), OfMaybe, Spliced);
    OptionalSign(s, i);
    AndConcatenates(o, PDigits(), OfMaybe, Spliced, s);
    assert a.run(s).Failure?;
    MapTransforms(a, IntValue, s);
    LabelRelabels(Map(a, IntValue), "int", s);
  }

  /** `pInt` reads an optional sign and the longest run of digits after it, and
      yields their value; without a digit it fails under the label "int". */
  lemma PIntReads(s: State, i: nat, k: nat)
    requires s.pos <= |s.input| && i == SignLength(s)
    requires s.pos + i <= |s.input| && k == Span(IsDigit, s.input, s.pos + i)
    ensures s.pos + i + k <= |s.input|
    ensures k > 0 ==> PInt().run(s) == Success(IntValue(s.input[s.pos..s.pos + i + k]), Skip(s, i + k))
    ensures k == 0 ==> PInt().run(s).Failure? && PInt().run(s).error.name == Just("int")
  {
    var t := Skip(s, i);
    assert t.input == s.input && t.pos == s.pos + i;
    DigitsSpan(t, k);
    if k > 0 {
      PIntDigits(s, i, t, k);
    } else {
      PIntNoDigits(s, i);
    }
  }

  // ---------------------------------------------------------------------
  // Booleans

  /** `pBoolean` reads the word "true" or else the word "false"; anything
      else fails under the label "boolean". */
  lemma PBooleanReads(s: State)
    requires s.pos <= |s.input|
    ensures StartsWith(s, "true") ==> PBoolean().run(s) == Success(true, Skip(s, 4))
    ensures !StartsWith(s, "true") && StartsWith(s, "false") ==> PBoolean().run(s) == Success(false, Skip(s, 5))
    ensures !StartsWith(s, "true") && !StartsWith(s, "false") ==>
      PBoolean().run(s).Failure? && PBoolean().run(s).error.name == Just("boolean")
  {
    var t, f := MapTo(PString("true"), true), MapTo(PString("false"), false);
    PStringMatches("true", s);
    PStringMatches("false", s);
    if t.run(s).Success? {
      OrLeftBiased(t, f, s);
    } else {
      OrFallsBack(t, f, s);
    }
    LabelRelabels(Or(t, f), "boolean", s);
  }

  /** `PString(str)` succeeds exactly when the input starts with `str`. */
  lemma PStringSucceeds(str: string, s: State)
    requires s.pos <= |s.input|
    ensures PString(str).run(s).Success? <==> StartsWith(s, str)
    ensures StartsWith(s, str) ==> PString(str).run(s) == Success(str, Skip(s, |str|))
  {
    PStringMatches(str, s);
  }
}
