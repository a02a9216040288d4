/** The parser-combinator library: a cursor over the text, a two-way parse
    result with relabelable errors, and the combinator algebra built on them.
    A parser is a value carrying an optional label and a total function from
    a cursor to a result, so composing parsers builds new values and never
    runs anything. */
module Core {

  /** An optional value; it also stands for a label that may be null. */
  datatype Maybe<+T> = None | Just(value: T)

  /** Immutable cursor: the whole input, the line and column of the next
      character, and its offset. The input is a sequence of Unicode scalar
      values, not of UTF-16 code units. */
  datatype State = State(input: string, line: nat, col: nat, pos: nat) {

    predicate Eof() {
      pos >= |input|
    }

    function Char(): char
      requires !Eof()
    {
      input[pos]
    }

    /** The cursor one character further on; a newline moves to column 0 of
        the next line. */
    function Next(): (n: State)
      requires !Eof()
      ensures n.input == input && n.pos == pos + 1
      ensures Char() == '\n' ==> n.line == line + 1 && n.col == 0
      ensures Char() != '\n' ==> n.line == line && n.col == col + 1
    {
      if Char() != '\n' then this.(col := col + 1, pos := pos + 1)
      else this.(line := line + 1, col := 0, pos := pos + 1)
    }
  }

  /** The three kinds of parse error; each carries the label of the rule that
      is reported as failing. */
  datatype ParserError =
    | UnexpectedToken(name: Maybe<string>, found: char, line: nat, col: nat)
    | NoMoreInput(name: Maybe<string>)
    | SyntaxError(name: Maybe<string>, line: nat, col: nat)
  {
    /** The same error under another label. */
    function Relabel(l: Maybe<string>): (e: ParserError)
      ensures e.name == l
      ensures e.UnexpectedToken? == UnexpectedToken? && e.NoMoreInput? == NoMoreInput?
      ensures UnexpectedToken? ==> e.found == found && e.line == line && e.col == col
      ensures SyntaxError? ==> e.line == line && e.col == col
    {
      match this
      case UnexpectedToken(_, c, ln, cl) => UnexpectedToken(l, c, ln, cl)
      case NoMoreInput(_) => NoMoreInput(l)
      case SyntaxError(_, ln, cl) => SyntaxError(l, ln, cl)
    }
  }

  datatype Result<+T> = Success(value: T, state: State) | Failure(error: ParserError)

  /** A parser: its label (possibly null) and the function it runs. */
  datatype Parser<T> = Parser(name: Maybe<string>, run: State -> Result<T>)

  /** `t` is a cursor on the same input as `s`, not behind it, and not past
      the end of the input when `s` was not. */
  predicate Within(s: State, t: State) {
    t.input == s.input && s.pos <= t.pos && (s.pos <= |s.input| ==> t.pos <= |s.input|)
  }

  /** `t` is a cursor on the same input as `s`, strictly ahead of it and not
      past the end of the input. */
  predicate Beyond(s: State, t: State) {
    t.input == s.input && s.pos < t.pos <= |s.input|
  }

  /** Every success of `p` leaves the input alone and never moves back. */
  ghost predicate Keeps<T>(p: Parser<T>) {
    forall s: State :: p.run(s).Success? ==> Within(s, p.run(s).state)
  }

  /** Every success of `p` consumes at least one character. */
  ghost predicate Advances<T>(p: Parser<T>) {
    forall s: State :: p.run(s).Success? ==> Beyond(s, p.run(s).state)
  }

  lemma AdvancesKeeps<T>(p: Parser<T>)
    requires Advances(p)
    ensures Keeps(p)
  {
  }

  /** Renders a label inside a composed label the way a string template
      renders a possibly null value. */
  function LabelText(l: Maybe<string>): string {
    match l
    case None => "null"
    case Just(t) => t
  }

  /** The label "<left> <word> <right>" that the binary combinators attach. */
  function Joined(l: Maybe<string>, word: string, r: Maybe<string>): string {
    LabelText(l) + " " + word + " " + LabelText(r)
  }

  /** How a value takes part in `and`: an absent optional is dropped, a present
      one is unwrapped, a list is spliced in and anything else is one item. */
  datatype Piece<T> = Absent | Single(item: T) | Items(items: seq<T>)

  function Flatten<T>(p: Piece<T>): (r: seq<T>)
    ensures p.Absent? ==> r == []
    ensures p.Single? ==> r == [p.item]
    ensures p.Items? ==> r == p.items
  {
    match p
    case Absent => []
    case Single(x) => [x]
    case Items(xs) => xs
  }

  /** The list that `and` builds from its two values. */
  function Concat<T>(left: Piece<T>, right: Piece<T>): (r: seq<T>)
    ensures |r| == |Flatten(left)| + |Flatten(right)|
    ensures r[..|Flatten(left)|] == Flatten(left) && r[|Flatten(left)|..] == Flatten(right)
  {
    Flatten(left) + Flatten(right)
  }

  /** How an optional value takes part in `and`. */
  function OfMaybe<T>(m: Maybe<T>): Piece<T> {
    match m
    case None => Absent
    case Just(x) => Single(x)
  }

  // ---------------------------------------------------------------------
  // Combinators
  //
  // Each combinator's lemma `...Frames` says how it keeps the two cursor
  // disciplines above: never moving back, and consuming on success.

  /** On failure, the error is reported under `l`; a success is untouched. */
  function Label<T>(p: Parser<T>, l: string): (r: Parser<T>)
    ensures r.name == Just(l)
  {
    Parser(Just(l), s =>
      match p.run(s)
      case Success(_, _) => p.run(s)
      case Failure(e) => Failure(e.Relabel(Just(l))))
  }

  lemma LabelFrames<T>(p: Parser<T>, l: string)
    ensures Keeps(p) ==> Keeps(Label(p, l))
    ensures Advances(p) ==> Advances(Label(p, l))
  {
  }

  /** Transforms the value of a success; a failure is reported under the
      label of `p` itself, which may be null. The new parser has no label. */
  function Map<T, R>(p: Parser<T>, f: T -> R): (r: Parser<R>)
    ensures r.name == None
  {
    Parser(None, s =>
      match p.run(s)
      case Success(v, t) => Success(f(v), t)
      case Failure(e) => Failure(e.Relabel(p.name)))
  }

  lemma MapFrames<T, R>(p: Parser<T>, f: T -> R)
    ensures Keeps(p) ==> Keeps(Map(p, f))
    ensures Advances(p) ==> Advances(Map(p, f))
  {
  }

  /** `map` with a constant in place of a transformer. */
  function MapTo<T, R>(p: Parser<T>, x: R): (r: Parser<R>)
    ensures r.name == None
  {
    Parser(None, s =>
      match p.run(s)
      case Success(_, t) => Success(x, t)
      case Failure(e) => Failure(e.Relabel(p.name)))
  }

  lemma MapToFrames<T, R>(p: Parser<T>, x: R)
    ensures Keeps(p) ==> Keeps(MapTo(p, x))
    ensures Advances(p) ==> Advances(MapTo(p, x))
  {
  }

  /** Runs `p`, then `q` where `p` stopped; pairs the two values. */
  function AndThen<T, U>(p: Parser<T>, q: Parser<U>): (r: Parser<(T, U)>)
    ensures r.name == None
  {
    Parser(None, s =>
      match p.run(s)
      case Failure(e) => Failure(e)
      case Success(a, t) =>
        match q.run(t)
        case Failure(e) => Failure(e)
        case Success(b, u) => Success((a, b), u))
  }

  lemma AndThenFrames<T, U>(p: Parser<T>, q: Parser<U>)
    ensures Keeps(p) && Keeps(q) ==> Keeps(AndThen(p, q))
    ensures Advances(p) && Keeps(q) ==> Advances(AndThen(p, q))
    ensures Keeps(p) && Advances(q) ==> Advances(AndThen(p, q))
  {
  }

  function FollowedBy<T, U>(p: Parser<T>, q: Parser<U>): (r: Parser<(T, U)>)
    ensures r.name == Just(Joined(p.name, "followedBy", q.name))
  {
    Label(Map(AndThen(p, q), (x: (T, U)) => x), Joined(p.name, "followedBy", q.name))
  }

  lemma FollowedByFrames<T, U>(p: Parser<T>, q: Parser<U>)
    ensures Keeps(p) && Keeps(q) ==> Keeps(FollowedBy(p, q))
    ensures Advances(p) && Keeps(q) ==> Advances(FollowedBy(p, q))
    ensures Keeps(p) && Advances(q) ==> Advances(FollowedBy(p, q))
  {
    AndThenFrames(p, q);
    MapFrames(AndThen(p, q), (x: (T, U)) => x);
    LabelFrames(Map(AndThen(p, q), (x: (T, U)) => x), Joined(p.name, "followedBy", q.name));
  }

  /** Sequential composition whose value is the flattened list of both values;
      `vp` and `vq` say how each value takes part in the list. */
  function And<T, U, V>(p: Parser<T>, q: Parser<U>, vp: T -> Piece<V>, vq: U -> Piece<V>): (r: Parser<seq<V>>)
    ensures r.name == Just(Joined(p.name, "and", q.name))
  {
    Label(Map(AndThen(p, q), (x: (T, U)) => Concat(vp(x.0), vq(x.1))), Joined(p.name, "and", q.name))
  }

  lemma AndFrames<T, U, V>(p: Parser<T>, q: Parser<U>, vp: T -> Piece<V>, vq: U -> Piece<V>)
    ensures Keeps(p) && Keeps(q) ==> Keeps(And(p, q, vp, vq))
    ensures Advances(p) && Keeps(q) ==> Advances(And(p, q, vp, vq))
    ensures Keeps(p) && Advances(q) ==> Advances(And(p, q, vp, vq))
  {
    var f := (x: (T, U)) => Concat(vp(x.0), vq(x.1));
    AndThenFrames(p, q);
    MapFrames(AndThen(p, q), f);
    LabelFrames(Map(AndThen(p, q), f), Joined(p.name, "and", q.name));
  }

  /** Sequential composition keeping the right value. */
  function AndR<T, U>(p: Parser<T>, q: Parser<U>): (r: Parser<U>)
    ensures r.name == Just(Joined(p.name, "andr", q.name))
  {
    Label(Map(AndThen(p, q), (x: (T, U)) => x.1), Joined(p.name, "andr", q.name))
  }

  lemma AndRFrames<T, U>(p: Parser<T>, q: Parser<U>)
    ensures Keeps(p) && Keeps(q) ==> Keeps(AndR(p, q))
    ensures Advances(p) && Keeps(q) ==> Advances(AndR(p, q))
    ensures Keeps(p) && Advances(q) ==> Advances(AndR(p, q))
  {
    AndThenFrames(p, q);
    MapFrames(AndThen(p, q), (x: (T, U)) => x.1);
    LabelFrames(Map(AndThen(p, q), (x: (T, U)) => x.1), Joined(p.name, "andr", q.name));
  }

  /** Sequential composition keeping the left value. */
  function AndL<T, U>(p: Parser<T>, q: Parser<U>): (r: Parser<T>)
    ensures r.name == Just(Joined(p.name, "andl", q.name))
  {
    Label(Map(AndThen(p, q), (x: (T, U)) => x.0), Joined(p.name, "andl", q.name))
  }

  lemma AndLFrames<T, U>(p: Parser<T>, q: Parser<U>)
    ensures Keeps(p) && Keeps(q) ==> Keeps(AndL(p, q))
    ensures Advances(p) && Keeps(q) ==> Advances(AndL(p, q))
    ensures Keeps(p) && Advances(q) ==> Advances(AndL(p, q))
  {
    AndThenFrames(p, q);
    MapFrames(AndThen(p, q), (x: (T, U)) => x.0);
    LabelFrames(Map(AndThen(p, q), (x: (T, U)) => x.0), Joined(p.name, "andl", q.name));
  }

  /** Ordered choice: `q` runs on the original cursor only when `p` fails. */
  function Or<T>(p: Parser<T>, q: Parser<T>): (r: Parser<T>)
    ensures r.name == Just(Joined(p.name, "or", q.name))
  {
    Label(Parser(None, s =>
            match p.run(s)
            case Success(_, _) => p.run(s)
            case Failure(_) => q.run(s)),
          Joined(p.name, "or", q.name))
  }

  lemma OrFrames<T>(p: Parser<T>, q: Parser<T>)
    ensures Keeps(p) && Keeps(q) ==> Keeps(Or(p, q))
    ensures Advances(p) && Advances(q) ==> Advances(Or(p, q))
  {
  }

  /** Discards the value. */
  function Ignore<T>(p: Parser<T>): (r: Parser<()>)
    ensures r.name == None
  {
    Map(p, (_: T) => ())
  }

  lemma IgnoreFrames<T>(p: Parser<T>)
    ensures Keeps(p) ==> Keeps(Ignore(p))
    ensures Advances(p) ==> Advances(Ignore(p))
  {
    MapFrames(p, (_: T) => ());
  }

  /** Always fails with a syntax error at the cursor. */
  function Fail<T>(l: string): (r: Parser<T>)
    ensures forall s :: r.run(s) == Failure(SyntaxError(Just(l), s.line, s.col))
    ensures Advances(r)
  {
    Parser(None, (s: State) => Failure(SyntaxError(Just(l), s.line, s.col)))
  }

  /** One character that satisfies `pred`. */
  function Satisfy(l: string, pred: char -> bool): (r: Parser<char>)
    ensures r.name == Just(l)
    ensures Advances(r)
  {
    Label(Parser(None, (s: State) =>
            if s.Eof() then Failure(NoMoreInput(Just(l)))
            else if pred(s.Char()) then Success(s.Char(), s.Next())
            else Failure(UnexpectedToken(Just(l), s.Char(), s.line, s.col))),
          l)
  }

  /** `or` folded over a non-empty list from the left. */
  function OrAll<T>(ps: seq<Parser<T>>): Parser<T>
    requires |ps| > 0
    decreases |ps|
  {
    if |ps| == 1 then ps[0] else Or(OrAll(ps[..|ps| - 1]), ps[|ps| - 1])
  }

  lemma {:induction false} OrAllFrames<T>(ps: seq<Parser<T>>)
    requires |ps| > 0
    ensures (forall i :: 0 <= i < |ps| ==> Advances(ps[i])) ==> Advances(OrAll(ps))
    ensures (forall i :: 0 <= i < |ps| ==> Keeps(ps[i])) ==> Keeps(OrAll(ps))
    decreases |ps|
  {
    if |ps| > 1 {
      OrAllFrames(ps[..|ps| - 1]);
      OrFrames(OrAll(ps[..|ps| - 1]), ps[|ps| - 1]);
    }
  }

  /** The first alternative that succeeds, tried left to right. */
  function Choice<T>(ps: seq<Parser<T>>): (r: Parser<T>)
    requires |ps| > 0
    ensures r.name == Just("choice")
  {
    Label(OrAll(ps), "choice")
  }

  lemma ChoiceFrames<T>(ps: seq<Parser<T>>)
    requires |ps| > 0
    ensures (forall i :: 0 <= i < |ps| ==> Advances(ps[i])) ==> Advances(Choice(ps))
    ensures (forall i :: 0 <= i < |ps| ==> Keeps(ps[i])) ==> Keeps(Choice(ps))
  {
    OrAllFrames(ps);
    LabelFrames(OrAll(ps), "choice");
  }

  /** Succeeds with no value and consumes nothing. */
  function Empty<T>(): (r: Parser<seq<T>>)
    ensures forall s :: r.run(s) == Success([], s)
    ensures Keeps(r)
  {
    Parser(None, (s: State) => Success([], s))
  }

  /** `and` folded over the list from the left, starting from `Empty`. */
  function AndAll<T>(ps: seq<Parser<T>>): Parser<seq<T>> {
    AndPrefix(ps, |ps|)
  }

  /** The fold over the first `k` parsers of `ps`. */
  function AndPrefix<T>(ps: seq<Parser<T>>, k: nat): Parser<seq<T>>
    requires k <= |ps|
    decreases k
  {
    if k == 0 then Empty() else And(AndPrefix(ps, k - 1), ps[k - 1], Spliced, Scalar)
  }

  lemma {:induction false} AndPrefixFrames<T>(ps: seq<Parser<T>>, k: nat)
    requires k <= |ps|
    ensures (forall i :: 0 <= i < |ps| ==> Keeps(ps[i])) ==> Keeps(AndPrefix(ps, k))
    ensures 0 < k && (forall i :: 0 <= i < |ps| ==> Advances(ps[i])) ==> Advances(AndPrefix(ps, k))
    decreases k
  {
    if k > 0 {
      AndPrefixFrames(ps, k - 1);
      AndFrames(AndPrefix(ps, k - 1), ps[k - 1], Spliced, Scalar);
      if forall i :: 0 <= i < |ps| ==> Advances(ps[i]) {
        AdvancesKeeps(ps[k - 1]);
        if k > 1 {
          AdvancesKeeps(AndPrefix(ps, k - 1));
        }
      }
    }
  }

  function Sequence<T>(ps: seq<Parser<T>>): (r: Parser<seq<T>>)
    ensures r.name == Just("sequence")
  {
    Label(AndAll(ps), "sequence")
  }

  /** `Just` the value of `p`, or `None` without consuming anything. */
  function Optional<T>(p: Parser<T>): (r: Parser<Maybe<T>>)
    ensures r.name == Just("zero-or-more")
    ensures forall s :: r.run(s).Success?
  {
    Label(Or(Map(p, (v: T) => Just(v)), Parser(None, (s: State) => Success(None, s))), "zero-or-more")
  }

  lemma OptionalFrames<T>(p: Parser<T>)
    ensures Keeps(p) ==> Keeps(Optional(p))
  {
    var just := Map(p, (v: T) => Just(v));
    var none := Parser(None, (s: State) => Success(None, s));
    MapFrames(p, (v: T) => Just(v));
    OrFrames(just, none);
    LabelFrames(Or(just, none), "zero-or-more");
  }

  /** Applies `p` as often as it succeeds, collecting its values. */
  function ZeroOrMoreFrom<A, T>(p: Parser<A>, view: A -> Piece<T>, s: State): (r: Result<seq<T>>)
    requires Advances(p)
    ensures r.Success? && Within(s, r.state)
    decreases |s.input| - s.pos
  {
    match p.run(s)
    case Failure(_) => Success([], s)
    case Success(v, t) =>
      var rest := ZeroOrMoreFrom(p, view, t);
      Success(Concat(view(v), Items(rest.value)), rest.state)
  }

  function ZeroOrMore<A, T>(p: Parser<A>, view: A -> Piece<T>): (r: Parser<seq<T>>)
    requires Advances(p)
    ensures r.name == None
    ensures forall s :: r.run(s).Success?
    ensures Keeps(r)
  {
    Parser(None, (s: State) => ZeroOrMoreFrom(p, view, s))
  }

  /** `p` followed by `ZeroOrMore(p)`. */
  function OneOrMore<T>(p: Parser<T>): (r: Parser<seq<T>>)
    requires Advances(p)
    ensures r.name == Just("one-or-more")
    ensures Advances(r)
  {
    AndFrames(p, ZeroOrMore(p, Scalar), Scalar, Spliced);
    LabelFrames(And(p, ZeroOrMore(p, Scalar), Scalar, Spliced), "one-or-more");
    Label(And(p, ZeroOrMore(p, Scalar), Scalar, Spliced), "one-or-more")
  }

  /** Named views for `And` and `ZeroOrMore`: a scalar value is one item and
      a list value is spliced in. */
  function Scalar<T>(x: T): Piece<T> {
    Single(x)
  }

  function Spliced<T>(xs: seq<T>): Piece<T> {
    Items(xs)
  }

  // ---------------------------------------------------------------------
  // Parsers

  /** The cursor `n` characters further on. */
  function Skip(s: State, n: nat): (t: State)
    requires s.pos + n <= |s.input|
    ensures t.input == s.input && t.pos == s.pos + n
  {
    if n == 0 then s else Skip(s, n - 1).Next()
  }

  /** The remaining input starts with `str`. */
  predicate StartsWith(s: State, str: string) {
    s.pos + |str| <= |s.input| && s.input[s.pos..s.pos + |str|] == str
  }

  /** Exactly the character `c`; the label is `c` as a string. */
  function PChar(c: char): (r: Parser<char>)
    ensures r.name == Just([c])
    ensures Advances(r)
  {
    Satisfy([c], (x: char) => x == c)
  }

  /** The characters of a list, rendered "[a, b, c]". */
  function ListText(cs: seq<char>): string {
    "[" + Separated(cs) + "]"
  }

  function Separated(cs: seq<char>): string
    decreases |cs|
  {
    if |cs| == 0 then ""
    else if |cs| == 1 then [cs[0]]
    else [cs[0]] + ", " + Separated(cs[1..])
  }

  /** One `PChar` per character of `cs`, in order. */
  function CharParsers(cs: seq<char>): (ps: seq<Parser<char>>)
    ensures |ps| == |cs|
    ensures forall i :: 0 <= i < |cs| ==> ps[i] == PChar(cs[i])
  {
    seq(|cs|, i requires 0 <= i < |cs| => PChar(cs[i]))
  }

  /** Any one of the characters of the non-empty list `cs`. */
  function PAnyOf(cs: seq<char>): (r: Parser<char>)
    requires |cs| > 0
    ensures r.name == Just("choice-of " + ListText(cs))
    ensures Advances(r)
  {
    ChoiceFrames(CharParsers(cs));
    LabelFrames(Choice(CharParsers(cs)), "choice-of " + ListText(cs));
    Label(Choice(CharParsers(cs)), "choice-of " + ListText(cs))
  }

  const Digits := "0123456789"
  const Uppercase := "ABCDEFGHIJKLMNOPQRSTUVWXYZ"
  const Lowercase := "abcdefghijklmnopqrstuvwxyz"

  function PDigit(): (r: Parser<char>)
    ensures r.name == Just("digit")
    ensures Advances(r)
  {
    LabelFrames(PAnyOf(Digits), "digit");
    Label(PAnyOf(Digits), "digit")
  }

  function PWhitespaceChar(): (r: Parser<char>)
    ensures r.name == Just("whitespace-char")
    ensures Advances(r)
  {
    LabelFrames(PAnyOf(" \t\n"), "whitespace-char");
    Label(PAnyOf(" \t\n"), "whitespace-char")
  }

  function PWhitespace(): (r: Parser<seq<char>>)
    ensures r.name == Just("whitespace")
    ensures Advances(r)
  {
    LabelFrames(OneOrMore(PWhitespaceChar()), "whitespace");
    Label(OneOrMore(PWhitespaceChar()), "whitespace")
  }

  function PDigits(): (r: Parser<seq<char>>)
    ensures r.name == Just("digits")
    ensures Advances(r)
  {
    LabelFrames(OneOrMore(PDigit()), "digits");
    Label(OneOrMore(PDigit()), "digits")
  }

  predicate NotNewline(c: char) {
    c != '\n'
  }

  /** Joins a list of characters into a string. */
  function Join(cs: seq<char>): string {
    cs
  }

  /** Everything up to, not including, the next newline. */
  function PAllUntilNewline(): (r: Parser<string>)
    ensures forall s :: r.run(s).Success?
    ensures Keeps(r)
  {
    var z := ZeroOrMore(Satisfy("comment", NotNewline), Scalar);
    MapFrames(z, Join);
    Map(z, Join)
  }

  /** Reading the characters of `str` in turn never moves back, and moves
      forward when there is at least one. */
  lemma CharsInTurn(str: string)
    ensures Keeps(Sequence(CharParsers(str)))
    ensures |str| > 0 ==> Advances(Sequence(CharParsers(str)))
  {
    var ps := CharParsers(str);
    forall i | 0 <= i < |ps|
      ensures Advances(ps[i]) && Keeps(ps[i])
    {
      AdvancesKeeps(ps[i]);
    }
    AndPrefixFrames(ps, |ps|);
    LabelFrames(AndAll(ps), "sequence");
  }

  /** Exactly the text `str`; a failure is reported under the label `str`. */
  function PString(str: string): (r: Parser<string>)
    ensures r.name == Just(str)
    ensures Keeps(r)
    ensures |str| > 0 ==> Advances(r)
  {
    CharsInTurn(str);
    MapFrames(Sequence(CharParsers(str)), (cs: seq<char>) => cs);
    LabelFrames(Map(Sequence(CharParsers(str)), (cs: seq<char>) => cs), str);
    Label(Map(Sequence(CharParsers(str)), (cs: seq<char>) => cs), str)
  }

  function PBoolean(): (r: Parser<bool>)
    ensures r.name == Just("boolean")
    ensures Advances(r)
  {
    var t, f := MapTo(PString("true"), true), MapTo(PString("false"), false);
    MapToFrames(PString("true"), true);
    MapToFrames(PString("false"), false);
    OrFrames(t, f);
    LabelFrames(Or(t, f), "boolean");
    Label(Or(t, f), "boolean")
  }

  function PSign(): (r: Parser<char>)
    ensures Advances(r)
  {
    PAnyOf("-+")
  }

  function DigitValue(c: char): nat {
    if '0' <= c <= '9' then (c as int - '0' as int) as nat else 0
  }

  /** The base-10 value of a string of digits, read left to right. */
  function DecimalValue(ds: string): nat
    decreases |ds|
  {
    if |ds| == 0 then 0 else 10 * DecimalValue(ds[..|ds| - 1]) + DigitValue(ds[|ds| - 1])
  }

  /** The value of an optionally signed string of digits. */
  function IntValue(t: string): int {
    if |t| > 0 && t[0] == '-' then -(DecimalValue(t[1..]) as int)
    else if |t| > 0 && t[0] == '+' then DecimalValue(t[1..])
    else DecimalValue(t)
  }

  /** An optional sign followed by one or more digits, as an integer. */
  function PInt(): (r: Parser<int>)
    ensures r.name == Just("int")
    ensures Advances(r)
  {
    var a := And(Optional(PSign()), PDigits(), OfMaybe, Spliced);
    OptionalFrames(PSign());
    AdvancesKeeps(PSign());
    AndFrames(Optional(PSign()), PDigits(), OfMaybe, Spliced);
    MapFrames(a, IntValue);
    LabelFrames(Map(a, IntValue), "int");
    Label(Map(a, IntValue), "int")
  }

  // `pDelimited`: the parsers in order with `d` between each two of them.

  function PDelimited2<D, A, B>(d: Parser<D>, a: Parser<A>, b: Parser<B>): (r: Parser<(A, B)>)
    ensures r.name == None
  {
    Map(FollowedBy(AndL(a, d), b), (x: (A, B)) => (x.0, x.1))
  }

  function PDelimited3<D, A, B, C>(d: Parser<D>, a: Parser<A>, b: Parser<B>, c: Parser<C>): (r: Parser<(A, B, C)>)
    ensures r.name == None
  {
    Map(FollowedBy(AndL(PDelimited2(d, a, b), d), c), (x: ((A, B), C)) => (x.0.0, x.0.1, x.1))
  }

  function PDelimited4<D, A, B, C, E>(d: Parser<D>, a: Parser<A>, b: Parser<B>, c: Parser<C>, e: Parser<E>): (r: Parser<(A, B, C, E)>)
    ensures r.name == None
  {
    Map(FollowedBy(AndL(PDelimited3(d, a, b, c), d), e), (x: ((A, B, C), E)) => (x.0.0, x.0.1, x.0.2, x.1))
  }

  function PDelimited5<D, A, B, C, E, F>(d: Parser<D>, a: Parser<A>, b: Parser<B>, c: Parser<C>, e: Parser<E>, f: Parser<F>): (r: Parser<(A, B, C, E, F)>)
    ensures r.name == None
  {
    Map(FollowedBy(AndL(PDelimited4(d, a, b, c, e), d), f), (x: ((A, B, C, E), F)) => (x.0.0, x.0.1, x.0.2, x.0.3, x.1))
  }

  function PDelimited6<D, A, B, C, E, F, G>(d: Parser<D>, a: Parser<A>, b: Parser<B>, c: Parser<C>, e: Parser<E>, f: Parser<F>, g: Parser<G>): (r: Parser<(A, B, C, E, F, G)>)
    ensures r.name == None
  {
    Map(FollowedBy(AndL(PDelimited5(d, a, b, c, e, f), d), g), (x: ((A, B, C, E, F), G)) => (x.0.0, x.0.1, x.0.2, x.0.3, x.0.4, x.1))
  }

  /** Delimited sequences keep the cursor discipline of their parts, and
      consume when the first part does. */
  lemma PDelimited2Frames<D, A, B>(d: Parser<D>, a: Parser<A>, b: Parser<B>)
    requires Keeps(d) && Keeps(a) && Keeps(b)
    ensures Keeps(PDelimited2(d, a, b))
    ensures Advances(a) ==> Advances(PDelimited2(d, a, b))
  {
    AndLFrames(a, d);
    FollowedByFrames(AndL(a, d), b);
    MapFrames(FollowedBy(AndL(a, d), b), (x: (A, B)) => (x.0, x.1));
  }

  lemma PDelimited3Frames<D, A, B, C>(d: Parser<D>, a: Parser<A>, b: Parser<B>, c: Parser<C>)
    requires Keeps(d) && Keeps(a) && Keeps(b) && Keeps(c)
    ensures Keeps(PDelimited3(d, a, b, c))
    ensures Advances(a) ==> Advances(PDelimited3(d, a, b, c))
  {
    var p := PDelimited2(d, a, b);
    PDelimited2Frames(d, a, b);
    AndLFrames(p, d);
    FollowedByFrames(AndL(p, d), c);
    MapFrames(FollowedBy(AndL(p, d), c), (x: ((A, B), C)) => (x.0.0, x.0.1, x.1));
  }

  lemma PDelimited4Frames<D, A, B, C, E>(d: Parser<D>, a: Parser<A>, b: Parser<B>, c: Parser<C>, e: Parser<E>)
    requires Keeps(d) && Keeps(a) && Keeps(b) && Keeps(c) && Keeps(e)
    ensures Keeps(PDelimited4(d, a, b, c, e))
    ensures Advances(a) ==> Advances(PDelimited4(d, a, b, c, e))
  {
    var p := PDelimited3(d, a, b, c);
    PDelimited3Frames(d, a, b, c);
    AndLFrames(p, d);
    FollowedByFrames(AndL(p, d), e);
    MapFrames(FollowedBy(AndL(p, d), e), (x: ((A, B, C), E)) => (x.0.0, x.0.1, x.0.2, x.1));
  }

  lemma PDelimited5Frames<D, A, B, C, E, F>(d: Parser<D>, a: Parser<A>, b: Parser<B>, c: Parser<C>, e: Parser<E>, f: Parser<F>)
    requires Keeps(d) && Keeps(a) && Keeps(b) && Keeps(c) && Keeps(e) && Keeps(f)
    ensures Keeps(PDelimited5(d, a, b, c, e, f))
    ensures Advances(a) ==> Advances(PDelimited5(d, a, b, c, e, f))
  {
    var p := PDelimited4(d, a, b, c, e);
    PDelimited4Frames(d, a, b, c, e);
    AndLFrames(p, d);
    FollowedByFrames(AndL(p, d), f);
    MapFrames(FollowedBy(AndL(p, d), f), (x: ((A, B, C, E), F)) => (x.0.0, x.0.1, x.0.2, x.0.3, x.1));
  }

  lemma PDelimited6Frames<D, A, B, C, E, F, G>(d: Parser<D>, a: Parser<A>, b: Parser<B>, c: Parser<C>, e: Parser<E>, f: Parser<F>, g: Parser<G>)
    requires Keeps(d) && Keeps(a) && Keeps(b) && Keeps(c) && Keeps(e) && Keeps(f) && Keeps(g)
    ensures Keeps(PDelimited6(d, a, b, c, e, f, g))
    ensures Advances(a) ==> Advances(PDelimited6(d, a, b, c, e, f, g))
  {
    var p := PDelimited5(d, a, b, c, e, f);
    PDelimited5Frames(d, a, b, c, e, f);
    AndLFrames(p, d);
    FollowedByFrames(AndL(p, d), g);
    MapFrames(FollowedBy(AndL(p, d), g), (x: ((A, B, C, E, F), G)) => (x.0.0, x.0.1, x.0.2, x.0.3, x.0.4, x.1));
  }
}
