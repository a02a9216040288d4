/** What each rule of the grammar reads: when its parts read values in turn,
    with delimiters between them, the rule succeeds with the value built from
    those parts and stops where the last part stopped. Repetitions are
    described by `Iterates`, the run of successes that `ZeroOrMore` collects. */
module GrammarLaws {
  import opened Core
  import opened CoreLaws
  import opened IdlTypes
  import opened IdlString
  import opened IdlParser
  import opened IdlParserLaws
  import opened ConstructLaws
  import opened FieldTypeLaws

  // ---------------------------------------------------------------------
  // Delimiters

  /** Where the delimiters at `t` stop. */
  function Gap(t: State): State {
    Delimiters().run(t).state
  }

  /** Delimiters always succeed, stopping at the gap: past the whitespace
      ahead. */
  lemma DelimitersToGap(t: State)
    requires t.pos <= |t.input|
    ensures Delimiters().run(t) == Success((), Gap(t))
    ensures OptionalDelimiters().run(t) == Success(Just(()), Gap(t))
    ensures var k := Span(IsSpace, t.input, t.pos);
      t.pos + k <= |t.input| && Gap(t) == Skip(t, k)
  {
    var k := Span(IsSpace, t.input, t.pos);
    DelimitersReads(t, k);
    OptionalDelimitersReads(t, k);
  }

  /** Delimiters and optional delimiters succeed everywhere, stopping at the
      gap. */
  lemma GapReached(t: State)
    ensures Delimiters().run(t) == Success((), Gap(t))
    ensures OptionalDelimiters().run(t) == Success(Just(()), Gap(t))
  {
    DelimitersSucceed(t);
    OptionalCases(Delimiters(), t);
  }

  /** The character `c` is next. */
  predicate CharAt(t: State, c: char) {
    !t.Eof() && t.Char() == c
  }

  /** `PChar(c)` reads the `c` that is next. */
  lemma CharReads(t: State, c: char)
    requires CharAt(t, c)
    ensures PChar(c).run(t) == Success(c, t.Next())
  {
    PCharCases(c, t);
  }

  // ---------------------------------------------------------------------
  // Delimited sequences

  /** `p` reads `v` at `s` and stops at `t`. */
  ghost predicate Reads<T>(p: Parser<T>, s: State, v: T, t: State) {
    p.run(s) == Success(v, t)
  }

  /** A rule that reads a value succeeds. */
  lemma ReadsSucceeds<T>(p: Parser<T>, s: State, v: T, t: State)
    requires Reads(p, s, v, t)
    ensures p.run(s).Success?
  {
  }

  /** After the delimiters `d` at `s`, `p` reads `v` and stops at `t`. */
  ghost predicate ReadsAfter<D, T>(d: Parser<D>, p: Parser<T>, s: State, v: T, t: State) {
    d.run(s).Success? && p.run(d.run(s).state) == Success(v, t)
  }

  /** One more part of a delimited sequence: the value grows by the part's
      value and the cursor moves to where the part stopped. */
  lemma SequenceStep<T, D, U>(p: Parser<T>, d: Parser<D>, q: Parser<U>, s: State, x: T, t: State, y: U, u: State)
    requires Reads(p, s, x, t) && ReadsAfter(d, q, t, y, u)
    ensures Reads(FollowedBy(AndL(p, d), q), s, (x, y), u)
  {
    var r := d.run(t);
    AndLThen(p, d, s, x, t, r.value, r.state);
    FollowedByThen(AndL(p, d), q, s, x, r.state, y, u);
  }

  lemma Delimited2Reads<D, A, B>(d: Parser<D>, a: Parser<A>, b: Parser<B>, s: State, x: A, t1: State, y: B, t2: State)
    requires Reads(a, s, x, t1) && ReadsAfter(d, b, t1, y, t2)
    ensures Reads(PDelimited2(d, a, b), s, (x, y), t2)
  {
    SequenceStep(a, d, b, s, x, t1, y, t2);
    MapTransforms(FollowedBy(AndL(a, d), b), (x: (A, B)) => (x.0, x.1), s);
  }

  lemma Delimited3Reads<D, A, B, C>(d: Parser<D>, a: Parser<A>, b: Parser<B>, c: Parser<C>, s: State, x: (A, B), t2: State, z: C, t3: State)
    requires Reads(PDelimited2(d, a, b), s, x, t2) && ReadsAfter(d, c, t2, z, t3)
    ensures Reads(PDelimited3(d, a, b, c), s, (x.0, x.1, z), t3)
  {
    SequenceStep(PDelimited2(d, a, b), d, c, s, x, t2, z, t3);
    MapTransforms(FollowedBy(AndL(PDelimited2(d, a, b), d), c), (x: ((A, B), C)) => (x.0.0, x.0.1, x.1), s);
  }

  lemma Delimited4Reads<D, A, B, C, E>(d: Parser<D>, a: Parser<A>, b: Parser<B>, c: Parser<C>, e: Parser<E>, s: State, x: (A, B, C), t3: State, z: E, t4: State)
    requires Reads(PDelimited3(d, a, b, c), s, x, t3) && ReadsAfter(d, e, t3, z, t4)
    ensures Reads(PDelimited4(d, a, b, c, e), s, (x.0, x.1, x.2, z), t4)
  {
    SequenceStep(PDelimited3(d, a, b, c), d, e, s, x, t3, z, t4);
    MapTransforms(FollowedBy(AndL(PDelimited3(d, a, b, c), d), e), (x: ((A, B, C), E)) => (x.0.0, x.0.1, x.0.2, x.1), s);
  }

  lemma Delimited5Reads<D, A, B, C, E, F>(d: Parser<D>, a: Parser<A>, b: Parser<B>, c: Parser<C>, e: Parser<E>, f: Parser<F>, s: State, x: (A, B, C, E), t4: State, z: F, t5: State)
    requires Reads(PDelimited4(d, a, b, c, e), s, x, t4) && ReadsAfter(d, f, t4, z, t5)
    ensures Reads(PDelimited5(d, a, b, c, e, f), s, (x.0, x.1, x.2, x.3, z), t5)
  {
    SequenceStep(PDelimited4(d, a, b, c, e), d, f, s, x, t4, z, t5);
    MapTransforms(FollowedBy(AndL(PDelimited4(d, a, b, c, e), d), f), (x: ((A, B, C, E), F)) => (x.0.0, x.0.1, x.0.2, x.0.3, x.1), s);
  }

  lemma Delimited6Reads<D, A, B, C, E, F, G>(d: Parser<D>, a: Parser<A>, b: Parser<B>, c: Parser<C>, e: Parser<E>, f: Parser<F>, g: Parser<G>, s: State, x: (A, B, C, E, F), t5: State, z: G, t6: State)
    requires Reads(PDelimited5(d, a, b, c, e, f), s, x, t5) && ReadsAfter(d, g, t5, z, t6)
    ensures Reads(PDelimited6(d, a, b, c, e, f, g), s, (x.0, x.1, x.2, x.3, x.4, z), t6)
  {
    SequenceStep(PDelimited5(d, a, b, c, e, f), d, g, s, x, t5, z, t6);
    MapTransforms(FollowedBy(AndL(PDelimited5(d, a, b, c, e, f), d), g), (x: ((A, B, C, E, F), G)) => (x.0.0, x.0.1, x.0.2, x.0.3, x.0.4, x.1), s);
  }

  // ---------------------------------------------------------------------
  // Repetition

  /** From `s`, `q` reads the values `xs` one after the other and then fails,
      at `t`. */
  ghost predicate Iterates<A>(q: Parser<A>, s: State, xs: seq<A>, t: State)
    decreases |xs|
  {
    if |xs| == 0 then q.run(s).Failure? && t == s
    else q.run(s).Success? && q.run(s).value == xs[0] && Iterates(q, q.run(s).state, xs[1..], t)
  }

  /** `ZeroOrMore(q)` reads `xs` and stops at `t` exactly when `q` reads the
      values of `xs` in turn and then fails at `t`. */
  lemma {:induction false} ZeroOrMoreIterates<A>(q: Parser<A>, s: State, xs: seq<A>, t: State)
    requires Advances(q)
    ensures ZeroOrMore(q, Scalar).run(s) == Success(xs, t) <==> Iterates(q, s, xs, t)
    decreases |xs|
  {
    var z := ZeroOrMore(q, Scalar);
    if q.run(s).Failure? {
      ZeroOrMoreStops(q, Scalar, s);
    } else {
      var n := q.run(s).state;
      var rest := z.run(n);
      ZeroOrMoreStep(q, Scalar, s);
      assert z.run(s) == Success([q.run(s).value] + rest.value, rest.state);
      if |xs| > 0 {
        ZeroOrMoreIterates(q, n, xs[1..], t);
        if z.run(s) == Success(xs, t) {
          assert rest.value == xs[1..];
        }
        if Iterates(q, s, xs, t) {
          assert xs == [xs[0]] + xs[1..];
        }
      }
    }
  }

  /** `OneOrMore(q)` reads a non-empty `xs` exactly as `ZeroOrMore(q)` does. */
  lemma OneOrMoreIterates<A>(q: Parser<A>, s: State, xs: seq<A>, t: State)
    requires Advances(q) && |xs| > 0 && Iterates(q, s, xs, t)
    ensures OneOrMore(q).run(s) == Success(xs, t)
  {
    var z := ZeroOrMore(q, Scalar);
    var n := q.run(s).state;
    ZeroOrMoreIterates(q, n, xs[1..], t);
    AndConcatenates(q, z, Scalar, Spliced, s);
    assert Flatten(Scalar(xs[0])) + Flatten(Spliced(xs[1..])) == xs;
    LabelRelabels(And(q, z, Scalar, Spliced), "one-or-more", s);
  }

  /** `OneOrMore(q)` fails where `q` does. */
  lemma OneOrMoreNeedsFirst<A>(q: Parser<A>, s: State)
    requires Advances(q) && q.run(s).Failure?
    ensures OneOrMore(q).run(s).Failure?
  {
    AndConcatenates(q, ZeroOrMore(q, Scalar), Scalar, Spliced, s);
    LabelRelabels(And(q, ZeroOrMore(q, Scalar), Scalar, Spliced), "one-or-more", s);
  }

  /** `p` then any number of `sep p` reads the first value and the values
      after each separator, in order. */
  lemma SeparatedByReads<A, B>(p: Parser<A>, sep: Parser<B>, s: State, x: A, t1: State, xs: seq<A>, t: State)
    requires Advances(p) && Keeps(sep)
    requires Reads(p, s, x, t1) && Iterates(AndR(sep, p), t1, xs, t)
    ensures SeparatedBy(p, sep).run(s) == Success([x] + xs, t)
  {
    AndRFrames(sep, p);
    var z := ZeroOrMore(AndR(sep, p), Scalar);
    ZeroOrMoreIterates(AndR(sep, p), t1, xs, t);
    AndConcatenates(p, z, Scalar, Spliced, s);
  }

  /** With optional delimiters on both sides, `p` reads what it reads after
      the leading ones, and the trailing ones are skipped. */
  lemma PaddedReads<T>(p: Parser<T>, s: State, x: T, t: State)
    requires Advances(p)
    requires Reads(p, Gap(s), x, t)
    ensures Padded(p).run(s) == Success(x, Gap(t))
  {
    GapReached(s);
    GapReached(t);
    AndRThen(OptionalDelimiters(), p, s, Just(()), Gap(s), x, t);
    AndLThen(AndR(OptionalDelimiters(), p), OptionalDelimiters(), s, x, t, Just(()), Gap(t));
  }

  /** The value of `Optional(p)`: `Just` what `p` reads, or `None` without
      moving when `p` fails. */
  ghost predicate ReadsOptional<T>(p: Parser<T>, s: State, m: Maybe<T>, t: State) {
    match m
    case Just(v) => Reads(p, s, v, t)
    case None => p.run(s).Failure? && t == s
  }

  lemma OptionalReads<T>(p: Parser<T>, s: State, m: Maybe<T>, t: State)
    ensures Optional(p).run(s) == Success(m, t) <==> ReadsOptional(p, s, m, t)
  {
    OptionalCases(p, s);
  }

  /** Three parts read in turn with delimiters between them. */
  lemma Delimited3Chain<D, A, B, C>(d: Parser<D>, a: Parser<A>, b: Parser<B>, c: Parser<C>,
                                    s: State, x1: A, t1: State, x2: B, t2: State, x3: C, t3: State)
    requires Reads(a, s, x1, t1) && ReadsAfter(d, b, t1, x2, t2) && ReadsAfter(d, c, t2, x3, t3)
    ensures Reads(PDelimited3(d, a, b, c), s, (x1, x2, x3), t3)
  {
    Delimited2Reads(d, a, b, s, x1, t1, x2, t2);
    Delimited3Reads(d, a, b, c, s, (x1, x2), t2, x3, t3);
  }

  /** Four parts read in turn with delimiters between them. */
  lemma Delimited4Chain<D, A, B, C, E>(d: Parser<D>, a: Parser<A>, b: Parser<B>, c: Parser<C>, e: Parser<E>,
                                       s: State, x1: A, t1: State, x2: B, t2: State, x3: C, t3: State, x4: E, t4: State)
    requires Reads(a, s, x1, t1) && ReadsAfter(d, b, t1, x2, t2) && ReadsAfter(d, c, t2, x3, t3)
    requires ReadsAfter(d, e, t3, x4, t4)
    ensures Reads(PDelimited4(d, a, b, c, e), s, (x1, x2, x3, x4), t4)
  {
    Delimited3Chain(d, a, b, c, s, x1, t1, x2, t2, x3, t3);
    Delimited4Reads(d, a, b, c, e, s, (x1, x2, x3), t3, x4, t4);
  }

  /** Five parts read in turn with delimiters between them. */
  lemma Delimited5Chain<D, A, B, C, E, F>(d: Parser<D>, a: Parser<A>, b: Parser<B>, c: Parser<C>, e: Parser<E>, f: Parser<F>,
                                          s: State, x1: A, t1: State, x2: B, t2: State, x3: C, t3: State,
                                          x4: E, t4: State, x5: F, t5: State)
    requires Reads(a, s, x1, t1) && ReadsAfter(d, b, t1, x2, t2) && ReadsAfter(d, c, t2, x3, t3)
    requires ReadsAfter(d, e, t3, x4, t4) && ReadsAfter(d, f, t4, x5, t5)
    ensures Reads(PDelimited5(d, a, b, c, e, f), s, (x1, x2, x3, x4, x5), t5)
  {
    Delimited4Chain(d, a, b, c, e, s, x1, t1, x2, t2, x3, t3, x4, t4);
    Delimited5Reads(d, a, b, c, e, f, s, (x1, x2, x3, x4), t4, x5, t5);
  }

  /** Six parts read in turn with delimiters between them: the sequence
      reads the six values and stops where the sixth part stopped. */
  lemma Delimited6Chain<D, A, B, C, E, F, G>(d: Parser<D>, a: Parser<A>, b: Parser<B>, c: Parser<C>, e: Parser<E>, f: Parser<F>, g: Parser<G>,
                                              s: State, x1: A, t1: State, x2: B, t2: State, x3: C, t3: State,
                                              x4: E, t4: State, x5: F, t5: State, x6: G, t6: State)
    requires Reads(a, s, x1, t1) && ReadsAfter(d, b, t1, x2, t2) && ReadsAfter(d, c, t2, x3, t3)
    requires ReadsAfter(d, e, t3, x4, t4) && ReadsAfter(d, f, t4, x5, t5) && ReadsAfter(d, g, t5, x6, t6)
    ensures Reads(PDelimited6(d, a, b, c, e, f, g), s, (x1, x2, x3, x4, x5, x6), t6)
  {
    Delimited5Chain(d, a, b, c, e, f, s, x1, t1, x2, t2, x3, t3, x4, t4, x5, t5);
    Delimited6Reads(d, a, b, c, e, f, g, s, (x1, x2, x3, x4, x5), t5, x6, t6);
  }

  /** A label changes nothing about a success. */
  lemma LabelledReads<T>(p: Parser<T>, l: string, s: State, v: T, t: State)
    requires Reads(p, s, v, t)
    ensures Reads(Label(p, l), s, v, t)
  {
    LabelRelabels(p, l, s);
  }

  /** The character `c` is next after the delimiters at `t`. */
  lemma CharAfterGap(t: State, c: char)
    requires CharAt(Gap(t), c)
    ensures ReadsAfter(Delimiters(), PChar(c), t, c, Gap(t).Next())
  {
    DelimitersSucceed(t);
    CharReads(Gap(t), c);
  }

  /** After the delimiters at `t`, `p` reads what it reads at the gap. */
  lemma PartAfterGap<T>(p: Parser<T>, t: State, v: T, u: State)
    requires p.run(Gap(t)) == Success(v, u)
    ensures ReadsAfter(Delimiters(), p, t, v, u)
  {
    DelimitersSucceed(t);
  }

  // ---------------------------------------------------------------------
  // Quoted strings

  /** After the opening quote, the body characters `jc` reads in turn until
      it fails at `t` are the string's value when a closing quote is at `t`;
      without one the string fails. */
  lemma QuotedIterates(jc: Parser<char>, s: State, xs: seq<char>, t: State)
    requires Advances(jc) && CharAt(s, '"') && Iterates(jc, s.Next(), xs, t)
    ensures CharAt(t, '"') ==> QuotedOf(jc).run(s) == Success(Join(xs), t.Next())
    ensures !CharAt(t, '"') ==> QuotedOf(jc).run(s).Failure?
  {
    var body := AndR(Quote(), ZeroOrMore(jc, Scalar));
    ZeroOrMoreIterates(jc, s.Next(), xs, t);
    QuoteReads(s);
    AndRThen(Quote(), ZeroOrMore(jc, Scalar), s, '"', s.Next(), xs, t);
    if CharAt(t, '"') {
      QuoteReads(t);
      AndLThen(body, Quote(), s, xs, t, '"', t.Next());
      MapReads(AndL(body, Quote()), Join, s, xs, t.Next());
    } else {
      QuoteFails(t);
      SequenceFailsRight(body, Quote(), s, xs, t);
      MapTransforms(AndL(body, Quote()), Join, s);
    }
  }

  /** The quoted string as written: its value is the body characters read in
      turn, plain ones and escapes alike. */
  lemma QuotedStringIterates(s: State, xs: seq<char>, t: State)
    requires CharAt(s, '"') && Iterates(JChar(), s.Next(), xs, t)
    ensures CharAt(t, '"') ==> QuotedString().run(s) == Success(xs, t.Next())
    ensures !CharAt(t, '"') ==> QuotedString().run(s).Failure?
  {
    QuotedIterates(JChar(), s, xs, t);
  }

  /** The same for the quoted string with `\f` read as form feed. */
  lemma IntendedQuotedStringIterates(s: State, xs: seq<char>, t: State)
    requires CharAt(s, '"') && Iterates(IntendedJChar(), s.Next(), xs, t)
    ensures CharAt(t, '"') ==> IntendedQuotedString().run(s) == Success(xs, t.Next())
    ensures !CharAt(t, '"') ==> IntendedQuotedString().run(s).Failure?
  {
    QuotedIterates(IntendedJChar(), s, xs, t);
  }

  // ---------------------------------------------------------------------
  // Tags and fields

  /** `tag = n`: the tag is the integer read after `=`. */
  lemma TagReads(s: State, n: int, t: State)
    requires StartsWith(s, "tag")
    requires CharAt(Gap(Skip(s, 3)), '=')
    requires PInt().run(Gap(Gap(Skip(s, 3)).Next())) == Success(n, t)
    ensures PTag().run(s) == Success(n, t)
  {
    var d := Delimiters();
    var t0 := Skip(s, 3);
    var u := Gap(t0);
    PStringSucceeds("tag", s);
    DelimitersToGap(t0);
    CharReads(u, '=');
    DelimitersToGap(u.Next());
    Delimited2Reads(d, PString("tag"), PChar('='), s, "tag", t0, '=', u.Next());
    Delimited3Reads(d, PString("tag"), PChar('='), PInt(), s, ("tag", '='), u.Next(), n, t);
    MapTransforms(PDelimited3(d, PString("tag"), PChar('='), PInt()), Third, s);
  }

  /** The field rule over any field-type and tag parsers. */
  function FieldShape(fieldType: Parser<FieldType>, tag: Parser<int>): Parser<Field> {
    var p := PDelimited6(Delimiters(), PIdentifier(), PChar(':'), fieldType, PChar(','), tag, PChar(';'));
    Label(Map(p, FieldOf), "field-definition")
  }

  lemma FieldShapeReads(fieldType: Parser<FieldType>, tag: Parser<int>,
                        s: State, id: Identifier, t1: State, t2: State, ft: FieldType, t3: State,
                        t4: State, n: int, t5: State, t6: State)
    requires Reads(PIdentifier(), s, id, t1)
    requires ReadsAfter(Delimiters(), PChar(':'), t1, ':', t2)
    requires ReadsAfter(Delimiters(), fieldType, t2, ft, t3)
    requires ReadsAfter(Delimiters(), PChar(','), t3, ',', t4)
    requires ReadsAfter(Delimiters(), tag, t4, n, t5)
    requires ReadsAfter(Delimiters(), PChar(';'), t5, ';', t6)
    ensures Reads(FieldShape(fieldType, tag), s, Field(id, ft, n), t6)
  {
    var d := Delimiters();
    var p := PDelimited6(d, PIdentifier(), PChar(':'), fieldType, PChar(','), tag, PChar(';'));
    Delimited6Chain(d, PIdentifier(), PChar(':'), fieldType, PChar(','), tag, PChar(';'),
                    s, id, t1, ':', t2, ft, t3, ',', t4, n, t5, ';', t6);
    MapReads(p, FieldOf, s, (id, ':', ft, ',', n, ';'), t6);
    LabelledReads(Map(p, FieldOf), "field-definition", s, Field(id, ft, n), t6);
  }

  /** `name : type , tag = n ;`: the field holds the identifier, the field
      type and the tag read between the punctuation. */
  lemma FieldReads(s: State, id: Identifier, t1: State, t2: State, ft: FieldType, t3: State,
                   t4: State, n: int, t5: State, t6: State)
    requires Reads(PIdentifier(), s, id, t1)
    requires ReadsAfter(Delimiters(), PChar(':'), t1, ':', t2)
    requires ReadsAfter(Delimiters(), PFieldType(0), t2, ft, t3)
    requires ReadsAfter(Delimiters(), PChar(','), t3, ',', t4)
    requires ReadsAfter(Delimiters(), PTag(), t4, n, t5)
    requires ReadsAfter(Delimiters(), PChar(';'), t5, ';', t6)
    ensures Reads(PField(), s, Field(id, ft, n), t6)
  {
    FieldShapeReads(PFieldType(0), PTag(), s, id, t1, t2, ft, t3, t4, n, t5, t6);
  }

  // ---------------------------------------------------------------------
  // Bodies in braces

  /** An item followed by delimiters is the item, stopping at the gap. */
  lemma ItemThenGap<T>(p: Parser<T>, s: State, x: T, t: State)
    requires Reads(p, s, x, t)
    ensures Reads(AndL(p, Delimiters()), s, x, Gap(t))
  {
    GapReached(t);
    AndLThen(p, Delimiters(), s, x, t, (), Gap(t));
  }

  /** `Repeated(p)` reads exactly the items that `p`, each followed by
      delimiters, reads in turn before it fails. */
  lemma RepeatedReads<T>(p: Parser<T>, s: State, xs: seq<T>, t: State)
    requires Advances(p)
    ensures Repeated(p).run(s) == Success(xs, t) <==> Iterates(AndL(p, Delimiters()), s, xs, t)
  {
    AndLFrames(p, Delimiters());
    ZeroOrMoreIterates(AndL(p, Delimiters()), s, xs, t);
  }

  /** `{`, the items read in turn, `}`: the body is the list of items. */
  lemma BracedReads<T>(p: Parser<T>, s: State, t1: State, xs: seq<T>, t2: State, t3: State)
    requires Advances(p)
    requires Reads(PChar('{'), s, '{', t1)
    requires Iterates(AndL(p, Delimiters()), Gap(t1), xs, t2)
    requires ReadsAfter(Delimiters(), PChar('}'), t2, '}', t3)
    ensures Reads(Braced(p), s, xs, t3)
  {
    var d := Delimiters();
    GapReached(t1);
    RepeatedReads(p, Gap(t1), xs, t2);
    Delimited3Chain(d, PChar('{'), Repeated(p), PChar('}'), s, '{', t1, xs, t2, '}', t3);
    MapReads(PDelimited3(d, PChar('{'), Repeated(p), PChar('}')), Middle, s, ('{', xs, '}'), t3);
  }

  /** `{ }`: where no item can be read after the opening brace, the body is
      empty. */
  lemma BracedEmpty<T>(p: Parser<T>, s: State, t1: State, t3: State)
    requires Advances(p)
    requires Reads(PChar('{'), s, '{', t1)
    requires p.run(Gap(t1)).Failure?
    requires ReadsAfter(Delimiters(), PChar('}'), Gap(t1), '}', t3)
    ensures Reads(Braced(p), s, [], t3)
  {
    AndLCases(p, Delimiters(), Gap(t1));
    BracedReads(p, s, t1, [], Gap(t1), t3);
  }

  /** The fields of a data definition or an option are the fields read in
      turn between the braces. */
  lemma FieldsReads(s: State, t1: State, fs: seq<Field>, t2: State, t3: State)
    requires Reads(PChar('{'), s, '{', t1)
    requires Iterates(AndL(PField(), Delimiters()), Gap(t1), fs, t2)
    requires ReadsAfter(Delimiters(), PChar('}'), t2, '}', t3)
    ensures Reads(PListOfFields(), s, fs, t3)
  {
    BracedReads(PField(), s, t1, fs, t2, t3);
  }

  /** Braces hold nothing but `p`'s items: at anything but `{` the body is not
      read. */
  lemma BracedNeedsBrace<T>(p: Parser<T>, s: State)
    requires Advances(p) && !CharAt(s, '{')
    ensures Braced(p).run(s).Failure?
  {
    var b := PDelimited3(Delimiters(), PChar('{'), Repeated(p), PChar('}'));
    PCharCases('{', s);
    MapTransforms(b, Middle, s);
    if b.run(s).Success? {
      Delimited3Starts(Delimiters(), PChar('{'), Repeated(p), PChar('}'), s);
    }
  }

  /** A body of fields starts with `{`. */
  lemma FieldsNeedBrace(s: State)
    requires !CharAt(s, '{')
    ensures PListOfFields().run(s).Failure?
  {
    BracedNeedsBrace(PField(), s);
  }

  // ---------------------------------------------------------------------
  // Data, options and choices

  /** `data Name { fields }`: the data definition has that name and those
      fields. */
  lemma DataReads(s: State, t1: State, id: TypeIdentifier, t2: State, fs: seq<Field>, t3: State)
    requires Reads(PString("data"), s, "data", t1)
    requires ReadsAfter(Delimiters(), PTypeIdentifier(), t1, id, t2)
    requires ReadsAfter(Delimiters(), PListOfFields(), t2, fs, t3)
    ensures Reads(PData(), s, Data(id, fs), t3)
  {
    var d := Delimiters();
    var header := PDelimited2(d, PString("data"), PTypeIdentifier());
    var p := PDelimited2(d, header, PListOfFields());
    Delimited2Reads(d, PString("data"), PTypeIdentifier(), s, "data", t1, id, t2);
    Delimited2Reads(d, header, PListOfFields(), s, ("data", id), t2, fs, t3);
    LabelledReads(p, "data-definition", s, (("data", id), fs), t3);
    MapReads(Label(p, "data-definition"), DataOf, s, (("data", id), fs), t3);
  }

  /** The option rule over any body and tag parsers. */
  function OptionShape(fields: Parser<seq<Field>>, tag: Parser<int>): Parser<Option> {
    var d := Delimiters();
    Map(PDelimited6(d, PString("option"), PTypeIdentifier(), Optional(fields), PChar(','), tag, PChar(';')), OptionOf)
  }

  lemma OptionShapeReads(fields: Parser<seq<Field>>, tag: Parser<int>,
                         s: State, t1: State, id: TypeIdentifier, t2: State, body: Maybe<seq<Field>>, t3: State,
                         t4: State, n: int, t5: State, t6: State)
    requires Reads(PString("option"), s, "option", t1)
    requires ReadsAfter(Delimiters(), PTypeIdentifier(), t1, id, t2)
    requires ReadsOptional(fields, Gap(t2), body, t3)
    requires ReadsAfter(Delimiters(), PChar(','), t3, ',', t4)
    requires ReadsAfter(Delimiters(), tag, t4, n, t5)
    requires ReadsAfter(Delimiters(), PChar(';'), t5, ';', t6)
    ensures Reads(OptionShape(fields, tag), s, Option(id, body, n), t6)
  {
    var d := Delimiters();
    var opt := Optional(fields);
    GapReached(t2);
    OptionalReads(fields, Gap(t2), body, t3);
    Delimited6Chain(d, PString("option"), PTypeIdentifier(), opt, PChar(','), tag, PChar(';'),
                    s, "option", t1, id, t2, body, t3, ',', t4, n, t5, ';', t6);
    MapReads(PDelimited6(d, PString("option"), PTypeIdentifier(), opt, PChar(','), tag, PChar(';')), OptionOf,
                s, ("option", id, body, ',', n, ';'), t6);
  }

  /** `option Name [{ fields }] , tag = n ;`: the option has that name, the
      body when the braces are there (and none, without moving, when they are
      not) and that tag. */
  lemma OptionReads(s: State, t1: State, id: TypeIdentifier, t2: State, body: Maybe<seq<Field>>, t3: State,
                    t4: State, n: int, t5: State, t6: State)
    requires Reads(PString("option"), s, "option", t1)
    requires ReadsAfter(Delimiters(), PTypeIdentifier(), t1, id, t2)
    requires ReadsOptional(PListOfFields(), Gap(t2), body, t3)
    requires ReadsAfter(Delimiters(), PChar(','), t3, ',', t4)
    requires ReadsAfter(Delimiters(), PTag(), t4, n, t5)
    requires ReadsAfter(Delimiters(), PChar(';'), t5, ';', t6)
    ensures Reads(POption(), s, Option(id, body, n), t6)
  {
    OptionShapeReads(PListOfFields(), PTag(), s, t1, id, t2, body, t3, t4, n, t5, t6);
  }

  /** An option without braces after its name has no body. */
  lemma OptionWithoutBody(s: State, t1: State, id: TypeIdentifier, t2: State, t4: State, n: int, t5: State, t6: State)
    requires Reads(PString("option"), s, "option", t1)
    requires ReadsAfter(Delimiters(), PTypeIdentifier(), t1, id, t2)
    requires !CharAt(Gap(t2), '{')
    requires ReadsAfter(Delimiters(), PChar(','), Gap(t2), ',', t4)
    requires ReadsAfter(Delimiters(), PTag(), t4, n, t5)
    requires ReadsAfter(Delimiters(), PChar(';'), t5, ';', t6)
    ensures Reads(POption(), s, Option(id, None, n), t6)
  {
    FieldsNeedBrace(Gap(t2));
    OptionReads(s, t1, id, t2, None, Gap(t2), t4, n, t5, t6);
  }

  /** The options of a choice are the options read in turn between the
      braces. */
  lemma ChoiceBodyReads(s: State, t1: State, os: seq<Option>, t2: State, t3: State)
    requires Reads(PChar('{'), s, '{', t1)
    requires Iterates(AndL(POption(), Delimiters()), Gap(t1), os, t2)
    requires ReadsAfter(Delimiters(), PChar('}'), t2, '}', t3)
    ensures Reads(PChoiceBody(), s, os, t3)
  {
    BracedReads(POption(), s, t1, os, t2, t3);
  }

  /** `choice Name`: the header of a choice reads its name. */
  lemma ChoiceHeaderReads(s: State, t1: State, id: TypeIdentifier, t2: State)
    requires Reads(PString("choice"), s, "choice", t1)
    requires ReadsAfter(Delimiters(), PTypeIdentifier(), t1, id, t2)
    ensures Reads(Map(PDelimited2(Delimiters(), PString("choice"), PTypeIdentifier()), Second), s, id, t2)
  {
    var header := PDelimited2(Delimiters(), PString("choice"), PTypeIdentifier());
    Delimited2Reads(Delimiters(), PString("choice"), PTypeIdentifier(), s, "choice", t1, id, t2);
    MapReads(header, Second, s, ("choice", id), t2);
  }

  /** `choice Name { options }`: the choice has that name and those options. */
  lemma ChoiceReads(s: State, t1: State, id: TypeIdentifier, t2: State, os: seq<Option>, t3: State)
    requires Reads(PString("choice"), s, "choice", t1)
    requires ReadsAfter(Delimiters(), PTypeIdentifier(), t1, id, t2)
    requires ReadsAfter(Delimiters(), PChoiceBody(), t2, os, t3)
    ensures Reads(PChoice(), s, Choice(id, os), t3)
  {
    var d := Delimiters();
    var header := Map(PDelimited2(d, PString("choice"), PTypeIdentifier()), Second);
    ChoiceHeaderReads(s, t1, id, t2);
    Delimited2Reads(d, header, PChoiceBody(), s, id, t2, os, t3);
    MapReads(PDelimited2(d, header, PChoiceBody()), ChoiceOf, s, (id, os), t3);
  }

  // ---------------------------------------------------------------------
  // Topics

  /** `, word = Name`: the part is the type named after the word. */
  lemma TopicPartReads(word: string, s: State, t1: State, t2: State, t3: State, id: TypeIdentifier, t4: State)
    requires |word| > 0
    requires Reads(PChar(','), s, ',', t1)
    requires ReadsAfter(Delimiters(), PString(word), t1, word, t2)
    requires ReadsAfter(Delimiters(), PChar('='), t2, '=', t3)
    requires ReadsAfter(Delimiters(), PTypeIdentifier(), t3, id, t4)
    ensures Reads(TopicPart(word), s, id, t4)
  {
    var d := Delimiters();
    Delimited4Chain(d, PChar(','), PString(word), PChar('='), PTypeIdentifier(), s, ',', t1, word, t2, '=', t3, id, t4);
    MapReads(PDelimited4(d, PChar(','), PString(word), PChar('='), PTypeIdentifier()), Fourth, s, (',', word, '=', id), t4);
  }

  /** A topic part starts with `,`: anywhere else it is not read. */
  lemma TopicPartNeedsComma(word: string, s: State)
    requires |word| > 0 && !CharAt(s, ',')
    ensures TopicPart(word).run(s).Failure?
  {
    var d := Delimiters();
    var p := PDelimited4(d, PChar(','), PString(word), PChar('='), PTypeIdentifier());
    PCharCases(',', s);
    MapTransforms(p, Fourth, s);
    if p.run(s).Success? {
      Delimited4Starts(d, PChar(','), PString(word), PChar('='), PTypeIdentifier(), s);
    }
  }

  /** `topic "text" , request = Name [, response = Name]`: the topic has that
      text, that request type, and the response type when the second part is
      there (none, without moving, when it is not). */
  lemma TopicReads(s: State, t1: State, text: string, t2: State, request: TypeIdentifier, t3: State,
                   response: Maybe<TypeIdentifier>, t4: State)
    requires Reads(PString("topic"), s, "topic", t1)
    requires ReadsAfter(Delimiters(), QuotedString(), t1, text, t2)
    requires ReadsAfter(Delimiters(), TopicPart("request"), t2, request, t3)
    requires ReadsOptional(TopicPart("response"), Gap(t3), response, t4)
    ensures Reads(PTopic(), s, Topic(text, request, response), t4)
  {
    var d := Delimiters();
    var part := Optional(TopicPart("response"));
    GapReached(t3);
    OptionalReads(TopicPart("response"), Gap(t3), response, t4);
    Delimited4Chain(d, PString("topic"), QuotedString(), TopicPart("request"), part,
                    s, "topic", t1, text, t2, request, t3, response, t4);
    MapReads(PDelimited4(d, PString("topic"), QuotedString(), TopicPart("request"), part), TopicOf,
                s, ("topic", text, request, response), t4);
  }

  /** A topic whose request part is not followed by `,` has no response
      type, and stops at the gap after the request part. */
  lemma TopicWithoutResponse(s: State, t1: State, text: string, t2: State, request: TypeIdentifier, t3: State)
    requires Reads(PString("topic"), s, "topic", t1)
    requires ReadsAfter(Delimiters(), QuotedString(), t1, text, t2)
    requires ReadsAfter(Delimiters(), TopicPart("request"), t2, request, t3)
    requires !CharAt(Gap(t3), ',')
    ensures Reads(PTopic(), s, Topic(text, request, None), Gap(t3))
  {
    TopicPartNeedsComma("response", Gap(t3));
    TopicReads(s, t1, text, t2, request, t3, None, Gap(t3));
  }

  // ---------------------------------------------------------------------
  // Package and imports

  /** Appending an identifier to a non-empty path adds `.` and its text. */
  lemma {:induction false} DottedPathAppend(ids: seq<Identifier>, x: Identifier)
    requires |ids| > 0
    ensures DottedPath(ids + [x]) == DottedPath(ids) + "." + x.id
    decreases |ids|
  {
    if |ids| > 1 {
      assert (ids + [x])[1..] == ids[1..] + [x];
      DottedPathAppend(ids[1..], x);
    } else {
      assert (ids + [x])[1..] == [x];
    }
  }

  /** A dotted name is the identifier read first and those read after each
      `.`, joined with `.`. */
  lemma DottedNameReads(s: State, id: Identifier, t1: State, ids: seq<Identifier>, t: State)
    requires Reads(PIdentifier(), s, id, t1)
    requires Iterates(AndR(PChar('.'), PIdentifier()), t1, ids, t)
    ensures Reads(DottedName(), s, DottedPath([id] + ids), t)
  {
    AdvancesKeeps(PChar('.'));
    SeparatedByReads(PIdentifier(), PChar('.'), s, id, t1, ids, t);
    MapReads(SeparatedBy(PIdentifier(), PChar('.')), DottedPath, s, [id] + ids, t);
  }

  /** `import a.b.c`: the import holds the dotted name. */
  lemma ImportReads(s: State, t1: State, name: string, t2: State)
    requires Reads(PString("import"), s, "import", t1)
    requires ReadsAfter(Delimiters(), DottedName(), t1, name, t2)
    ensures Reads(PImport(), s, Import(name), t2)
  {
    var p := PDelimited2(Delimiters(), PString("import"), DottedName());
    Delimited2Reads(Delimiters(), PString("import"), DottedName(), s, "import", t1, name, t2);
    MapReads(p, ImportOf, s, ("import", name), t2);
  }

  /** `package a.b.c`, with optional delimiters around it: the package holds
      the dotted name, and the delimiters after it are skipped. */
  lemma PackageReads(s: State, t1: State, name: string, t2: State)
    requires Reads(PString("package"), Gap(s), "package", t1)
    requires Reads(DottedName(), Gap(t1), name, t2)
    ensures Reads(PPackage(), s, Package(name), Gap(t2))
  {
    var od := OptionalDelimiters();
    var a1 := AndR(od, PString("package"));
    var a2 := AndR(a1, Delimiters());
    var a := AndR(a2, DottedName());
    GapReached(s);
    GapReached(t1);
    GapReached(t2);
    AndRThen(od, PString("package"), s, Just(()), Gap(s), "package", t1);
    AndRThen(a1, Delimiters(), s, "package", t1, (), Gap(t1));
    AndRThen(a2, DottedName(), s, (), Gap(t1), name, t2);
    AndLThen(a, od, s, name, t2, Just(()), Gap(t2));
    MapReads(AndL(a, od), PackageOf, s, name, Gap(t2));
  }

  /** The imports are the padded imports read in turn until one fails. */
  lemma ImportsReads(s: State, imports: seq<Import>, t: State)
    ensures PImports().run(s) == Success(imports, t) <==> Iterates(Padded(PImport()), s, imports, t)
  {
    ZeroOrMoreIterates(Padded(PImport()), s, imports, t);
  }

  // ---------------------------------------------------------------------
  // Constructs

  /** Delimiters stopped at the gap stop there again. */
  lemma GapTwice(t: State)
    requires t.pos <= |t.input|
    ensures Gap(Gap(t)) == Gap(t)
  {
    var k := Span(IsSpace, t.input, t.pos);
    DelimitersToGap(t);
    SpanStops(IsSpace, t.input, t.pos, k);
    DelimitersToGap(Gap(t));
  }

  /** An alternative of a construct reads its rule's value, wrapped, and then
      skips the whitespace after it. */
  lemma AlternativeReads<T>(p: Parser<T>, l: string, f: T -> Construct, s: State, v: T, t: State)
    requires Advances(p) && Reads(p, s, v, t)
    ensures Reads(Alternative(p, l, f), s, f(v), Gap(t))
  {
    var q := AndL(p, OptionalDelimiters());
    GapReached(t);
    AndLThen(p, OptionalDelimiters(), s, v, t, Just(()), Gap(t));
    LabelledReads(q, l, s, v, Gap(t));
    MapReads(Label(q, l), f, s, v, Gap(t));
  }

  /** An alternative fails where its rule fails. */
  lemma AlternativeFails<T>(p: Parser<T>, l: string, f: T -> Construct, s: State)
    requires Advances(p) && !p.run(s).Success?
    ensures Alternative(p, l, f).run(s).Failure?
  {
    var q := AndL(p, OptionalDelimiters());
    SequenceFailsLeft(p, OptionalDelimiters(), s);
    LabelRelabels(q, l, s);
    MapTransforms(Label(q, l), f, s);
  }

  /** The data alternative fails where the data rule fails after the
      delimiters. */
  lemma DataAlternativeFails(data: Parser<Data>, s: State)
    requires Advances(data) && !data.run(Gap(s)).Success?
    ensures AndR(Delimiters(), Alternative(data, "data-construct", AsData)).run(s).Failure?
  {
    GapReached(s);
    AlternativeFails(data, "data-construct", AsData, Gap(s));
    SequenceFailsRight(Delimiters(), Alternative(data, "data-construct", AsData), s, (), Gap(s));
  }

  /** What the first succeeding alternative reads, up to a gap, is the
      construct: the trailing optional delimiters find nothing more. */
  lemma ConstructOfEnds(data: Parser<Data>, enumeration: Parser<Enumeration>, choice: Parser<Choice>, topic: Parser<Topic>,
                        s: State, x: Construct, t: State)
    requires Advances(data) && Advances(enumeration) && Advances(choice) && Advances(topic)
    requires t.pos <= |t.input|
    requires var d := AndR(Delimiters(), Alternative(data, "data-construct", AsData));
      var e := Alternative(enumeration, "enumeration-construct", AsEnumeration);
      var c := Alternative(choice, "choice-construct", AsChoice);
      var p := Alternative(topic, "topic-construct", AsTopic);
      Or(Or(Or(d, e), c), p).run(s) == Success(x, Gap(t))
    ensures ConstructOf(data, enumeration, choice, topic).run(s) == Success(x, Gap(t))
  {
    var d := AndR(Delimiters(), Alternative(data, "data-construct", AsData));
    var e := Alternative(enumeration, "enumeration-construct", AsEnumeration);
    var c := Alternative(choice, "choice-construct", AsChoice);
    var p := Alternative(topic, "topic-construct", AsTopic);
    GapReached(Gap(t));
    GapTwice(t);
    AndLThen(Or(Or(Or(d, e), c), p), OptionalDelimiters(), s, x, Gap(t), Just(()), Gap(t));
  }

  /** Where the data rule reads after the delimiters, the construct is that
      data definition. */
  lemma ConstructOfReadsData(data: Parser<Data>, enumeration: Parser<Enumeration>, choice: Parser<Choice>, topic: Parser<Topic>,
                             s: State, v: Data, t: State)
    requires Advances(data) && Advances(enumeration) && Advances(choice) && Advances(topic)
    requires Reads(data, Gap(s), v, t)
    ensures ConstructOf(data, enumeration, choice, topic).run(s) == Success(DataObject(v), Gap(t))
  {
    var a := Alternative(data, "data-construct", AsData);
    var d := AndR(Delimiters(), a);
    var e := Alternative(enumeration, "enumeration-construct", AsEnumeration);
    var c := Alternative(choice, "choice-construct", AsChoice);
    var p := Alternative(topic, "topic-construct", AsTopic);
    GapReached(s);
    AlternativeReads(data, "data-construct", AsData, Gap(s), v, t);
    AndRThen(Delimiters(), a, s, (), Gap(s), DataObject(v), Gap(t));
    OrLeftBiased(d, e, s);
    OrLeftBiased(Or(d, e), c, s);
    OrLeftBiased(Or(Or(d, e), c), p, s);
    ConstructOfEnds(data, enumeration, choice, topic, s, DataObject(v), t);
  }

  /** Where no data definition follows the delimiters and the enumeration
      rule reads, the construct is that enumeration. */
  lemma ConstructOfReadsEnumeration(data: Parser<Data>, enumeration: Parser<Enumeration>, choice: Parser<Choice>, topic: Parser<Topic>,
                                    s: State, v: Enumeration, t: State)
    requires Advances(data) && Advances(enumeration) && Advances(choice) && Advances(topic)
    requires !data.run(Gap(s)).Success? && Reads(enumeration, s, v, t)
    ensures ConstructOf(data, enumeration, choice, topic).run(s) == Success(Construct.Enumeration(v), Gap(t))
  {
    var d := AndR(Delimiters(), Alternative(data, "data-construct", AsData));
    var e := Alternative(enumeration, "enumeration-construct", AsEnumeration);
    var c := Alternative(choice, "choice-construct", AsChoice);
    var p := Alternative(topic, "topic-construct", AsTopic);
    DataAlternativeFails(data, s);
    AlternativeReads(enumeration, "enumeration-construct", AsEnumeration, s, v, t);
    OrFallsBack(d, e, s);
    OrLeftBiased(Or(d, e), c, s);
    OrLeftBiased(Or(Or(d, e), c), p, s);
    ConstructOfEnds(data, enumeration, choice, topic, s, Construct.Enumeration(v), t);
  }

  /** Where neither of the first two rules reads and the choice rule does,
      the construct is that choice. */
  lemma ConstructOfReadsChoice(data: Parser<Data>, enumeration: Parser<Enumeration>, choice: Parser<Choice>, topic: Parser<Topic>,
                               s: State, v: Choice, t: State)
    requires Advances(data) && Advances(enumeration) && Advances(choice) && Advances(topic)
    requires !data.run(Gap(s)).Success? && !enumeration.run(s).Success? && Reads(choice, s, v, t)
    ensures ConstructOf(data, enumeration, choice, topic).run(s) == Success(ChoiceObject(v), Gap(t))
  {
    var d := AndR(Delimiters(), Alternative(data, "data-construct", AsData));
    var e := Alternative(enumeration, "enumeration-construct", AsEnumeration);
    var c := Alternative(choice, "choice-construct", AsChoice);
    var p := Alternative(topic, "topic-construct", AsTopic);
    DataAlternativeFails(data, s);
    AlternativeFails(enumeration, "enumeration-construct", AsEnumeration, s);
    AlternativeReads(choice, "choice-construct", AsChoice, s, v, t);
    OrFallsBack(d, e, s);
    OrFallsBack(Or(d, e), c, s);
    OrLeftBiased(Or(Or(d, e), c), p, s);
    ConstructOfEnds(data, enumeration, choice, topic, s, ChoiceObject(v), t);
  }

  /** Where none of the first three rules reads and the topic rule does, the
      construct is that topic. */
  lemma ConstructOfReadsTopic(data: Parser<Data>, enumeration: Parser<Enumeration>, choice: Parser<Choice>, topic: Parser<Topic>,
                              s: State, v: Topic, t: State)
    requires Advances(data) && Advances(enumeration) && Advances(choice) && Advances(topic)
    requires !data.run(Gap(s)).Success? && !enumeration.run(s).Success? && !choice.run(s).Success?
    requires Reads(topic, s, v, t)
    ensures ConstructOf(data, enumeration, choice, topic).run(s) == Success(TopicObject(v), Gap(t))
  {
    var d := AndR(Delimiters(), Alternative(data, "data-construct", AsData));
    var e := Alternative(enumeration, "enumeration-construct", AsEnumeration);
    var c := Alternative(choice, "choice-construct", AsChoice);
    var p := Alternative(topic, "topic-construct", AsTopic);
    DataAlternativeFails(data, s);
    AlternativeFails(enumeration, "enumeration-construct", AsEnumeration, s);
    AlternativeFails(choice, "choice-construct", AsChoice, s);
    AlternativeReads(topic, "topic-construct", AsTopic, s, v, t);
    OrFallsBack(d, e, s);
    OrFallsBack(Or(d, e), c, s);
    OrFallsBack(Or(Or(d, e), c), p, s);
    ConstructOfEnds(data, enumeration, choice, topic, s, TopicObject(v), t);
  }

  /** Input that starts with one word does not start with a word of another
      first letter. */
  lemma WordsApart(t: State, a: string, b: string)
    requires |a| > 0 && |b| > 0 && a[0] != b[0] && StartsWith(t, a)
    ensures !StartsWith(t, b)
  {
    StartsWithAt(t, a, 0);
    DiffersAt(t, b, 0);
  }

  /** No data definition is read where `data` does not start the input. */
  lemma DataNeedsKeyword(t: State)
    requires !StartsWith(t, "data")
    ensures !PData().run(t).Success?
  {
    if PData().run(t).Success? {
      DataStarts(t);
    }
  }

  /** No enumeration is read where `enum` does not follow the whitespace. */
  lemma EnumerationNeedsKeyword(t: State)
    requires !StartsWith(Gap(t), "enum")
    ensures !PEnumeration().run(t).Success?
  {
    GapReached(t);
    if PEnumeration().run(t).Success? {
      EnumerationStarts(t);
    }
  }

  /** No choice is read where `choice` does not start the input. */
  lemma ChoiceNeedsKeyword(t: State)
    requires !StartsWith(t, "choice")
    ensures !PChoice().run(t).Success?
  {
    if PChoice().run(t).Success? {
      ChoiceStarts(t);
    }
  }

  /** A keyword that starts the input is not preceded by whitespace: the gap
      is the cursor itself. */
  lemma GapAtKeyword(t: State)
    requires StartsWith(t, "choice") || StartsWith(t, "topic")
    ensures Gap(t) == t
  {
    KeywordNotIndented(t);
    DelimitersToGap(t);
  }

  /** A data definition after the delimiters is a construct of the grammar. */
  lemma DataConstruct(s: State, v: Data, t: State)
    requires Reads(PData(), Gap(s), v, t)
    ensures PConstruct().run(s) == Success(DataObject(v), Gap(t))
  {
    ConstructOfReadsData(PData(), PEnumeration(), PChoice(), PTopic(), s, v, t);
  }

  /** Where an enumeration is read, no data definition is read after the
      delimiters. */
  lemma EnumerationAlone(s: State)
    requires PEnumeration().run(s).Success?
    ensures !PData().run(Gap(s)).Success?
  {
    GapReached(s);
    EnumerationStarts(s);
    KeywordsApart(Gap(s));
    DataNeedsKeyword(Gap(s));
  }

  /** An enumeration is a construct of the grammar: `enum` is not `data`. */
  lemma EnumerationConstruct(s: State, v: Enumeration, t: State)
    requires Reads(PEnumeration(), s, v, t)
    ensures PConstruct().run(s) == Success(Construct.Enumeration(v), Gap(t))
  {
    ReadsSucceeds(PEnumeration(), s, v, t);
    EnumerationAlone(s);
    ConstructOfReadsEnumeration(PData(), PEnumeration(), PChoice(), PTopic(), s, v, t);
  }

  /** The four construct keywords exclude each other. */
  lemma KeywordsApart(s: State)
    ensures StartsWith(s, "enum") ==> !StartsWith(s, "data")
    ensures StartsWith(s, "choice") ==> !StartsWith(s, "data") && !StartsWith(s, "enum")
    ensures StartsWith(s, "topic") ==> !StartsWith(s, "data") && !StartsWith(s, "enum") && !StartsWith(s, "choice")
  {
    if StartsWith(s, "enum") {
      WordsApart(s, "enum", "data");
    }
    if StartsWith(s, "choice") {
      WordsApart(s, "choice", "data");
      WordsApart(s, "choice", "enum");
    }
    if StartsWith(s, "topic") {
      WordsApart(s, "topic", "data");
      WordsApart(s, "topic", "enum");
      WordsApart(s, "topic", "choice");
    }
  }

  /** Where a choice is read, neither rule before it reads. */
  lemma ChoiceAlone(s: State)
    requires PChoice().run(s).Success?
    ensures !PData().run(Gap(s)).Success? && !PEnumeration().run(s).Success?
  {
    ChoiceStarts(s);
    GapAtKeyword(s);
    KeywordsApart(s);
    DataNeedsKeyword(s);
    EnumerationNeedsKeyword(s);
  }

  /** Where a topic is read, none of the three rules before it reads. */
  lemma TopicAlone(s: State)
    requires PTopic().run(s).Success?
    ensures !PData().run(Gap(s)).Success? && !PEnumeration().run(s).Success? && !PChoice().run(s).Success?
  {
    TopicStarts(s);
    GapAtKeyword(s);
    KeywordsApart(s);
    DataNeedsKeyword(s);
    EnumerationNeedsKeyword(s);
    ChoiceNeedsKeyword(s);
  }

  /** A choice is a construct of the grammar: `choice` is neither `data` nor
      `enum`. */
  lemma ChoiceConstruct(s: State, v: Choice, t: State)
    requires Reads(PChoice(), s, v, t)
    ensures PConstruct().run(s) == Success(ChoiceObject(v), Gap(t))
  {
    ReadsSucceeds(PChoice(), s, v, t);
    ChoiceAlone(s);
    ConstructOfReadsChoice(PData(), PEnumeration(), PChoice(), PTopic(), s, v, t);
  }

  /** A topic is a construct of the grammar: `topic` is none of `data`,
      `enum` and `choice`. */
  lemma TopicConstruct(s: State, v: Topic, t: State)
    requires Reads(PTopic(), s, v, t)
    ensures PConstruct().run(s) == Success(TopicObject(v), Gap(t))
  {
    ReadsSucceeds(PTopic(), s, v, t);
    TopicAlone(s);
    ConstructOfReadsTopic(PData(), PEnumeration(), PChoice(), PTopic(), s, v, t);
  }

  /** The constructs read in turn, each padded, until one fails, are what
      the constructs rule reads. */
  lemma ConstructsReads(s: State, cs: seq<Construct>, t: State)
    requires Iterates(Padded(PConstruct()), s, cs, t)
    ensures Reads(PConstructs(), s, cs, t)
  {
    ZeroOrMoreIterates(Padded(PConstruct()), s, cs, t);
  }

  // ---------------------------------------------------------------------
  // Files

  /** The file rule over any header, imports and constructs parsers. */
  function FileShape(d: Parser<()>, header: Parser<Package>, imports: Parser<seq<Import>>,
                     constructs: Parser<seq<Construct>>): Parser<File>
  {
    Map(PDelimited3(d, header, imports, constructs), FileOf)
  }

  lemma FileShapeReads(d: Parser<()>, header: Parser<Package>, imports: Parser<seq<Import>>, constructs: Parser<seq<Construct>>,
                       s: State, pkg: Package, t1: State, imps: seq<Import>, t2: State, cs: seq<Construct>, t3: State)
    requires Reads(header, s, pkg, t1) && ReadsAfter(d, imports, t1, imps, t2) && ReadsAfter(d, constructs, t2, cs, t3)
    ensures Reads(FileShape(d, header, imports, constructs), s, File(pkg, imps, cs), t3)
  {
    Delimited3Chain(d, header, imports, constructs, s, pkg, t1, imps, t2, cs, t3);
    MapReads(PDelimited3(d, header, imports, constructs), FileOf, s, (pkg, imps, cs), t3);
  }

  /** A delimited triple, mapped, fails where its first part fails. */
  lemma MappedTripleNeedsFirst<D, A, B, C, R>(d: Parser<D>, a: Parser<A>, b: Parser<B>, c: Parser<C>, f: ((A, B, C)) -> R, s: State)
    requires a.run(s).Failure?
    ensures Map(PDelimited3(d, a, b, c), f).run(s).Failure?
  {
    var p := PDelimited3(d, a, b, c);
    MapTransforms(p, f, s);
    if p.run(s).Success? {
      Delimited3Starts(d, a, b, c, s);
    }
  }

  /** `p` never fails. */
  ghost predicate Total<T>(p: Parser<T>) {
    forall u: State :: p.run(u).Success?
  }

  /** The parts after the header never fail. */
  ghost predicate FillersTotal(d: Parser<()>, imports: Parser<seq<Import>>, constructs: Parser<seq<Construct>>) {
    Total(d) && Total(imports) && Total(constructs)
  }

  lemma FileShapeAfterHeader(d: Parser<()>, header: Parser<Package>, imports: Parser<seq<Import>>,
                             constructs: Parser<seq<Construct>>, s: State)
    requires FillersTotal(d, imports, constructs) && header.run(s).Success?
    ensures FileShape(d, header, imports, constructs).run(s).Success?
  {
    var t1 := header.run(s).state;
    var r2 := imports.run(d.run(t1).state);
    var r3 := constructs.run(d.run(r2.state).state);
    FileShapeReads(d, header, imports, constructs, s, header.run(s).value, t1, r2.value, r2.state, r3.value, r3.state);
  }

  /** Repetitions never fail. */
  lemma RepetitionTotal<A>(q: Parser<A>)
    requires Advances(q)
    ensures Total(ZeroOrMore(q, Scalar))
  {
  }

  /** Delimiters never fail. */
  lemma DelimitersTotal()
    ensures Total(Delimiters())
  {
    forall u: State
      ensures Delimiters().run(u).Success?
    {
      DelimitersSucceed(u);
    }
  }

  /** Imports and constructs never fail. */
  lemma ImportsTotal()
    ensures Total(PImports())
  {
    RepetitionTotal(Padded(PImport()));
  }

  lemma ConstructsTotal()
    ensures Total(PConstructs())
  {
    RepetitionTotal(Padded(PConstruct()));
  }

  lemma FileFillersTotal()
    ensures FillersTotal(Delimiters(), PImports(), PConstructs())
  {
    DelimitersTotal();
    ImportsTotal();
    ConstructsTotal();
  }

  /** A file holds the package, the imports and the constructs read in turn,
      and stops where the constructs stopped. */
  lemma FileReads(s: State, pkg: Package, t1: State, imports: seq<Import>, t2: State, cs: seq<Construct>, t3: State)
    requires Reads(PPackage(), s, pkg, t1)
    requires ReadsAfter(Delimiters(), PImports(), t1, imports, t2)
    requires ReadsAfter(Delimiters(), PConstructs(), t2, cs, t3)
    ensures Reads(PFile(), s, File(pkg, imports, cs), t3)
  {
    FileShapeReads(Delimiters(), PPackage(), PImports(), PConstructs(), s, pkg, t1, imports, t2, cs, t3);
  }

  /** Without a package header there is no file. */
  lemma FileNeedsPackage(s: State)
    requires PPackage().run(s).Failure?
    ensures PFile().run(s).Failure?
  {
    MappedTripleNeedsFirst(Delimiters(), PPackage(), PImports(), PConstructs(), FileOf, s);
  }

  /** Imports and constructs never fail, so a file is read wherever its
      package header is, whatever follows it: the file parser may stop
      before the end of the input. */
  lemma FileAfterPackage(s: State)
    requires PPackage().run(s).Success?
    ensures PFile().run(s).Success?
  {
    FileFillersTotal();
    FileShapeAfterHeader(Delimiters(), PPackage(), PImports(), PConstructs(), s);
  }

  // ---------------------------------------------------------------------
  // Field types

  /** `key , value`: the pair of the map key and the value type. */
  lemma KeyValuePairReads(level: nat, s: State, k: FieldType, t1: State, t2: State, v: FieldType, t3: State)
    requires Reads(PMapKeyType(), s, k, t1)
    requires ReadsAfter(Delimiters(), PChar(','), t1, ',', t2)
    requires ReadsAfter(Delimiters(), PFieldType(level + 1), t2, v, t3)
    ensures Reads(PKeyValuePair(level), s, (k, v), t3)
  {
    var d := Delimiters();
    Delimited3Chain(d, PMapKeyType(), PChar(','), PFieldType(level + 1), s, k, t1, ',', t2, v, t3);
    MapReads(PDelimited3(d, PMapKeyType(), PChar(','), PFieldType(level + 1)), Ends, s, (k, ',', v), t3);
  }

  /** `List< element >` below two levels of nesting: a list of the element
      type. */
  lemma ListReads(level: nat, s: State, t1: State, e: FieldType, t2: State, t3: State)
    requires level < 2
    requires Reads(PString("List<"), s, "List<", t1)
    requires ReadsAfter(Delimiters(), PFieldType(level + 1), t1, e, t2)
    requires ReadsAfter(Delimiters(), PString(">"), t2, ">", t3)
    ensures Reads(PList(level), s, ListOf(e), t3)
  {
    var d := Delimiters();
    Delimited3Chain(d, PString("List<"), PFieldType(level + 1), PString(">"), s, "List<", t1, e, t2, ">", t3);
    MapReads(PDelimited3(d, PString("List<"), PFieldType(level + 1), PString(">")), ListOfMiddle,
                s, ("List<", e, ">"), t3);
  }

  /** `Map< key , value >` below two levels of nesting: a map from the key
      type to the value type. */
  lemma MapTypeReads(level: nat, s: State, t1: State, kv: (FieldType, FieldType), t2: State, t3: State)
    requires level < 2
    requires Reads(PString("Map<"), s, "Map<", t1)
    requires ReadsAfter(Delimiters(), PKeyValuePair(level), t1, kv, t2)
    requires ReadsAfter(Delimiters(), PString(">"), t2, ">", t3)
    ensures Reads(PMap(level), s, MapOf(kv.0, kv.1), t3)
  {
    var d := Delimiters();
    Delimited3Chain(d, PString("Map<"), PKeyValuePair(level), PString(">"), s, "Map<", t1, kv, t2, ">", t3);
    MapReads(PDelimited3(d, PString("Map<"), PKeyValuePair(level), PString(">")), MapOfMiddle,
                s, ("Map<", kv, ">"), t3);
  }

  /** No primitive keyword starts with `L` or `M`. */
  lemma NoKeywordAt(s: State, c: char)
    requires c == 'L' || c == 'M'
    requires s.pos < |s.input| && s.input[s.pos] == c
    ensures forall i :: 0 <= i < 8 ==> !StartsWith(s, KeywordNames[i])
  {
    forall i | 0 <= i < 8
      ensures !StartsWith(s, KeywordNames[i])
    {
      if StartsWith(s, KeywordNames[i]) {
        StartsWithAt(s, KeywordNames[i], 0);
      }
    }
  }

  /** The second of four alternatives decides when the first fails and it
      succeeds. */
  lemma SecondOfFour<T>(p: Parser<T>, q: Parser<T>, u: Parser<T>, w: Parser<T>, s: State)
    requires p.run(s).Failure? && q.run(s).Success?
    ensures Or(Or(Or(p, q), u), w).run(s) == q.run(s)
  {
    OrFallsBack(p, q, s);
  }

  /** The third of four alternatives decides when the first two fail and it
      succeeds. */
  lemma ThirdOfFour<T>(p: Parser<T>, q: Parser<T>, u: Parser<T>, w: Parser<T>, s: State)
    requires p.run(s).Failure? && q.run(s).Failure? && u.run(s).Success?
    ensures Or(Or(Or(p, q), u), w).run(s) == u.run(s)
  {
    OrFallsBack(p, q, s);
    OrFallsBack(Or(p, q), u, s);
  }

  /** Where `List<` starts the input, the field type is what the list rule
      reads: no keyword matches first. */
  lemma FieldTypeList(level: nat, s: State, v: FieldType, t: State)
    requires StartsWith(s, "List<") && Reads(PList(level), s, v, t)
    ensures Reads(PFieldType(level), s, v, t)
  {
    StartsWithAt(s, "List<", 0);
    NoKeywordAt(s, 'L');
    MapKeyTypeRejects(s);
    SecondOfFour(PMapKeyType(), PList(level), PMap(level), PCustomType(), s);
  }

  /** A literal fails where its first character is not next. */
  lemma LiteralMismatch(word: string, s: State)
    requires |word| > 0 && s.pos < |s.input| && s.input[s.pos] != word[0]
    ensures PString(word).run(s).Failure?
  {
    PStringSucceeds(word, s);
    DiffersAt(s, word, 0);
  }

  /** A list type starts with `List<`: at `Map<` it is not read. */
  lemma ListRejectsMap(level: nat, s: State)
    requires StartsWith(s, "Map<")
    ensures PList(level).run(s).Failure?
  {
    if level < 2 {
      StartsWithAt(s, "Map<", 0);
      LiteralMismatch("List<", s);
      MappedTripleNeedsFirst(Delimiters(), PString("List<"), PFieldType(level + 1), PString(">"), ListOfMiddle, s);
    } else {
      ListTooDeep(level, s);
    }
  }

  /** Where `Map<` starts the input, the field type is what the map rule
      reads: neither a keyword nor a list matches first. */
  lemma FieldTypeMap(level: nat, s: State, v: FieldType, t: State)
    requires StartsWith(s, "Map<") && Reads(PMap(level), s, v, t)
    ensures Reads(PFieldType(level), s, v, t)
  {
    StartsWithAt(s, "Map<", 0);
    NoKeywordAt(s, 'M');
    MapKeyTypeRejects(s);
    ListRejectsMap(level, s);
    ThirdOfFour(PMapKeyType(), PList(level), PMap(level), PCustomType(), s);
  }

  /** The last of four alternatives decides when the first three fail and it
      succeeds. */
  lemma FourthOfFour<T>(p: Parser<T>, q: Parser<T>, u: Parser<T>, w: Parser<T>, s: State)
    requires p.run(s).Failure? && q.run(s).Failure? && u.run(s).Failure? && w.run(s).Success?
    ensures Or(Or(Or(p, q), u), w).run(s) == w.run(s)
  {
    OrFallsBack(p, q, s);
    OrFallsBack(Or(p, q), u, s);
    OrFallsBack(Or(Or(p, q), u), w, s);
  }

  /** Where no keyword, list or map is read, the field type is the custom type
      named by the type identifier ahead: an upper-case letter and the longest
      run of identifier characters after it. */
  lemma FieldTypeCustom(level: nat, s: State, k: nat)
    requires PMapKeyType().run(s).Failure? && PList(level).run(s).Failure? && PMap(level).run(s).Failure?
    requires !s.Eof() && IsUpper(s.Char())
    requires k == Span(IsTypeIdentifierChar, s.input, s.pos + 1)
    ensures s.pos + 1 + k <= |s.input|
    ensures PFieldType(level).run(s) == Success(CustomType(TypeIdentifier(s.input[s.pos..s.pos + 1 + k])), Skip(s, 1 + k))
  {
    var id := TypeIdentifier(s.input[s.pos..s.pos + 1 + k]);
    TypeIdentifierReads(s, k);
    MapReads(PTypeIdentifier(), CustomOf, s, id, Skip(s, 1 + k));
    FourthOfFour(PMapKeyType(), PList(level), PMap(level), PCustomType(), s);
  }

  // ---------------------------------------------------------------------
  // Enumerations

  /** What ends an enumeration item: `;` or `,` when one is next, and
      nothing, without moving, otherwise. */
  lemma TerminatorReads(t: State)
    ensures CharAt(t, ';') ==> ReadsOptional(Or(PChar(';'), PChar(',')), t, Just(';'), t.Next())
    ensures CharAt(t, ',') ==> ReadsOptional(Or(PChar(';'), PChar(',')), t, Just(','), t.Next())
    ensures !CharAt(t, ';') && !CharAt(t, ',') ==> ReadsOptional(Or(PChar(';'), PChar(',')), t, None, t)
  {
    PCharCases(';', t);
    PCharCases(',', t);
    if PChar(';').run(t).Success? {
      OrLeftBiased(PChar(';'), PChar(','), t);
    } else {
      OrFallsBack(PChar(';'), PChar(','), t);
    }
  }

  /** `name = n` and an optional `;` or `,`, after optional delimiters: the
      item has that name and that value. */
  lemma EnumerationItemReads(s: State, name: string, t1: State, t2: State, n: int, t3: State, end: Maybe<char>, t4: State)
    requires Reads(Word(Alpha, Alpha + Digits, "enum-item"), Gap(s), name, t1)
    requires ReadsAfter(Delimiters(), PChar('='), t1, '=', t2)
    requires ReadsAfter(Delimiters(), PInt(), t2, n, t3)
    requires ReadsOptional(Or(PChar(';'), PChar(',')), Gap(t3), end, t4)
    ensures Reads(PEnumerationItem(), s, EnumerationItem(name, n), t4)
  {
    var d := Delimiters();
    var id := Map(Word(Alpha, Alpha + Digits, "enum-item"), Join);
    var terminal := Optional(Or(PChar(';'), PChar(',')));
    var p := PDelimited4(d, id, PChar('='), PInt(), terminal);
    GapReached(s);
    GapReached(t3);
    MapReads(Word(Alpha, Alpha + Digits, "enum-item"), Join, Gap(s), name, t1);
    OptionalReads(Or(PChar(';'), PChar(',')), Gap(t3), end, t4);
    Delimited4Chain(d, id, PChar('='), PInt(), terminal, Gap(s), name, t1, '=', t2, n, t3, end, t4);
    AndRThen(OptionalDelimiters(), p, s, Just(()), Gap(s), (name, '=', n, end), t4);
    MapReads(AndR(OptionalDelimiters(), p), ItemOf, s, (name, '=', n, end), t4);
  }

  /** The enumeration rule over any item parser. */
  function EnumerationShape(item: Parser<EnumerationItem>): Parser<Enumeration>
    requires Advances(item)
  {
    var d := Delimiters();
    Map(AndR(OptionalDelimiters(), PDelimited5(d, PString("enum"), PTypeIdentifier(), PChar('{'), OneOrMore(item), PChar('}'))),
        EnumerationOf)
  }

  lemma EnumerationShapeReads(item: Parser<EnumerationItem>, s: State, t1: State, id: TypeIdentifier, t2: State, t3: State,
                              items: seq<EnumerationItem>, t4: State, t5: State)
    requires Advances(item)
    requires Reads(PString("enum"), Gap(s), "enum", t1)
    requires ReadsAfter(Delimiters(), PTypeIdentifier(), t1, id, t2)
    requires ReadsAfter(Delimiters(), PChar('{'), t2, '{', t3)
    requires |items| > 0 && Iterates(item, Gap(t3), items, t4)
    requires ReadsAfter(Delimiters(), PChar('}'), t4, '}', t5)
    ensures Reads(EnumerationShape(item), s, IdlTypes.Enumeration.Enumeration(id, items), t5)
  {
    var d := Delimiters();
    var p := PDelimited5(d, PString("enum"), PTypeIdentifier(), PChar('{'), OneOrMore(item), PChar('}'));
    GapReached(s);
    GapReached(t3);
    OneOrMoreIterates(item, Gap(t3), items, t4);
    Delimited5Chain(d, PString("enum"), PTypeIdentifier(), PChar('{'), OneOrMore(item), PChar('}'),
                    Gap(s), "enum", t1, id, t2, '{', t3, items, t4, '}', t5);
    AndRThen(OptionalDelimiters(), p, s, Just(()), Gap(s), ("enum", id, '{', items, '}'), t5);
    MapReads(AndR(OptionalDelimiters(), p), EnumerationOf, s, ("enum", id, '{', items, '}'), t5);
  }

  /** A delimited sequence fails where its fourth part fails after the first
      three have read. */
  lemma Delimited5FailsFourth<D, A, B, C, E, F>(d: Parser<D>, a: Parser<A>, b: Parser<B>, c: Parser<C>, e: Parser<E>, f: Parser<F>,
                                                s: State, x: (A, B, C), t: State)
    requires Reads(PDelimited3(d, a, b, c), s, x, t) && d.run(t).Success? && e.run(d.run(t).state).Failure?
    ensures PDelimited5(d, a, b, c, e, f).run(s).Failure?
  {
    var p3 := PDelimited3(d, a, b, c);
    var p4 := PDelimited4(d, a, b, c, e);
    AndLThen(p3, d, s, x, t, d.run(t).value, d.run(t).state);
    SequenceFailsRight(AndL(p3, d), e, s, x, d.run(t).state);
    MapTransforms(FollowedBy(AndL(p3, d), e), (x: ((A, B, C), E)) => (x.0.0, x.0.1, x.0.2, x.1), s);
    SequenceFailsLeft(p4, d, s);
    SequenceFailsLeft(AndL(p4, d), f, s);
    MapTransforms(FollowedBy(AndL(p4, d), f), (x: ((A, B, C, E), F)) => (x.0.0, x.0.1, x.0.2, x.0.3, x.1), s);
  }

  lemma EnumerationShapeNeedsItem(item: Parser<EnumerationItem>, s: State, t1: State, id: TypeIdentifier, t2: State, t3: State)
    requires Advances(item)
    requires Reads(PString("enum"), Gap(s), "enum", t1)
    requires ReadsAfter(Delimiters(), PTypeIdentifier(), t1, id, t2)
    requires ReadsAfter(Delimiters(), PChar('{'), t2, '{', t3)
    requires item.run(Gap(t3)).Failure?
    ensures EnumerationShape(item).run(s).Failure?
  {
    var d := Delimiters();
    var p := PDelimited5(d, PString("enum"), PTypeIdentifier(), PChar('{'), OneOrMore(item), PChar('}'));
    GapReached(s);
    GapReached(t3);
    Delimited3Chain(d, PString("enum"), PTypeIdentifier(), PChar('{'), Gap(s), "enum", t1, id, t2, '{', t3);
    OneOrMoreNeedsFirst(item, Gap(t3));
    Delimited5FailsFourth(d, PString("enum"), PTypeIdentifier(), PChar('{'), OneOrMore(item), PChar('}'),
                          Gap(s), ("enum", id, '{'), t3);
    SequenceFailsRight(OptionalDelimiters(), p, s, Just(()), Gap(s));
    MapTransforms(AndR(OptionalDelimiters(), p), EnumerationOf, s);
  }

  /** `enum Name { items }`, after optional delimiters: the enumeration has
      that name and the items read in turn, at least one. */
  lemma EnumerationReads(s: State, t1: State, id: TypeIdentifier, t2: State, t3: State,
                         items: seq<EnumerationItem>, t4: State, t5: State)
    requires Reads(PString("enum"), Gap(s), "enum", t1)
    requires ReadsAfter(Delimiters(), PTypeIdentifier(), t1, id, t2)
    requires ReadsAfter(Delimiters(), PChar('{'), t2, '{', t3)
    requires |items| > 0 && Iterates(PEnumerationItem(), Gap(t3), items, t4)
    requires ReadsAfter(Delimiters(), PChar('}'), t4, '}', t5)
    ensures Reads(PEnumeration(), s, IdlTypes.Enumeration.Enumeration(id, items), t5)
  {
    EnumerationShapeReads(PEnumerationItem(), s, t1, id, t2, t3, items, t4, t5);
  }

  /** An enumeration needs at least one item: where none can be read after
      `{`, there is no enumeration. */
  lemma EnumerationNeedsItem(s: State, t1: State, id: TypeIdentifier, t2: State, t3: State)
    requires Reads(PString("enum"), Gap(s), "enum", t1)
    requires ReadsAfter(Delimiters(), PTypeIdentifier(), t1, id, t2)
    requires ReadsAfter(Delimiters(), PChar('{'), t2, '{', t3)
    requires PEnumerationItem().run(Gap(t3)).Failure?
    ensures PEnumeration().run(s).Failure?
  {
    EnumerationShapeNeedsItem(PEnumerationItem(), s, t1, id, t2, t3);
  }
}
