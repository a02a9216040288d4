/** Laws of the construct rules: the keyword each rule must start with, the
    cursor each alternative of a construct runs on, and what a successful
    body holds. */
module ConstructLaws {
  import opened Core
  import opened CoreLaws
  import opened IdlTypes
  import opened IdlString
  import opened IdlParser
  import opened IdlParserLaws
  import opened FieldTypeLaws

  // ---------------------------------------------------------------------
  // Where a delimited sequence starts

  /** A delimited pair succeeds only where its first part does. */
  lemma Delimited2Starts<D, A, B>(d: Parser<D>, a: Parser<A>, b: Parser<B>, s: State)
    requires PDelimited2(d, a, b).run(s).Success?
    ensures a.run(s).Success? && PDelimited2(d, a, b).run(s).value.0 == a.run(s).value
  {
    MapFrom(FollowedBy(AndL(a, d), b), (x: (A, B)) => (x.0, x.1), s);
    FollowedByCases(AndL(a, d), b, s);
    AndLFrom(a, d, s);
  }

  lemma Delimited3Starts<D, A, B, C>(d: Parser<D>, a: Parser<A>, b: Parser<B>, c: Parser<C>, s: State)
    requires PDelimited3(d, a, b, c).run(s).Success?
    ensures a.run(s).Success? && PDelimited3(d, a, b, c).run(s).value.0 == a.run(s).value
  {
    var p := PDelimited2(d, a, b);
    MapFrom(FollowedBy(AndL(p, d), c), (x: ((A, B), C)) => (x.0.0, x.0.1, x.1), s);
    FollowedByCases(AndL(p, d), c, s);
    AndLFrom(p, d, s);
    Delimited2Starts(d, a, b, s);
  }

  lemma Delimited4Starts<D, A, B, C, E>(d: Parser<D>, a: Parser<A>, b: Parser<B>, c: Parser<C>, e: Parser<E>, s: State)
    requires PDelimited4(d, a, b, c, e).run(s).Success?
    ensures a.run(s).Success? && PDelimited4(d, a, b, c, e).run(s).value.0 == a.run(s).value
  {
    var p := PDelimited3(d, a, b, c);
    MapFrom(FollowedBy(AndL(p, d), e), (x: ((A, B, C), E)) => (x.0.0, x.0.1, x.0.2, x.1), s);
    FollowedByCases(AndL(p, d), e, s);
    AndLFrom(p, d, s);
    Delimited3Starts(d, a, b, c, s);
  }

  lemma Delimited5Starts<D, A, B, C, E, F>(d: Parser<D>, a: Parser<A>, b: Parser<B>, c: Parser<C>, e: Parser<E>, f: Parser<F>, s: State)
    requires PDelimited5(d, a, b, c, e, f).run(s).Success?
    ensures a.run(s).Success? && PDelimited5(d, a, b, c, e, f).run(s).value.0 == a.run(s).value
  {
    var p := PDelimited4(d, a, b, c, e);
    MapFrom(FollowedBy(AndL(p, d), f), (x: ((A, B, C, E), F)) => (x.0.0, x.0.1, x.0.2, x.0.3, x.1), s);
    FollowedByCases(AndL(p, d), f, s);
    AndLFrom(p, d, s);
    Delimited4Starts(d, a, b, c, e, s);
  }

  lemma Delimited6Starts<D, A, B, C, E, F, G>(d: Parser<D>, a: Parser<A>, b: Parser<B>, c: Parser<C>, e: Parser<E>, f: Parser<F>, g: Parser<G>, s: State)
    requires PDelimited6(d, a, b, c, e, f, g).run(s).Success?
    ensures a.run(s).Success? && PDelimited6(d, a, b, c, e, f, g).run(s).value.0 == a.run(s).value
  {
    var p := PDelimited5(d, a, b, c, e, f);
    MapFrom(FollowedBy(AndL(p, d), g), (x: ((A, B, C, E, F), G)) => (x.0.0, x.0.1, x.0.2, x.0.3, x.0.4, x.1), s);
    FollowedByCases(AndL(p, d), g, s);
    AndLFrom(p, d, s);
    Delimited5Starts(d, a, b, c, e, f, s);
  }

  // ---------------------------------------------------------------------
  // Keywords

  /** A literal succeeds only where the input starts with it. */
  lemma LiteralNeeded(word: string, s: State)
    requires |word| > 0 && PString(word).run(s).Success?
    ensures StartsWith(s, word)
  {
    assert Beyond(s, PString(word).run(s).state);
    PStringSucceeds(word, s);
  }

  /** A header `word Name` followed by a body starts with `word`. */
  lemma HeaderStarts<D, B, C>(d: Parser<D>, word: string, b: Parser<B>, c: Parser<C>, s: State)
    requires |word| > 0 && PDelimited2(d, PDelimited2(d, PString(word), b), c).run(s).Success?
    ensures StartsWith(s, word)
  {
    Delimited2Starts(d, PDelimited2(d, PString(word), b), c, s);
    Delimited2Starts(d, PString(word), b, s);
    LiteralNeeded(word, s);
  }

  /** The same header and body, labelled and mapped. */
  lemma LabelledHeaderStarts<D, B, C, R>(d: Parser<D>, word: string, b: Parser<B>, c: Parser<C>, l: string, f: (((string, B), C)) -> R, s: State)
    requires |word| > 0
    requires Map(Label(PDelimited2(d, PDelimited2(d, PString(word), b), c), l), f).run(s).Success?
    ensures StartsWith(s, word)
  {
    var p := PDelimited2(d, PDelimited2(d, PString(word), b), c);
    MapFrom(Label(p, l), f, s);
    LabelRelabels(p, l, s);
    HeaderStarts(d, word, b, c, s);
  }

  /** A data definition starts with `data`, with nothing before it. */
  lemma DataStarts(s: State)
    requires PData().run(s).Success?
    ensures StartsWith(s, "data")
  {
    var d := Delimiters();
    var p := PDelimited2(d, PDelimited2(d, PString("data"), PTypeIdentifier()), PListOfFields());
    assert PData() == Map(Label(p, "data-definition"), DataOf);
    LabelledHeaderStarts(d, "data", PTypeIdentifier(), PListOfFields(), "data-definition", DataOf, s);
  }

  /** An option starts with `option`. */
  lemma OptionStarts(s: State)
    requires POption().run(s).Success?
    ensures StartsWith(s, "option")
  {
    var d := Delimiters();
    var body := Optional(PListOfFields());
    var p := PDelimited6(d, PString("option"), PTypeIdentifier(), body, PChar(','), PTag(), PChar(';'));
    MapFrom(p, OptionOf, s);
    Delimited6Starts(d, PString("option"), PTypeIdentifier(), body, PChar(','), PTag(), PChar(';'), s);
    LiteralNeeded("option", s);
  }

  /** A header `word Name`, its value mapped, followed by a body starts
      with `word`. */
  lemma MappedHeaderStarts<D, B, C, R>(d: Parser<D>, word: string, b: Parser<B>, f: ((string, B)) -> R, c: Parser<C>, s: State)
    requires |word| > 0 && PDelimited2(d, Map(PDelimited2(d, PString(word), b), f), c).run(s).Success?
    ensures StartsWith(s, word)
  {
    var header := PDelimited2(d, PString(word), b);
    Delimited2Starts(d, Map(header, f), c, s);
    MapFrom(header, f, s);
    Delimited2Starts(d, PString(word), b, s);
    LiteralNeeded(word, s);
  }

  /** A choice starts with `choice`. */
  lemma ChoiceStarts(s: State)
    requires PChoice().run(s).Success?
    ensures StartsWith(s, "choice")
  {
    var d := Delimiters();
    var header := PDelimited2(d, PString("choice"), PTypeIdentifier());
    var p := PDelimited2(d, Map(header, Second), PChoiceBody());
    MapFrom(p, ChoiceOf, s);
    MappedHeaderStarts(d, "choice", PTypeIdentifier(), Second, PChoiceBody(), s);
  }

  /** A topic starts with `topic`. */
  lemma TopicStarts(s: State)
    requires PTopic().run(s).Success?
    ensures StartsWith(s, "topic")
  {
    var d := Delimiters();
    var response := Optional(TopicPart("response"));
    var p := PDelimited4(d, PString("topic"), QuotedString(), TopicPart("request"), response);
    MapFrom(p, TopicOf, s);
    Delimited4Starts(d, PString("topic"), QuotedString(), TopicPart("request"), response, s);
    LiteralNeeded("topic", s);
  }

  /** An import starts with `import`. */
  lemma ImportStarts(s: State)
    requires PImport().run(s).Success?
    ensures StartsWith(s, "import")
  {
    var p := PDelimited2(Delimiters(), PString("import"), DottedName());
    MapFrom(p, ImportOf, s);
    Delimited2Starts(Delimiters(), PString("import"), DottedName(), s);
    LiteralNeeded("import", s);
  }

  /** An enumeration starts with `enum` once the optional delimiters before
      it are skipped. */
  lemma EnumerationStarts(s: State)
    requires PEnumeration().run(s).Success?
    ensures OptionalDelimiters().run(s).Success?
    ensures StartsWith(OptionalDelimiters().run(s).state, "enum")
  {
    var d := Delimiters();
    var items := OneOrMore(PEnumerationItem());
    var p := PDelimited5(d, PString("enum"), PTypeIdentifier(), PChar('{'), items, PChar('}'));
    MapFrom(AndR(OptionalDelimiters(), p), EnumerationOf, s);
    AndRCases(OptionalDelimiters(), p, s);
    var t := OptionalDelimiters().run(s).state;
    Delimited5Starts(d, PString("enum"), PTypeIdentifier(), PChar('{'), items, PChar('}'), t);
    LiteralNeeded("enum", t);
  }

  // ---------------------------------------------------------------------
  // Which rule reads a construct

  /** Delimiters never fail: a run of whitespace, possibly empty, always
      reads. */
  lemma DelimitersSucceed(s: State)
    ensures Delimiters().run(s).Success?
    ensures Delimiters().run(s) == Success((), Delimiters().run(s).state)
  {
    assert Spaces().run(s).Success?;
    MapTransforms(Spaces(), (_: seq<char>) => (), s);
    OrLeftBiased(Ignore(Spaces()), Ignore(PComment()), s);
  }

  /** The value of an alternative is the value its rule reads here, wrapped. */
  lemma AlternativeFrom<T>(p: Parser<T>, l: string, f: T -> Construct, s: State)
    requires Advances(p) && Alternative(p, l, f).run(s).Success?
    ensures p.run(s).Success? && Alternative(p, l, f).run(s).value == f(p.run(s).value)
  {
    var q := AndL(p, OptionalDelimiters());
    MapFrom(Label(q, l), f, s);
    LabelRelabels(q, l, s);
    AndLFrom(p, OptionalDelimiters(), s);
  }

  /** What each alternative of `ConstructOf` produces, when it succeeds:
      the data alternative a data object read after the delimiters, the
      others their own kind read on the original cursor. */
  lemma DataAlternativeFrom(data: Parser<Data>, s: State, t: State)
    requires Advances(data) && Delimiters().run(s) == Success((), t)
    requires AndR(Delimiters(), Alternative(data, "data-construct", AsData)).run(s).Success?
    ensures data.run(t).Success?
    ensures AndR(Delimiters(), Alternative(data, "data-construct", AsData)).run(s).value == DataObject(data.run(t).value)
  {
    AndRCases(Delimiters(), Alternative(data, "data-construct", AsData), s);
    AlternativeFrom(data, "data-construct", AsData, t);
  }

  /** A construct is what one of the four alternatives reads. Which one is
      the first that succeeds is stated, rule by rule, by
      `GrammarLaws.ConstructOfReadsData`, `ConstructOfReadsEnumeration`,
      `ConstructOfReadsChoice` and `ConstructOfReadsTopic`. */
  lemma ConstructOfAlternatives(data: Parser<Data>, enumeration: Parser<Enumeration>, choice: Parser<Choice>, topic: Parser<Topic>, s: State)
    requires Advances(data) && Advances(enumeration) && Advances(choice) && Advances(topic)
    requires ConstructOf(data, enumeration, choice, topic).run(s).Success?
    ensures var d := AndR(Delimiters(), Alternative(data, "data-construct", AsData));
      var e := Alternative(enumeration, "enumeration-construct", AsEnumeration);
      var c := Alternative(choice, "choice-construct", AsChoice);
      var t := Alternative(topic, "topic-construct", AsTopic);
      var v := ConstructOf(data, enumeration, choice, topic).run(s).value;
      || (d.run(s).Success? && v == d.run(s).value)
      || (e.run(s).Success? && v == e.run(s).value)
      || (c.run(s).Success? && v == c.run(s).value)
      || (t.run(s).Success? && v == t.run(s).value)
  {
    var d := AndR(Delimiters(), Alternative(data, "data-construct", AsData));
    var e := Alternative(enumeration, "enumeration-construct", AsEnumeration);
    var c := Alternative(choice, "choice-construct", AsChoice);
    var t := Alternative(topic, "topic-construct", AsTopic);
    AndLFrom(Or(Or(Or(d, e), c), t), OptionalDelimiters(), s);
    Or4From(d, e, c, t, s);
  }

  /** A data construct is the data definition read after the delimiters. */
  lemma ConstructOfData(data: Parser<Data>, enumeration: Parser<Enumeration>, choice: Parser<Choice>, topic: Parser<Topic>, s: State, t: State)
    requires Advances(data) && Advances(enumeration) && Advances(choice) && Advances(topic)
    requires ConstructOf(data, enumeration, choice, topic).run(s).Success?
    requires ConstructOf(data, enumeration, choice, topic).run(s).value.DataObject?
    requires Delimiters().run(s) == Success((), t)
    ensures data.run(t).Success? && data.run(t).value == ConstructOf(data, enumeration, choice, topic).run(s).value.data
  {
    ConstructOfAlternatives(data, enumeration, choice, topic, s);
    AlternativeKinds(enumeration, choice, topic, s);
    if AndR(Delimiters(), Alternative(data, "data-construct", AsData)).run(s).Success? {
      DataAlternativeFrom(data, s, t);
    }
  }

  /** The enumeration, choice and topic alternatives produce their own kind. */
  lemma AlternativeKinds(enumeration: Parser<Enumeration>, choice: Parser<Choice>, topic: Parser<Topic>, s: State)
    requires Advances(enumeration) && Advances(choice) && Advances(topic)
    ensures var e := Alternative(enumeration, "enumeration-construct", AsEnumeration).run(s);
      e.Success? ==> enumeration.run(s).Success? && e.value == Construct.Enumeration(enumeration.run(s).value)
    ensures var c := Alternative(choice, "choice-construct", AsChoice).run(s);
      c.Success? ==> choice.run(s).Success? && c.value == ChoiceObject(choice.run(s).value)
    ensures var t := Alternative(topic, "topic-construct", AsTopic).run(s);
      t.Success? ==> topic.run(s).Success? && t.value == TopicObject(topic.run(s).value)
  {
    if Alternative(enumeration, "enumeration-construct", AsEnumeration).run(s).Success? {
      AlternativeFrom(enumeration, "enumeration-construct", AsEnumeration, s);
    }
    if Alternative(choice, "choice-construct", AsChoice).run(s).Success? {
      AlternativeFrom(choice, "choice-construct", AsChoice, s);
    }
    if Alternative(topic, "topic-construct", AsTopic).run(s).Success? {
      AlternativeFrom(topic, "topic-construct", AsTopic, s);
    }
  }

  /** The data alternative produces a data object. */
  lemma DataAlternativeKind(data: Parser<Data>, s: State)
    requires Advances(data)
    ensures var d := AndR(Delimiters(), Alternative(data, "data-construct", AsData)).run(s);
      d.Success? ==> d.value.DataObject?
  {
    DelimitersSucceed(s);
    if AndR(Delimiters(), Alternative(data, "data-construct", AsData)).run(s).Success? {
      DataAlternativeFrom(data, s, Delimiters().run(s).state);
    }
  }

  /** An enumeration, a choice or a topic construct is what its own rule
      reads on the construct's cursor, with no delimiters skipped first. */
  lemma ConstructOfOthers(data: Parser<Data>, enumeration: Parser<Enumeration>, choice: Parser<Choice>, topic: Parser<Topic>, s: State)
    requires Advances(data) && Advances(enumeration) && Advances(choice) && Advances(topic)
    requires ConstructOf(data, enumeration, choice, topic).run(s).Success?
    ensures var v := ConstructOf(data, enumeration, choice, topic).run(s).value;
      && (v.Enumeration? ==> enumeration.run(s).Success? && enumeration.run(s).value == v.enumeration)
      && (v.ChoiceObject? ==> choice.run(s).Success? && choice.run(s).value == v.choice)
      && (v.TopicObject? ==> topic.run(s).Success? && topic.run(s).value == v.topic)
  {
    ConstructOfAlternatives(data, enumeration, choice, topic, s);
    AlternativeKinds(enumeration, choice, topic, s);
    DataAlternativeKind(data, s);
  }

  /** The grammar's constructs: a data construct is a data definition read
      after the delimiters, starting with `data` there. */
  lemma ConstructIsData(s: State, t: State)
    requires PConstruct().run(s).Success? && PConstruct().run(s).value.DataObject?
    requires Delimiters().run(s) == Success((), t)
    ensures PData().run(t).Success? && PData().run(t).value == PConstruct().run(s).value.data
    ensures StartsWith(t, "data")
  {
    ConstructOfData(PData(), PEnumeration(), PChoice(), PTopic(), s, t);
    DataStarts(t);
  }

  /** An enumeration construct is the enumeration read on the construct's own
      cursor (the enumeration rule skips delimiters of its own). */
  lemma ConstructIsEnumeration(s: State)
    requires PConstruct().run(s).Success? && PConstruct().run(s).value.Enumeration?
    ensures PEnumeration().run(s).Success? && PEnumeration().run(s).value == PConstruct().run(s).value.enumeration
  {
    ConstructOfOthers(PData(), PEnumeration(), PChoice(), PTopic(), s);
  }

  /** A choice construct is the choice read on the construct's own cursor,
      so `choice` starts right there. */
  lemma ConstructIsChoice(s: State)
    requires PConstruct().run(s).Success? && PConstruct().run(s).value.ChoiceObject?
    ensures PChoice().run(s).Success? && PChoice().run(s).value == PConstruct().run(s).value.choice
    ensures StartsWith(s, "choice")
  {
    ConstructOfOthers(PData(), PEnumeration(), PChoice(), PTopic(), s);
    ChoiceStarts(s);
  }

  /** A topic construct is the topic read on the construct's own cursor, so
      `topic` starts right there. */
  lemma ConstructIsTopic(s: State)
    requires PConstruct().run(s).Success? && PConstruct().run(s).value.TopicObject?
    ensures PTopic().run(s).Success? && PTopic().run(s).value == PConstruct().run(s).value.topic
    ensures StartsWith(s, "topic")
  {
    ConstructOfOthers(PData(), PEnumeration(), PChoice(), PTopic(), s);
    TopicStarts(s);
  }

  /** Input that starts with `choice` or `topic` does not start with
      whitespace. */
  lemma KeywordNotIndented(s: State)
    requires StartsWith(s, "choice") || StartsWith(s, "topic")
    ensures !s.Eof() && !IsSpace(s.Char())
  {
    if StartsWith(s, "choice") {
      StartsWithAt(s, "choice", 0);
    } else {
      StartsWithAt(s, "topic", 0);
    }
  }

  /** Only the data alternative skips the delimiters before it: a choice is
      never read from a cursor that sits on whitespace. */
  lemma ChoiceNotIndented(s: State)
    requires PConstruct().run(s).Success? && PConstruct().run(s).value.ChoiceObject?
    ensures !s.Eof() && !IsSpace(s.Char())
  {
    ConstructIsChoice(s);
    KeywordNotIndented(s);
  }

  /** Likewise a topic is never read from a cursor on whitespace. */
  lemma TopicNotIndented(s: State)
    requires PConstruct().run(s).Success? && PConstruct().run(s).value.TopicObject?
    ensures !s.Eof() && !IsSpace(s.Char())
  {
    ConstructIsTopic(s);
    KeywordNotIndented(s);
  }

  // ---------------------------------------------------------------------
  // A construct behind a comment

  /** Input that starts with a construct keyword does not start with `//`. */
  lemma KeywordNotComment(s: State)
    requires StartsWith(s, "data") || StartsWith(s, "enum") || StartsWith(s, "choice") || StartsWith(s, "topic")
    ensures !StartsWith(s, "//")
  {
    if StartsWith(s, "data") {
      StartsWithAt(s, "data", 0);
    } else if StartsWith(s, "enum") {
      StartsWithAt(s, "enum", 0);
    } else if StartsWith(s, "choice") {
      StartsWithAt(s, "choice", 0);
    } else {
      StartsWithAt(s, "topic", 0);
    }
    DiffersAt(s, "//", 0);
  }

  /** At `//` there is no whitespace to skip. */
  lemma CommentNoSpace(s: State)
    requires StartsWith(s, "//")
    ensures s.pos <= |s.input| && Span(IsSpace, s.input, s.pos) == 0
  {
    StartsWithAt(s, "//", 0);
  }

  /** Optional delimiters that lead to `enum` did not start at `//`: at a
      comment they do not move. */
  lemma OptionalDelimitersBeforeKeyword(s: State, t: State)
    requires OptionalDelimiters().run(s).Success? && OptionalDelimiters().run(s).state == t
    requires StartsWith(t, "enum")
    ensures !StartsWith(s, "//")
  {
    KeywordNotComment(t);
    if StartsWith(s, "//") {
      CommentNoSpace(s);
      OptionalDelimitersReads(s, 0);
    }
  }

  /** An enumeration is never read from a cursor at `//`: the optional
      delimiters before `enum` do not skip a comment. */
  lemma EnumerationRuleNotAfterComment(s: State)
    requires PEnumeration().run(s).Success?
    ensures !StartsWith(s, "//")
  {
    EnumerationStarts(s);
    OptionalDelimitersBeforeKeyword(s, OptionalDelimiters().run(s).state);
  }

  /** A choice is never read from a cursor at `//`. */
  lemma ChoiceRuleNotAfterComment(s: State)
    requires PChoice().run(s).Success?
    ensures !StartsWith(s, "//")
  {
    ChoiceStarts(s);
    KeywordNotComment(s);
  }

  /** At a comment, `ConstructOf` fails when each of its four rules fails
      there: the delimiters before the data rule do not move past `//`. */
  lemma ConstructOfAtComment(data: Parser<Data>, enumeration: Parser<Enumeration>, choice: Parser<Choice>, topic: Parser<Topic>, s: State)
    requires Advances(data) && Advances(enumeration) && Advances(choice) && Advances(topic)
    requires StartsWith(s, "//")
    requires !data.run(s).Success? && !enumeration.run(s).Success? && !choice.run(s).Success? && !topic.run(s).Success?
    ensures !ConstructOf(data, enumeration, choice, topic).run(s).Success?
  {
    if ConstructOf(data, enumeration, choice, topic).run(s).Success? {
      ConstructOfAlternatives(data, enumeration, choice, topic, s);
      AlternativeKinds(enumeration, choice, topic, s);
      var d := AndR(Delimiters(), Alternative(data, "data-construct", AsData));
      if d.run(s).Success? {
        DelimitersKeepComments(s);
        DataAlternativeFrom(data, s, s);
      }
    }
  }

  /** None of the four construct rules reads anything at `//`. */
  lemma DataAtComment(s: State)
    requires StartsWith(s, "//")
    ensures !PData().run(s).Success?
  {
    if PData().run(s).Success? {
      DataStarts(s);
      KeywordNotComment(s);
    }
  }

  lemma EnumerationAtComment(s: State)
    requires StartsWith(s, "//")
    ensures !PEnumeration().run(s).Success?
  {
    if PEnumeration().run(s).Success? {
      EnumerationRuleNotAfterComment(s);
    }
  }

  lemma ChoiceAtComment(s: State)
    requires StartsWith(s, "//")
    ensures !PChoice().run(s).Success?
  {
    if PChoice().run(s).Success? {
      ChoiceRuleNotAfterComment(s);
    }
  }

  lemma TopicAtComment(s: State)
    requires StartsWith(s, "//")
    ensures !PTopic().run(s).Success?
  {
    if PTopic().run(s).Success? {
      TopicStarts(s);
      KeywordNotComment(s);
    }
  }

  /** No construct is read from a cursor at a comment: the comment is not
      skipped, and every alternative starts with its keyword. */
  lemma CommentedConstructFails(s: State)
    requires StartsWith(s, "//")
    ensures !PConstruct().run(s).Success?
  {
    DataAtComment(s);
    EnumerationAtComment(s);
    ChoiceAtComment(s);
    TopicAtComment(s);
    ConstructOfAtComment(PData(), PEnumeration(), PChoice(), PTopic(), s);
  }
}
