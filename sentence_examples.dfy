/**
 * The worked examples of the header of framework/sentence.h, and the sentence of the
 * Findings: each lemma gives the exact list of sentence parts parse makes of the tokens of
 * the sentence. `PartsOfJoinedWords` carries them over to the text itself, the tokens
 * joined by single spaces, which the lexer splits back into those tokens.
 *
 * Each word's tag is settled by its own lemmas, each run of plain words by one lemma, and
 * each example is laid out in pieces before the shape lemma of the parser is applied; this
 * keeps every proof obligation small.
 */
module SentenceExamples {
  import opened LibC
  import opened Strings
  import opened Lexing
  import opened Sentences

  // ---------------------------------------------------------------------------------------
  // The tags of the words of the examples

  /** The word is in none of the interrogative, auxiliary, modal and linking lists. */
  predicate NoVerbList(w: seq<char>) {
    !InList(w, InterrogativeWords) && !InList(w, AuxiliaryVerbs) && !InList(w, ModalVerbs) && !InList(w, LinkingVerbs)
  }

  lemma PizzaCapNoVerb()
    ensures NoVerbList("Pizza")
  {
  }

  lemma PizzaCapPlain()
    ensures Classify("Pizza") == Other
  {
    PizzaCapNoVerb();
  }

  lemma PizzaNoVerb()
    ensures NoVerbList("pizza")
  {
  }

  lemma PizzaPlain()
    ensures Classify("pizza") == Other
  {
    PizzaNoVerb();
  }

  lemma GoodNoVerb()
    ensures NoVerbList("good")
  {
  }

  lemma GoodPlain()
    ensures Classify("good") == Other
  {
    GoodNoVerb();
  }

  lemma MyCapNoVerb()
    ensures NoVerbList("My")
  {
  }

  lemma MyCapPlain()
    ensures Classify("My") == Other
  {
    MyCapNoVerb();
  }

  lemma NameNoVerb()
    ensures NoVerbList("name")
  {
  }

  lemma NamePlain()
    ensures Classify("name") == Other
  {
    NameNoVerb();
  }

  lemma ZackCapNoVerb()
    ensures NoVerbList("Zack")
  {
  }

  lemma ZackCapPlain()
    ensures Classify("Zack") == Other
  {
    ZackCapNoVerb();
  }

  lemma ANoVerb()
    ensures NoVerbList("a")
  {
  }

  lemma APlain()
    ensures Classify("a") == Other
  {
    ANoVerb();
  }

  lemma ACapNoVerb()
    ensures NoVerbList("A")
  {
  }

  lemma ACapPlain()
    ensures Classify("A") == Other
  {
    ACapNoVerb();
  }

  lemma TheNoVerb()
    ensures NoVerbList("the")
  {
  }

  lemma ThePlain()
    ensures Classify("the") == Other
  {
    TheNoVerb();
  }

  lemma StoreNoVerb()
    ensures NoVerbList("store")
  {
  }

  lemma StorePlain()
    ensures Classify("store") == Other
  {
    StoreNoVerb();
  }

  lemma CatNoVerb()
    ensures NoVerbList("cat")
  {
  }

  lemma CatPlain()
    ensures Classify("cat") == Other
  {
    CatNoVerb();
  }

  lemma ManyNoVerb()
    ensures NoVerbList("many")
  {
  }

  lemma ManyPlain()
    ensures Classify("many") == Other
  {
    ManyNoVerb();
  }

  lemma LegsNoVerb()
    ensures NoVerbList("legs")
  {
  }

  lemma LegsPlain()
    ensures Classify("legs") == Other
  {
    LegsNoVerb();
  }

  lemma IsTagged()
    ensures Classify("is") == AuxVerb
  {
    assert EqualsIgnoreCase("is", AuxiliaryVerbs[9]);
  }

  lemma HasTagged()
    ensures Classify("has") == AuxVerb
  {
    assert EqualsIgnoreCase("has", AuxiliaryVerbs[8]);
  }

  lemma ToTagged()
    ensures Classify("to") == LinkVerb
  {
    assert EqualsIgnoreCase("to", LinkingVerbs[0]);
  }

  lemma WhatTagged()
    ensures Classify("What") == QuestWord
  {
    assert EqualsIgnoreCase("What", InterrogativeWords[1]);
  }

  lemma HowTagged()
    ensures Classify("how") == QuestWord
  {
    assert EqualsIgnoreCase("how", InterrogativeWords[9]);
  }

  lemma GoNoVerb()
    ensures NoVerbList("Go")
  {
  }

  lemma GoTagged()
    ensures Classify("Go") == CommandWord
  {
    GoNoVerb();
    assert EqualsIgnoreCase("Go", CommandWords[5]);
  }

  lemma GetNoVerb()
    ensures NoVerbList("get")
  {
  }

  lemma GetTagged()
    ensures Classify("get") == CommandWord
  {
    GetNoVerb();
    assert EqualsIgnoreCase("get", CommandWords[6]);
  }

  lemma PizzaNotYou()
    ensures NotYou("pizza")
  {
  }

  lemma ANotYou()
    ensures NotYou("a")
  {
  }

  lemma TheNotYou()
    ensures NotYou("the")
  {
  }

  lemma StoreNotYou()
    ensures NotYou("store")
  {
  }

  lemma ManyNotYou()
    ensures NotYou("many")
  {
  }

  lemma LegsNotYou()
    ensures NotYou("legs")
  {
  }

  /** "." and "?" are told apart up to case. */
  lemma Marks()
    ensures EqualsIgnoreCase(".", ".") && !EqualsIgnoreCase(".", "?") && EqualsIgnoreCase("?", "?")
  {
  }
  // ---------------------------------------------------------------------------------------
  // From the text to its tokens

  /**
   * A text of words joined by single spaces parses, in both versions of the parser, to the
   * parts of those words.
   */
  lemma PartsOfJoinedWords(ws: seq<CText>)
    requires forall j :: 0 <= j < |ws| ==> IsWord(ws[j])
    ensures SentenceParts(Tokenize(Join(ws))) == SentenceParts(ws)
    ensures SentencePartsAsWritten(Tokenize(Join(ws))) == SentencePartsAsWritten(ws)
  {
    JoinTokenize(ws);
  }

  // ---------------------------------------------------------------------------------------
  // Runs of plain words

  lemma PizzaCapRun(ws: seq<CText>)
    requires ws == ["Pizza"]
    ensures Words(ws) && AllOther(ws)
    ensures Join(ws) == "Pizza"
  {
    PizzaCapPlain();
  }

  lemma GoodRun(ws: seq<CText>)
    requires ws == ["good"]
    ensures Words(ws) && AllOther(ws)
    ensures Join(ws) == "good"
  {
    GoodPlain();
  }

  lemma MyCapNameRun(ws: seq<CText>)
    requires ws == ["My", "name"]
    ensures Words(ws) && AllOther(ws)
    ensures Join(ws) == "My name"
  {
    MyCapPlain();
    NamePlain();
  }

  lemma ZackCapRun(ws: seq<CText>)
    requires ws == ["Zack"]
    ensures Words(ws) && AllOther(ws)
    ensures Join(ws) == "Zack"
  {
    ZackCapPlain();
  }

  lemma PizzaRun(ws: seq<CText>)
    requires ws == ["pizza"]
    ensures Words(ws) && AllOther(ws) && NoYou(ws)
    ensures Join(ws) == "pizza"
  {
    PizzaPlain();
    PizzaNotYou();
  }

  lemma APizzaRun(ws: seq<CText>)
    requires ws == ["a", "pizza"]
    ensures Words(ws) && AllOther(ws) && NoYou(ws)
    ensures Join(ws) == "a pizza"
  {
    APlain();
    PizzaPlain();
    ANotYou();
    PizzaNotYou();
  }

  lemma PizzaStoreRun(ws: seq<CText>)
    requires ws == ["pizza", "store"]
    ensures Words(ws) && AllOther(ws) && NoYou(ws)
    ensures Join(ws) == "pizza store"
  {
    PizzaPlain();
    StorePlain();
    PizzaNotYou();
    StoreNotYou();
  }

  lemma ThePizzaStoreRun(ws: seq<CText>)
    requires ws == ["the", "pizza", "store"]
    ensures Words(ws) && AllOther(ws) && NoYou(ws)
    ensures Join(ws) == "the pizza store"
  {
    ThePlain();
    TheNotYou();
    PizzaStoreRun(ws[1..]);
  }

  lemma ACapCatRun(ws: seq<CText>)
    requires ws == ["A", "cat"]
    ensures Words(ws) && AllOther(ws)
    ensures Join(ws) == "A cat"
  {
    ACapPlain();
    CatPlain();
  }

  lemma ManyLegsRun(ws: seq<CText>)
    requires ws == ["many", "legs"]
    ensures Words(ws) && AllOther(ws) && NoYou(ws)
    ensures Join(ws) == "many legs"
  {
    ManyPlain();
    LegsPlain();
    ManyNotYou();
    LegsNotYou();
  }

  /** The two runs of "A cat has how many legs ?" put together, as the predicate as written holds them. */
  lemma ACatManyLegsJoin(ss: seq<CText>, ps: seq<CText>)
    requires ss == ["A", "cat"] && ps == ["many", "legs"]
    ensures Join(ss + ps) == "A cat many legs"
  {
    assert ss + ps == ["A", "cat", "many", "legs"];
    assert Join(["many", "legs"]) == "many legs";
    assert Join(["cat", "many", "legs"]) == "cat many legs";
  }

  // ---------------------------------------------------------------------------------------
  // The examples

  lemma PizzaIsGoodLayout(ss: seq<CText>, v: CText, ps: seq<CText>, m: CText)
    requires ss == ["Pizza"] && v == "is" && ps == ["good"] && m == "."
    ensures ss + [v] + ps + [m] == ["Pizza", "is", "good", "."]
  {
  }

  /** "Pizza is good .": a statement with subject "Pizza", linking verb "is" and predicate "good". */
  lemma PizzaIsGood(toks: seq<CText>)
    requires toks == ["Pizza", "is", "good", "."]
    ensures SentenceParts(toks) == [SentencePart(Statement, [], [], [], "Pizza", "is", "good")]
  {
    var ss: seq<CText>, v: CText, ps: seq<CText>, m: CText := ["Pizza"], "is", ["good"], ".";
    PizzaIsGoodLayout(ss, v, ps, m);
    PizzaCapRun(ss);
    GoodRun(ps);
    IsTagged();
    Marks();
    StatementShape(ss, v, ps, m, true);
  }

  lemma MyNameIsZackLayout(ss: seq<CText>, v: CText, ps: seq<CText>, m: CText)
    requires ss == ["My", "name"] && v == "is" && ps == ["Zack"] && m == "."
    ensures ss + [v] + ps + [m] == ["My", "name", "is", "Zack", "."]
  {
  }

  /** "My name is Zack .": a statement with subject "My name", linking verb "is" and predicate "Zack". */
  lemma MyNameIsZack(toks: seq<CText>)
    requires toks == ["My", "name", "is", "Zack", "."]
    ensures SentenceParts(toks) == [SentencePart(Statement, [], [], [], "My name", "is", "Zack")]
  {
    var ss: seq<CText>, v: CText, ps: seq<CText>, m: CText := ["My", "name"], "is", ["Zack"], ".";
    MyNameIsZackLayout(ss, v, ps, m);
    MyCapNameRun(ss);
    ZackCapRun(ps);
    IsTagged();
    Marks();
    StatementShape(ss, v, ps, m, true);
  }

  lemma PizzaIsGoodQuestionLayout(ss: seq<CText>, v: CText, ps: seq<CText>, m: CText)
    requires ss == ["Pizza"] && v == "is" && ps == ["good"] && m == "?"
    ensures ss + [v] + ps + [m] == ["Pizza", "is", "good", "?"]
  {
  }

  /** "Pizza is good ?": the same parts as "Pizza is good .", in a question. */
  lemma PizzaIsGoodQuestion(toks: seq<CText>)
    requires toks == ["Pizza", "is", "good", "?"]
    ensures SentenceParts(toks) == [SentencePart(Question, [], [], [], "Pizza", "is", "good")]
  {
    var ss: seq<CText>, v: CText, ps: seq<CText>, m: CText := ["Pizza"], "is", ["good"], "?";
    PizzaIsGoodQuestionLayout(ss, v, ps, m);
    PizzaCapRun(ss);
    GoodRun(ps);
    IsTagged();
    Marks();
    StatementShape(ss, v, ps, m, true);
  }

  lemma WhatIsPizzaLayout(q: CText, v: CText, ss: seq<CText>, m: CText)
    requires q == "What" && v == "is" && ss == ["pizza"] && m == "?"
    ensures [q, v] + ss + [m] == ["What", "is", "pizza", "?"]
  {
  }

  /** "What is pizza ?": a question with interrogative "What", subject verb "is" and subject "pizza". */
  lemma WhatIsPizza(toks: seq<CText>)
    requires toks == ["What", "is", "pizza", "?"]
    ensures SentenceParts(toks) == [SentencePart(Question, "What", [], "is", "pizza", [], [])]
  {
    var q: CText, v: CText, ss: seq<CText>, m: CText := "What", "is", ["pizza"], "?";
    WhatIsPizzaLayout(q, v, ss, m);
    PizzaRun(ss);
    WhatTagged();
    IsTagged();
    Marks();
    QuestionVerbShape(q, v, ss, m, true);
  }

  lemma WhatPizzaIsGoodLayout(q: CText, ss: seq<CText>, v: CText, ps: seq<CText>, m: CText)
    requires q == "What" && ss == ["pizza"] && v == "is" && ps == ["good"] && m == "?"
    ensures [q] + ss + [v] + ps + [m] == ["What", "pizza", "is", "good", "?"]
  {
  }

  /** "What pizza is good ?": interrogative "What", subject "pizza", linking verb "is", predicate "good". */
  lemma WhatPizzaIsGood(toks: seq<CText>)
    requires toks == ["What", "pizza", "is", "good", "?"]
    ensures SentenceParts(toks) == [SentencePart(Question, "What", [], [], "pizza", "is", "good")]
  {
    var q: CText, ss: seq<CText>, v: CText, ps: seq<CText>, m: CText := "What", ["pizza"], "is", ["good"], "?";
    WhatPizzaIsGoodLayout(q, ss, v, ps, m);
    PizzaRun(ss);
    GoodRun(ps);
    WhatTagged();
    IsTagged();
    Marks();
    QuestionLinkShape(q, ss, v, ps, m, true);
  }

  lemma GoGetAPizzaLayout(w: CText, v: CText, ss: seq<CText>, m: CText)
    requires w == "Go" && v == "get" && ss == ["a", "pizza"] && m == "."
    ensures [w, v] + ss + [m] == ["Go", "get", "a", "pizza", "."]
  {
  }

  /** "Go get a pizza .": a command with command "Go", subject verb "get" and subject "a pizza". */
  lemma GoGetAPizza(toks: seq<CText>)
    requires toks == ["Go", "get", "a", "pizza", "."]
    ensures SentenceParts(toks) == [SentencePart(Command, [], "Go", "get", "a pizza", [], [])]
  {
    var w: CText, v: CText, ss: seq<CText>, m: CText := "Go", "get", ["a", "pizza"], ".";
    GoGetAPizzaLayout(w, v, ss, m);
    APizzaRun(ss);
    GoTagged();
    GetTagged();
    Marks();
    CommandShape(w, v, ss, m, true);
  }

  lemma GoToThePizzaStoreLayout(w: CText, v: CText, ss: seq<CText>, m: CText)
    requires w == "Go" && v == "to" && ss == ["the", "pizza", "store"] && m == "."
    ensures [w, v] + ss + [m] == ["Go", "to", "the", "pizza", "store", "."]
  {
  }

  /** "Go to the pizza store .": command "Go", subject verb "to", subject "the pizza store". */
  lemma GoToThePizzaStore(toks: seq<CText>)
    requires toks == ["Go", "to", "the", "pizza", "store", "."]
    ensures SentenceParts(toks) == [SentencePart(Command, [], "Go", "to", "the pizza store", [], [])]
  {
    var w: CText, v: CText, ss: seq<CText>, m: CText := "Go", "to", ["the", "pizza", "store"], ".";
    GoToThePizzaStoreLayout(w, v, ss, m);
    ThePizzaStoreRun(ss);
    GoTagged();
    ToTagged();
    Marks();
    CommandShape(w, v, ss, m, true);
  }

  lemma ACatHasHowManyLegsLayout(ss: seq<CText>, v: CText, q: CText, ps: seq<CText>, m: CText)
    requires ss == ["A", "cat"] && v == "has" && q == "how" && ps == ["many", "legs"] && m == "?"
    ensures ss + [v, q] + ps + [m] == ["A", "cat", "has", "how", "many", "legs", "?"]
  {
  }

  /**
   * "A cat has how many legs ?" with the exchange corrected: subject "many legs", linking verb
   * "has", predicate "A cat".
   */
  lemma ACatHasHowManyLegs(toks: seq<CText>)
    requires toks == ["A", "cat", "has", "how", "many", "legs", "?"]
    ensures SentenceParts(toks) == [SentencePart(Question, "how", [], [], "many legs", "has", "A cat")]
  {
    var ss: seq<CText>, v: CText, q: CText, ps: seq<CText>, m: CText := ["A", "cat"], "has", "how", ["many", "legs"], "?";
    ACatHasHowManyLegsLayout(ss, v, q, ps, m);
    ACapCatRun(ss);
    ManyLegsRun(ps);
    HasTagged();
    HowTagged();
    Marks();
    InterrogativeAfterLinkShape(ss, v, q, ps, m);
  }

  lemma ACatHasHowManyLegsAsWrittenLayout(ss: seq<CText>, v: CText, q: CText, ps: seq<CText>, m: CText)
    requires ss == ["A", "cat"] && v == "has" && q == "how" && ps == ["many", "legs"] && m == "?"
    ensures ss + [v, q] + ps + [m] == ["A", "cat", "has", "how", "many", "legs", "?"]
  {
  }

  /**
   * "A cat has how many legs ?" as written: the subject keeps "A cat" and the predicate
   * repeats it, "A cat many legs".
   */
  lemma ACatHasHowManyLegsAsWritten(toks: seq<CText>)
    requires toks == ["A", "cat", "has", "how", "many", "legs", "?"]
    ensures SentencePartsAsWritten(toks) == [SentencePart(Question, "how", [], [], "A cat", "has", "A cat many legs")]
  {
    var ss: seq<CText>, v: CText, q: CText, ps: seq<CText>, m: CText := ["A", "cat"], "has", "how", ["many", "legs"], "?";
    ACatHasHowManyLegsAsWrittenLayout(ss, v, q, ps, m);
    ACapCatRun(ss);
    ManyLegsRun(ps);
    HasTagged();
    HowTagged();
    Marks();
    ACatManyLegsJoin(ss, ps);
    InterrogativeAfterLinkShapeAsWritten(ss, v, q, ps, m);
  }
}
