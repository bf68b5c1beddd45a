/**
 * The sentence parser (framework/sentence.cpp, framework/sentence.h): the tokens of a text
 * are tagged by word lists, then read left to right into sentence parts (a statement, a
 * question or a command, with its interrogative word, command word, subject verb, subject,
 * linking verb and predicate).
 *
 * The specification is a fold: `Step` is one turn of the parse loop over a `Walk` (the part
 * being built, the two reading flags, the first token of the part and the parts pushed so
 * far), `Walked` runs it over a prefix of the tokens and `PartsOf` pushes the last part.
 * `Sentence.Parse` is the loop itself, over a tag array of 1024 entries, proved to push
 * exactly `SentenceParts`.
 *
 * The String fields of a part are kept as their text. Every String the parser writes is
 * either empty or holds non-empty text, so isEmpty is `== []` on that text; assignment from
 * an empty String leaves its target as it was (operator= calls setData(NULL)), which
 * `Assign` states.
 */
module Sentences {
  import opened Wrappers
  import opened LibC
  import opened Strings
  import opened Lexing
  import opened Seqs

  /** The sentence function of a part (exclamation and condition are never produced). */
  datatype SentenceFunction = Unknown | Statement | Question | Exclamation | Command | Condition

  /** A sentence part; `kind` is the source's `function` field. */
  datatype SentencePart = SentencePart(
    kind: SentenceFunction,
    interrogative: CText,
    command: CText,
    subjectVerb: CText,
    subject: CText,
    linkingVerb: CText,
    predicateText: CText)
  {
    /** clear(): resets the function and four of the words; command and subjectVerb stay. */
    function Cleared(): (p: SentencePart)
      ensures p.kind == Unknown
      ensures p.interrogative == [] && p.linkingVerb == [] && p.subject == [] && p.predicateText == []
      ensures p.command == command && p.subjectVerb == subjectVerb
    {
      this.(kind := Unknown, interrogative := [], linkingVerb := [], subject := [], predicateText := [])
    }

    /** getFunctionName */
    function FunctionName(): (name: CText)
    {
      match kind
      case Statement => "statement"
      case Question => "question"
      case Exclamation => "exclamation"
      case Command => "command"
      case Condition => "condition"
      case Unknown => "unknown"
    }
  }

  /** A part as default construction and clear() leave it. */
  const EmptyPart := SentencePart(Unknown, [], [], [], [], [], [])

  /** Each sentence function has a name of its own. */
  lemma FunctionNamesDistinct(p: SentencePart, q: SentencePart)
    ensures p.FunctionName() == q.FunctionName() <==> p.kind == q.kind
  {
  }

  /** The tags of parse; `Unset` is TT_NONE, the tag of no token. */
  datatype TokenType =
    Unset | QuestWord | AuxVerb | ModalVerb | LinkVerb | MiscVerb | CommandWord | Punctuation | Quote | Other

  const InterrogativeWords: seq<CText> :=
    ["which", "what", "whose", "who", "whom", "where", "whence", "whither", "when", "how",
     "why", "wherefore", "whether"]

  const ModalVerbs: seq<CText> :=
    ["can", "could", "may", "might", "must", "shall", "should", "will", "would"]

  const AuxiliaryVerbs: seq<CText> :=
    ["am", "are", "be", "been", "being", "did", "does", "had", "has", "is", "was", "were",
     "like", "love"]

  const LinkingVerbs: seq<CText> := ["to"]

  /** The command words: the verbs of Basic English, two operators, and six switch words. */
  const CommandWords: seq<CText> := BasicEnglishVerbs + OperatorWords + SwitchWords

  const BasicEnglishVerbs: seq<CText> :=
    ["be", "come", "give", "make", "have", "go", "get", "send", "do", "put", "keep", "see",
     "seem", "take", "let", "say"]

  const OperatorWords: seq<CText> := ["cause", "because"]

  const SwitchWords: seq<CText> := ["set", "enable", "disable", "stop", "start", "restart"]

  const MiscVerbs: seq<CText> := []

  const PunctuationMarks: seq<CText> := [".", "!", "?", ",", ";"]

  const QuoteMarks: seq<CText> := ["\"", "'", "`"]

  /** inWordList: the loop over the list, comparing with icompareTo. */
  method InWordList(original: String, wordList: seq<CText>) returns (r: bool)
    ensures r == InList(original.CStr(), wordList)
  {
    var i := 0;
    while i < |wordList|
      invariant 0 <= i <= |wordList|
      invariant forall j :: 0 <= j < i ==> !EqualsIgnoreCase(original.CStr(), wordList[j])
    {
      if original.ICompareTo(Some(wordList[i]), -1) == 0 {
        return true;
      }
      i := i + 1;
    }
    return false;
  }

  /** The tag of a token: that of the first list it is in, or Other. */
  function Classify(w: seq<char>): TokenType {
    if InList(w, InterrogativeWords) then QuestWord
    else if InList(w, AuxiliaryVerbs) then AuxVerb
    else if InList(w, ModalVerbs) then ModalVerb
    else if InList(w, LinkingVerbs) then LinkVerb
    else if InList(w, MiscVerbs) then MiscVerb
    else if InList(w, CommandWords) then CommandWord
    else if InList(w, PunctuationMarks) then Punctuation
    else if InList(w, QuoteMarks) then Quote
    else Other
  }

  /** The tagging of one token in parse. */
  method Tag(tok: String) returns (t: TokenType)
    ensures t == Classify(tok.CStr())
  {
    var b := InWordList(tok, InterrogativeWords);
    if b { return QuestWord; }
    b := InWordList(tok, AuxiliaryVerbs);
    if b { return AuxVerb; }
    b := InWordList(tok, ModalVerbs);
    if b { return ModalVerb; }
    b := InWordList(tok, LinkingVerbs);
    if b { return LinkVerb; }
    b := InWordList(tok, MiscVerbs);
    if b { return MiscVerb; }
    b := InWordList(tok, CommandWords);
    if b { return CommandWord; }
    b := InWordList(tok, PunctuationMarks);
    if b { return Punctuation; }
    b := InWordList(tok, QuoteMarks);
    if b { return Quote; }
    return Other;
  }

  /** "be" is tagged as an auxiliary verb, so its entry among the command words never applies. */
  lemma BeIsAuxiliary()
    ensures Classify("be") == AuxVerb
  {
    assert EqualsIgnoreCase("be", AuxiliaryVerbs[2]);
  }

  /** A word of no list at all is tagged Other; Classify never yields Unset or MiscVerb. */
  lemma ClassifyRange(w: seq<char>)
    ensures Classify(w) != Unset && Classify(w) != MiscVerb
    ensures Classify(w) == Other <==>
      !InList(w, InterrogativeWords) && !InList(w, AuxiliaryVerbs) && !InList(w, ModalVerbs) &&
      !InList(w, LinkingVerbs) && !InList(w, CommandWords) && !InList(w, PunctuationMarks) &&
      !InList(w, QuoteMarks)
  {
    assert !InList(w, MiscVerbs);
  }

  function Types(toks: seq<CText>): (types: seq<TokenType>)
    ensures |types| == |toks|
    ensures forall k :: 0 <= k < |toks| ==> types[k] == Classify(toks[k])
  {
    seq(|toks|, k requires 0 <= k < |toks| => Classify(toks[k]))
  }

  // ---------------------------------------------------------------------------------------
  // One turn of the parse loop

  /** The state of the parse loop between two tokens. */
  datatype Walk = Walk(part: SentencePart, readSubject: bool, readPredicate: bool, first: nat,
                       parts: seq<SentencePart>)

  const Start := Walk(EmptyPart, false, false, 0, [])

  /** operator= on Strings: an empty source leaves the target as it was. */
  function Assign(target: CText, source: CText): (r: CText)
    ensures source != [] ==> r == source
    ensures source == [] ==> r == target
  {
    if source == [] then target else source
  }

  /** append(" ") when the text is not empty, then append(token). */
  function AppendWord(text: CText, tok: CText): (r: CText)
    ensures text == [] ==> r == tok
    ensures text != [] ==> r == text + [' '] + tok
  {
    (if text != [] then text + [' '] else text) + tok
  }

  /** A part is kept only when its function is known. */
  function Pushed(parts: seq<SentencePart>, p: SentencePart): (r: seq<SentencePart>)
    ensures p.kind != Unknown ==> r == parts + [p]
    ensures p.kind == Unknown ==> r == parts
  {
    if p.kind != Unknown then parts + [p] else parts
  }

  /**
   * The first token after a run of punctuation ends the part: it is pushed if its function
   * is known, cleared, and the new part starts here.
   */
  function AtBoundary(types: seq<TokenType>, i: nat, w: Walk): (r: Walk)
    requires i < |types|
  {
    if i > 0 && types[i - 1] == Punctuation && types[i] != Punctuation then
      w.(part := w.part.Cleared(), first := i, parts := Pushed(w.parts, w.part))
    else w
  }

  /**
   * The exchange of subject and predicate after an interrogative word. As written, the
   * subject is assigned from a copy of the predicate, which leaves it unchanged when the
   * predicate is empty; corrected, the two are exchanged.
   */
  function SwapSubject(p: SentencePart, corrected: bool): (q: SentencePart)
  {
    var tmp := p.predicateText;
    var p1 := p.(predicateText := Assign(p.predicateText, p.subject));
    if corrected then p1.(subject := tmp) else p1.(subject := Assign(p1.subject, tmp))
  }

  /** An interrogative word: the part becomes a question, and reading goes to an empty slot. */
  function QuestionWordStep(tok: CText, w: Walk, corrected: bool): (r: Walk)
  {
    var p := w.part.(kind := Question, interrogative := Assign(w.part.interrogative, tok));
    var p2 := if p.subject != [] then SwapSubject(p, corrected) else p;
    var rs := p2.subject == [];
    w.(part := p2, readSubject := rs, readPredicate := !rs)
  }

  /**
   * The backward search for the subject before a linking verb at i: from s down to the
   * first token of the part, quotes are skipped and Other tokens extend the subject; any
   * other tag stops the search.
   */
  function BackSearch(types: seq<TokenType>, i: nat, first: nat, s: int, start: int): (r: int)
    requires first <= start < i < |types| && first - 1 <= s <= start
    ensures first <= r <= start
    decreases s - first + 1
  {
    if s < first then start
    else if types[i] == Punctuation || types[s] == Quote then BackSearch(types, i, first, s - 1, start)
    else if types[s] == Other then BackSearch(types, i, first, s - 1, s)
    else start
  }

  /**
   * A verb or command word. At the start of a part it makes a command or a question;
   * right after an interrogative or command word it is the subject verb; otherwise the
   * first such word is the linking verb, with the Other tokens before it as the subject.
   */
  function VerbStep(toks: seq<CText>, types: seq<TokenType>, i: nat, w: Walk): (r: Walk)
    requires i < |toks| == |types| && w.first <= i
  {
    var tok := toks[i];
    var prev := if i > w.first then types[i - 1] else Unset;
    if prev == Unset then
      var p := if types[i] == CommandWord then w.part.(kind := Command, command := Assign(w.part.command, tok))
               else w.part.(kind := Question, interrogative := Assign(w.part.interrogative, tok));
      w.(part := p, readSubject := true, readPredicate := false)
    else if prev == QuestWord || prev == CommandWord then
      var p := w.part.(subjectVerb := Assign(w.part.subjectVerb, tok));
      var rs := p.subject == [];
      w.(part := p, readSubject := rs, readPredicate := !rs)
    else if w.part.linkingVerb != [] then w
    else LinkStep(toks, types, i, w)
  }

  /** The first linking verb of a part, with the Other tokens before it as the subject. */
  function LinkStep(toks: seq<CText>, types: seq<TokenType>, i: nat, w: Walk): (r: Walk)
    requires w.first < i < |toks| == |types|
  {
    var k := if w.part.kind != Unknown then w.part.kind
             else if types[i] == CommandWord then Command
             else Statement;
    var subject := LinkSubject(toks, types, i, w);
    var p := w.part.(kind := k, linkingVerb := Assign(w.part.linkingVerb, toks[i]), subject := subject);
    var rs := p.subject == [];
    w.(part := p, readSubject := rs, readPredicate := !rs)
  }

  /**
   * The subject at a linking verb: the run of Other tokens that ends just before the verb
   * (or before a quote just before it), joined by spaces, replaces the part's subject. The
   * subject is kept only when no such run is found.
   */
  function LinkSubject(toks: seq<CText>, types: seq<TokenType>, i: nat, w: Walk): CText
    requires w.first < i < |toks| == |types|
  {
    var start := BackSearch(types, i, w.first, i - 1, i - 1);
    var end := if types[i - 1] == Quote then i - 2 else i - 1;
    if start >= w.first && types[start] == Other && end >= w.first
    then Assign(w.part.subject, Join(toks[start..end + 1]))
    else w.part.subject
  }

  /** Punctuation or a quote stops reading; "?" makes a question, "." turns one into a statement. */
  function PunctuationStep(tok: CText, w: Walk): (r: Walk)
  {
    var p :=
      if EqualsIgnoreCase(tok, "?") && w.part.kind != Question then w.part.(kind := Question)
      else if EqualsIgnoreCase(tok, ".") && w.part.kind == Question then w.part.(kind := Statement)
      else w.part;
    w.(part := p, readSubject := false, readPredicate := false)
  }

  /** Any other word goes to the subject or the predicate being read; "you" ends a subject. */
  function WordStep(tok: CText, w: Walk): (r: Walk)
  {
    if w.readSubject then
      var you := EqualsIgnoreCase(tok, "you") || EqualsIgnoreCase(tok, "your");
      w.(part := w.part.(subject := AppendWord(w.part.subject, tok)),
         readSubject := !you, readPredicate := you || w.readPredicate)
    else if w.readPredicate then
      w.(part := w.part.(predicateText := AppendWord(w.part.predicateText, tok)))
    else w
  }

  /** The reading of token i by its tag, once the boundary test is past. */
  function ReadStep(toks: seq<CText>, types: seq<TokenType>, i: nat, w: Walk, corrected: bool): (r: Walk)
    requires i < |toks| == |types| && w.first <= i
  {
    match types[i]
    case QuestWord => QuestionWordStep(toks[i], w, corrected)
    case AuxVerb | ModalVerb | LinkVerb | CommandWord => VerbStep(toks, types, i, w)
    case Punctuation | Quote => PunctuationStep(toks[i], w)
    case _ => WordStep(toks[i], w)
  }

  /** One turn of the parse loop, at token i. */
  function Step(toks: seq<CText>, types: seq<TokenType>, i: nat, w: Walk, corrected: bool): (r: Walk)
    requires i < |toks| == |types| && w.first <= i
    ensures r.first <= i
  {
    ReadStep(toks, types, i, AtBoundary(types, i, w), corrected)
  }

  /** The state after the first n turns of the loop. */
  function Walked(toks: seq<CText>, types: seq<TokenType>, n: nat, corrected: bool): (w: Walk)
    requires n <= |toks| == |types|
    ensures w.first <= n
  {
    if n == 0 then Start
    else Step(toks, types, n - 1, Walked(toks, types, n - 1, corrected), corrected)
  }

  /** The parts parse pushes for the given tokens. */
  function PartsOf(toks: seq<CText>, corrected: bool): seq<SentencePart> {
    PartsWalked(toks, Types(toks), corrected)
  }

  /** The parts pushed by the loop over the tokens with the given tags, and the last part. */
  function PartsWalked(toks: seq<CText>, types: seq<TokenType>, corrected: bool): seq<SentencePart>
    requires |toks| == |types|
  {
    var w := Walked(toks, types, |toks|, corrected);
    Pushed(w.parts, w.part)
  }

  lemma PartsOfWalked(toks: seq<CText>, c: bool)
    ensures PartsOf(toks, c) ==
            Pushed(Walked(toks, Types(toks), |toks|, c).parts, Walked(toks, Types(toks), |toks|, c).part)
  {
  }

  /** Sentence::parse as written. */
  function SentencePartsAsWritten(toks: seq<CText>): seq<SentencePart> {
    PartsOf(toks, false)
  }

  /** Sentence::parse with the subject and predicate exchanged after an interrogative word. */
  function SentenceParts(toks: seq<CText>): seq<SentencePart> {
    PartsOf(toks, true)
  }

  /** The tokens of the text parse is given; NULL is read as the empty String. */
  function TextTokens(text: Option<CText>): seq<CText> {
    Tokenize(if text.None? then [] else text.value)
  }

  // ---------------------------------------------------------------------------------------
  // Properties of the parse

  predicate AllKnown(parts: seq<SentencePart>) {
    forall j :: 0 <= j < |parts| ==> parts[j].kind != Unknown
  }

  /** Only the boundary test pushes parts. */
  lemma StepParts(toks: seq<CText>, types: seq<TokenType>, i: nat, w: Walk, corrected: bool)
    requires i < |toks| == |types| && w.first <= i
    ensures Step(toks, types, i, w, corrected).parts == AtBoundary(types, i, w).parts
  {
    var w1 := AtBoundary(types, i, w);
    match types[i]
    case QuestWord =>
    case AuxVerb | ModalVerb | LinkVerb | CommandWord =>
      assert ReadStep(toks, types, i, w1, corrected).parts == w1.parts;
    case Punctuation | Quote =>
    case _ =>
  }

  lemma {:induction false} WalkedPartsKnown(toks: seq<CText>, types: seq<TokenType>, n: nat, corrected: bool)
    requires n <= |toks| == |types|
    ensures AllKnown(Walked(toks, types, n, corrected).parts)
  {
    if n > 0 {
      var w := Walked(toks, types, n - 1, corrected);
      WalkedPartsKnown(toks, types, n - 1, corrected);
      StepParts(toks, types, n - 1, w, corrected);
    }
  }

  /** Only parts with a known sentence function are pushed. */
  lemma PartsAreKnown(toks: seq<CText>, corrected: bool)
    ensures AllKnown(PartsOf(toks, corrected))
  {
    WalkedPartsKnown(toks, Types(toks), |toks|, corrected);
  }

  lemma {:induction false} WalkedPlainWords(toks: seq<CText>, types: seq<TokenType>, n: nat, corrected: bool)
    requires n <= |toks| == |types|
    requires forall k :: 0 <= k < n ==> types[k] == Other
    ensures Walked(toks, types, n, corrected).part.kind == Unknown
    ensures Walked(toks, types, n, corrected).parts == []
  {
    if n > 0 {
      var w := Walked(toks, types, n - 1, corrected);
      WalkedPlainWords(toks, types, n - 1, corrected);
      assert AtBoundary(types, n - 1, w) == w;
      WalkedNext(toks, types, n - 1, corrected);
      assert types[n - 1] == Other;
      assert Walked(toks, types, n, corrected) == WordStep(toks[n - 1], w);
    }
  }

  /** Words in none of the lists (no verb, question word or punctuation) make no sentence part. */
  lemma PlainWordsMakeNoPart(toks: seq<CText>, corrected: bool)
    requires forall k :: 0 <= k < |toks| ==> Classify(toks[k]) == Other
    ensures PartsOf(toks, corrected) == []
  {
    WalkedPlainWords(toks, Types(toks), |toks|, corrected);
  }

  /** "?" is a punctuation mark, and no word of an earlier list. */
  lemma QuestionMarkIsPunctuation(tok: seq<char>)
    requires EqualsIgnoreCase(tok, "?")
    ensures Classify(tok) == Punctuation
  {
    assert LowerAll(tok) == LowerAll("?");
    ShortNotVerb(tok);
    assert EqualsIgnoreCase(tok, PunctuationMarks[2]);
  }

  lemma PeriodIsPunctuation(tok: seq<char>)
    requires EqualsIgnoreCase(tok, ".")
    ensures Classify(tok) == Punctuation
  {
    assert LowerAll(tok) == LowerAll(".");
    ShortNotVerb(tok);
    assert EqualsIgnoreCase(tok, PunctuationMarks[0]);
  }

  /** Every word of the first six lists has at least two letters. */
  lemma ShortNotVerb(tok: seq<char>)
    requires |tok| == 1
    ensures !InList(tok, InterrogativeWords) && !InList(tok, AuxiliaryVerbs) && !InList(tok, ModalVerbs)
    ensures !InList(tok, LinkingVerbs) && !InList(tok, MiscVerbs) && !InList(tok, CommandWords)
  {
    ShortNotIn(tok, InterrogativeWords);
    ShortNotIn(tok, AuxiliaryVerbs);
    ShortNotIn(tok, ModalVerbs);
    ShortNotIn(tok, LinkingVerbs);
    ShortNotIn(tok, CommandWords);
  }

  lemma ShortNotIn(tok: seq<char>, list: seq<CText>)
    requires |tok| == 1 && forall j :: 0 <= j < |list| ==> |list[j]| > 1
    ensures !InList(tok, list)
  {
  }

  /** A period or question mark is punctuation, and never both. */
  lemma EndMark(m: seq<char>)
    requires EqualsIgnoreCase(m, ".") || EqualsIgnoreCase(m, "?")
    ensures Classify(m) == Punctuation
    ensures !(EqualsIgnoreCase(m, ".") && EqualsIgnoreCase(m, "?"))
  {
    if EqualsIgnoreCase(m, "?") {
      QuestionMarkIsPunctuation(m);
    } else {
      PeriodIsPunctuation(m);
    }
  }

  /** A text that ends in "?" ends in a question. */
  lemma EndsInQuestion(toks: seq<CText>, corrected: bool)
    requires toks != [] && EqualsIgnoreCase(toks[|toks| - 1], "?")
    ensures PartsOf(toks, corrected) != []
    ensures PartsOf(toks, corrected)[|PartsOf(toks, corrected)| - 1].kind == Question
  {
    QuestionMarkIsPunctuation(toks[|toks| - 1]);
  }

  /** A text that ends in "." does not leave a question open: the last part is no question. */
  lemma EndsInPeriod(toks: seq<CText>, corrected: bool)
    requires toks != [] && EqualsIgnoreCase(toks[|toks| - 1], ".")
    ensures Walked(toks, Types(toks), |toks|, corrected).part.kind != Question
  {
    PeriodIsPunctuation(toks[|toks| - 1]);
    assert !EqualsIgnoreCase(toks[|toks| - 1], "?") by {
      assert LowerAll(toks[|toks| - 1]) == LowerAll(".");
    }
  }

  /**
   * After an interrogative word the corrected parse has exchanged subject and predicate
   * and reads into the slot left empty.
   */
  lemma QuestionWordSwapsSubject(tok: CText, w: Walk)
    requires tok != [] && w.part.subject != []
    ensures QuestionWordStep(tok, w, true).part.subject == w.part.predicateText
    ensures QuestionWordStep(tok, w, true).part.predicateText == w.part.subject
    ensures QuestionWordStep(tok, w, true).readSubject <==> w.part.predicateText == []
    ensures QuestionWordStep(tok, w, true).part.kind == Question
    ensures QuestionWordStep(tok, w, true).part.interrogative == tok
  {
  }

  /** As written, an empty predicate leaves the subject in place and copies it to the predicate. */
  lemma AsWrittenSwapDuplicatesSubject(tok: CText, w: Walk)
    requires tok != [] && w.part.subject != [] && w.part.predicateText == []
    ensures QuestionWordStep(tok, w, false).part.subject == w.part.subject
    ensures QuestionWordStep(tok, w, false).part.predicateText == w.part.subject
    ensures !QuestionWordStep(tok, w, false).readSubject
  {
  }

  /**
   * The backward search of parse for the subject before the linking verb at i (the loop
   * of sentence.cpp over s from i - 1 down to the first token of the part).
   */
  method SubjectStart(tokenTypes: array<TokenType>, ghost types: seq<TokenType>, i: nat, first: nat)
    returns (startToken: int)
    requires first < i < |types| <= tokenTypes.Length && tokenTypes[..|types|] == types
    ensures startToken == BackSearch(types, i, first, i - 1, i - 1)
  {
    startToken := i - 1;
    ghost var found := BackSearch(types, i, first, i - 1, i - 1);
    var s := startToken;
    while s >= first
      invariant first - 1 <= s <= startToken <= i - 1 && first <= startToken
      invariant BackSearch(types, i, first, s, startToken) == found
      decreases s - first + 1
    {
      assert tokenTypes[s] == types[s] && tokenTypes[i] == types[i];
      if tokenTypes[i] == Punctuation || tokenTypes[s] == Quote {
      } else if tokenTypes[s] == Other {
        startToken := s;
      } else {
        break;
      }
      s := s - 1;
    }
  }

  /** The interrogative-word branch of the parse loop, with the corrected exchange. */
  method ReadQuestionWord(tok: CText, part0: SentencePart, readSubject0: bool, readPredicate0: bool,
                          ghost first: nat, ghost parts: seq<SentencePart>)
    returns (part: SentencePart, readSubject: bool, readPredicate: bool)
    ensures Walk(part, readSubject, readPredicate, first, parts) ==
            QuestionWordStep(tok, Walk(part0, readSubject0, readPredicate0, first, parts), true)
  {
    part := part0.(kind := Question, interrogative := Assign(part0.interrogative, tok));
    if part.subject != [] {
      var tmp := part.predicateText;
      part := part.(predicateText := Assign(part.predicateText, part.subject));
      part := part.(subject := tmp);
    }
    readSubject := part.subject == [];
    readPredicate := !readSubject;
  }

  /** The verb branch of the parse loop: a command or question word, a subject verb or a link. */
  method ReadVerb(tokens: Lexer, tokenTypes: array<TokenType>, ghost types: seq<TokenType>, i: nat,
                  part0: SentencePart, readSubject0: bool, readPredicate0: bool, first: nat,
                  ghost parts: seq<SentencePart>)
    returns (part: SentencePart, readSubject: bool, readPredicate: bool)
    requires i < |tokens.tokens| == |types| <= tokenTypes.Length && first <= i
    requires tokenTypes[..|types|] == types
    ensures Walk(part, readSubject, readPredicate, first, parts) ==
            VerbStep(tokens.tokens, types, i, Walk(part0, readSubject0, readPredicate0, first, parts))
  {
    ghost var toks := tokens.tokens;
    part, readSubject, readPredicate := part0, readSubject0, readPredicate0;
    var t := tokenTypes[i];
    assert t == types[i];
    var tok := tokens.GetToken(i);
    var prev := if i > first then tokenTypes[i - 1] else Unset;
    assert i > first ==> prev == types[i - 1];
    if prev == Unset {
      if t == CommandWord {
        part := part.(kind := Command, command := Assign(part.command, tok));
      } else {
        part := part.(kind := Question, interrogative := Assign(part.interrogative, tok));
      }
      readSubject := true;
      readPredicate := false;
    } else if prev == QuestWord || prev == CommandWord {
      part := part.(subjectVerb := Assign(part.subjectVerb, tok));
      readSubject := part.subject == [];
      readPredicate := !readSubject;
    } else if part.linkingVerb != [] {
      // a second linking verb is passed over
    } else {
      part, readSubject, readPredicate := ReadLink(tokens, tokenTypes, types, i, part, readSubject, readPredicate, first, parts);
    }
  }

  /** The linking-verb branch of ReadVerb: the subject is read back from the tokens before it. */
  method ReadLink(tokens: Lexer, tokenTypes: array<TokenType>, ghost types: seq<TokenType>, i: nat,
                  part0: SentencePart, readSubject0: bool, readPredicate0: bool, first: nat,
                  ghost parts: seq<SentencePart>)
    returns (part: SentencePart, readSubject: bool, readPredicate: bool)
    requires i < |tokens.tokens| == |types| <= tokenTypes.Length && first < i
    requires tokenTypes[..|types|] == types
    ensures Walk(part, readSubject, readPredicate, first, parts) ==
            LinkStep(tokens.tokens, types, i, Walk(part0, readSubject0, readPredicate0, first, parts))
  {
    ghost var toks := tokens.tokens;
    var t := tokenTypes[i];
    assert t == types[i];
    var kind := part0.kind;
    if kind == Unknown {
      kind := if t == CommandWord then Command else Statement;
    }
    var linkingVerb := Assign(part0.linkingVerb, tokens.GetToken(i));
    var startToken := SubjectStart(tokenTypes, types, i, first);
    var endToken := i - 1;
    if tokenTypes[endToken] == Quote {
      endToken := endToken - 1;
    }
    assert endToken == if types[i - 1] == Quote then i - 2 else i - 1;
    var subject := part0.subject;
    if startToken >= first && tokenTypes[startToken] == Other && endToken >= first {
      assert types[startToken] == Other;
      var sub := RunText(tokens, startToken, endToken);
      subject := Assign(part0.subject, sub);
    }
    part := part0.(kind := kind, linkingVerb := linkingVerb, subject := subject);
    readSubject := subject == [];
    readPredicate := !readSubject;
    ghost var w := Walk(part0, readSubject0, readPredicate0, first, parts);
    assert subject == LinkSubject(toks, types, i, w);
    LinkStepIs(toks, types, i, w, kind, subject);
  }

  /** toString over a run of tokens within range: the tokens of the run joined by spaces. */
  method RunText(tokens: Lexer, start: nat, end: nat) returns (s: CText)
    requires start <= end < |tokens.tokens|
    ensures s == Join(tokens.tokens[start..end + 1])
  {
    s := tokens.ToString(start, end);
    assert tokens.Span(start, end) == tokens.tokens[start..end + 1];
  }

  /** LinkStep, given its kind and its subject. */
  lemma LinkStepIs(toks: seq<CText>, types: seq<TokenType>, i: nat, w: Walk, kind: SentenceFunction, subject: CText)
    requires w.first < i < |toks| == |types|
    requires kind == if w.part.kind != Unknown then w.part.kind else if types[i] == CommandWord then Command else Statement
    requires subject == LinkSubject(toks, types, i, w)
    ensures LinkStep(toks, types, i, w) ==
      w.(part := w.part.(kind := kind, linkingVerb := Assign(w.part.linkingVerb, toks[i]), subject := subject),
         readSubject := subject == [], readPredicate := subject != [])
  {
  }

  /** The punctuation branch of the parse loop. */
  method ReadPunctuation(tok: CText, part0: SentencePart, ghost readSubject0: bool, ghost readPredicate0: bool,
                         ghost first: nat, ghost parts: seq<SentencePart>)
    returns (part: SentencePart, readSubject: bool, readPredicate: bool)
    ensures Walk(part, readSubject, readPredicate, first, parts) ==
            PunctuationStep(tok, Walk(part0, readSubject0, readPredicate0, first, parts))
  {
    part := part0;
    readSubject := false;
    readPredicate := false;
    if EqualsIgnoreCase(tok, "?") && part.kind != Question {
      part := part.(kind := Question);
    } else if EqualsIgnoreCase(tok, ".") && part.kind == Question {
      part := part.(kind := Statement);
    }
  }

  /** The branch of the parse loop for any other word: appended to the subject or predicate. */
  method ReadWord(tok: CText, part0: SentencePart, readSubject0: bool, readPredicate0: bool,
                  ghost first: nat, ghost parts: seq<SentencePart>)
    returns (part: SentencePart, readSubject: bool, readPredicate: bool)
    ensures Walk(part, readSubject, readPredicate, first, parts) ==
            WordStep(tok, Walk(part0, readSubject0, readPredicate0, first, parts))
  {
    part, readSubject, readPredicate := part0, readSubject0, readPredicate0;
    if readSubject {
      var subject := part.subject;
      if subject != [] {
        subject := subject + [' '];
      }
      subject := subject + tok;
      part := part.(subject := subject);
      if EqualsIgnoreCase(tok, "you") || EqualsIgnoreCase(tok, "your") {
        readSubject := false;
        readPredicate := true;
      }
    } else if readPredicate {
      var text := part.predicateText;
      if text != [] {
        text := text + [' '];
      }
      text := text + tok;
      part := part.(predicateText := text);
    }
  }

  /**
   * The body of the parse loop after the boundary test: token i is read by its tag into
   * the part being built and the two reading flags.
   */
  method ReadToken(tokens: Lexer, tokenTypes: array<TokenType>, ghost types: seq<TokenType>, i: nat,
                   part0: SentencePart, readSubject0: bool, readPredicate0: bool, first: nat,
                   ghost parts: seq<SentencePart>)
    returns (part: SentencePart, readSubject: bool, readPredicate: bool)
    requires i < |tokens.tokens| == |types| <= tokenTypes.Length && first <= i
    requires tokenTypes[..|types|] == types
    ensures Walk(part, readSubject, readPredicate, first, parts) ==
            ReadStep(tokens.tokens, types, i, Walk(part0, readSubject0, readPredicate0, first, parts), true)
  {
    var t := tokenTypes[i];
    assert t == types[i];
    var tok := tokens.GetToken(i);
    if t == QuestWord {
      part, readSubject, readPredicate :=
        ReadQuestionWord(tok, part0, readSubject0, readPredicate0, first, parts);
    } else if t == AuxVerb || t == ModalVerb || t == LinkVerb || t == CommandWord {
      part, readSubject, readPredicate :=
        ReadVerb(tokens, tokenTypes, types, i, part0, readSubject0, readPredicate0, first, parts);
    } else if t == Punctuation || t == Quote {
      part, readSubject, readPredicate :=
        ReadPunctuation(tok, part0, readSubject0, readPredicate0, first, parts);
    } else {
      part, readSubject, readPredicate :=
        ReadWord(tok, part0, readSubject0, readPredicate0, first, parts);
    }
  }

  /**
   * The tagging loop of parse: every token gets the tag of the first word list it is in,
   * in an array of 1024 tags (TT_NONE past the tokens).
   */
  method TagTokens(tokens: Lexer) returns (tokenTypes: array<TokenType>)
    requires |tokens.tokens| <= 1024
    ensures fresh(tokenTypes) && tokenTypes.Length == 1024
    ensures tokenTypes[..|tokens.tokens|] == Types(tokens.tokens)
  {
    tokenTypes := new TokenType[1024](_ => Unset);
    ghost var toks := tokens.tokens;
    ghost var types := Types(toks);
    var i := 0;
    while i < tokens.GetNumTokens()
      invariant 0 <= i <= |toks| && tokens.tokens == toks
      invariant tokenTypes[..i] == types[..i]
      modifies tokenTypes
    {
      var t := TagToken(tokens, i);
      tokenTypes[i] := t;
      assert types[i] == t;
      assert tokenTypes[..i + 1] == types[..i + 1];
      i := i + 1;
    }
    assert tokenTypes[..i] == types;
  }

  /** The tag of token i, read through a String as parse reads it. */
  method TagToken(tokens: Lexer, i: nat) returns (t: TokenType)
    requires i < |tokens.tokens|
    ensures t == Classify(tokens.tokens[i])
  {
    var tok := new String.FromCString(Some(tokens.GetToken(i)));
    CStringOfNulFree(tok.data);
    t := Tag(tok);
  }

  /**
   * The boundary test of the parse loop: after a run of punctuation the part is pushed when
   * its function is known (`push`), then cleared, and the new part starts at token i.
   */
  method Boundary(tokenTypes: array<TokenType>, ghost types: seq<TokenType>, i: nat, part0: SentencePart,
                  ghost readSubject: bool, ghost readPredicate: bool, first0: nat, ghost parts: seq<SentencePart>)
    returns (push: bool, part: SentencePart, first: nat)
    requires first0 <= i < |types| <= tokenTypes.Length && tokenTypes[..|types|] == types
    ensures first <= i
    ensures Walk(part, readSubject, readPredicate, first, if push then parts + [part0] else parts) ==
            AtBoundary(types, i, Walk(part0, readSubject, readPredicate, first0, parts))
  {
    push, part, first := false, part0, first0;
    if i > 0 && tokenTypes[i - 1] == Punctuation && tokenTypes[i] != Punctuation {
      assert types[i - 1] == Punctuation && types[i] != Punctuation;
      push := part0.kind != Unknown;
      part := part0.Cleared();
      first := i;
    } else {
      assert !(i > 0 && types[i - 1] == Punctuation && types[i] != Punctuation);
    }
  }

  /**
   * One turn of the parse loop: the boundary test, which may push the part (`push`), then
   * the reading of token i.
   */
  method Turn(tokens: Lexer, tokenTypes: array<TokenType>, ghost types: seq<TokenType>, i: nat,
              part0: SentencePart, readSubject0: bool, readPredicate0: bool, first0: nat,
              ghost pushed: seq<SentencePart>)
    returns (push: bool, part: SentencePart, readSubject: bool, readPredicate: bool, first: nat)
    requires i < |tokens.tokens| == |types| <= tokenTypes.Length && tokenTypes[..|types|] == types
    requires Walked(tokens.tokens, types, i, true) == Walk(part0, readSubject0, readPredicate0, first0, pushed)
    ensures Walked(tokens.tokens, types, i + 1, true) ==
            Walk(part, readSubject, readPredicate, first, if push then pushed + [part0] else pushed)
  {
    var part1;
    push, part1, first := Boundary(tokenTypes, types, i, part0, readSubject0, readPredicate0, first0, pushed);
    ghost var pushed1 := if push then pushed + [part0] else pushed;
    part, readSubject, readPredicate :=
      ReadToken(tokens, tokenTypes, types, i, part1, readSubject0, readPredicate0, first, pushed1);
    WalkedNext(tokens.tokens, types, i, true);
  }

  /** One more turn of the loop is the boundary test followed by the reading of the token. */
  lemma WalkedNext(toks: seq<CText>, types: seq<TokenType>, i: nat, corrected: bool)
    requires i < |toks| == |types|
    ensures Walked(toks, types, i + 1, corrected) ==
            ReadStep(toks, types, i, AtBoundary(types, i, Walked(toks, types, i, corrected)), corrected)
  {
  }

  // ---------------------------------------------------------------------------------------
  // Runs of plain words, and the sentence shapes of sentence.h

  predicate Words(ws: seq<CText>) {
    forall k :: 0 <= k < |ws| ==> ws[k] != []
  }

  predicate AllOther(ws: seq<CText>) {
    forall k :: 0 <= k < |ws| ==> Classify(ws[k]) == Other
  }

  predicate NotYou(tok: CText) {
    !EqualsIgnoreCase(tok, "you") && !EqualsIgnoreCase(tok, "your")
  }

  predicate NoYou(ws: seq<CText>) {
    forall k :: 0 <= k < |ws| ==> NotYou(ws[k])
  }

  /** The words appended one by one, as parse appends them to a subject or predicate. */
  function Extend(text: CText, ws: seq<CText>): CText
    decreases |ws|
  {
    if ws == [] then text else AppendWord(Extend(text, ws[..|ws| - 1]), ws[|ws| - 1])
  }

  /** What reading a run of plain words does to the part. */
  function Absorbed(w: Walk, ws: seq<CText>): Walk {
    if w.readSubject then w.(part := w.part.(subject := Extend(w.part.subject, ws)))
    else if w.readPredicate then w.(part := w.part.(predicateText := Extend(w.part.predicateText, ws)))
    else w
  }

  lemma {:induction false} JoinEmpty(ws: seq<CText>)
    requires Words(ws)
    ensures Join(ws) == [] <==> ws == []
  {
    if |ws| > 1 {
      assert Join(ws) == ws[0] + [' '] + Join(ws[1..]);
    }
  }

  lemma {:induction false} JoinSnoc(ws: seq<CText>, x: CText)
    requires Words(ws) && x != []
    ensures Join(ws + [x]) == AppendWord(Join(ws), x)
  {
    if ws == [] {
      assert ws + [x] == [x];
    } else if |ws| == 1 {
      assert ws + [x] == [ws[0], x];
      assert Join([ws[0], x]) == ws[0] + [' '] + Join([x]);
    } else {
      assert (ws + [x])[1..] == ws[1..] + [x];
      JoinSnoc(ws[1..], x);
      JoinEmpty(ws[1..]);
    }
  }

  /** Appending words one by one to joined words joins them all. */
  lemma {:induction false} ExtendJoin(ss: seq<CText>, ps: seq<CText>)
    requires Words(ss) && Words(ps)
    ensures Extend(Join(ss), ps) == Join(ss + ps)
    decreases |ps|
  {
    if ps == [] {
      assert ss + ps == ss;
    } else {
      ExtendJoin(ss, ps[..|ps| - 1]);
      ExtendJoinStep(ss, ps);
    }
  }

  lemma ExtendJoinStep(ss: seq<CText>, ps: seq<CText>)
    requires Words(ss) && Words(ps) && ps != []
    requires Extend(Join(ss), ps[..|ps| - 1]) == Join(ss + ps[..|ps| - 1])
    ensures Extend(Join(ss), ps) == Join(ss + ps)
  {
    var ps', x := ps[..|ps| - 1], ps[|ps| - 1];
    WordsSlice(ps, 0, |ps| - 1);
    assert ps[0..|ps| - 1] == ps';
    WordsAppend(ss, ps');
    JoinSnoc(ss + ps', x);
    AppendLast(ss, ps);
  }

  lemma WordStepAbsorbed(w: Walk, ws: seq<CText>, tok: CText)
    requires w.readSubject ==> NotYou(tok)
    ensures WordStep(tok, Absorbed(w, ws)) == Absorbed(w, ws + [tok])
  {
    assert (ws + [tok])[..|ws|] == ws;
  }

  /** The turns of the parse loop from token a up to token b, from the state w. */
  function Run(toks: seq<CText>, types: seq<TokenType>, a: nat, b: nat, w: Walk, c: bool): (r: Walk)
    requires a <= b <= |toks| == |types| && w.first <= a
    ensures r.first <= b
    decreases b - a
  {
    if b == a then w else Step(toks, types, b - 1, Run(toks, types, a, b - 1, w, c), c)
  }

  /** The loop up to b is the loop up to a followed by the turns from a to b. */
  lemma {:induction false} WalkedRun(toks: seq<CText>, types: seq<TokenType>, a: nat, b: nat, c: bool)
    requires a <= b <= |toks| == |types|
    ensures Walked(toks, types, b, c) == Run(toks, types, a, b, Walked(toks, types, a, c), c)
    decreases b - a
  {
    if b > a {
      WalkedRun(toks, types, a, b - 1, c);
      var w := Walked(toks, types, b - 1, c);
      assert Walked(toks, types, b, c) == Step(toks, types, b - 1, w, c);
      assert Run(toks, types, a, b, Walked(toks, types, a, c), c) == Step(toks, types, b - 1, w, c);
    }
  }

  /** A run of plain words other than "you" and "your" is appended to whatever is being read. */
  lemma {:induction false} RunAbsorbs(toks: seq<CText>, types: seq<TokenType>, a: nat, b: nat, w: Walk, c: bool)
    requires a <= b <= |toks| == |types| && w.first <= a
    requires forall k :: a <= k < b ==> types[k] == Other
    requires w.readSubject ==> forall k :: a <= k < b ==> NotYou(toks[k])
    requires a == 0 || types[a - 1] != Punctuation
    ensures Run(toks, types, a, b, w, c) == Absorbed(w, toks[a..b])
    decreases b - a
  {
    if b > a {
      RunAbsorbs(toks, types, a, b - 1, w, c);
      RunAbsorbsStep(toks, types, a, b, w, c);
    } else {
      assert toks[a..b] == [];
    }
  }

  /** The turn of RunAbsorbs for the last word of the run. */
  lemma RunAbsorbsStep(toks: seq<CText>, types: seq<TokenType>, a: nat, b: nat, w: Walk, c: bool)
    requires a < b <= |toks| == |types| && w.first <= a
    requires forall k :: a <= k < b ==> types[k] == Other
    requires w.readSubject ==> forall k :: a <= k < b ==> NotYou(toks[k])
    requires a == 0 || types[a - 1] != Punctuation
    requires Run(toks, types, a, b - 1, w, c) == Absorbed(w, toks[a..b - 1])
    ensures Run(toks, types, a, b, w, c) == Absorbed(w, toks[a..b])
  {
    assert types[b - 1] == Other;
    assert b - 1 == 0 || types[b - 2] != Punctuation by {
      if b - 1 > a { assert types[b - 2] == Other; }
    }
    var v := Absorbed(w, toks[a..b - 1]);
    assert AtBoundary(types, b - 1, v) == v;
    assert Run(toks, types, a, b, w, c) == WordStep(toks[b - 1], v);
    WordStepAbsorbed(w, toks[a..b - 1], toks[b - 1]);
    SliceSnoc(toks, a, b);
  }

  /** Plain words other than "you" and "your" are appended to whatever is being read. */
  lemma ReadRun(toks: seq<CText>, types: seq<TokenType>, a: nat, b: nat, c: bool)
    requires a <= b <= |toks| == |types|
    requires forall k :: a <= k < b ==> types[k] == Other
    requires Walked(toks, types, a, c).readSubject ==> forall k :: a <= k < b ==> NotYou(toks[k])
    requires a == 0 || types[a - 1] != Punctuation
    ensures Walked(toks, types, b, c) == Absorbed(Walked(toks, types, a, c), toks[a..b])
  {
    WalkedRun(toks, types, a, b, c);
    RunAbsorbs(toks, types, a, b, Walked(toks, types, a, c), c);
  }

  /** The backward search stops right after the run of Other tokens that ends at s. */
  lemma {:induction false} BackSearchRun(types: seq<TokenType>, i: nat, first: nat, lo: nat, s: int, start: int)
    requires first <= start < i < |types| && first - 1 <= s <= start
    requires first <= lo && lo - 1 <= s
    requires forall k :: lo <= k <= s ==> types[k] == Other
    requires types[i] != Punctuation
    requires lo == first || (types[lo - 1] != Other && types[lo - 1] != Quote)
    ensures BackSearch(types, i, first, s, start) == if s >= lo then lo else start
    decreases s - first + 1
  {
    if s >= lo {
      BackSearchRun(types, i, first, lo, s - 1, s);
    }
  }

  /** A verb after plain words at the start of a part links them, as subject, to what follows. */
  lemma LinkAfterWords(toks: seq<CText>, types: seq<TokenType>, n: nat, c: bool)
    requires 0 < n < |toks| == |types| && Words(toks)
    requires forall k :: 0 <= k < n ==> types[k] == Other
    requires types[n] == AuxVerb || types[n] == ModalVerb || types[n] == LinkVerb
    requires Walked(toks, types, n, c) == Start
    ensures Walked(toks, types, n + 1, c) ==
            Walk(EmptyPart.(kind := Statement, subject := Join(toks[..n]), linkingVerb := toks[n]), false, true, 0, [])
  {
    WalkedNext(toks, types, n, c);
    assert AtBoundary(types, n, Start) == Start;
    BackSearchRun(types, n, 0, 0, n - 1, n - 1);
    assert toks[0..n] == toks[..n];
    JoinEmpty(toks[..n]);
  }

  /** Plain words, a verb and plain words: a statement whose predicate is still being read. */
  lemma StatementBody(toks: seq<CText>, types: seq<TokenType>, n: nat, e: nat, c: bool)
    requires 0 < n < e <= |toks| == |types| && Words(toks)
    requires forall k :: 0 <= k < n ==> types[k] == Other
    requires types[n] == AuxVerb || types[n] == ModalVerb || types[n] == LinkVerb
    requires forall k :: n < k < e ==> types[k] == Other
    ensures Walked(toks, types, e, c) ==
            Walk(EmptyPart.(kind := Statement, subject := Join(toks[..n]), linkingVerb := toks[n],
                            predicateText := Join(toks[n + 1..e])), false, true, 0, [])
  {
    ReadRun(toks, types, 0, n, c);
    assert Walked(toks, types, n, c) == Start;
    LinkAfterWords(toks, types, n, c);
    PredicateRun(toks, types, n + 1, e, c);
  }

  /** A first punctuation mark after a word is read as punctuation, not as a boundary. */
  lemma MarkStep(toks: seq<CText>, types: seq<TokenType>, e: nat, c: bool)
    requires 0 < e < |toks| == |types| && types[e] == Punctuation && types[e - 1] != Punctuation
    ensures Walked(toks, types, e + 1, c) == PunctuationStep(toks[e], Walked(toks, types, e, c))
  {
    WalkedNext(toks, types, e, c);
  }

  /** The walk over plain words, a verb, plain words and a final mark. */
  lemma StatementWalk(toks: seq<CText>, types: seq<TokenType>, n: nat, e: nat, c: bool)
    requires 0 < n < e < |toks| == |types| == e + 1 && Words(toks)
    requires forall k :: 0 <= k < n ==> types[k] == Other
    requires types[n] == AuxVerb || types[n] == ModalVerb || types[n] == LinkVerb
    requires forall k :: n < k < e ==> types[k] == Other
    requires types[e] == Punctuation
    requires EqualsIgnoreCase(toks[e], ".") || EqualsIgnoreCase(toks[e], "?")
    ensures Walked(toks, types, |toks|, c) ==
            Walk(SentencePart(if EqualsIgnoreCase(toks[e], "?") then Question else Statement, [], [], [],
                              Join(toks[..n]), toks[n], Join(toks[n + 1..e])), false, false, 0, [])
  {
    StatementBody(toks, types, n, e, c);
    MarkStep(toks, types, e, c);
    EndMark(toks[e]);
  }

  lemma WordsAppend(a: seq<CText>, b: seq<CText>)
    requires Words(a) && Words(b)
    ensures Words(a + b)
  {
  }

  lemma WordsSlice(ws: seq<CText>, i: nat, j: nat)
    requires i <= j <= |ws| && Words(ws)
    ensures Words(ws[i..j])
  {
  }

  lemma WordsSnoc(a: seq<CText>, x: CText)
    requires Words(a) && x != []
    ensures Words(a + [x])
  {
  }

  lemma WordsPair(x: CText, y: CText)
    requires x != [] && y != []
    ensures Words([x]) && Words([x, y])
  {
  }

  lemma WordsSnoc2(a: seq<CText>, x: CText, y: CText)
    requires Words(a) && x != [] && y != []
    ensures Words(a + [x, y])
  {
  }

  /** A walk that ends holding one part of known function and nothing pushed parses to that part. */
  lemma PartsOfOne(toks: seq<CText>, p: SentencePart, rs: bool, rp: bool, first: nat, c: bool)
    requires Walked(toks, Types(toks), |toks|, c) == Walk(p, rs, rp, first, [])
    requires p.kind != Unknown
    ensures PartsOf(toks, c) == [p]
  {
    PartsOfWalked(toks, c);
  }

  /** The tags and words of a run of plain words placed at index a of the tokens. */
  lemma PlainRunAt(toks: seq<CText>, ss: seq<CText>, a: nat)
    requires a + |ss| <= |toks| && toks[a..a + |ss|] == ss && Words(ss) && AllOther(ss)
    ensures forall k :: a <= k < a + |ss| ==> Types(toks)[k] == Other && toks[k] != []
    ensures NoYou(ss) ==> forall k :: a <= k < a + |ss| ==> NotYou(toks[k])
  {
    assert forall k :: a <= k < a + |ss| ==> toks[k] == ss[k - a];
  }

  /** The slices of plain words, a verb, plain words and a mark laid end to end. */
  lemma StatementSlices(ss: seq<CText>, v: CText, ps: seq<CText>, m: CText)
    requires Words(ss) && Words(ps) && v != [] && m != []
    ensures var toks := ss + [v] + ps + [m];
      Words(toks) && toks[..|ss|] == ss && toks[0..|ss|] == ss && toks[|ss|] == v &&
      toks[|ss| + 1..|ss| + 1 + |ps|] == ps && toks[|ss| + 1 + |ps|] == m
  {
    var toks := ss + [v] + ps + [m];
    var n, e := |ss|, |ss| + 1 + |ps|;
    assert toks[..n] == ss && toks[n] == v && toks[n + 1..e] == ps && toks[e] == m;
    assert toks[0..n] == ss;
    WordsSnoc(ss, v);
    WordsAppend(ss + [v], ps);
    WordsSnoc(ss + [v] + ps, m);
  }

  /** The tags of plain words, a verb, plain words and a mark laid end to end. */
  lemma StatementTokens(ss: seq<CText>, v: CText, ps: seq<CText>, m: CText)
    requires Words(ss) && AllOther(ss) && Words(ps) && AllOther(ps) && v != [] && m != []
    ensures var toks := ss + [v] + ps + [m];
      (forall k :: 0 <= k < |ss| ==> Types(toks)[k] == Other) &&
      (forall k :: |ss| < k < |ss| + 1 + |ps| ==> Types(toks)[k] == Other)
  {
    var toks := ss + [v] + ps + [m];
    assert toks[0..|ss|] == ss;
    assert toks[|ss| + 1..|ss| + 1 + |ps|] == ps;
    PlainRunAt(toks, ss, 0);
    PlainRunAt(toks, ps, |ss| + 1);
  }

  /**
   * "Pizza is good ." and "My name is Zack .": plain words, a verb, plain words and a period
   * make a statement of subject, linking verb and predicate; with "?" it is a question.
   */
  lemma StatementShape(ss: seq<CText>, v: CText, ps: seq<CText>, m: CText, c: bool)
    requires ss != [] && Words(ss) && AllOther(ss) && Words(ps) && AllOther(ps) && v != [] && m != []
    requires Classify(v) == AuxVerb || Classify(v) == ModalVerb || Classify(v) == LinkVerb
    requires EqualsIgnoreCase(m, ".") || EqualsIgnoreCase(m, "?")
    ensures PartsOf(ss + [v] + ps + [m], c) ==
      [SentencePart(if EqualsIgnoreCase(m, "?") then Question else Statement, [], [], [], Join(ss), v, Join(ps))]
  {
    var toks := ss + [v] + ps + [m];
    StatementSlices(ss, v, ps, m);
    StatementTokens(ss, v, ps, m);
    EndMark(m);
    StatementWalk(toks, Types(toks), |ss|, |ss| + 1 + |ps|, c);
    PartsOfOne(toks, SentencePart(if EqualsIgnoreCase(m, "?") then Question else Statement, [], [], [], Join(ss), v, Join(ps)),
               false, false, 0, c);
  }

  /** Plain words read as the subject, into an empty subject, become the subject. */
  lemma SubjectRun(toks: seq<CText>, types: seq<TokenType>, a: nat, e: nat, c: bool)
    requires 0 < a <= e <= |toks| == |types| && Words(toks)
    requires types[a - 1] != Punctuation
    requires forall k :: a <= k < e ==> types[k] == Other
    requires forall k :: a <= k < e ==> NotYou(toks[k])
    requires Walked(toks, types, a, c).readSubject && Walked(toks, types, a, c).part.subject == []
    ensures Walked(toks, types, e, c) ==
            Walked(toks, types, a, c).(part := Walked(toks, types, a, c).part.(subject := Join(toks[a..e])))
  {
    ReadRun(toks, types, a, e, c);
    ExtendJoin([], toks[a..e]);
    assert [] + toks[a..e] == toks[a..e];
  }

  /** Plain words read as the predicate, into an empty predicate, become the predicate. */
  lemma PredicateRun(toks: seq<CText>, types: seq<TokenType>, a: nat, e: nat, c: bool)
    requires 0 < a <= e <= |toks| == |types| && Words(toks)
    requires types[a - 1] != Punctuation
    requires forall k :: a <= k < e ==> types[k] == Other
    requires !Walked(toks, types, a, c).readSubject && Walked(toks, types, a, c).readPredicate
    requires Walked(toks, types, a, c).part.predicateText == []
    ensures Walked(toks, types, e, c) ==
            Walked(toks, types, a, c).(part := Walked(toks, types, a, c).part.(predicateText := Join(toks[a..e])))
  {
    ReadRun(toks, types, a, e, c);
    ExtendJoin([], toks[a..e]);
    assert [] + toks[a..e] == toks[a..e];
  }

  /** Plain words read into a predicate that holds joined words extend the joined words. */
  lemma PredicateExtends(toks: seq<CText>, types: seq<TokenType>, a: nat, e: nat, c: bool, xs: seq<CText>)
    requires 0 < a <= e <= |toks| == |types| && Words(toks) && Words(xs)
    requires types[a - 1] != Punctuation
    requires forall k :: a <= k < e ==> types[k] == Other
    requires !Walked(toks, types, a, c).readSubject && Walked(toks, types, a, c).readPredicate
    requires Walked(toks, types, a, c).part.predicateText == Join(xs)
    ensures Walked(toks, types, e, c) ==
            Walked(toks, types, a, c).(part := Walked(toks, types, a, c).part.(predicateText := Join(xs + toks[a..e])))
  {
    ReadRun(toks, types, a, e, c);
    WordsSlice(toks, a, e);
    ExtendJoin(xs, toks[a..e]);
  }

  /** Reading a subject run up to the final mark: the words become the subject. */
  lemma SubjectTail(toks: seq<CText>, types: seq<TokenType>, a: nat, e: nat, c: bool)
    requires 0 < a <= e < |toks| == |types| && Words(toks)
    requires types[a - 1] != Punctuation && types[e] == Punctuation
    requires forall k :: a <= k < e ==> types[k] == Other
    requires forall k :: a <= k < e ==> NotYou(toks[k])
    requires Walked(toks, types, a, c).readSubject && Walked(toks, types, a, c).part.subject == []
    ensures Walked(toks, types, e + 1, c) ==
            PunctuationStep(toks[e], Walked(toks, types, a, c).(part := Walked(toks, types, a, c).part.(subject := Join(toks[a..e]))))
  {
    SubjectRun(toks, types, a, e, c);
    MarkStep(toks, types, e, c);
  }

  /** An interrogative word and a verb open a question whose subject is read next. */
  lemma QuestionOpening(toks: seq<CText>, types: seq<TokenType>, c: bool)
    requires 2 <= |toks| == |types| && toks[0] != [] && toks[1] != []
    requires types[0] == QuestWord
    requires types[1] == AuxVerb || types[1] == ModalVerb || types[1] == LinkVerb || types[1] == CommandWord
    ensures Walked(toks, types, 2, c) ==
            Walk(EmptyPart.(kind := Question, interrogative := toks[0], subjectVerb := toks[1]), true, false, 0, [])
  {
    WalkedNext(toks, types, 0, c);
    WalkedNext(toks, types, 1, c);
  }

  /** A command word and a verb open a command whose subject is read next. */
  lemma CommandOpening(toks: seq<CText>, types: seq<TokenType>, c: bool)
    requires 2 <= |toks| == |types| && toks[0] != [] && toks[1] != []
    requires types[0] == CommandWord
    requires types[1] == AuxVerb || types[1] == ModalVerb || types[1] == LinkVerb || types[1] == CommandWord
    ensures Walked(toks, types, 2, c) ==
            Walk(EmptyPart.(kind := Command, command := toks[0], subjectVerb := toks[1]), true, false, 0, [])
  {
    WalkedNext(toks, types, 0, c);
    WalkedNext(toks, types, 1, c);
  }

  /** The walk over an interrogative word, a verb, plain words and a final mark. */
  lemma QuestionVerbWalk(toks: seq<CText>, types: seq<TokenType>, e: nat, c: bool)
    requires 2 <= e && |toks| == |types| == e + 1 && Words(toks)
    requires types[0] == QuestWord
    requires types[1] == AuxVerb || types[1] == ModalVerb || types[1] == LinkVerb || types[1] == CommandWord
    requires forall k :: 2 <= k < e ==> types[k] == Other
    requires forall k :: 2 <= k < e ==> NotYou(toks[k])
    requires types[e] == Punctuation
    requires EqualsIgnoreCase(toks[e], ".") || EqualsIgnoreCase(toks[e], "?")
    ensures Walked(toks, types, |toks|, c) ==
            Walk(SentencePart(if EqualsIgnoreCase(toks[e], "?") then Question else Statement, toks[0], [], toks[1],
                              Join(toks[2..e]), [], []), false, false, 0, [])
  {
    QuestionOpening(toks, types, c);
    SubjectTail(toks, types, 2, e, c);
    EndMark(toks[e]);
  }

  /** The walk over a command word, a verb, plain words and a final mark. */
  lemma CommandWalk(toks: seq<CText>, types: seq<TokenType>, e: nat, c: bool)
    requires 2 <= e && |toks| == |types| == e + 1 && Words(toks)
    requires types[0] == CommandWord
    requires types[1] == AuxVerb || types[1] == ModalVerb || types[1] == LinkVerb || types[1] == CommandWord
    requires forall k :: 2 <= k < e ==> types[k] == Other
    requires forall k :: 2 <= k < e ==> NotYou(toks[k])
    requires types[e] == Punctuation
    requires EqualsIgnoreCase(toks[e], ".") || EqualsIgnoreCase(toks[e], "?")
    ensures Walked(toks, types, |toks|, c) ==
            Walk(SentencePart(if EqualsIgnoreCase(toks[e], "?") then Question else Command, [], toks[0], toks[1],
                              Join(toks[2..e]), [], []), false, false, 0, [])
  {
    CommandOpening(toks, types, c);
    SubjectTail(toks, types, 2, e, c);
    EndMark(toks[e]);
  }

  /** The slices of two opening words, plain words and a mark. */
  lemma OpeningSlices(x: CText, v: CText, ss: seq<CText>, m: CText)
    requires x != [] && v != [] && Words(ss) && m != []
    ensures var toks := [x, v] + ss + [m];
      Words(toks) && toks[0] == x && toks[1] == v && toks[2..2 + |ss|] == ss && toks[2 + |ss|] == m
  {
    var toks := [x, v] + ss + [m];
    assert toks[2..2 + |ss|] == ss;
    WordsPair(x, v);
    WordsAppend([x, v], ss);
    WordsSnoc([x, v] + ss, m);
  }

  /** The tags of two opening words, plain words and a mark. */
  lemma OpeningTokens(x: CText, v: CText, ss: seq<CText>, m: CText)
    requires x != [] && v != [] && Words(ss) && AllOther(ss) && NoYou(ss) && m != []
    ensures var toks := [x, v] + ss + [m];
      (forall k :: 2 <= k < 2 + |ss| ==> Types(toks)[k] == Other) && (forall k :: 2 <= k < 2 + |ss| ==> NotYou(toks[k]))
  {
    var toks := [x, v] + ss + [m];
    OpeningSlices(x, v, ss, m);
    PlainRunAt(toks, ss, 2);
  }

  /**
   * "What is pizza ?": an interrogative word, a verb and plain words make a question with
   * that subject verb and subject; a final "." makes it a statement.
   */
  lemma QuestionVerbShape(q: CText, v: CText, ss: seq<CText>, m: CText, c: bool)
    requires q != [] && v != [] && m != [] && Words(ss) && AllOther(ss) && NoYou(ss)
    requires Classify(q) == QuestWord
    requires Classify(v) == AuxVerb || Classify(v) == ModalVerb || Classify(v) == LinkVerb || Classify(v) == CommandWord
    requires EqualsIgnoreCase(m, ".") || EqualsIgnoreCase(m, "?")
    ensures PartsOf([q, v] + ss + [m], c) ==
      [SentencePart(if EqualsIgnoreCase(m, "?") then Question else Statement, q, [], v, Join(ss), [], [])]
  {
    var toks := [q, v] + ss + [m];
    OpeningSlices(q, v, ss, m);
    OpeningTokens(q, v, ss, m);
    EndMark(m);
    QuestionVerbWalk(toks, Types(toks), 2 + |ss|, c);
    PartsOfOne(toks, SentencePart(if EqualsIgnoreCase(m, "?") then Question else Statement, q, [], v, Join(ss), [], []), false, false, 0, c);
  }

  /**
   * "Go get a pizza ." and "Go to the pizza store .": a command word and a verb followed by
   * plain words make a command with that subject verb and subject; "?" makes it a question.
   */
  lemma CommandShape(w: CText, v: CText, ss: seq<CText>, m: CText, c: bool)
    requires w != [] && v != [] && m != [] && Words(ss) && AllOther(ss) && NoYou(ss)
    requires Classify(w) == CommandWord
    requires Classify(v) == AuxVerb || Classify(v) == ModalVerb || Classify(v) == LinkVerb || Classify(v) == CommandWord
    requires EqualsIgnoreCase(m, ".") || EqualsIgnoreCase(m, "?")
    ensures PartsOf([w, v] + ss + [m], c) ==
      [SentencePart(if EqualsIgnoreCase(m, "?") then Question else Command, [], w, v, Join(ss), [], [])]
  {
    var toks := [w, v] + ss + [m];
    OpeningSlices(w, v, ss, m);
    OpeningTokens(w, v, ss, m);
    EndMark(m);
    CommandWalk(toks, Types(toks), 2 + |ss|, c);
    PartsOfOne(toks, SentencePart(if EqualsIgnoreCase(m, "?") then Question else Command, [], w, v, Join(ss), [], []), false, false, 0, c);
  }

  /** An interrogative word opens a question, and the plain words after it are its subject. */
  lemma QuestionSubject(toks: seq<CText>, types: seq<TokenType>, n: nat, c: bool)
    requires 1 < n <= |toks| == |types| && Words(toks)
    requires types[0] == QuestWord && (forall k :: 0 < k < n ==> types[k] == Other) && (forall k :: 0 < k < n ==> NotYou(toks[k]))
    ensures Walked(toks, types, n, c) ==
            Walk(EmptyPart.(kind := Question, interrogative := toks[0], subject := Join(toks[1..n])), true, false, 0, [])
  {
    WalkedNext(toks, types, 0, c);
    assert Walked(toks, types, 1, c) == Walk(EmptyPart.(kind := Question, interrogative := toks[0]), true, false, 0, []);
    SubjectRun(toks, types, 1, n, c);
  }

  /** The verb step that links a subject read after an interrogative word. */
  lemma LinkVerbAfterQuestion(toks: seq<CText>, types: seq<TokenType>, n: nat, w: Walk)
    requires 1 < n < |toks| == |types| && Words(toks)
    requires types[0] == QuestWord && forall k :: 0 < k < n ==> types[k] == Other
    requires types[n] == AuxVerb || types[n] == ModalVerb || types[n] == LinkVerb
    requires w == Walk(EmptyPart.(kind := Question, interrogative := toks[0], subject := Join(toks[1..n])), true, false, 0, [])
    ensures VerbStep(toks, types, n, w) == w.(part := w.part.(linkingVerb := toks[n]), readSubject := false, readPredicate := true)
  {
    BackSearchRun(types, n, 0, 1, n - 1, n - 1);
    assert types[n - 1] == Other && types[1] == Other;
    JoinEmpty(toks[1..n]);
    var p := w.part.(linkingVerb := toks[n]);
    assert Assign(w.part.linkingVerb, toks[n]) == toks[n];
    assert w.part.(kind := Question, linkingVerb := toks[n], subject := w.part.subject) == p;
    assert p.subject != [];
  }

  /** A verb after an interrogative word and plain words links those words, as subject, to what follows. */
  lemma LinkAfterQuestion(toks: seq<CText>, types: seq<TokenType>, n: nat, c: bool)
    requires 1 < n < |toks| == |types| && Words(toks)
    requires types[0] == QuestWord && forall k :: 0 < k < n ==> types[k] == Other
    requires types[n] == AuxVerb || types[n] == ModalVerb || types[n] == LinkVerb
    requires Walked(toks, types, n, c) ==
             Walk(EmptyPart.(kind := Question, interrogative := toks[0], subject := Join(toks[1..n])), true, false, 0, [])
    ensures Walked(toks, types, n + 1, c) ==
            Walk(EmptyPart.(kind := Question, interrogative := toks[0], subject := Join(toks[1..n]), linkingVerb := toks[n]),
                 false, true, 0, [])
  {
    var w := Walked(toks, types, n, c);
    assert AtBoundary(types, n, w) == w;
    WalkedNext(toks, types, n, c);
    LinkVerbAfterQuestion(toks, types, n, w);
  }

  /** An interrogative word, plain words, a verb and plain words: a question still reading its predicate. */
  lemma QuestionLinkBody(toks: seq<CText>, types: seq<TokenType>, n: nat, e: nat, c: bool)
    requires 1 < n < e <= |toks| == |types| && Words(toks)
    requires types[0] == QuestWord && (forall k :: 0 < k < n ==> types[k] == Other) && (forall k :: 0 < k < n ==> NotYou(toks[k]))
    requires types[n] == AuxVerb || types[n] == ModalVerb || types[n] == LinkVerb
    requires forall k :: n < k < e ==> types[k] == Other
    ensures Walked(toks, types, e, c) ==
            Walk(EmptyPart.(kind := Question, interrogative := toks[0], subject := Join(toks[1..n]), linkingVerb := toks[n],
                            predicateText := Join(toks[n + 1..e])), false, true, 0, [])
  {
    QuestionSubject(toks, types, n, c);
    LinkAfterQuestion(toks, types, n, c);
    PredicateRun(toks, types, n + 1, e, c);
  }

  /**
   * The tags of an interrogative word, plain words none of which is "you", a verb, plain
   * words and a final mark; the lemmas that require it take it as one fact (`== true`).
   */
  predicate QuestionLinkTags(toks: seq<CText>, types: seq<TokenType>, n: nat, e: nat) {
    1 < n < e && |toks| == |types| == e + 1 && Words(toks) &&
    types[0] == QuestWord && (forall k :: 0 < k < n ==> types[k] == Other) && (forall k :: 0 < k < n ==> NotYou(toks[k])) &&
    (types[n] == AuxVerb || types[n] == ModalVerb || types[n] == LinkVerb) &&
    (forall k :: n < k < e ==> types[k] == Other) &&
    types[e] == Punctuation &&
    (EqualsIgnoreCase(toks[e], ".") || EqualsIgnoreCase(toks[e], "?"))
  }

  /** The walk over an interrogative word, plain words, a verb, plain words and a final mark. */
  lemma QuestionLinkWalk(toks: seq<CText>, types: seq<TokenType>, n: nat, e: nat, c: bool)
    requires QuestionLinkTags(toks, types, n, e) == true
    ensures Walked(toks, types, |toks|, c) ==
            Walk(SentencePart(if EqualsIgnoreCase(toks[e], "?") then Question else Statement, toks[0], [], [],
                              Join(toks[1..n]), toks[n], Join(toks[n + 1..e])), false, false, 0, [])
  {
    QuestionLinkBody(toks, types, n, e, c);
    FinalQuestionMark(toks, types, e, c,
                      EmptyPart.(kind := Question, interrogative := toks[0], subject := Join(toks[1..n]), linkingVerb := toks[n],
                                 predicateText := Join(toks[n + 1..e])), false, true);
  }

  /** The slices of an interrogative word, plain words, a verb, plain words and a mark. */
  lemma QuestionLinkSlices(q: CText, ss: seq<CText>, v: CText, ps: seq<CText>, m: CText)
    requires q != [] && Words(ss) && Words(ps) && v != [] && m != []
    ensures var toks := [q] + ss + [v] + ps + [m];
      Words(toks) && toks[0] == q && toks[1..|ss| + 1] == ss && toks[|ss| + 1] == v &&
      toks[|ss| + 2..|ss| + 2 + |ps|] == ps && toks[|ss| + 2 + |ps|] == m
  {
    var toks := [q] + ss + [v] + ps + [m];
    var n, e := |ss| + 1, |ss| + 2 + |ps|;
    assert toks[1..n] == ss && toks[n] == v && toks[n + 1..e] == ps && toks[e] == m;
    WordsPair(q, v);
    WordsAppend([q], ss);
    WordsSnoc([q] + ss, v);
    WordsAppend([q] + ss + [v], ps);
    WordsSnoc([q] + ss + [v] + ps, m);
  }

  /** The tags of an interrogative word, plain words, a verb, plain words and a mark. */
  lemma QuestionLinkTokens(q: CText, ss: seq<CText>, v: CText, ps: seq<CText>, m: CText)
    requires q != [] && Words(ss) && AllOther(ss) && Words(ps) && AllOther(ps) && v != [] && m != []
    ensures var toks := [q] + ss + [v] + ps + [m];
      (forall k :: 0 < k < |ss| + 1 ==> Types(toks)[k] == Other) &&
      (NoYou(ss) ==> forall k :: 0 < k < |ss| + 1 ==> NotYou(toks[k])) &&
      (forall k :: |ss| + 1 < k < |ss| + 2 + |ps| ==> Types(toks)[k] == Other)
  {
    var toks := [q] + ss + [v] + ps + [m];
    QuestionLinkSlices(q, ss, v, ps, m);
    PlainRunAt(toks, ss, 1);
    PlainRunAt(toks, ps, |ss| + 2);
  }

  /** What the walk lemma needs of "What pizza is good ?" and its like. */
  lemma QuestionLinkReady(q: CText, ss: seq<CText>, v: CText, ps: seq<CText>, m: CText)
    requires q != [] && ss != [] && Words(ss) && AllOther(ss) && NoYou(ss) && Words(ps) && AllOther(ps)
    requires v != [] && m != []
    requires Classify(q) == QuestWord
    requires Classify(v) == AuxVerb || Classify(v) == ModalVerb || Classify(v) == LinkVerb
    requires EqualsIgnoreCase(m, ".") || EqualsIgnoreCase(m, "?")
    ensures var toks := [q] + ss + [v] + ps + [m];
      var n, e := |ss| + 1, |ss| + 2 + |ps|;
      QuestionLinkTags(toks, Types(toks), n, e) &&
      toks[0] == q && toks[1..n] == ss && toks[n] == v && toks[n + 1..e] == ps && toks[e] == m
  {
    QuestionLinkSlices(q, ss, v, ps, m);
    QuestionLinkTokens(q, ss, v, ps, m);
    EndMark(m);
  }

  /**
   * "What pizza is good ?": an interrogative word, plain words, a verb and plain words make a
   * question with subject, linking verb and predicate; a final "." makes it a statement.
   */
  lemma QuestionLinkShape(q: CText, ss: seq<CText>, v: CText, ps: seq<CText>, m: CText, c: bool)
    requires q != [] && ss != [] && Words(ss) && AllOther(ss) && NoYou(ss) && Words(ps) && AllOther(ps)
    requires v != [] && m != []
    requires Classify(q) == QuestWord
    requires Classify(v) == AuxVerb || Classify(v) == ModalVerb || Classify(v) == LinkVerb
    requires EqualsIgnoreCase(m, ".") || EqualsIgnoreCase(m, "?")
    ensures PartsOf([q] + ss + [v] + ps + [m], c) ==
      [SentencePart(if EqualsIgnoreCase(m, "?") then Question else Statement, q, [], [], Join(ss), v, Join(ps))]
  {
    var toks := [q] + ss + [v] + ps + [m];
    QuestionLinkReady(q, ss, v, ps, m);
    QuestionLinkWalk(toks, Types(toks), |ss| + 1, |ss| + 2 + |ps|, c);
    PartsOfOne(toks, SentencePart(if EqualsIgnoreCase(m, "?") then Question else Statement, q, [], [], Join(ss), v, Join(ps)),
               false, false, 0, c);
  }

  /** Plain words, a verb and an interrogative word: the question word meets a subject and no predicate. */
  lemma InterrogativeAfterLink(toks: seq<CText>, types: seq<TokenType>, n: nat, c: bool)
    requires 0 < n && n + 1 < |toks| == |types| && Words(toks)
    requires forall k :: 0 <= k < n ==> types[k] == Other
    requires types[n] == AuxVerb || types[n] == ModalVerb || types[n] == LinkVerb
    requires types[n + 1] == QuestWord
    ensures Join(toks[..n]) != []
    ensures Walked(toks, types, n + 2, c) ==
            QuestionWordStep(toks[n + 1], Walk(EmptyPart.(kind := Statement, subject := Join(toks[..n]), linkingVerb := toks[n]),
                                                false, true, 0, []), c)
  {
    StatementBody(toks, types, n, n + 1, c);
    assert toks[n + 1..n + 1] == [];
    WalkedNext(toks, types, n + 1, c);
    JoinEmpty(toks[..n]);
  }

  /** Corrected, the interrogative word moves the subject to the predicate and reads a new subject. */
  lemma InterrogativeAfterLinkSwapped(toks: seq<CText>, types: seq<TokenType>, n: nat)
    requires 0 < n && n + 1 < |toks| == |types| && Words(toks)
    requires forall k :: 0 <= k < n ==> types[k] == Other
    requires types[n] == AuxVerb || types[n] == ModalVerb || types[n] == LinkVerb
    requires types[n + 1] == QuestWord
    ensures Walked(toks, types, n + 2, true) ==
            Walk(EmptyPart.(kind := Question, interrogative := toks[n + 1], linkingVerb := toks[n], predicateText := Join(toks[..n])),
                 true, false, 0, [])
  {
    InterrogativeAfterLink(toks, types, n, true);
    QuestionWordSwapsSubject(toks[n + 1], Walk(EmptyPart.(kind := Statement, subject := Join(toks[..n]), linkingVerb := toks[n]),
                                               false, true, 0, []));
  }

  /** As written, the interrogative word copies the subject to the predicate and goes on reading it. */
  lemma InterrogativeAfterLinkKept(toks: seq<CText>, types: seq<TokenType>, n: nat)
    requires 0 < n && n + 1 < |toks| == |types| && Words(toks)
    requires forall k :: 0 <= k < n ==> types[k] == Other
    requires types[n] == AuxVerb || types[n] == ModalVerb || types[n] == LinkVerb
    requires types[n + 1] == QuestWord
    ensures Walked(toks, types, n + 2, false) ==
            Walk(EmptyPart.(kind := Question, interrogative := toks[n + 1], subject := Join(toks[..n]), linkingVerb := toks[n],
                            predicateText := Join(toks[..n])), false, true, 0, [])
  {
    InterrogativeAfterLink(toks, types, n, false);
    AsWrittenSwapDuplicatesSubject(toks[n + 1], Walk(EmptyPart.(kind := Statement, subject := Join(toks[..n]), linkingVerb := toks[n]),
                                                     false, true, 0, []));
  }

  /** A final mark ends a question: "?" keeps it a question and "." makes it a statement. */
  lemma FinalQuestionMark(toks: seq<CText>, types: seq<TokenType>, e: nat, c: bool, p: SentencePart, rs: bool, rp: bool)
    requires 0 < e && |toks| == |types| == e + 1 && types[e] == Punctuation && types[e - 1] != Punctuation
    requires EqualsIgnoreCase(toks[e], ".") || EqualsIgnoreCase(toks[e], "?")
    requires Walked(toks, types, e, c) == Walk(p, rs, rp, 0, []) && p.kind == Question
    ensures Walked(toks, types, |toks|, c) ==
            Walk(p.(kind := if EqualsIgnoreCase(toks[e], "?") then Question else Statement), false, false, 0, [])
  {
    MarkStep(toks, types, e, c);
    EndMark(toks[e]);
  }

  /** Corrected: after the interrogative word the plain words are read as the new subject. */
  lemma InterrogativeAfterLinkSwappedRun(toks: seq<CText>, types: seq<TokenType>, n: nat, e: nat)
    requires 0 < n && n + 1 < e < |toks| == |types| && Words(toks)
    requires forall k :: 0 <= k < n ==> types[k] == Other
    requires types[n] == AuxVerb || types[n] == ModalVerb || types[n] == LinkVerb
    requires types[n + 1] == QuestWord
    requires forall k :: n + 1 < k < e ==> types[k] == Other
    requires forall k :: n + 1 < k < e ==> NotYou(toks[k])
    ensures Walked(toks, types, e, true) ==
            Walk(EmptyPart.(kind := Question, interrogative := toks[n + 1], subject := Join(toks[n + 2..e]),
                            linkingVerb := toks[n], predicateText := Join(toks[..n])), true, false, 0, [])
  {
    InterrogativeAfterLinkSwapped(toks, types, n);
    SubjectRun(toks, types, n + 2, e, true);
  }

  /** As written: after the interrogative word the plain words extend the copied predicate. */
  lemma InterrogativeAfterLinkKeptRun(toks: seq<CText>, types: seq<TokenType>, n: nat, e: nat)
    requires 0 < n && n + 1 < e < |toks| == |types| && Words(toks)
    requires forall k :: 0 <= k < n ==> types[k] == Other
    requires types[n] == AuxVerb || types[n] == ModalVerb || types[n] == LinkVerb
    requires types[n + 1] == QuestWord
    requires forall k :: n + 1 < k < e ==> types[k] == Other
    ensures Walked(toks, types, e, false) ==
            Walk(EmptyPart.(kind := Question, interrogative := toks[n + 1], subject := Join(toks[..n]),
                            linkingVerb := toks[n], predicateText := Join(toks[..n] + toks[n + 2..e])), false, true, 0, [])
  {
    InterrogativeAfterLinkKept(toks, types, n);
    WordsSlice(toks, 0, n);
    assert toks[0..n] == toks[..n];
    PredicateExtends(toks, types, n + 2, e, false, toks[..n]);
  }

  /**
   * The tags of plain words, a verb at n, an interrogative word, plain words and a final mark at e.
   * The lemmas below require it as one fact (`== true`), so that a caller passes it on whole.
   */
  predicate LinkQuestionTags(toks: seq<CText>, types: seq<TokenType>, n: nat, e: nat) {
    0 < n && n + 1 < e && |toks| == |types| == e + 1 && Words(toks) &&
    (forall k :: 0 <= k < n ==> types[k] == Other) &&
    (types[n] == AuxVerb || types[n] == ModalVerb || types[n] == LinkVerb) &&
    types[n + 1] == QuestWord &&
    (forall k :: n + 1 < k < e ==> types[k] == Other) &&
    types[e] == Punctuation &&
    (EqualsIgnoreCase(toks[e], ".") || EqualsIgnoreCase(toks[e], "?"))
  }

  /**
   * The walk over plain words, a verb, an interrogative word, plain words and a final mark,
   * with the corrected exchange: the words after the interrogative word are the subject and
   * those before the verb the predicate.
   */
  lemma InterrogativeAfterLinkWalk(toks: seq<CText>, types: seq<TokenType>, n: nat, e: nat)
    requires LinkQuestionTags(toks, types, n, e) == true
    requires forall k :: n + 1 < k < e ==> NotYou(toks[k])
    ensures Walked(toks, types, |toks|, true) ==
            Walk(SentencePart(if EqualsIgnoreCase(toks[e], "?") then Question else Statement, toks[n + 1], [], [],
                              Join(toks[n + 2..e]), toks[n], Join(toks[..n])), false, false, 0, [])
  {
    InterrogativeAfterLinkSwappedRun(toks, types, n, e);
    FinalQuestionMark(toks, types, e, true,
                      EmptyPart.(kind := Question, interrogative := toks[n + 1], subject := Join(toks[n + 2..e]),
                                 linkingVerb := toks[n], predicateText := Join(toks[..n])), true, false);
  }

  /**
   * The same walk with the exchange as written: the subject stays, and the predicate holds
   * the words before the verb followed by those after the interrogative word.
   */
  lemma InterrogativeAfterLinkWalkAsWritten(toks: seq<CText>, types: seq<TokenType>, n: nat, e: nat)
    requires LinkQuestionTags(toks, types, n, e) == true
    ensures Walked(toks, types, |toks|, false) ==
            Walk(SentencePart(if EqualsIgnoreCase(toks[e], "?") then Question else Statement, toks[n + 1], [], [],
                              Join(toks[..n]), toks[n], Join(toks[..n] + toks[n + 2..e])), false, false, 0, [])
  {
    InterrogativeAfterLinkKeptRun(toks, types, n, e);
    FinalQuestionMark(toks, types, e, false,
                      EmptyPart.(kind := Question, interrogative := toks[n + 1], subject := Join(toks[..n]),
                                 linkingVerb := toks[n], predicateText := Join(toks[..n] + toks[n + 2..e])), false, true);
  }

  /** The slices of plain words, a verb, an interrogative word, plain words and a mark. */
  lemma InterrogativeAfterLinkSlices(ss: seq<CText>, v: CText, q: CText, ps: seq<CText>, m: CText)
    requires Words(ss) && Words(ps) && v != [] && q != [] && m != []
    ensures var toks := ss + [v, q] + ps + [m];
      Words(toks) && toks[..|ss|] == ss && toks[0..|ss|] == ss && toks[|ss|] == v && toks[|ss| + 1] == q &&
      toks[|ss| + 2..|ss| + 2 + |ps|] == ps && toks[|ss| + 2 + |ps|] == m
  {
    var toks := ss + [v, q] + ps + [m];
    var n, e := |ss|, |ss| + 2 + |ps|;
    assert toks[..n] == ss && toks[n] == v && toks[n + 1] == q && toks[n + 2..e] == ps && toks[e] == m;
    assert toks[0..n] == ss;
    WordsSnoc2(ss, v, q);
    WordsAppend(ss + [v, q], ps);
    WordsSnoc(ss + [v, q] + ps, m);
  }

  /** The tags of plain words, a verb, an interrogative word, plain words and a mark. */
  lemma InterrogativeAfterLinkTokens(ss: seq<CText>, v: CText, q: CText, ps: seq<CText>, m: CText)
    requires Words(ss) && AllOther(ss) && Words(ps) && AllOther(ps) && v != [] && q != [] && m != []
    ensures var toks := ss + [v, q] + ps + [m];
      (forall k :: 0 <= k < |ss| ==> Types(toks)[k] == Other) &&
      (forall k :: |ss| + 1 < k < |ss| + 2 + |ps| ==> Types(toks)[k] == Other) &&
      (NoYou(ps) ==> forall k :: |ss| + 1 < k < |ss| + 2 + |ps| ==> NotYou(toks[k]))
  {
    var toks := ss + [v, q] + ps + [m];
    assert toks[0..|ss|] == ss;
    assert toks[|ss| + 2..|ss| + 2 + |ps|] == ps;
    PlainRunAt(toks, ss, 0);
    PlainRunAt(toks, ps, |ss| + 2);
  }

  /** What the walk lemmas above need of "A cat has how many legs ?" and its like. */
  lemma InterrogativeAfterLinkReady(ss: seq<CText>, v: CText, q: CText, ps: seq<CText>, m: CText)
    requires ss != [] && Words(ss) && AllOther(ss) && Words(ps) && AllOther(ps)
    requires v != [] && q != [] && m != []
    requires Classify(v) == AuxVerb || Classify(v) == ModalVerb || Classify(v) == LinkVerb
    requires Classify(q) == QuestWord
    requires EqualsIgnoreCase(m, ".") || EqualsIgnoreCase(m, "?")
    ensures var toks := ss + [v, q] + ps + [m];
      var n, e := |ss|, |ss| + 2 + |ps|;
      LinkQuestionTags(toks, Types(toks), n, e) &&
      (NoYou(ps) ==> forall k :: n + 1 < k < e ==> NotYou(toks[k])) &&
      toks[..n] == ss && toks[n] == v && toks[n + 1] == q && toks[n + 2..e] == ps && toks[e] == m
  {
    InterrogativeAfterLinkSlices(ss, v, q, ps, m);
    InterrogativeAfterLinkTokens(ss, v, q, ps, m);
    EndMark(m);
  }

  /** The walk over "A cat has how many legs ?" and its like, with the exchange corrected. */
  lemma InterrogativeAfterLinkWalked(ss: seq<CText>, v: CText, q: CText, ps: seq<CText>, m: CText)
    requires ss != [] && Words(ss) && AllOther(ss) && Words(ps) && AllOther(ps) && NoYou(ps)
    requires v != [] && q != [] && m != []
    requires Classify(v) == AuxVerb || Classify(v) == ModalVerb || Classify(v) == LinkVerb
    requires Classify(q) == QuestWord
    requires EqualsIgnoreCase(m, ".") || EqualsIgnoreCase(m, "?")
    ensures var toks := ss + [v, q] + ps + [m];
      Walked(toks, Types(toks), |toks|, true) ==
      Walk(SentencePart(if EqualsIgnoreCase(m, "?") then Question else Statement, q, [], [], Join(ps), v, Join(ss)),
           false, false, 0, [])
  {
    var toks := ss + [v, q] + ps + [m];
    InterrogativeAfterLinkReady(ss, v, q, ps, m);
    InterrogativeAfterLinkPieces(toks, Types(toks), ss, v, q, ps, m);
  }

  /** InterrogativeAfterLinkWalk, stated over the pieces of the tokens. */
  lemma InterrogativeAfterLinkPieces(toks: seq<CText>, types: seq<TokenType>,
                                     ss: seq<CText>, v: CText, q: CText, ps: seq<CText>, m: CText)
    requires LinkQuestionTags(toks, types, |ss|, |ss| + 2 + |ps|) == true
    requires forall k :: |ss| + 1 < k < |ss| + 2 + |ps| ==> NotYou(toks[k])
    requires toks[..|ss|] == ss && toks[|ss|] == v && toks[|ss| + 1] == q
    requires toks[|ss| + 2..|ss| + 2 + |ps|] == ps && toks[|ss| + 2 + |ps|] == m
    ensures Walked(toks, types, |toks|, true) ==
      Walk(SentencePart(if EqualsIgnoreCase(m, "?") then Question else Statement, q, [], [], Join(ps), v, Join(ss)),
           false, false, 0, [])
  {
    var n, e := |ss|, |ss| + 2 + |ps|;
    InterrogativeAfterLinkWalk(toks, types, n, e);
    assert Join(toks[n + 2..e]) == Join(ps) && Join(toks[..n]) == Join(ss);
    assert EqualsIgnoreCase(toks[e], "?") == EqualsIgnoreCase(m, "?");
  }

  /** The same walk with the exchange as written. */
  lemma InterrogativeAfterLinkWalkedAsWritten(ss: seq<CText>, v: CText, q: CText, ps: seq<CText>, m: CText)
    requires ss != [] && Words(ss) && AllOther(ss) && Words(ps) && AllOther(ps)
    requires v != [] && q != [] && m != []
    requires Classify(v) == AuxVerb || Classify(v) == ModalVerb || Classify(v) == LinkVerb
    requires Classify(q) == QuestWord
    requires EqualsIgnoreCase(m, ".") || EqualsIgnoreCase(m, "?")
    ensures var toks := ss + [v, q] + ps + [m];
      Walked(toks, Types(toks), |toks|, false) ==
      Walk(SentencePart(if EqualsIgnoreCase(m, "?") then Question else Statement, q, [], [], Join(ss), v, Join(ss + ps)),
           false, false, 0, [])
  {
    var toks := ss + [v, q] + ps + [m];
    InterrogativeAfterLinkReady(ss, v, q, ps, m);
    InterrogativeAfterLinkPiecesAsWritten(toks, Types(toks), ss, v, q, ps, m);
  }

  /** InterrogativeAfterLinkWalkAsWritten, stated over the pieces of the tokens. */
  lemma InterrogativeAfterLinkPiecesAsWritten(toks: seq<CText>, types: seq<TokenType>,
                                              ss: seq<CText>, v: CText, q: CText, ps: seq<CText>, m: CText)
    requires LinkQuestionTags(toks, types, |ss|, |ss| + 2 + |ps|) == true
    requires toks[..|ss|] == ss && toks[|ss|] == v && toks[|ss| + 1] == q
    requires toks[|ss| + 2..|ss| + 2 + |ps|] == ps && toks[|ss| + 2 + |ps|] == m
    ensures Walked(toks, types, |toks|, false) ==
      Walk(SentencePart(if EqualsIgnoreCase(m, "?") then Question else Statement, q, [], [], Join(ss), v, Join(ss + ps)),
           false, false, 0, [])
  {
    var n, e := |ss|, |ss| + 2 + |ps|;
    InterrogativeAfterLinkWalkAsWritten(toks, types, n, e);
    assert Join(toks[..n] + toks[n + 2..e]) == Join(ss + ps) && Join(toks[..n]) == Join(ss);
    assert EqualsIgnoreCase(toks[e], "?") == EqualsIgnoreCase(m, "?");
  }

  /**
   * "A cat has how many legs ?", parsed with the corrected exchange: the words after the
   * interrogative word are the subject, the words before the verb the predicate.
   */
  lemma InterrogativeAfterLinkShape(ss: seq<CText>, v: CText, q: CText, ps: seq<CText>, m: CText)
    requires ss != [] && Words(ss) && AllOther(ss) && Words(ps) && AllOther(ps) && NoYou(ps)
    requires v != [] && q != [] && m != []
    requires Classify(v) == AuxVerb || Classify(v) == ModalVerb || Classify(v) == LinkVerb
    requires Classify(q) == QuestWord
    requires EqualsIgnoreCase(m, ".") || EqualsIgnoreCase(m, "?")
    ensures SentenceParts(ss + [v, q] + ps + [m]) ==
      [SentencePart(if EqualsIgnoreCase(m, "?") then Question else Statement, q, [], [], Join(ps), v, Join(ss))]
  {
    InterrogativeAfterLinkWalked(ss, v, q, ps, m);
    PartsOfOne(ss + [v, q] + ps + [m],
               SentencePart(if EqualsIgnoreCase(m, "?") then Question else Statement, q, [], [], Join(ps), v, Join(ss)),
               false, false, 0, true);
  }

  /**
   * The same sentence parsed as written: the subject keeps the words before the verb, and
   * the predicate repeats them before the words after the interrogative word.
   */
  lemma InterrogativeAfterLinkShapeAsWritten(ss: seq<CText>, v: CText, q: CText, ps: seq<CText>, m: CText)
    requires ss != [] && Words(ss) && AllOther(ss) && Words(ps) && AllOther(ps)
    requires v != [] && q != [] && m != []
    requires Classify(v) == AuxVerb || Classify(v) == ModalVerb || Classify(v) == LinkVerb
    requires Classify(q) == QuestWord
    requires EqualsIgnoreCase(m, ".") || EqualsIgnoreCase(m, "?")
    ensures SentencePartsAsWritten(ss + [v, q] + ps + [m]) ==
      [SentencePart(if EqualsIgnoreCase(m, "?") then Question else Statement, q, [], [], Join(ss), v, Join(ss + ps))]
  {
    InterrogativeAfterLinkWalkedAsWritten(ss, v, q, ps, m);
    PartsOfOne(ss + [v, q] + ps + [m],
               SentencePart(if EqualsIgnoreCase(m, "?") then Question else Statement, q, [], [], Join(ss), v, Join(ss + ps)),
               false, false, 0, false);
  }

  // ---------------------------------------------------------------------------------------

  /** A sentence: the parts parsed from its text, in order. */
  class Sentence {
    var parts: seq<SentencePart>

    constructor ()
      ensures parts == []
    {
      parts := [];
    }

    /** Sentence(const char *): the parts of the text. */
    constructor FromText(text: Option<CText>)
      requires |TextTokens(text)| <= 1024
      ensures parts == SentenceParts(TextTokens(text))
    {
      parts := [];
      new;
      Parse(text);
      EmptyThen(SentenceParts(TextTokens(text)));
    }

    method Clear()
      modifies this
      ensures parts == []
    {
      parts := [];
    }

    /**
     * parse: the text is split by a Lexer, every token is tagged into an array of 1024
     * tags (a text with more tokens overflows it), and the tokens are read left to right,
     * pushing each finished part.
     */
    method Parse(text: Option<CText>)
      requires |TextTokens(text)| <= 1024
      modifies this
      ensures parts == old(parts) + SentenceParts(TextTokens(text))
    {
      var str := new String.FromCString(text);
      var tokens := new Lexer.FromText(str);
      var tokenTypes := TagTokens(tokens);
      ReadParts(tokens, tokenTypes, tokenTypes[..tokens.GetNumTokens()]);
      assert tokens.tokens == TextTokens(text);
    }

    /** The reading loop of parse over the tokens and their tags, pushing each finished part. */
    method ReadParts(tokens: Lexer, tokenTypes: array<TokenType>, ghost types: seq<TokenType>)
      requires |tokens.tokens| == |types| <= tokenTypes.Length && tokenTypes[..|types|] == types
      modifies this
      ensures parts == old(parts) + PartsWalked(tokens.tokens, types, true)
    {
      ghost var toks := tokens.tokens;
      var n := tokens.GetNumTokens();
      var part := EmptyPart.Cleared();
      var first := 0;
      var readSubject, readPredicate := false, false;
      ghost var pushed: seq<SentencePart> := [];
      var i := 0;
      while i < n
        invariant 0 <= i <= n
        invariant parts == old(parts) + pushed
        invariant Walked(toks, types, i, true) == Walk(part, readSubject, readPredicate, first, pushed)
        modifies this
      {
        var push, part1, readSubject1, readPredicate1, first1 :=
          Turn(tokens, tokenTypes, types, i, part, readSubject, readPredicate, first, pushed);
        if push {
          SnocAssoc(old(parts), pushed, part);
          parts := parts + [part];
          pushed := pushed + [part];
        }
        part, readSubject, readPredicate, first := part1, readSubject1, readPredicate1, first1;
        i := i + 1;
      }
      if part.kind != Unknown {
        SnocAssoc(old(parts), pushed, part);
        parts := parts + [part];
        pushed := pushed + [part];
      }
      assert pushed == PartsWalked(toks, types, true);
    }
  }
}
