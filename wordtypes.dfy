/**
 * WordType: the flags of a message, from its whitespace tokens and four word tables. A
 * message is filler when every token is a filler word (so a message without tokens is
 * filler), and it cancels, denies or affirms when some token is a cancel, false or true
 * word. Words are compared up to ASCII case.
 */
module WordTypes {
  import opened Wrappers
  import opened LibC
  import opened Strings
  import opened Lexing

  /** The four bits of the result: WT_FILLER, WT_CANCEL_QUEST, WT_FALSE and WT_TRUE. */
  datatype WordFlags = WordFlags(filler: bool, cancelQuest: bool, falseWord: bool, trueWord: bool)

  const FillerWords: seq<CText> := ["a", "an", "the", "so", "be", "eh", "um", "ah", "oh", "hhhhhh", "mm", "mmm"]

  /** "never mind" holds a space, which a token never does. */
  const CancelWords: seq<CText> := ["nothing", "nevermind", "nm", "never mind"]

  const FalseWords: seq<CText> := ["false", "no"]

  const TrueWords: seq<CText> := ["true", "yes", "yeah", "okay", "mm", "mmm"]

  /** Every token is in the table, up to case. */
  predicate AllIn(toks: seq<CText>, table: seq<CText>) {
    forall k :: 0 <= k < |toks| ==> InList(toks[k], table)
  }

  /** Some token is in the table, up to case. */
  predicate SomeIn(toks: seq<CText>, table: seq<CText>) {
    exists k :: 0 <= k < |toks| && InList(toks[k], table)
  }

  /** The flags of a sequence of tokens. */
  function TypeOf(toks: seq<CText>): WordFlags {
    WordFlags(AllIn(toks, FillerWords), SomeIn(toks, CancelWords), SomeIn(toks, FalseWords), SomeIn(toks, TrueWords))
  }

  /** What one more token does to the flags: it may clear Filler and may set the other three. */
  function Update(flags: WordFlags, tok: CText): WordFlags {
    WordFlags(flags.filler && InList(tok, FillerWords),
              flags.cancelQuest || InList(tok, CancelWords),
              flags.falseWord || InList(tok, FalseWords),
              flags.trueWord || InList(tok, TrueWords))
  }

  lemma AllInAppend(ts: seq<CText>, us: seq<CText>, table: seq<CText>)
    ensures AllIn(ts + us, table) <==> AllIn(ts, table) && AllIn(us, table)
  {
    var u := ts + us;
    assert forall k :: 0 <= k < |ts| ==> u[k] == ts[k];
    assert forall k :: 0 <= k < |us| ==> u[|ts| + k] == us[k];
  }

  lemma SomeInAppend(ts: seq<CText>, us: seq<CText>, table: seq<CText>)
    ensures SomeIn(ts + us, table) <==> SomeIn(ts, table) || SomeIn(us, table)
  {
    var u := ts + us;
    assert forall k :: 0 <= k < |ts| ==> u[k] == ts[k];
    assert forall k :: 0 <= k < |us| ==> u[|ts| + k] == us[k];
    if SomeIn(us, table) {
      var k :| 0 <= k < |us| && InList(us[k], table);
      assert InList(u[|ts| + k], table);
    }
  }

  lemma Single(t: CText, table: seq<CText>)
    ensures AllIn([t], table) <==> InList(t, table)
    ensures SomeIn([t], table) <==> InList(t, table)
  {
    assert [t][0] == t;
  }

  /** The flags of the tokens so far, followed by one more token. */
  lemma TypeOfSnoc(ts: seq<CText>, t: CText)
    ensures TypeOf(ts + [t]) == Update(TypeOf(ts), t)
  {
    AllInAppend(ts, [t], FillerWords);
    SomeInAppend(ts, [t], CancelWords);
    SomeInAppend(ts, [t], FalseWords);
    SomeInAppend(ts, [t], TrueWords);
    Single(t, FillerWords);
    Single(t, CancelWords);
    Single(t, FalseWords);
    Single(t, TrueWords);
  }

  /**
   * One of WordType's table loops: the index at which it breaks, or the table's length
   * when no entry equals the token up to case.
   */
  method Lookup(tok: String, table: seq<CText>) returns (i: nat)
    ensures i <= |table|
    ensures i < |table| ==> EqualsIgnoreCase(tok.CStr(), table[i])
    ensures forall j :: 0 <= j < i ==> !EqualsIgnoreCase(tok.CStr(), table[j])
    ensures i == |table| <==> !InList(tok.CStr(), table)
  {
    i := 0;
    while i < |table|
      invariant 0 <= i <= |table|
      invariant forall j :: 0 <= j < i ==> !EqualsIgnoreCase(tok.CStr(), table[j])
    {
      if tok.ICompareTo(Some(table[i]), -1) == 0 {
        return;
      }
      i := i + 1;
    }
  }

  /** The flags for one token, as the body of WordType's outer loop computes them. */
  method UpdateFlags(flags0: WordFlags, tok: String) returns (flags: WordFlags)
    ensures flags == Update(flags0, tok.CStr())
  {
    flags := flags0;
    var i := Lookup(tok, FillerWords);
    if i == |FillerWords| {
      flags := flags.(filler := false);
    }
    i := Lookup(tok, CancelWords);
    if i < |CancelWords| {
      flags := flags.(cancelQuest := true);
    }
    i := Lookup(tok, FalseWords);
    if i < |FalseWords| {
      flags := flags.(falseWord := true);
    }
    i := Lookup(tok, TrueWords);
    if i < |TrueWords| {
      flags := flags.(trueWord := true);
    }
  }

  /** WordType: the flags of the tokens of the String. */
  method WordType(str: String) returns (flags: WordFlags)
    requires str.Valid()
    ensures flags == TypeOf(Tokenize(str.data))
  {
    var tokens := new Lexer.FromText(str);
    ghost var toks := tokens.tokens;
    flags := WordFlags(true, false, false, false);
    var w := 0;
    assert toks[..0] == [];
    while w < tokens.GetNumTokens()
      invariant 0 <= w <= |toks| && tokens.tokens == toks
      invariant flags == TypeOf(toks[..w])
    {
      var tok := new String.FromCString(Some(tokens.GetToken(w)));
      CStringOfNulFree(tok.data);
      flags := UpdateFlags(flags, tok);
      assert toks[..w + 1] == toks[..w] + [toks[w]];
      TypeOfSnoc(toks[..w], toks[w]);
      w := w + 1;
    }
    assert toks[..w] == toks;
  }

  /** A text without tokens (empty, or only separators) is filler and nothing else. */
  lemma NoTokensIsFiller(s: seq<char>)
    requires Tokenize(s) == []
    ensures TypeOf(Tokenize(s)) == WordFlags(true, false, false, false)
  {
  }

  /** A token is never "never mind", whatever its case: a token holds no space. */
  lemma NeverMindNeverMatches(s: seq<char>, k: nat)
    requires k < |Tokenize(s)|
    ensures !EqualsIgnoreCase(Tokenize(s)[k], CancelWords[3])
  {
    TokensAreWords(s);
    assert CancelWords[3][5] == ' ';
    SpaceNeverMatches(Tokenize(s)[k], CancelWords[3], 5);
  }

  /** A word without separators never equals, up to case, a text with a space in it. */
  lemma SpaceNeverMatches(t: seq<char>, w: seq<char>, i: nat)
    requires NoSeparator(t) && i < |w| && w[i] == ' '
    ensures !EqualsIgnoreCase(t, w)
  {
    if |t| == |w| {
      assert LowerAll(w)[i] == ' ';
      assert !IsSeparator(t[i]);
      assert LowerAll(t)[i] != ' ';
    }
  }

  /** An entry the word does not equal can be dropped from the end of the table. */
  lemma InListButLast(w: seq<char>, table: seq<CText>)
    requires table != [] && !EqualsIgnoreCase(w, table[|table| - 1])
    ensures InList(w, table) <==> InList(w, table[..|table| - 1])
  {
    if InList(w, table) {
      var j :| 0 <= j < |table| && EqualsIgnoreCase(w, table[j]);
      assert table[..|table| - 1][j] == table[j];
    }
  }

  /** So the cancel flag comes only from the other three cancel words. */
  lemma CancelFromWords(s: seq<char>)
    ensures TypeOf(Tokenize(s)).cancelQuest <==> SomeIn(Tokenize(s), CancelWords[..3])
  {
    var toks := Tokenize(s);
    forall k | 0 <= k < |toks|
      ensures InList(toks[k], CancelWords) <==> InList(toks[k], CancelWords[..3])
    {
      NeverMindNeverMatches(s, k);
      InListButLast(toks[k], CancelWords);
    }
    SomeInSame(toks, CancelWords, CancelWords[..3]);
  }

  lemma SomeInSame(toks: seq<CText>, t1: seq<CText>, t2: seq<CText>)
    requires forall k :: 0 <= k < |toks| ==> (InList(toks[k], t1) <==> InList(toks[k], t2))
    ensures SomeIn(toks, t1) <==> SomeIn(toks, t2)
  {
  }

  /** The flags are independent: "mm" is both a filler word and a true word. */
  lemma MmIsFillerAndTrue()
    ensures TypeOf(["mm"]) == WordFlags(true, false, false, true)
  {
    Single("mm", FillerWords);
    Single("mm", CancelWords);
    Single("mm", FalseWords);
    Single("mm", TrueWords);
    assert EqualsIgnoreCase("mm", FillerWords[10]);
    assert EqualsIgnoreCase("mm", TrueWords[4]);
    FirstLetterNeverMatches("mm", CancelWords);
    FirstLetterNeverMatches("mm", FalseWords);
  }

  /** A word whose first letter starts no entry of the table, up to case, is not in it. */
  lemma FirstLetterNeverMatches(w: seq<char>, table: seq<CText>)
    requires w != [] && forall j :: 0 <= j < |table| ==> table[j] != [] && LowerChar(table[j][0]) != LowerChar(w[0])
    ensures !InList(w, table)
  {
    forall j | 0 <= j < |table|
      ensures !EqualsIgnoreCase(w, table[j])
    {
      assert LowerAll(w)[0] != LowerAll(table[j])[0];
    }
  }

  /** Filler is cleared for good by one non-filler token: a later token cannot set it again. */
  lemma FillerIsSticky(ts: seq<CText>, us: seq<CText>)
    requires !TypeOf(ts).filler
    ensures !TypeOf(ts + us).filler
  {
    AllInAppend(ts, us, FillerWords);
  }

  /** The other flags, once set, stay set. */
  lemma SetFlagsStay(ts: seq<CText>, us: seq<CText>)
    ensures TypeOf(ts).cancelQuest ==> TypeOf(ts + us).cancelQuest
    ensures TypeOf(ts).falseWord ==> TypeOf(ts + us).falseWord
    ensures TypeOf(ts).trueWord ==> TypeOf(ts + us).trueWord
  {
    SomeInAppend(ts, us, CancelWords);
    SomeInAppend(ts, us, FalseWords);
    SomeInAppend(ts, us, TrueWords);
  }
}
