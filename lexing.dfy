/**
 * The lexer (framework/lexer.cpp): a String is split into tokens at white space, and the
 * tokens are kept in order for the sentence parser and the personas to search.
 *
 * `Tokenize` is the specification: the maximal runs of non-separator characters of a text.
 * `Lexer.Parse` is the character-by-character loop of the source, proved to append exactly
 * `Tokenize` of the String's buffer.
 */
module Lexing {
  import opened Wrappers
  import opened LibC
  import opened Strings
  import opened Seqs

  /** The characters parse splits on: space, tab, carriage return, line feed and NUL. */
  predicate IsSeparator(c: char) {
    c == ' ' || c == '\t' || c == '\r' || c == '\n' || c == NUL
  }

  predicate NoSeparator(w: seq<char>) {
    forall k :: 0 <= k < |w| ==> !IsSeparator(w[k])
  }

  /** A word is a non-empty run of non-separators; every word is C text. */
  predicate IsWord(w: seq<char>) {
    w != [] && NoSeparator(w)
  }

  /** The length of the run of non-separators that starts s. */
  function WordLength(s: seq<char>): (n: nat)
    ensures n <= |s|
    ensures forall k :: 0 <= k < n ==> !IsSeparator(s[k])
    ensures n < |s| ==> IsSeparator(s[n])
  {
    WordFrom(s, 0)
  }

  /** The end of the run of non-separators that starts s, searched from index i. */
  function WordFrom(s: seq<char>, i: nat): (n: nat)
    requires i <= |s| && forall k :: 0 <= k < i ==> !IsSeparator(s[k])
    ensures i <= n <= |s|
    ensures forall k :: 0 <= k < n ==> !IsSeparator(s[k])
    ensures n < |s| ==> IsSeparator(s[n])
    decreases |s| - i
  {
    if i == |s| || IsSeparator(s[i]) then i else WordFrom(s, i + 1)
  }

  /** Any index with WordLength's two properties is WordLength. */
  lemma WordLengthIs(s: seq<char>, n: nat)
    requires n <= |s| && (forall k :: 0 <= k < n ==> !IsSeparator(s[k])) && (n < |s| ==> IsSeparator(s[n]))
    ensures WordLength(s) == n
  {
  }

  /** The tokens of a text: its maximal runs of non-separators, from left to right. */
  function Tokenize(s: seq<char>): (ts: seq<CText>)
    decreases |s|
  {
    if s == [] then []
    else if IsSeparator(s[0]) then Tokenize(s[1..])
    else
      var n := WordLength(s);
      assert NUL !in s[..n] by {
        forall k | 0 <= k < n ensures s[..n][k] != NUL { }
      }
      [s[..n]] + Tokenize(s[n..])
  }

  /** The characters of s that are not separators, in order. */
  function Filtered(s: seq<char>): seq<char> {
    if s == [] then []
    else (if IsSeparator(s[0]) then [] else [s[0]]) + Filtered(s[1..])
  }

  function Concat(ts: seq<seq<char>>): seq<char> {
    if ts == [] then [] else ts[0] + Concat(ts[1..])
  }

  /**
   * The text toString is taken to produce (its body is not part of this model): the
   * tokens joined by single spaces.
   */
  function Join(ts: seq<CText>): (r: CText) {
    if ts == [] then []
    else if |ts| == 1 then ts[0]
    else ts[0] + [' '] + Join(ts[1..])
  }

  /** A join starts with its first piece and ends with its last. */
  lemma {:induction false} JoinEnds(ts: seq<CText>)
    ensures ts != [] ==> ts[0] <= Join(ts)
    ensures ts != [] ==>
      |ts[|ts| - 1]| <= |Join(ts)| && Join(ts)[|Join(ts)| - |ts[|ts| - 1]|..] == ts[|ts| - 1]
  {
    if |ts| > 1 {
      JoinEnds(ts[1..]);
      var j := Join(ts);
      assert j == ts[0] + [' '] + Join(ts[1..]);
    }
  }

  // ---------------------------------------------------------------------------------------
  // Properties of tokenization

  /** Every token is a non-empty run of non-separators. */
  lemma {:induction false} TokensAreWords(s: seq<char>)
    ensures forall j :: 0 <= j < |Tokenize(s)| ==> IsWord(Tokenize(s)[j])
    decreases |s|
  {
    if s == [] {
    } else if IsSeparator(s[0]) {
      TokensAreWords(s[1..]);
    } else {
      TokensAreWords(s[WordLength(s)..]);
    }
  }

  lemma {:induction false} FilteredAppend(a: seq<char>, b: seq<char>)
    ensures Filtered(a + b) == Filtered(a) + Filtered(b)
  {
    if a == [] {
      assert a + b == b;
    } else {
      assert (a + b)[1..] == a[1..] + b;
      FilteredAppend(a[1..], b);
    }
  }

  lemma {:induction false} FilteredWord(w: seq<char>)
    requires NoSeparator(w)
    ensures Filtered(w) == w
  {
    if w != [] {
      FilteredWord(w[1..]);
    }
  }

  /** Nothing but separators is lost: the tokens put together are the text without them. */
  lemma {:induction false} TokensCoverText(s: seq<char>)
    ensures Concat(Tokenize(s)) == Filtered(s)
    decreases |s|
  {
    if s == [] {
    } else if IsSeparator(s[0]) {
      TokensCoverText(s[1..]);
    } else {
      var n := WordLength(s);
      TokensCoverText(s[n..]);
      assert s == s[..n] + s[n..];
      FilteredAppend(s[..n], s[n..]);
      FilteredWord(s[..n]);
      assert Tokenize(s)[1..] == Tokenize(s[n..]);
    }
  }

  lemma {:induction false} ConcatEmpty(ts: seq<CText>)
    requires forall j :: 0 <= j < |ts| ==> IsWord(ts[j])
    ensures Concat(ts) == [] <==> ts == []
  {
    if ts != [] {
      assert Concat(ts) == ts[0] + Concat(ts[1..]);
    }
  }

  /** A text yields no token exactly when it holds nothing but separators. */
  lemma NoTokens(s: seq<char>)
    ensures Tokenize(s) == [] <==> forall k :: 0 <= k < |s| ==> IsSeparator(s[k])
  {
    TokensCoverText(s);
    TokensAreWords(s);
    ConcatEmpty(Tokenize(s));
    FilteredEmpty(s);
  }

  lemma {:induction false} FilteredEmpty(s: seq<char>)
    ensures Filtered(s) == [] <==> forall k :: 0 <= k < |s| ==> IsSeparator(s[k])
  {
    if s != [] {
      FilteredEmpty(s[1..]);
      assert forall k :: 1 <= k < |s| ==> s[k] == s[1..][k - 1];
    }
  }

  /** A separator at the end of a text adds no token: the terminator parse reads is harmless. */
  lemma {:induction false} TokenizeTrailingSeparator(s: seq<char>, c: char)
    requires IsSeparator(c)
    ensures Tokenize(s + [c]) == Tokenize(s)
    decreases |s|
  {
    var t := s + [c];
    if s == [] {
      assert t[1..] == [];
    } else if IsSeparator(s[0]) {
      assert t[1..] == s[1..] + [c];
      TokenizeTrailingSeparator(s[1..], c);
    } else {
      var n := WordLength(s);
      assert t[..n] == s[..n];
      WordLengthIs(t, n);
      assert t[n..] == s[n..] + [c];
      TokenizeTrailingSeparator(s[n..], c);
    }
  }

  /** A text that ends in a separator (or is empty) tokenizes apart from what follows it. */
  lemma {:induction false} TokenizeAppend(a: seq<char>, b: seq<char>)
    requires a == [] || IsSeparator(a[|a| - 1])
    ensures Tokenize(a + b) == Tokenize(a) + Tokenize(b)
    decreases |a|
  {
    var t := a + b;
    if a == [] {
      assert t == b;
    } else if IsSeparator(a[0]) {
      assert t[1..] == a[1..] + b;
      TokenizeAppend(a[1..], b);
    } else {
      var n := WordLength(a);
      assert n < |a|;
      assert t[..n] == a[..n];
      assert t[n] == a[n];
      WordLengthIs(t, n);
      assert t[n..] == a[n..] + b;
      TokenizeAppend(a[n..], b);
    }
  }

  /** A single word followed by a separator is one token. */
  lemma WordThenSeparator(w: seq<char>, c: char)
    requires IsWord(w) && IsSeparator(c)
    ensures Tokenize(w + [c]) == [w]
  {
    var t := w + [c];
    assert t[..|w|] == w;
    WordLengthIs(t, |w|);
    assert t[|w|..] == [c];
    assert Tokenize([c]) == Tokenize([]);
  }

  lemma WordAlone(w: seq<char>)
    requires IsWord(w)
    ensures Tokenize(w) == [w]
  {
    WordLengthIs(w, |w|);
    assert w[..|w|] == w;
  }

  /** Joining words with spaces and tokenizing again gives the same words back. */
  lemma {:induction false} JoinTokenize(ts: seq<CText>)
    requires forall j :: 0 <= j < |ts| ==> IsWord(ts[j])
    ensures Tokenize(Join(ts)) == ts
  {
    if ts == [] {
    } else if |ts| == 1 {
      WordAlone(ts[0]);
    } else {
      JoinTokenize(ts[1..]);
      WordThenSeparator(ts[0], ' ');
      TokenizeAppend(ts[0] + [' '], Join(ts[1..]));
      assert Join(ts) == ts[0] + [' '] + Join(ts[1..]);
    }
  }

  /** Tokenizing a text's tokens joined by spaces changes nothing: the tokens are a normal form. */
  lemma TokenizeIdempotent(s: seq<char>)
    ensures Tokenize(Join(Tokenize(s))) == Tokenize(s)
  {
    TokensAreWords(s);
    JoinTokenize(Tokenize(s));
  }

  /** A separator after a separator, or at the start, adds no token. */
  lemma SeparatorStep(u: seq<char>, i: nat)
    requires i < |u| && IsSeparator(u[i]) && (i == 0 || IsSeparator(u[i - 1]))
    ensures Tokenize(u[..i + 1]) == Tokenize(u[..i])
  {
    assert u[..i + 1] == u[..i] + [u[i]];
    TokenizeAppend(u[..i], [u[i]]);
    assert Tokenize([u[i]]) == Tokenize([]);
  }

  /** A non-separator extends the run of non-separators before it. */
  lemma WordGrows(u: seq<char>, s: nat, i: nat)
    requires s <= i < |u| && !IsSeparator(u[i]) && NoSeparator(u[s..i])
    ensures NoSeparator(u[s..i + 1])
  {
    assert u[s..i + 1] == u[s..i] + [u[i]];
  }

  /** The separator after a run of non-separators that follows a separator ends one token. */
  lemma TokenEnds(u: seq<char>, s: nat, i: nat)
    requires s < i < |u| && IsSeparator(u[i]) && NoSeparator(u[s..i])
    requires s == 0 || IsSeparator(u[s - 1])
    ensures Tokenize(u[..i + 1]) == Tokenize(u[..s]) + [u[s..i]]
  {
    var w := u[s..i];
    assert w[0] == u[s];
    assert u[..i + 1] == u[..s] + (w + [u[i]]);
    TokenizeAppend(u[..s], w + [u[i]]);
    WordThenSeparator(w, u[i]);
  }

  /** The C string of a buffer's slice with no separator in it is the slice itself. */
  lemma SliceOfWord(data: seq<char>, s: nat, i: nat)
    requires s < i <= |data| && NoSeparator((data + [NUL])[s..i])
    ensures Slice(data, s, i - 1) == data[s..i] == (data + [NUL])[s..i]
  {
    var u := (data + [NUL])[s..i];
    assert u == data[s..i];
    assert NUL !in u by {
      forall k | 0 <= k < |u| ensures u[k] != NUL { assert !IsSeparator(u[k]); }
    }
    CStringOfNulFree(u);
  }

  // ---------------------------------------------------------------------------------------

  /**
   * The state of parse's loop after the first i characters of u: the tokens pushed so far
   * and, while a token is open, the index it started at.
   */
  predicate Scanning(u: seq<char>, i: nat, tokenStart: int, pushed: seq<CText>) {
    -1 <= tokenStart < i <= |u| &&
    (tokenStart == -1 ==> pushed == Tokenize(u[..i]) && (i == 0 || IsSeparator(u[i - 1]))) &&
    (tokenStart >= 0 ==> pushed == Tokenize(u[..tokenStart]) && (tokenStart == 0 || IsSeparator(u[tokenStart - 1])) &&
                         NoSeparator(u[tokenStart..i]) && i < |u|)
  }

  /**
   * One character of parse's loop: a separator closes the open token, which is then pushed
   * (`push`), and a non-separator opens one if none is open.
   */
  method ScanStep(text: String, ghost u: seq<char>, i: nat, tokenStart: int, ghost pushed: seq<CText>)
    returns (push: bool, sub: CText, start: int)
    requires text.Valid() && u == text.data + [NUL] && i < |u|
    requires Scanning(u, i, tokenStart, pushed)
    ensures Scanning(u, i + 1, start, if push then pushed + [sub] else pushed)
  {
    push, sub, start := false, [], tokenStart;
    var c := text.CharAtIndex(i);
    assert c == u[i];
    if IsSeparator(c) {
      if tokenStart != -1 {
        sub := text.Subscript(tokenStart, i - 1);
        assert Min(tokenStart, text.len) == tokenStart && Min(i - 1, text.len) == i - 1;
        SliceOfWord(text.data, tokenStart, i);
        TokenEnds(u, tokenStart, i);
        push, start := true, -1;
      } else {
        SeparatorStep(u, i);
      }
    } else {
      if tokenStart == -1 {
        start := i;
      }
      WordGrows(u, start, i);
    }
  }

  /** The lexer: the tokens read so far, each a String of its own. */
  class Lexer {
    var tokens: seq<CText>

    constructor ()
      ensures tokens == []
    {
      tokens := [];
    }

    /** Lexer(const String &): the tokens of the text. */
    constructor FromText(text: String)
      requires text.Valid()
      ensures tokens == Tokenize(text.data)
    {
      tokens := [];
      new;
      Parse(text);
    }

    method Clear()
      modifies this
      ensures tokens == []
    {
      tokens := [];
    }

    /**
     * parse: one pass over the len characters of the String and the terminator after
     * them; a token starts at a non-separator that follows a separator and is pushed, as
     * subscript(start, i - 1), at the next separator.
     */
    method Parse(text: String)
      requires text.Valid()
      modifies this
      ensures tokens == old(tokens) + Tokenize(text.data)
    {
      ghost var u := text.data + [NUL];
      ghost var pushed: seq<CText> := [];
      var tokenStart := -1;
      var i := 0;
      while i < text.len + 1
        invariant 0 <= i <= text.len + 1 == |u|
        invariant tokens == old(tokens) + pushed
        invariant Scanning(u, i, tokenStart, pushed)
      {
        var push, sub;
        push, sub, tokenStart := ScanStep(text, u, i, tokenStart, pushed);
        if push {
          SnocAssoc(old(tokens), pushed, sub);
          tokens := tokens + [sub];
          pushed := pushed + [sub];
        }
        i := i + 1;
      }
      assert u[..i] == text.data + [NUL];
      TokenizeTrailingSeparator(text.data, NUL);
    }

    /** getToken: the empty String for an index past the last token. */
    function GetToken(index: nat): (t: CText)
      reads this
      ensures index < |tokens| ==> t == tokens[index]
      ensures index >= |tokens| ==> t == []
    {
      if index >= |tokens| then [] else tokens[index]
    }

    function GetNumTokens(): (n: nat)
      reads this
      ensures n == |tokens|
    {
      |tokens|
    }

    /** The tokens toString(first, last) covers: first to last inclusive, within range. */
    function Span(first: nat, last: nat): (ts: seq<CText>)
      reads this
      ensures |ts| == if first <= last && first < |tokens| then Min(last + 1, |tokens|) - first else 0
      ensures forall j :: 0 <= j < |ts| ==> ts[j] == tokens[first + j]
    {
      var hi := Min(last + 1, |tokens|);
      if first >= hi then [] else tokens[first..hi]
    }

    /** toString(first, last): the covered tokens with single spaces between them. */
    function ToString(first: nat, last: nat): (r: CText)
      reads this
      ensures Span(first, last) == [] ==> r == []
      ensures Span(first, last) != [] ==>
        var ts := Span(first, last);
        ts[0] <= r && |ts[|ts| - 1]| <= |r| && r[|r| - |ts[|ts| - 1]|..] == ts[|ts| - 1]
      ensures |Span(first, last)| > 1 ==> r == tokens[first] + [' '] + Join(Span(first + 1, last))
    {
      JoinEnds(Span(first, last));
      Join(Span(first, last))
    }

    /**
     * findExact: the first token equal to the needle up to ASCII case (operator== on
     * Strings is icompareTo), or -1.
     */
    method FindExact(needle: String) returns (r: int)
      ensures -1 <= r < |tokens|
      ensures r >= 0 ==> EqualsIgnoreCase(needle.CStr(), tokens[r])
      ensures forall j :: 0 <= j < |tokens| && (r == -1 || j < r) ==> !EqualsIgnoreCase(needle.CStr(), tokens[j])
    {
      var i := 0;
      while i < |tokens|
        invariant 0 <= i <= |tokens|
        invariant forall j :: 0 <= j < i ==> !EqualsIgnoreCase(needle.CStr(), tokens[j])
      {
        if needle.ICompareTo(Some(tokens[i]), -1) == 0 {
          return i;
        }
        i := i + 1;
      }
      return -1;
    }

    /** findPartial: the first token in which the needle occurs, or -1. */
    method FindPartial(needle: String) returns (r: int)
      ensures -1 <= r < |tokens|
      ensures r >= 0 ==> Contains(tokens[r], needle.CStr())
      ensures forall j :: 0 <= j < |tokens| && (r == -1 || j < r) ==> !Contains(tokens[j], needle.CStr())
    {
      var i := 0;
      while i < |tokens|
        invariant 0 <= i <= |tokens|
        invariant forall j :: 0 <= j < i ==> !Contains(tokens[j], needle.CStr())
      {
        if Contains(tokens[i], needle.CStr()) {
          return i;
        }
        i := i + 1;
      }
      return -1;
    }
  }

  /** The String a token of the lexer is: tight, so that its text is its whole buffer. */
  lemma TokenStringContains(tok: String, needle: String)
    requires tok.Valid() && NulFree(tok.data) && needle.Valid()
    ensures tok.FindString(needle) == Contains(tok.data, needle.CStr())
  {
    CStringOfNulFree(tok.data);
  }

  /** toString reads back as the tokens it covers. */
  lemma ToStringReadsBack(lx: Lexer, first: nat, last: nat)
    requires forall j :: 0 <= j < |lx.tokens| ==> IsWord(lx.tokens[j])
    ensures Tokenize(lx.ToString(first, last)) == lx.Span(first, last)
  {
    JoinTokenize(lx.Span(first, last));
  }

  /** A lexer built from a text holds only words. */
  lemma ParsedTokensAreWords(text: seq<char>, lx: Lexer)
    requires lx.tokens == Tokenize(text)
    ensures forall j :: 0 <= j < |lx.tokens| ==> IsWord(lx.tokens[j])
  {
    TokensAreWords(text);
  }
}
