/**
 * The pieces of the C library that the String class calls: strlen, strcmp, strncmp,
 * strcasecmp, strncasecmp, strstr and strcat, stated over sequences of characters.
 *
 * A character stands for one byte: the byte b is the char whose code is b, so that
 * characters compare like `unsigned char`, as the C comparison functions do.
 */
module LibC {

  const NUL: char := '\0'

  function Min(a: nat, b: nat): nat { if a <= b then a else b }

  predicate NulFree(s: seq<char>) {
    NUL !in s
  }

  /** The text of a C string: what a non-null `const char *` points at, up to its terminator. */
  type CText = s: seq<char> | NulFree(s)

  /** strlen: the number of characters before the first NUL of the buffer. */
  function StrLen(buf: seq<char>): (n: nat)
    ensures n <= |buf|
    ensures NulFree(buf[..n])
    ensures n < |buf| ==> buf[n] == NUL
  {
    NulScan(buf, 0)
  }

  /** The index of the first NUL at or after i, or |buf| when there is none. */
  function NulScan(buf: seq<char>, i: nat): (n: nat)
    requires i <= |buf| && NulFree(buf[..i])
    ensures i <= n <= |buf|
    ensures NulFree(buf[..n])
    ensures n < |buf| ==> buf[n] == NUL
    decreases |buf| - i
  {
    if i == |buf| || buf[i] == NUL then i
    else
      assert buf[..i + 1] == buf[..i] + [buf[i]];
      NulScan(buf, i + 1)
  }

  /** The C string a `char *` to the buffer denotes: everything before its first NUL. */
  function CString(buf: seq<char>): (s: seq<char>)
    ensures NulFree(s)
    ensures |s| <= |buf| && s == buf[..|s|]
    ensures |s| < |buf| ==> buf[|s|] == NUL
  {
    buf[..StrLen(buf)]
  }

  lemma CStringOfNulFree(s: seq<char>)
    requires NulFree(s)
    ensures CString(s) == s
  {
  }

  /** A C string read from a buffer ends no later than any NUL of the buffer. */
  lemma CStringBeforeNul(buf: seq<char>, j: nat)
    requires j < |buf| && buf[j] == NUL
    ensures CString(buf) == CString(buf[..j])
  {
    assert buf == buf[..j] + buf[j..];
    CStringConcat(buf[..j], buf[j..]);
  }

  /** A NUL right after NUL-free text ends the C string there, whatever follows. */
  lemma CStringStopsAtNul(a: seq<char>, b: seq<char>)
    requires NulFree(a)
    ensures CString(a + [NUL] + b) == a
  {
    var buf := a + [NUL] + b;
    assert buf[..|a|] == a;
    StrLenIs(buf, |a|);
  }

  /** Reading a C string across two pieces of a buffer stops at the first NUL of either. */
  lemma {:induction false} CStringConcat(a: seq<char>, b: seq<char>)
    ensures CString(a + b) == if NulFree(a) then a + CString(b) else CString(a)
  {
    if a == [] {
      assert a + b == b;
    } else if a[0] == NUL {
    } else {
      assert (a + b)[1..] == a[1..] + b;
      CStringConcat(a[1..], b);
      assert NulFree(a) == NulFree(a[1..]);
    }
  }

  function LowerChar(c: char): char {
    if 'A' <= c <= 'Z' then (c as int + 32) as char else c
  }

  function UpperChar(c: char): char {
    if 'a' <= c <= 'z' then (c as int - 32) as char else c
  }

  /** tolower applied to every character, as strcasecmp does before comparing. */
  function LowerAll(s: seq<char>): (r: seq<char>)
    ensures |r| == |s|
    ensures forall k :: 0 <= k < |s| ==> r[k] == LowerChar(s[k])
  {
    if s == [] then [] else [LowerChar(s[0])] + LowerAll(s[1..])
  }

  /** Equality up to ASCII case: what `strcasecmp(a, b) == 0` decides. */
  predicate EqualsIgnoreCase(a: seq<char>, b: seq<char>) {
    LowerAll(a) == LowerAll(b)
  }

  /**
   * strcmp: the sign of the first difference (C promises only the sign, so the model
   * returns -1, 0 or 1); a proper prefix compares below the longer string.
   */
  function StrCmp(a: seq<char>, b: seq<char>): (r: int)
    ensures -1 <= r <= 1
    ensures r == 0 <==> a == b
  {
    if a == [] then (if b == [] then 0 else -1)
    else if b == [] then 1
    else if a[0] < b[0] then -1
    else if a[0] > b[0] then 1
    else
      assert a == [a[0]] + a[1..] && b == [b[0]] + b[1..];
      StrCmp(a[1..], b[1..])
  }

  lemma {:induction false} StrCmpAntisymmetric(a: seq<char>, b: seq<char>)
    ensures StrCmp(a, b) == -StrCmp(b, a)
  {
    if a != [] && b != [] && a[0] == b[0] {
      StrCmpAntisymmetric(a[1..], b[1..]);
    }
  }

  lemma {:induction false} StrCmpTransitive(a: seq<char>, b: seq<char>, c: seq<char>)
    requires StrCmp(a, b) < 0 && StrCmp(b, c) < 0
    ensures StrCmp(a, c) < 0
  {
    if a != [] && b != [] && c != [] && a[0] == b[0] && b[0] == c[0] {
      StrCmpTransitive(a[1..], b[1..], c[1..]);
    }
  }

  /** strncmp: strcmp of the first n characters of each string. */
  function StrNCmp(a: seq<char>, b: seq<char>, n: nat): int {
    StrCmp(a[..Min(n, |a|)], b[..Min(n, |b|)])
  }

  /** strcasecmp: strcmp after tolower on both sides. */
  function StrCaseCmp(a: seq<char>, b: seq<char>): int {
    StrCmp(LowerAll(a), LowerAll(b))
  }

  /** strncasecmp */
  function StrNCaseCmp(a: seq<char>, b: seq<char>, n: nat): int {
    StrCaseCmp(a[..Min(n, |a|)], b[..Min(n, |b|)])
  }

  predicate OccursAt(hay: seq<char>, needle: seq<char>, k: nat) {
    k + |needle| <= |hay| && hay[k..k + |needle|] == needle
  }

  /** strstr, searching from index `from`: the first occurrence, or -1 for a null result. */
  function StrStr(hay: seq<char>, needle: seq<char>, from: nat := 0): (r: int)
    ensures r == -1 || (from <= r && OccursAt(hay, needle, r))
    ensures forall j :: from <= j && (r == -1 || j < r) ==> !OccursAt(hay, needle, j)
    decreases |hay| - from
  {
    if from + |needle| > |hay| then -1
    else if hay[from..from + |needle|] == needle then from
    else StrStr(hay, needle, from + 1)
  }

  /**
   * strcat into a buffer of fixed size: s and a terminator are written over the first NUL
   * of buf; the terminator falls on the buffer's own terminator when s fills it exactly.
   */
  function StrCat(buf: seq<char>, s: seq<char>): (r: seq<char>)
    requires NulFree(s) && StrLen(buf) + |s| <= |buf|
    ensures |r| == |buf|
  {
    var k := StrLen(buf);
    buf[..k] + s + (if k + |s| < |buf| then [NUL] + buf[k + |s| + 1..] else [])
  }

  /** The first NUL is unique: any index with strlen's two properties is strlen. */
  lemma StrLenIs(buf: seq<char>, n: nat)
    requires n <= |buf| && NulFree(buf[..n]) && (n < |buf| ==> buf[n] == NUL)
    ensures StrLen(buf) == n
  {
  }

  /** What strcat promises: the C string grows by exactly s. */
  lemma StrCatText(buf: seq<char>, s: seq<char>)
    requires NulFree(s) && StrLen(buf) + |s| <= |buf|
    ensures CString(StrCat(buf, s)) == CString(buf) + s
  {
    var k := StrLen(buf);
    var r := StrCat(buf, s);
    var h := buf[..k] + s;
    if k + |s| < |buf| {
      assert r == h + [NUL] + buf[k + |s| + 1..];
      assert r[..|h|] == h;
      StrLenIs(r, |h|);
    } else {
      assert r == h;
      assert r[..|h|] == h;
      StrLenIs(r, |h|);
    }
  }

}
