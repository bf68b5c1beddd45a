/**
 * The String class of framework/string.cpp: an owned heap buffer `data` of `len`
 * characters followed by a terminator.
 *
 * The model keeps the `len` characters in `data` (the terminator at index `len` is
 * implicit) and the NULL buffer as the empty sequence; every operation keeps
 * `|data| == len`, which is `Valid()`. The text of a String is its C string, `CStr()`:
 * the characters before the first NUL of the buffer. `len` is not always the length of
 * the text: `append` leaves a spare NUL behind the text and `setLen` pads with NULs.
 *
 * A `const char *` argument is an `Option<CText>`: `None` for NULL, `Some(s)` for a
 * pointer to the C string `s`. Members that return a String return the text of the
 * returned String; each such String is built by setData and so has `len` equal to the
 * length of its text.
 */
module Strings {
  import opened Wrappers
  import opened LibC

  /** The buffer setLen leaves: the first n characters kept, the rest NUL. */
  function Resize(buf: seq<char>, n: nat): (r: seq<char>)
    ensures |r| == n
    ensures forall k :: 0 <= k < n ==> r[k] == (if k < |buf| then buf[k] else NUL)
  {
    if n <= |buf| then buf[..n] else buf + seq(n - |buf|, _ => NUL)
  }

  /** Shortening to n keeps the first n characters of the text; lengthening keeps it all. */
  lemma ResizeText(buf: seq<char>, n: nat)
    ensures CString(Resize(buf, n)) == if n <= StrLen(buf) then buf[..n] else CString(buf)
  {
    var r := Resize(buf, n);
    var k := StrLen(buf);
    if n <= k {
      assert r == buf[..n];
      assert buf[..n] == buf[..k][..n];
      CStringOfNulFree(buf[..n]);
    } else {
      assert r[..k] == buf[..k];
      StrLenIs(r, k);
    }
  }

  /** Resizing to no less than the text's length keeps the text. */
  lemma ResizeKeepsText(buf: seq<char>, n: nat)
    requires StrLen(buf) <= n
    ensures CString(Resize(buf, n)) == CString(buf)
  {
    ResizeText(buf, n);
    if n == StrLen(buf) {
      assert buf[..n] == CString(buf);
    }
  }

  /**
   * The buffer append leaves: setLen(|buf| + room + 1) pads the buffer with NUL, then strcat
   * writes s and a terminator after the old text. Cells past that terminator keep what setLen
   * left there: the old buffer's cells, NUL beyond its end.
   */
  function Appended(buf: seq<char>, s: CText, room: nat): (r: seq<char>)
    requires |s| <= room
    ensures |r| == |buf| + room + 1
    ensures CString(r) == CString(buf) + s
    ensures r[|r| - 1] == NUL
  {
    var t := CString(buf) + s;
    var r := t + [NUL] + Resize(buf, |buf| + room + 1)[|t| + 1..];
    assert r[..|t|] == t;
    StrLenIs(r, |t|);
    r
  }

  /** setLen then strcat build exactly the appended buffer. */
  lemma StrCatResized(buf: seq<char>, s: CText, room: nat)
    requires |s| <= room
    ensures StrLen(Resize(buf, |buf| + room + 1)) + |s| <= |buf| + room + 1
    ensures StrCat(Resize(buf, |buf| + room + 1), s) == Appended(buf, s, room)
  {
    var b := Resize(buf, |buf| + room + 1);
    ResizeText(buf, |buf| + room + 1);
    assert b[..StrLen(b)] == CString(buf);
  }

  /** The cells after the appended text's terminator are the old buffer's, NUL beyond it. */
  lemma AppendedTail(buf: seq<char>, s: CText, room: nat)
    requires |s| <= room
    ensures var r, k := Appended(buf, s, room), |CString(buf)| + |s|;
      r[..k] == CString(buf) + s && r[k] == NUL &&
      forall j :: k < j < |r| ==> r[j] == if j < |buf| then buf[j] else NUL
  {
    var k := |CString(buf)| + |s|;
    var r := Appended(buf, s, room);
    var b := Resize(buf, |buf| + room + 1);
    assert r == CString(buf) + s + [NUL] + b[k + 1..];
    forall j | k < j < |r|
      ensures r[j] == if j < |buf| then buf[j] else NUL
    {
      assert r[j] == b[j];
    }
  }

  /** Appending to a NUL-free buffer: the old buffer, the text, then NULs up to the new length. */
  lemma AppendedNulFree(buf: seq<char>, s: CText, room: nat)
    requires |s| <= room && NulFree(buf)
    ensures Appended(buf, s, room) == buf + s + seq(room + 1 - |s|, _ => NUL)
  {
    CStringOfNulFree(buf);
    var r := Appended(buf, s, room);
    var t := buf + s + seq(room + 1 - |s|, _ => NUL);
    assert |r| == |t|;
    forall j | 0 <= j < |r|
      ensures r[j] == t[j]
    {
      AppendedTail(buf, s, room);
      if j < |buf| + |s| {
        assert r[..|buf| + |s|][j] == r[j];
      }
    }
  }

  /** Characters validString refuses at the start of a string; -52 is the byte 0xCC. */
  predicate OddLead(c: char) {
    c == NUL || c == '\n' || c == '\r' || c == '\t' || c == '\U{CC}'
  }

  /** The static validString(const char *, min). */
  function ValidCString(s: Option<CText>, min: nat): (r: bool)
    ensures r <==> s.Some? && |s.value| >= min && s.value != [] && !OddLead(s.value[0])
  {
    if s.None? then false
    else if |s.value| < min then false
    else if s.value == [] then false
    else !OddLead(s.value[0])
  }

  /** Characters isNum accepts. */
  predicate NumChar(c: char) {
    '0' <= c <= '9' || c == '.'
  }

  /** Characters validPath refuses anywhere. */
  predicate Wildcard(c: char) {
    c == '*' || c == '?' || c == '<' || c == '>' || c == '|'
  }

  /** validPath's rule: no wildcard character, and a double quote only first or last. */
  predicate PathOk(d: seq<char>) {
    forall k :: 0 <= k < |d| ==> !Wildcard(d[k]) && (d[k] == '"' ==> k == 0 || k == |d| - 1)
  }

  predicate PathSeparator(c: char) {
    c == '\\' || c == '/'
  }

  /** The greatest index k with lo <= k < |s| and P(s[k]), or -1 when there is none. */
  function LastIndexWhere(s: seq<char>, P: char -> bool, lo: nat): (r: int)
    ensures r == -1 || (lo <= r < |s| && P(s[r]))
    ensures forall k :: lo <= k < |s| && k > r ==> !P(s[k])
    decreases |s|
  {
    if |s| <= lo then -1
    else if P(s[|s| - 1]) then |s| - 1
    else LastIndexWhere(s[..|s| - 1], P, lo)
  }

  predicate IsDot(c: char) { c == '.' }

  /** The number of spaces at the start of s. */
  function LeadingSpaces(s: seq<char>): (n: nat)
    ensures n <= |s|
    ensures forall k :: 0 <= k < n ==> s[k] == ' '
    ensures n < |s| ==> s[n] != ' '
  {
    SpacesFrom(s, 0)
  }

  /** The end of the run of spaces of s that starts at index 0, searched from index i. */
  function SpacesFrom(s: seq<char>, i: nat): (n: nat)
    requires i <= |s| && forall k :: 0 <= k < i ==> s[k] == ' '
    ensures i <= n <= |s|
    ensures forall k :: 0 <= k < n ==> s[k] == ' '
    ensures n < |s| ==> s[n] != ' '
    decreases |s| - i
  {
    if i == |s| || s[i] != ' ' then i else SpacesFrom(s, i + 1)
  }

  /** The number of spaces at the end of s. */
  function TrailingSpaces(s: seq<char>): (n: nat)
    ensures n <= |s|
    ensures forall k :: |s| - n <= k < |s| ==> s[k] == ' '
    ensures n < |s| ==> s[|s| - n - 1] != ' '
  {
    SpacesBack(s, 0)
  }

  /** The length of the run of spaces that ends s, counted on from j spaces already seen. */
  function SpacesBack(s: seq<char>, j: nat): (n: nat)
    requires j <= |s| && forall k :: |s| - j <= k < |s| ==> s[k] == ' '
    ensures j <= n <= |s|
    ensures forall k :: |s| - n <= k < |s| ==> s[k] == ' '
    ensures n < |s| ==> s[|s| - n - 1] != ' '
    decreases |s| - j
  {
    if j == |s| || s[|s| - j - 1] != ' ' then j else SpacesBack(s, j + 1)
  }

  /** The text ltrim leaves: the leading spaces removed. */
  function LTrimmed(s: CText): CText {
    s[LeadingSpaces(s)..]
  }

  /** The text rtrim leaves: the trailing spaces removed, except that index 0 always stays. */
  function RTrimmed(s: CText): CText {
    if s == [] then []
    else if TrailingSpaces(s) == |s| then s[..1]
    else s[..|s| - TrailingSpaces(s)]
  }

  /** The text trim leaves from a String of length two or more: rtrim, then ltrim if still long. */
  function Trimmed(s: CText): CText {
    var r := RTrimmed(s);
    if |r| < 2 then r else LTrimmed(r)
  }

  /** The characters of s with indices in [lo, hi) mapped to upper case. */
  function UpperRange(s: seq<char>, lo: nat, hi: nat): (r: seq<char>)
    ensures |r| == |s|
    ensures forall k :: 0 <= k < |s| ==> r[k] == if lo <= k < hi then UpperChar(s[k]) else s[k]
  {
    seq(|s|, k requires 0 <= k < |s| => if lo <= k < hi then UpperChar(s[k]) else s[k])
  }

  /** The characters of s with indices in [lo, hi) mapped to lower case. */
  function LowerRange(s: seq<char>, lo: nat, hi: nat): (r: seq<char>)
    ensures |r| == |s|
    ensures forall k :: 0 <= k < |s| ==> r[k] == if lo <= k < hi then LowerChar(s[k]) else s[k]
  {
    seq(|s|, k requires 0 <= k < |s| => if lo <= k < hi then LowerChar(s[k]) else s[k])
  }

  /** The text of the inclusive range [s, e] of a buffer whose terminator follows `data`. */
  function Slice(data: seq<char>, s: nat, e: nat): CText
    requires s <= e <= |data|
  {
    CString((data + [NUL])[s..e + 1])
  }

  /** The extension with the dot replaceEXT insists on; the empty extension stays empty. */
  function DottedExt(ext: CText): CText {
    if ext == [] then [] else if ext[0] != '.' then ['.'] + ext else ext
  }

  /**
   * The text replaceEXT gives a String with text c, or None when it leaves the String as it
   * is (it still returns true then). `searched` says whether the length was over 4, the
   * only case in which it looks for a dot.
   */
  function ExtReplaced(c: CText, searched: bool, ext: CText): Option<CText> {
    var e := DottedExt(ext);
    var k := if searched then LastIndexWhere(c, IsDot, 1) else -1;
    if e == [] then None
    else if k != -1 then Some(c[..k] + e)
    else Some(c + e)
  }

  /** removeFilename's text: up to and including the last separator at index 1 or later. */
  function DirPart(c: CText): CText {
    if c == [] then []
    else if PathSeparator(c[|c| - 1]) then c
    else
      var k := LastIndexWhere(c, PathSeparator, 1);
      if k == -1 then c else c[..k + 1]
  }

  /** removeDir's text: what follows that separator. */
  function FilePart(c: CText): CText {
    if c == [] then []
    else if PathSeparator(c[|c| - 1]) then []
    else
      var k := LastIndexWhere(c, PathSeparator, 1);
      if k == -1 then c else c[k + 1..]
  }

  /** getEXT's text: what follows the last dot of the buffer, up to the next NUL. */
  function ExtOf(data: seq<char>): CText {
    var k := LastIndexWhere(data, IsDot, 0);
    if k == -1 then [] else CString(data[k + 1..])
  }

  /**
   * The strstr test of findString, past its emptiness tests on this String: false for the
   * empty needle, else whether the needle occurs in the text.
   */
  predicate Contains(hay: CText, needle: CText)
    ensures Contains(hay, needle) <==> needle != [] && exists k :: 0 <= k <= |hay| && OccursAt(hay, needle, k)
  {
    needle != [] && StrStr(hay, needle) != -1
  }

  /** The extension follows the last dot, the one with no dot after it. */
  lemma ExtAfter(data: seq<char>, i: int)
    requires i == -1 || (0 <= i < |data| && data[i] == '.')
    requires forall k :: 0 <= k < |data| && k > i ==> data[k] != '.'
    ensures ExtOf(data) == if i == -1 then [] else CString(data[i + 1..])
  {
    LastIndexWhereIs(data, IsDot, 0, i);
  }

  /** Whether the word equals an entry of the list (a table of C strings) up to ASCII case. */
  predicate InList(w: seq<char>, list: seq<CText>) {
    exists j :: 0 <= j < |list| && EqualsIgnoreCase(w, list[j])
  }

  /** Any index with LastIndexWhere's two properties is its result. */
  lemma LastIndexWhereIs(s: seq<char>, P: char -> bool, lo: nat, i: int)
    requires i == -1 || (lo <= i < |s| && P(s[i]))
    requires forall k :: lo <= k < |s| && k > i ==> !P(s[k])
    ensures LastIndexWhere(s, P, lo) == i
  {
  }

  lemma LeadingSpacesIs(s: seq<char>, n: nat)
    requires n <= |s| && (forall k :: 0 <= k < n ==> s[k] == ' ') && (n < |s| ==> s[n] != ' ')
    ensures LeadingSpaces(s) == n
  {
  }

  lemma TrailingSpacesIs(s: seq<char>, n: nat)
    requires n <= |s| && (forall k :: |s| - n <= k < |s| ==> s[k] == ' ')
    requires n < |s| ==> s[|s| - n - 1] != ' '
    ensures TrailingSpaces(s) == n
  {
  }

  /**
   * The len characters of a buffer after strcpy(&data[start], &data[start + m]), m > 0:
   * the C string from start + m and its terminator, copied down to start. The two ranges
   * overlap when that C string is at least m long, and C gives strcpy between overlapping
   * ranges no defined result; this model takes the result of a front-to-back copy.
   */
  function StrCpyDown(d: seq<char>, start: nat, m: nat): (r: seq<char>)
    requires 0 < m && start + m <= |d|
    ensures |r| == |d|
  {
    var t := CString(d[start + m..]);
    d[..start] + t + [NUL] + d[start + |t| + 1..]
  }

  lemma StrCpyDownText(d: seq<char>, start: nat, m: nat)
    requires 0 < m && start + m <= |d|
    ensures CString(StrCpyDown(d, start, m)) == CString(d[..start] + CString(d[start + m..]))
    ensures StrLen(StrCpyDown(d, start, m)) <= |d| - m
  {
    var t := CString(d[start + m..]);
    var p := d[..start];
    var rest := d[start + |t| + 1..];
    var r := StrCpyDown(d, start, m);
    assert r == p + (t + [NUL] + rest);
    CStringConcat(p, t + [NUL] + rest);
    CStringStopsAtNul(t, rest);
    CStringConcat(p, t);
    assert r[start + |t|] == NUL;
    CStringBeforeNul(r, start + |t|);
  }

  /** On a buffer without NUL, strcpy down by m cuts m characters out at start. */
  lemma StrCpyDownRange(d: seq<char>, start: nat, m: nat)
    requires 0 < m && start + m <= |d| && NulFree(d)
    ensures StrCpyDown(d, start, m)[..|d| - m] == d[..start] + d[start + m..]
  {
    CStringOfNulFree(d[start + m..]);
  }

  /** In the buffer with its terminator, the text is followed by a NUL. */
  lemma TextThenNul(data: seq<char>)
    ensures var n := |CString(data)|; (data + [NUL])[..n] == CString(data) && (data + [NUL])[n] == NUL
  {
  }

  /**
   * The buffer rtrim's loop leaves, read as a C string: the text up to index i, where the
   * walk back from the end stopped, and at least index 0.
   */
  lemma RTrimmedText(c: CText, t: seq<char>, i: nat)
    requires |c| < |t| && i < |t|
    requires forall k :: 0 <= k < |t| ==> t[k] == if k <= i && k < |c| then c[k] else NUL
    requires forall k :: i < k < |c| ==> c[k] == ' '
    requires i > 0 ==> t[i] != ' ' && t[i] != NUL
    ensures CString(t) == RTrimmed(c)
  {
    var m := if i == 0 then Min(1, |c|) else i + 1;
    assert m <= |c|;
    assert t == c[..m] + [NUL] + t[m + 1..];
    CStringStopsAtNul(c[..m], t[m + 1..]);
    if c != [] {
      if i == 0 {
        TrailingSpacesIs(c, if c[0] == ' ' then |c| else |c| - 1);
      } else {
        TrailingSpacesIs(c, |c| - i - 1);
      }
    }
  }

  /** removeDir's copy from index i + 1 of the buffer through the NUL that ends its text. */
  lemma TailCopy(data: seq<char>, i: nat)
    requires i < |CString(data)|
    ensures CString((data + [NUL])[i + 1..|CString(data)| + 1]) == CString(data)[i + 1..]
  {
    var c := CString(data);
    TextThenNul(data);
    assert (data + [NUL])[i + 1..|c| + 1] == c[i + 1..] + [NUL] + [];
    CStringStopsAtNul(c[i + 1..], []);
  }

  /** FilePart in terms of the index that removeDir's backward search stops at. */
  lemma FilePartAt(c: CText, i: nat)
    requires c != [] && !PathSeparator(c[|c| - 1]) && i < |c|
    requires LastIndexWhere(c, PathSeparator, 1) == if i == 0 then -1 else i
    ensures FilePart(c) == if i == 0 then c else c[i + 1..]
  {
  }

  /** A zeroed buffer with u[s..e + 1] copied to its start holds the C string of that range. */
  lemma CopiedText(t: seq<char>, u: seq<char>, s: nat, e: nat)
    requires s <= e < |u| && e - s + 2 <= |t|
    requires forall k :: 0 <= k < |t| ==> t[k] == if k < e + 1 - s then u[s + k] else NUL
    ensures CString(t) == CString(u[s..e + 1])
  {
    assert t[..e - s + 1] == u[s..e + 1];
    CStringBeforeNul(t, e - s + 1);
  }

  /**
   * What insert's text comes to: the character goes in at `where` when that is within the
   * text; past the length, the character follows a NUL and is lost.
   */
  lemma InsertedText(d: seq<char>, where: nat, character: char)
    ensures var t := CString(Resize(d, where) + [character]) + Slice(d, Min(where, |d|), |d|);
      (NulFree(d) && character != NUL && where <= |d| ==> t == d[..where] + [character] + d[where..]) &&
      (where > |d| ==> t == CString(d))
  {
    if NulFree(d) && character != NUL && where <= |d| {
      SliceInclusive(d, where, |d|);
      CStringOfNulFree(Resize(d, where) + [character]);
    }
    if where > |d| {
      assert Resize(d, where) + [character] == d + (seq(where - |d|, _ => NUL) + [character]);
      CStringConcat(d, seq(where - |d|, _ => NUL) + [character]);
      assert (d + [NUL])[|d|..|d| + 1] == [NUL] + [] + [];
      CStringStopsAtNul([], []);
    }
  }

  /** strcat onto a buffer whose text ends at index i. */
  lemma CatAfter(buf: seq<char>, i: nat, e: CText)
    requires i < |buf| && NulFree(buf[..i]) && buf[i] == NUL && i + |e| <= |buf|
    ensures StrLen(buf) == i
    ensures CString(StrCat(buf, e)) == buf[..i] + e
  {
    StrLenIs(buf, i);
    StrCatText(buf, e);
  }

  /** strcat of e onto a buffer whose C string ends at i, read back as a C string. */
  method CatText(buf: seq<char>, i: nat, e: CText) returns (t: CText)
    requires i < |buf| && NulFree(buf[..i]) && buf[i] == NUL && i + |e| <= |buf|
    ensures t == buf[..i] + e
  {
    CatAfter(buf, i, e);
    t := CString(StrCat(buf, e));
  }

  /**
   * replaceEXT's backward search of its copy for a dot, from the terminator down to index 1:
   * the last dot at index 1 or later, or 0 when there is none.
   */
  method LastDot(c: CText, dest: seq<char>) returns (i: nat)
    requires |c| < |dest| && dest[..|c|] == c && dest[|c|] == NUL
    ensures i <= |c|
    ensures i > 0 ==> i == LastIndexWhere(c, IsDot, 1)
    ensures i == 0 ==> LastIndexWhere(c, IsDot, 1) == -1
  {
    i := |c|;
    while i > 0 && dest[i] != '.'
      invariant 0 <= i <= |c|
      invariant forall k :: 1 <= k < |c| && k > i ==> c[k] != '.'
    {
      i := i - 1;
    }
    if i > 0 {
      LastIndexWhereIs(c, IsDot, 1, i);
    } else {
      LastIndexWhereIs(c, IsDot, 1, -1);
    }
  }

  /**
   * The buffer remove(start, n) leaves: nothing changes when start is past the buffer or n
   * is 0; otherwise strcpy moves the C string from start + m down to start, where m is n
   * cut to what is left from start, and setLen shortens the buffer by m.
   */
  function RemovedBuffer(d: seq<char>, start: nat, n: nat): (r: seq<char>)
    ensures |r| == if start >= |d| || n == 0 then |d| else |d| - Min(n, |d| - start)
  {
    if start >= |d| || n == 0 then d else CutDown(d, start, Min(n, |d| - start))
  }

  /** strcpy down by m from start, then setLen to m fewer characters. */
  function CutDown(d: seq<char>, start: nat, m: nat): (r: seq<char>)
    requires 0 < m && start + m <= |d|
    ensures |r| == |d| - m
  {
    Resize(StrCpyDown(d, start, m), |d| - m)
  }

  lemma CutDownText(d: seq<char>, start: nat, m: nat)
    requires 0 < m && start + m <= |d|
    ensures CString(CutDown(d, start, m)) == CString(d[..start] + CString(d[start + m..]))
  {
    StrCpyDownText(d, start, m);
    ResizeKeepsText(StrCpyDown(d, start, m), |d| - m);
  }

  /**
   * remove takes the n characters from start out of the text, or what is left of it: the
   * text becomes what precedes start followed by the text that follows the removed range.
   */
  lemma RemovedText(d: seq<char>, start: nat, n: nat)
    requires start < |d| && n > 0
    ensures CString(RemovedBuffer(d, start, n)) == CString(d[..start] + CString(d[start + Min(n, |d| - start)..]))
  {
    CutDownText(d, start, Min(n, |d| - start));
  }

  /** For a buffer without NUL, remove cuts the range out of the buffer. */
  lemma RemovedRange(d: seq<char>, start: nat, n: nat)
    requires start < |d| && n > 0 && NulFree(d)
    ensures RemovedBuffer(d, start, n) == d[..start] + d[start + Min(n, |d| - start)..]
  {
    var m := Min(n, |d| - start);
    var d1 := StrCpyDown(d, start, m);
    assert RemovedBuffer(d, start, n) == d1[..|d| - m];
    StrCpyDownRange(d, start, m);
  }

  /** subscript from s to the length reads the C string that starts at s. */
  lemma SliceToEnd(data: seq<char>, s: nat)
    requires s <= |data|
    ensures Slice(data, s, |data|) == CString(data[s..])
  {
    var u := (data + [NUL])[s..|data| + 1];
    assert u[..|data| - s] == data[s..];
    CStringBeforeNul(u, |data| - s);
  }

  /** On a buffer without NUL, subscript's range is inclusive and stops at the length. */
  lemma SliceInclusive(data: seq<char>, s: nat, e: nat)
    requires s <= e <= |data| && NulFree(data)
    ensures Slice(data, s, e) == data[s..if e < |data| then e + 1 else e]
  {
    var u := data + [NUL];
    if e < |data| {
      assert u[s..e + 1] == data[s..e + 1];
      CStringOfNulFree(data[s..e + 1]);
    } else {
      assert u[s..e + 1] == data[s..] + [NUL] + [];
      CStringStopsAtNul(data[s..], []);
    }
  }

  /** ltrim's text starts with no space, and it is what follows a run of spaces. */
  lemma LTrimmedShape(s: CText)
    ensures var t := LTrimmed(s); s == s[..|s| - |t|] + t
    ensures var t := LTrimmed(s); t == [] || t[0] != ' '
    ensures forall k :: 0 <= k < |s| - |LTrimmed(s)| ==> s[k] == ' '
    ensures LTrimmed(LTrimmed(s)) == LTrimmed(s)
  {
    var t := LTrimmed(s);
    LeadingSpacesIs(t, 0);
  }

  /** Trimming two or more spaces leaves one, because rtrim never removes index 0. */
  lemma TrimAllSpaces(s: CText)
    requires |s| >= 2 && forall k :: 0 <= k < |s| ==> s[k] == ' '
    ensures Trimmed(s) == " "
  {
    TrailingSpacesIs(s, |s|);
  }

  /** With a character other than space, trim strips the spaces at both ends and no more. */
  lemma TrimStripsBothEnds(s: CText)
    requires exists k :: 0 <= k < |s| && s[k] != ' '
    ensures var t := Trimmed(s);
      t != [] && t[0] != ' ' && t[|t| - 1] != ' ' &&
      s == s[..LeadingSpaces(s)] + t + s[|s| - TrailingSpaces(s)..]
  {
    TrimmedBetween(s);
    SpacesAround(s);
    MiddleEnds(s, LeadingSpaces(s), TrailingSpaces(s));
  }

  /** The middle of s between a characters and b characters, and its two ends. */
  lemma MiddleEnds(s: seq<char>, a: nat, b: nat)
    requires a + b < |s| && s[a] != ' ' && s[|s| - b - 1] != ' '
    ensures var t := s[a..|s| - b];
      t != [] && t[0] != ' ' && t[|t| - 1] != ' ' && s == s[..a] + t + s[|s| - b..]
  {
    var t := s[a..|s| - b];
    assert |t| == |s| - b - a;
    assert t[0] == s[a];
    assert t[|t| - 1] == s[|s| - b - 1];
    SplitThree(s, a, |s| - b);
  }

  /** With a character other than space, trim leaves what lies between the two runs of spaces. */
  lemma TrimmedBetween(s: CText)
    requires exists k :: 0 <= k < |s| && s[k] != ' '
    ensures LeadingSpaces(s) + TrailingSpaces(s) < |s|
    ensures Trimmed(s) == s[LeadingSpaces(s)..|s| - TrailingSpaces(s)]
  {
    var a := LeadingSpaces(s);
    var b := TrailingSpaces(s);
    SpacesAround(s);
    var r := s[..|s| - b];
    assert RTrimmed(s) == r;
    assert r[a] == s[a];
    LeadingSpacesIs(r, a);
    if a > 0 {
      assert s[0] == ' ' && |r| >= 2;
    }
    assert r[a..] == s[a..|s| - b];
  }

  lemma SplitThree(s: seq<char>, i: nat, j: nat)
    requires i <= j <= |s|
    ensures s == s[..i] + s[i..j] + s[j..]
  {
  }

  /** A character other than space bounds both runs of spaces from before. */
  lemma SpacesAround(s: seq<char>)
    requires exists k :: 0 <= k < |s| && s[k] != ' '
    ensures LeadingSpaces(s) + TrailingSpaces(s) < |s|
    ensures s[|s| - TrailingSpaces(s) - 1] != ' '
  {
    var k :| 0 <= k < |s| && s[k] != ' ';
    assert LeadingSpaces(s) <= k < |s| - TrailingSpaces(s);
  }

  /** With the default end of 0, toLower changes nothing. */
  lemma LowerRangeToZero(s: seq<char>, lo: nat)
    ensures LowerRange(s, lo, 0) == s
  {
  }

  /** Upper-casing a range twice is upper-casing it once. */
  lemma UpperRangeIdempotent(s: seq<char>, lo: nat, hi: nat)
    ensures UpperRange(UpperRange(s, lo, hi), lo, hi) == UpperRange(s, lo, hi)
  {
  }

  /** Case mapping only forgets case: lower-casing after upper-casing is lower-casing. */
  lemma LowerAfterUpper(s: seq<char>)
    ensures LowerRange(UpperRange(s, 0, |s|), 0, |s|) == LowerRange(s, 0, |s|)
    ensures LowerRange(s, 0, |s|) == LowerAll(s)
  {
    var u := UpperRange(s, 0, |s|);
    forall k | 0 <= k < |s| ensures LowerChar(u[k]) == LowerChar(s[k]) {
      LowerOfUpper(s[k]);
    }
    assert LowerRange(u, 0, |s|) == LowerRange(s, 0, |s|);
  }

  lemma LowerOfUpper(c: char)
    ensures LowerChar(UpperChar(c)) == LowerChar(c)
  {
    if 'a' <= c <= 'z' {
      assert UpperChar(c) as int == c as int - 32;
    }
  }

  /**
   * When the text has a separator at index 1 or later and does not end in one,
   * removeFilename and removeDir split it there: the directory ends in the separator, the
   * file name has none, and together they give the text back.
   */
  lemma PathSplitJoins(c: CText)
    requires c != [] && !PathSeparator(c[|c| - 1]) && LastIndexWhere(c, PathSeparator, 1) != -1
    ensures DirPart(c) + FilePart(c) == c
    ensures DirPart(c) != [] && PathSeparator(DirPart(c)[|DirPart(c)| - 1])
    ensures FilePart(c) != [] && forall k :: 0 <= k < |FilePart(c)| ==> !PathSeparator(FilePart(c)[k])
  {
    var k := LastIndexWhere(c, PathSeparator, 1);
    assert c == c[..k + 1] + c[k + 1..];
  }

  /** Without a separator at index 1 or later, both path helpers return the text unchanged. */
  lemma PathWithoutSeparator(c: CText)
    requires c != [] && !PathSeparator(c[|c| - 1]) && LastIndexWhere(c, PathSeparator, 1) == -1
    ensures DirPart(c) == c && FilePart(c) == c
  {
  }

  /**
   * replaceEXT and getEXT agree: after replacing with an extension that has no dot of its
   * own (with or without a leading one), getEXT reads that extension back.
   */
  lemma ReplacedExtReadBack(c: CText, searched: bool, x: CText)
    requires x != [] && forall k :: 0 <= k < |x| ==> x[k] != '.'
    ensures ExtReplaced(c, searched, x).Some?
    ensures ExtReplaced(c, searched, ['.'] + x) == ExtReplaced(c, searched, x)
    ensures ExtOf(ExtReplaced(c, searched, x).value) == x
  {
    assert DottedExt(['.'] + x) == ['.'] + x == DottedExt(x);
    var k := if searched then LastIndexWhere(c, IsDot, 1) else -1;
    var p := if k != -1 then c[..k] else c;
    assert ExtReplaced(c, searched, x) == Some(p + (['.'] + x));
    assert p + (['.'] + x) == p + ['.'] + x;
    ExtAfterDot(p, x);
  }

  /** getEXT of a text ending in a dot and an extension without one is that extension. */
  lemma ExtAfterDot(p: seq<char>, x: CText)
    requires forall k :: 0 <= k < |x| ==> x[k] != '.'
    ensures ExtOf(p + ['.'] + x) == x
  {
    var t := p + ['.'] + x;
    LastIndexWhereIs(t, IsDot, 0, |p|);
    assert t[|p| + 1..] == x;
    CStringOfNulFree(x);
  }

  /** With the empty extension replaceEXT changes nothing, whether or not a dot is found. */
  lemma ReplaceWithEmptyExt(c: CText, searched: bool)
    ensures ExtReplaced(c, searched, []) == None
  {
  }

  /** getEXT's text contains no dot. */
  lemma ExtHasNoDot(data: seq<char>)
    ensures forall k :: 0 <= k < |ExtOf(data)| ==> ExtOf(data)[k] != '.'
  {
    var i := LastIndexWhere(data, IsDot, 0);
    if i != -1 {
      var e := ExtOf(data);
      assert e <= data[i + 1..];
      forall k | 0 <= k < |e| ensures e[k] != '.' {
        assert e[k] == data[i + 1 + k];
      }
    }
  }

  /**
   * The member validString and the static one agree on a String whose buffer holds its
   * text, except on the empty String: the member accepts it when min is 0, the static one
   * refuses both NULL and "".
   */
  lemma ValidStringAgrees(s: String, min: nat)
    requires s.Valid() && NulFree(s.data)
    ensures s.len > 0 ==> s.ValidString(min) == ValidCString(Some(s.CStr()), min)
    ensures s.len == 0 ==> s.ValidString(min) == (min == 0)
    ensures s.len == 0 ==> !ValidCString(s.Ptr(), min) && !ValidCString(Some(s.CStr()), min)
  {
    CStringOfNulFree(s.data);
  }

  /** compareTo without a length is antisymmetric, as strcmp is. */
  lemma CompareToAntisymmetric(a: String, b: String)
    ensures a.CompareTo(Some(b.CStr()), -1) == -b.CompareTo(Some(a.CStr()), -1)
  {
    StrCmpAntisymmetric(a.CStr(), b.CStr());
  }

  /** operator== is an equivalence: reflexive, symmetric and transitive. */
  lemma EqualsIsEquivalence(a: String, b: String, c: String)
    ensures a.Equals(a)
    ensures a.Equals(b) ==> b.Equals(a)
    ensures a.Equals(b) && b.Equals(c) ==> a.Equals(c)
  {
  }

  class String {
    /** The len characters of the heap buffer; [] is the NULL buffer. */
    var data: seq<char>
    /** The length the String records, without the terminator. */
    var len: nat

    ghost predicate Valid()
      reads this
    {
      |data| == len
    }

    /** String(void): the NULL buffer. */
    constructor ()
      ensures Valid() && data == [] && len == 0
    {
      data := [];
      len := 0;
    }

    /** String(const char *) */
    constructor FromCString(newData: Option<CText>)
      ensures Valid()
      ensures data == if newData.Some? then newData.value else []
    {
      data := [];
      len := 0;
      new;
      SetData(newData);
    }

    /** The copy constructor String(const String &) copies the text of the original. */
    constructor Copy(text: String)
      requires text.Valid()
      ensures Valid() && data == text.CStr()
    {
      data := [];
      len := 0;
      new;
      SetData(text.Ptr());
    }

    /** String(const String *): NULL gives the empty String. */
    constructor CopyFrom(text: String?)
      requires text != null ==> text.Valid()
      ensures Valid() && data == if text == null then [] else text.CStr()
    {
      data := [];
      len := 0;
      new;
      if text != null {
        SetData(text.Ptr());
      }
    }

    /** c_str: the text; for the NULL buffer the empty C string. */
    function CStr(): (s: CText)
      reads this
      ensures |s| <= |data| && s == data[..|s|]
      ensures |s| < |data| ==> data[|s|] == NUL
    {
      CString(data)
    }

    /** The data pointer as a `const char *`: NULL exactly when the String is empty. */
    function Ptr(): (p: Option<CText>)
      reads this
      requires Valid()
      ensures p.None? <==> len == 0
      ensures p.Some? ==> p.value == CStr()
    {
      if len == 0 then None else Some(CStr())
    }

    function GetLen(): nat
      reads this
    {
      len
    }

    /** isEmpty tests the recorded length, so an emptied text can still be non-empty. */
    predicate IsEmpty()
      reads this
      requires Valid()
      ensures IsEmpty() <==> data == []
      ensures IsEmpty() ==> CStr() == []
    {
      len == 0
    }

    /** charAtIndex / operator[]: the character at index, NUL past the end. */
    function CharAtIndex(index: nat): (c: char)
      reads this
      requires Valid()
      ensures index < len ==> c == data[index]
      ensures index >= len ==> c == NUL
    {
      if index >= len then NUL else data[index]
    }

    /** setLen */
    method SetLen(newlen: nat)
      requires Valid()
      modifies this
      ensures Valid() && len == newlen
      ensures data == Resize(old(data), newlen)
    {
      if len == newlen {
        assert data == Resize(data, newlen);
        return;
      }
      if newlen == 0 {
        data := [];
        len := 0;
        return;
      }
      data := Resize(data, newlen);
      len := newlen;
    }

    /** setData(const char *): NULL changes nothing; otherwise the String becomes the text. */
    method SetData(newData: Option<CText>)
      requires Valid()
      modifies this
      ensures Valid()
      ensures newData.None? ==> data == old(data)
      ensures newData.Some? ==> data == newData.value
    {
      if newData.None? {
        return;
      }
      var newlen := |newData.value|;
      if newlen == 0 {
        data := [];
        len := 0;
        return;
      }
      data := newData.value;
      len := newlen;
    }

    /**
     * setData(const String &) and operator=(const String &): the text of `text`, except
     * that an empty `text` passes the NULL pointer and so changes nothing.
     */
    method SetDataFrom(text: String)
      requires Valid() && text.Valid() && text != this
      modifies this
      ensures Valid()
      ensures old(text.len) == 0 ==> data == old(data)
      ensures old(text.len) != 0 ==> data == old(text.CStr())
    {
      SetData(text.Ptr());
    }

    /** setData(const String *) */
    method SetDataFromPtr(text: String?)
      requires Valid() && (text != null ==> text.Valid() && text != this)
      modifies this
      ensures Valid()
      ensures text == null || old(text.len) == 0 ==> data == old(data)
      ensures text != null && old(text.len) != 0 ==> data == old(text.CStr())
    {
      if text == null {
        SetData(None);
        return;
      }
      SetData(text.Ptr());
    }

    /**
     * compareTo: strncmp on the first n characters when n >= 0, strcmp otherwise, and 0
     * for NULL. The C functions promise only the sign; the model gives -1, 0 or 1.
     */
    function CompareTo(str: Option<CText>, n: int): (r: int)
      reads this
      ensures -1 <= r <= 1
      ensures str.None? ==> r == 0
      ensures str.Some? && n < 0 ==> (r == 0 <==> CStr() == str.value)
      ensures str.Some? && n >= 0 ==>
        (r == 0 <==> CStr()[..Min(n, |CStr()|)] == str.value[..Min(n, |str.value|)])
    {
      if str.None? then 0
      else if n >= 0 then StrNCmp(CStr(), str.value, n)
      else StrCmp(CStr(), str.value)
    }

    /** icompareTo: as compareTo, up to ASCII case. */
    function ICompareTo(str: Option<CText>, n: int): (r: int)
      reads this
      ensures -1 <= r <= 1
      ensures str.None? ==> r == 0
      ensures str.Some? && n < 0 ==> (r == 0 <==> EqualsIgnoreCase(CStr(), str.value))
      ensures str.Some? && n >= 0 ==>
        (r == 0 <==> EqualsIgnoreCase(CStr()[..Min(n, |CStr()|)], str.value[..Min(n, |str.value|)]))
    {
      if str.None? then 0
      else if n >= 0 then StrNCaseCmp(CStr(), str.value, n)
      else StrCaseCmp(CStr(), str.value)
    }

    /** operator==: equal texts up to ASCII case. */
    predicate Equals(str: String)
      reads this, str
      ensures Equals(str) <==> EqualsIgnoreCase(CStr(), str.CStr())
    {
      ICompareTo(Some(str.CStr()), -1) == 0
    }

    /** validString(min): long enough, and not starting with an odd character. */
    function ValidString(min: nat): (r: bool)
      reads this
      requires Valid()
      ensures r <==> len >= min && (len > 0 ==> !OddLead(data[0]))
    {
      if len < min then false
      else if !IsEmpty() && OddLead(data[0]) then false
      else true
    }

    /**
     * append(const String &): an empty argument changes nothing; into an empty String the
     * argument's text is copied; otherwise setLen makes room for both texts and one more
     * character, and strcat writes the argument's text after this text.
     */
    method Append(str: String)
      requires Valid() && str.Valid() && str != this
      modifies this
      ensures Valid()
      ensures CStr() == old(CStr()) + str.CStr()
      ensures str.len == 0 ==> data == old(data)
      ensures str.len != 0 && old(len) == 0 ==> data == str.CStr()
      ensures str.len != 0 && old(len) != 0 ==>
        len == old(len) + str.len + 1 && data[len - 1] == NUL &&
        data == Appended(old(data), str.CStr(), str.len)
    {
      if str.IsEmpty() {
        return;
      }
      if IsEmpty() {
        SetDataFrom(str);
        return;
      }
      AppendText(str.CStr(), str.len);
    }

    /** append(const String *): NULL changes nothing. */
    method AppendPtr(str: String?)
      requires Valid() && (str != null ==> str.Valid() && str != this)
      modifies this
      ensures Valid()
      ensures str == null ==> data == old(data)
      ensures str != null ==> CStr() == old(CStr()) + str.CStr()
      ensures str != null && str.len == 0 ==> data == old(data)
      ensures str != null && str.len != 0 && old(len) == 0 ==> data == str.CStr()
      ensures str != null && str.len != 0 && old(len) != 0 ==>
        len == old(len) + str.len + 1 && data[len - 1] == NUL &&
        data == Appended(old(data), str.CStr(), str.len)
    {
      if str == null {
        return;
      }
      Append(str);
    }

    /**
     * append(const char *): NULL changes nothing. There is no test for "": appending it
     * to a non-empty String still adds one NUL to the buffer.
     */
    method AppendCStr(str: Option<CText>)
      requires Valid()
      modifies this
      ensures Valid()
      ensures str.None? ==> data == old(data)
      ensures str.Some? ==> CStr() == old(CStr()) + str.value
      ensures str.Some? && old(len) == 0 ==> data == str.value
      ensures str.Some? && old(len) != 0 ==>
        len == old(len) + |str.value| + 1 && data[len - 1] == NUL &&
        data == Appended(old(data), str.value, |str.value|)
    {
      if str.None? {
        return;
      }
      if IsEmpty() {
        SetData(str);
        return;
      }
      AppendText(str.value, |str.value|);
    }

    /** The shared tail of the appends: setLen(getLen() + room + 1), then strcat. */
    method AppendText(s: CText, room: nat)
      requires Valid() && len > 0 && |s| <= room
      modifies this
      ensures Valid() && len == old(len) + room + 1
      ensures data == Appended(old(data), s, room)
    {
      StrCatResized(data, s, room);
      SetLen(len + room + 1);
      data := StrCat(data, s);
    }

    /**
     * append(char): setLen(getLen() + 1), then the character goes in the last slot. After
     * an append of a String or C string that slot follows the spare NUL, so the character
     * lands in the buffer but not in the text.
     */
    method AppendChar(c: char)
      requires Valid()
      modifies this
      ensures Valid() && len == old(len) + 1
      ensures data == old(data) + [c]
      ensures NulFree(old(data)) && c != NUL ==> CStr() == old(CStr()) + [c]
      ensures !NulFree(old(data)) ==> CStr() == old(CStr())
    {
      ghost var before := data;
      SetLen(len + 1);
      data := data[len - 1 := c];
      assert data == before + [c];
      if NulFree(before) && c != NUL {
        CStringOfNulFree(before);
        CStringOfNulFree(data);
      } else if !NulFree(before) {
        CStringConcat(before, [c]);
      }
    }

    /**
     * subscript(start, end): both bounds are clamped to the length, then the characters
     * from start to end inclusive (index len is the terminator) are copied forward into a
     * zeroed buffer, which is read as a C string. When start > end the backward copy loop
     * runs no iteration, since it starts at end and requires i >= start, so the result is
     * empty. The String must not be empty: the copy reads data[start] even from the NULL
     * buffer.
     */
    method Subscript(start: nat, end: nat) returns (r: CText)
      requires Valid() && len > 0
      ensures Min(start, len) <= Min(end, len) ==> r == Slice(data, Min(start, len), Min(end, len))
      ensures Min(start, len) > Min(end, len) ==> r == []
    {
      var e := Min(end, len);
      var s := Min(start, len);
      var backward := s > e;
      var count := if backward then s - e else e - s;
      if count < 1 {
        count := 1;
      }
      var temp := new char[count + 2](_ => NUL);
      if !backward {
        var u := data + [NUL];
        var i := s;
        while i <= e
          invariant s <= i <= e + 1
          invariant forall k :: 0 <= k < temp.Length ==> temp[k] == if k < i - s then u[s + k] else NUL
        {
          temp[i - s] := u[i];
          i := i + 1;
        }
        CopiedText(temp[..], u, s, e);
        r := CString(temp[..]);
      } else {
        assert temp[0] == NUL;
        r := CString(temp[..]);
      }
    }

    /** ltrim: from length two on, the leading spaces go and the String becomes its text. */
    method LTrim()
      requires Valid()
      modifies this
      ensures Valid()
      ensures old(len) < 2 ==> data == old(data)
      ensures old(len) >= 2 ==> data == LTrimmed(old(CStr()))
    {
      if len < 2 {
        return;
      }
      var c := CStr();
      var temp := new char[len + 1](k => if 0 <= k < |c| then c[k] else NUL);
      var n := len;
      var i := 0;
      while i < n && temp[i] == ' '
        invariant 0 <= i <= |c|
        invariant forall k :: 0 <= k < i ==> c[k] == ' '
      {
        i := i + 1;
      }
      LeadingSpacesIs(c, i);
      assert temp[i..] == c[i..] + [NUL] + temp[|c| + 1..];
      CStringStopsAtNul(c[i..], temp[|c| + 1..]);
      SetData(Some(CString(temp[i..])));
    }

    /**
     * rtrim: from length two on, the buffer is walked back from index len to index 1,
     * turning spaces and NULs into NUL until another character is met; index 0 is never
     * looked at. The String becomes the text that remains.
     */
    method RTrim()
      requires Valid()
      modifies this
      ensures Valid()
      ensures old(len) < 2 ==> data == old(data)
      ensures old(len) >= 2 ==> data == RTrimmed(old(CStr()))
    {
      if len < 2 {
        return;
      }
      var c := CStr();
      var str := new char[len + 1](k => if 0 <= k < |c| then c[k] else NUL);
      var i := len;
      while i > 0 && (str[i] == ' ' || str[i] == NUL)
        modifies str
        invariant 0 <= i <= len
        invariant forall k :: 0 <= k < str.Length ==> str[k] == if k <= i && k < |c| then c[k] else NUL
        invariant forall k :: i < k < |c| ==> c[k] == ' '
      {
        str[i] := NUL;
        i := i - 1;
      }
      RTrimmedText(c, str[..], i);
      SetData(Some(CString(str[..])));
    }

    /** trim: rtrim, then ltrim. */
    method Trim()
      requires Valid()
      modifies this
      ensures Valid()
      ensures old(len) < 2 ==> data == old(data)
      ensures old(len) >= 2 ==> data == Trimmed(old(CStr()))
    {
      ghost var long := len >= 2;
      RTrim();
      if long {
        CStringOfNulFree(data);
      }
      LTrim();
    }

    /**
     * toUpper(start, end): the text with a-z turned to A-Z at indices [start, end), where
     * an end of 0 or past the length means the length.
     */
    method ToUpper(start: nat, end: nat) returns (r: CText)
      requires Valid()
      ensures r == UpperRange(CStr(), start, if end == 0 || end > len then len else end)
    {
      var n := len;
      if n == 0 {
        return [];
      }
      var c := CStr();
      var str := new char[n + 1](k => if 0 <= k < |c| then c[k] else NUL);
      var e := end;
      if e == 0 || e > n {
        e := n;
      }
      var i := start;
      while i < e
        invariant start <= i
        invariant forall k :: 0 <= k < str.Length ==>
          str[k] == var b := if k < |c| then c[k] else NUL; if start <= k < i && k < e then UpperChar(b) else b
        decreases e - i
      {
        if 'a' <= str[i] <= 'z' {
          str[i] := (str[i] as int - 32) as char;
        }
        i := i + 1;
      }
      var up := UpperRange(c, start, e);
      assert NulFree(up) by {
        forall k | 0 <= k < |up| ensures up[k] != NUL {
        }
      }
      assert str[..] == up + [NUL] + str[|c| + 1..];
      CStringStopsAtNul(up, str[|c| + 1..]);
      r := CString(str[..]);
    }

    /**
     * toLower(start, end): the text with A-Z turned to a-z at indices [start, min(end, len)).
     * Unlike toUpper, an end of 0 is not widened, so the defaults change nothing.
     */
    method ToLower(start: nat, end: nat) returns (r: CText)
      requires Valid()
      ensures r == LowerRange(CStr(), start, Min(end, len))
    {
      var n := len;
      if n == 0 {
        return [];
      }
      var c := CStr();
      var str := new char[n + 1](k => if 0 <= k < |c| then c[k] else NUL);
      var i := start;
      while i < end && i < n
        invariant start <= i
        invariant forall k :: 0 <= k < str.Length ==>
          str[k] == var b := if k < |c| then c[k] else NUL; if start <= k < i && k < Min(end, n) then LowerChar(b) else b
        decreases n - i
      {
        if 'A' <= str[i] <= 'Z' {
          str[i] := (str[i] as int + 32) as char;
        }
        i := i + 1;
      }
      var low := LowerRange(c, start, Min(end, n));
      assert NulFree(low) by {
        forall k | 0 <= k < |low| ensures low[k] != NUL {
        }
      }
      assert str[..] == low + [NUL] + str[|c| + 1..];
      CStringStopsAtNul(low, str[|c| + 1..]);
      r := CString(str[..]);
    }

    /** isNum: every one of the len characters is a digit or a dot; true when there are none. */
    method IsNum() returns (r: bool)
      requires Valid()
      ensures r <==> forall k :: 0 <= k < len ==> NumChar(data[k])
    {
      var i := 0;
      while i < len
        invariant 0 <= i <= len
        invariant forall k :: 0 <= k < i ==> NumChar(data[k])
      {
        if !('0' <= data[i] <= '9') && data[i] != '.' {
          return false;
        }
        i := i + 1;
      }
      return true;
    }

    /** validPath: no wildcard among the len characters, and a quote only at either end. */
    method ValidPath() returns (r: bool)
      requires Valid()
      ensures r <==> PathOk(data)
    {
      var length := len;
      if IsEmpty() {
        return true;
      }
      var i := 0;
      while i < length
        invariant 0 <= i <= length
        invariant forall k :: 0 <= k < i ==> !Wildcard(data[k]) && (data[k] == '"' ==> k == 0 || k == length - 1)
      {
        if data[i] == '*' || data[i] == '?' || data[i] == '<' || data[i] == '>' || data[i] == '|' {
          return false;
        } else if data[i] == '"' {
          if i != 0 && i != length - 1 {
            return false;
          }
        }
        i := i + 1;
      }
      return true;
    }

    /**
     * The backward search of removeFilename and removeDir: from the last index down to 1,
     * for a separator; 0 when there is none.
     */
    static method LastSeparator(d: seq<char>) returns (i: nat)
      requires d != []
      ensures i < |d|
      ensures LastIndexWhere(d, PathSeparator, 1) == if i == 0 then -1 else i
    {
      i := |d| - 1;
      while i > 0 && !PathSeparator(d[i])
        invariant 0 <= i <= |d| - 1
        invariant forall k :: 1 <= k < |d| && k > i ==> !PathSeparator(d[k])
      {
        i := i - 1;
      }
      LastIndexWhereIs(d, PathSeparator, 1, if i == 0 then -1 else i);
    }

    /**
     * removeFilename: a copy of the text, cut just after the last separator at index 1 or
     * later; unchanged when it ends in a separator or has none there.
     */
    method RemoveFilename() returns (r: CText)
      requires Valid()
      ensures r == DirPart(CStr())
    {
      var str := new String.FromCString(Ptr());
      if str.GetLen() == 0 {
        return [];
      }
      var n := str.GetLen();
      if PathSeparator(str.CharAtIndex(n - 1)) {
        return str.CStr();
      }
      var i := LastSeparator(str.data);
      if i > 0 {
        str.SetLen(i + 1);
      }
      return str.CStr();
    }

    /**
     * removeDir: the text after the last separator at index 1 or later; empty when the text
     * ends in a separator, unchanged when it has none there.
     */
    method RemoveDir() returns (r: CText)
      requires Valid()
      ensures r == FilePart(CStr())
    {
      ghost var c := CStr();
      var str := new String.FromCString(Ptr());
      if str.GetLen() == 0 {
        assert c == [];
        return [];
      }
      var n := str.GetLen();
      if PathSeparator(str.CharAtIndex(n - 1)) {
        assert FilePart(c) == [];
        return [];
      }
      var i := LastSeparator(str.data);
      FilePartAt(c, i);
      if i > 0 {
        // strncpy into a buffer of n - i characters from this String's own buffer at
        // i + 1: the rest of the text and the NUL that ends it
        var temp := (data + [NUL])[i + 1..n + 1];
        TailCopy(data, i);
        str.SetData(Some(CString(temp)));
      }
      assert str.data == FilePart(c);
      CStringOfNulFree(str.data);
      return str.CStr();
    }

    /**
     * getEXT: the text after the last dot among the len characters, or empty. The test of
     * data[len], the terminator, for a dot never holds.
     */
    method GetEXT() returns (r: CText)
      requires Valid()
      ensures r == ExtOf(data)
    {
      if IsEmpty() || (data + [NUL])[len] == '.' {
        ExtAfter(data, -1);
        assert [] == ExtOf(data);
        return [];
      }
      var i: int := len - 1;
      while i >= 0 && data[i] != '.'
        invariant -1 <= i < len
        invariant forall k :: 0 <= k < len && k > i ==> data[k] != '.'
      {
        i := i - 1;
      }
      if i >= 0 {
        r := Subscript(i + 1, len);
        assert Min(i + 1, len) == i + 1 && Min(len, len) == |data|;
        SliceToEnd(data, i + 1);
        ExtAfter(data, i);
        assert r == ExtOf(data);
      } else {
        r := [];
        ExtAfter(data, -1);
        assert r == ExtOf(data);
      }
    }

    /**
     * replaceEXT: false for NULL or an empty String. The extension gets a leading dot if it
     * lacks one. Only when the length is over 4 is the text searched backwards, from its
     * end to index 1, for a dot, which is then replaced with the extension; with the empty
     * extension the String is left as it is, although the comment promises the extension is
     * removed. When no dot is found, the extension is appended.
     */
    method ReplaceEXT(ext: Option<CText>) returns (r: bool)
      requires Valid()
      modifies this
      ensures Valid()
      ensures r <==> ext.Some? && old(len) > 0
      ensures !r ==> data == old(data)
      ensures r ==> var t := ExtReplaced(old(CStr()), old(len) > 4, ext.value);
                    data == if t.None? then old(data) else t.value
    {
      if ext.None? {
        return false;
      }
      if IsEmpty() {
        return false;
      }
      var x := ext.value;
      var e: CText := [];
      if x != [] && x[0] != '.' {
        e := ['.'] + x;
      } else if x != [] {
        e := x;
      }
      assert e == DottedExt(x);
      var extLen := |e|;
      var size := len + extLen + 1;
      var c := CStr();
      // strcpy(dest, c_str()) into a buffer of size characters; what lies past the
      // terminator is never read, and is taken to be NUL
      var dest := c + seq(size - |c|, _ => NUL);
      if len > 4 {
        var i := LastDot(c, dest);
        if i > 0 {
          dest := dest[i := NUL];
          if extLen > 0 {
            // strncat(dest, ext, size)
            assert dest[..i] == c[..i];
            var t := CatText(dest, i, e);
            SetData(Some(t));
          }
          return true;
        }
      }
      if extLen == 0 {
        return true;
      }
      // strncpy(dest, c_str(), size), then strcat(dest, ext)
      assert dest[..|c|] == c;
      var t := CatText(dest, |c|, e);
      SetData(Some(t));
      return true;
    }

    /**
     * insert(where, character): the text from where on is taken with subscript, the buffer
     * cut to where with setLen, then the character and the saved text appended. The String
     * must not be empty, as subscript reads its buffer.
     */
    method Insert(where: nat, character: char)
      requires Valid() && len > 0
      modifies this
      ensures Valid()
      ensures CStr() == CString(Resize(old(data), where) + [character]) + Slice(old(data), Min(where, old(len)), old(len))
      ensures NulFree(old(data)) && character != NUL && where <= old(len) ==>
        CStr() == old(data)[..where] + [character] + old(data)[where..]
      ensures where > old(len) ==> CStr() == old(CStr())
      ensures var rest := Slice(old(data), Min(where, old(len)), old(len));
        len == if rest == [] then where + 1 else where + |rest| + 2
    {
      ghost var d0 := data;
      var sub := Subscript(where, len);
      var saved := new String.FromCString(Some(sub));
      var s2 := new String();
      s2.SetDataFrom(saved);
      SetLen(where);
      AppendChar(character);
      Append(s2);
      InsertedText(d0, where, character);
    }

    /** remove(start, n) */
    method Remove(start: nat, n: nat)
      requires Valid()
      modifies this
      ensures Valid() && data == RemovedBuffer(old(data), start, n)
    {
      if start >= len {
        return;
      }
      if n == 0 {
        return;
      }
      var m := n;
      if m > len - start {
        m := len - start;
      }
      // strcpy(&data[start], &data[start + m])
      data := StrCpyDown(data, start, m);
      SetLen(len - m);
    }

    /** findString(const char *): false for an empty String, NULL or "", else strstr. */
    function FindCString(str: Option<CText>): (r: bool)
      reads this
      requires Valid()
      ensures r <==> len > 0 && str.Some? && str.value != [] &&
                     exists k :: 0 <= k <= |CStr()| && OccursAt(CStr(), str.value, k)
    {
      if IsEmpty() || str.None? then false
      else Contains(CStr(), str.value)
    }

    /** findString(String): the argument is a copy, so only its text counts. */
    function FindString(str: String): (r: bool)
      reads this, str
      requires Valid()
      ensures r <==> len > 0 && str.CStr() != [] &&
                     exists k :: 0 <= k <= |CStr()| && OccursAt(CStr(), str.CStr(), k)
    {
      FindCString(Some(str.CStr()))
    }
  }
}
