/** The Python string built-ins the parser relies on (`in`, `str.count`,
    `str.lower`, `str.strip`, `str.split`, `str.splitlines`), restricted to
    ASCII character classes. */
module Text {

  datatype Option<T> = None | Some(value: T)

  // ---------------------------------------------------------------------------
  // Character classes
  // ---------------------------------------------------------------------------

  /** ASCII letters, the class `[A-Za-z]`. */
  predicate IsLetter(c: char) {
    ('a' <= c <= 'z') || ('A' <= c <= 'Z')
  }

  predicate IsDigit(c: char) {
    '0' <= c <= '9'
  }

  /** The regular-expression class `\w`, restricted to ASCII. */
  predicate IsWordChar(c: char) {
    IsLetter(c) || IsDigit(c) || c == '_'
  }

  /** Python's `str.isspace` on the ASCII range: tab, line feed, vertical tab,
      form feed, carriage return, the four separators 0x1c-0x1f and space. */
  predicate IsSpace(c: char) {
    c == ' ' || (9 <= c as int <= 13) || (28 <= c as int <= 31)
  }

  /** Python's `str.lower` on one character, restricted to ASCII. */
  function LowerChar(c: char): (d: char)
    ensures 'A' <= c <= 'Z' ==> 'a' <= d <= 'z'
    ensures !('A' <= c <= 'Z') ==> d == c
  {
    if 'A' <= c <= 'Z' then (c as int - 'A' as int + 'a' as int) as char else c
  }

  function Lower(s: string): (r: string)
    ensures |r| == |s|
    ensures forall i :: 0 <= i < |s| ==> r[i] == LowerChar(s[i])
  {
    if s == [] then [] else [LowerChar(s[0])] + Lower(s[1..])
  }

  /** A lower-cased string holds no upper-case ASCII letter. */
  lemma LowerHasNoUpper(s: string)
    ensures forall i :: 0 <= i < |Lower(s)| ==> !('A' <= Lower(s)[i] <= 'Z')
  {
    forall i | 0 <= i < |Lower(s)|
      ensures !('A' <= Lower(s)[i] <= 'Z')
    {
      var c := s[i];
      assert Lower(s)[i] == LowerChar(c);
    }
  }

  // ---------------------------------------------------------------------------
  // Substrings: `p in t` and `t.count(p)`
  // ---------------------------------------------------------------------------

  predicate StartsWith(t: string, p: string) {
    |p| <= |t| && t[..|p|] == p
  }

  /** `p in t`: scans the start positions of `t` from left to right. */
  predicate Contains(t: string, p: string)
    decreases |t|
  {
    StartsWith(t, p) || (|t| > 0 && Contains(t[1..], p))
  }

  /** The declarative reading of `p in t`: some window of `t` equals `p`. */
  ghost predicate OccursAt(t: string, p: string, i: int) {
    0 <= i && i + |p| <= |t| && t[i..i + |p|] == p
  }

  lemma {:induction false} ContainsIffOccurs(t: string, p: string)
    ensures Contains(t, p) <==> exists i :: OccursAt(t, p, i)
    decreases |t|
  {
    if StartsWith(t, p) {
      assert OccursAt(t, p, 0);
    } else if |t| > 0 {
      ContainsIffOccurs(t[1..], p);
      if Contains(t[1..], p) {
        var i :| OccursAt(t[1..], p, i);
        assert t[1..][i..i + |p|] == t[i + 1..i + 1 + |p|];
        assert OccursAt(t, p, i + 1);
      }
      if exists i :: OccursAt(t, p, i) {
        var i :| OccursAt(t, p, i);
        assert i != 0;
        assert t[1..][i - 1..i - 1 + |p|] == t[i..i + |p|];
        assert OccursAt(t[1..], p, i - 1);
      }
    }
  }

  /** Nothing but the empty string occurs in the empty string. */
  lemma EmptyContainsOnlyEmpty(p: string)
    ensures Contains("", p) <==> p == ""
  {
  }

  /** Python's `t.count(p)`: the number of non-overlapping occurrences of `p`,
      found from left to right; an empty `p` is found at all `|t| + 1`
      positions. */
  function Count(t: string, p: string): nat
    decreases |t|
  {
    if |p| == 0 then |t| + 1
    else if |t| < |p| then 0
    else if t[..|p|] == p then 1 + Count(t[|p|..], p)
    else Count(t[1..], p)
  }

  /** A pattern whose first character is absent from the text is not counted. */
  lemma {:induction false} FirstCharAbsent(t: string, p: string)
    requires |p| > 0 && p[0] !in t
    ensures Count(t, p) == 0
    decreases |t|
  {
    if |t| >= |p| {
      assert t[..|p|][0] == t[0];
      FirstCharAbsent(t[1..], p);
    }
  }

  /** `t.count(p) >= 1` exactly when `p in t`. */
  lemma {:induction false} CountPositiveIffContains(t: string, p: string)
    ensures Count(t, p) > 0 <==> Contains(t, p)
    decreases |t|
  {
    if |p| == 0 {
      assert StartsWith(t, p);
    } else if |t| < |p| {
      NoRoomNoOccurrence(t, p);
    } else if t[..|p|] == p {
      assert StartsWith(t, p);
    } else {
      CountPositiveIffContains(t[1..], p);
    }
  }

  lemma {:induction false} NoRoomNoOccurrence(t: string, p: string)
    requires |t| < |p|
    ensures !Contains(t, p)
    decreases |t|
  {
    if |t| > 0 {
      NoRoomNoOccurrence(t[1..], p);
    }
  }

  /** The occurrences counted do not overlap: together they fit inside `t`. */
  lemma {:induction false} CountFits(t: string, p: string)
    requires |p| > 0
    ensures Count(t, p) * |p| <= |t|
    decreases |t|
  {
    if |t| < |p| {
    } else if t[..|p|] == p {
      CountFits(t[|p|..], p);
    } else {
      CountFits(t[1..], p);
    }
  }

  /** Non-overlapping counting: "aaaa".count("aa") is 2, not 3. */
  lemma CountIsNonOverlapping()
    ensures Count("aaaa", "aa") == 2
    ensures Count("aaa", "aa") == 1
  {
  }

  // ---------------------------------------------------------------------------
  // Whitespace: `str.strip` and `str.split()`
  // ---------------------------------------------------------------------------

  /** The number of whitespace characters `s` starts with. */
  function LeadingSpaces(s: string): (n: nat)
    ensures n <= |s|
    ensures forall i :: 0 <= i < n ==> IsSpace(s[i])
    ensures n < |s| ==> !IsSpace(s[n])
  {
    if |s| > 0 && IsSpace(s[0]) then 1 + LeadingSpaces(s[1..]) else 0
  }

  /** The number of whitespace characters `s` ends with. */
  function TrailingSpaces(s: string): (n: nat)
    ensures n <= |s|
    ensures forall i :: |s| - n <= i < |s| ==> IsSpace(s[i])
    ensures n < |s| ==> !IsSpace(s[|s| - n - 1])
  {
    if |s| > 0 && IsSpace(s[|s| - 1]) then 1 + TrailingSpaces(s[..|s| - 1]) else 0
  }

  function TrimStart(s: string): string {
    s[LeadingSpaces(s)..]
  }

  function TrimEnd(s: string): string {
    s[..|s| - TrailingSpaces(s)]
  }

  /** Python's `s.strip()`. */
  function Strip(s: string): (r: string)
    ensures r != [] ==> !IsSpace(r[0]) && !IsSpace(r[|r| - 1])
  {
    TrimEnd(TrimStart(s))
  }

  /** The length of the longest prefix of `s` holding no whitespace. */
  function WordLength(s: string): (n: nat)
    ensures n <= |s|
    ensures forall i :: 0 <= i < n ==> !IsSpace(s[i])
    ensures n < |s| ==> IsSpace(s[n])
  {
    if |s| > 0 && !IsSpace(s[0]) then 1 + WordLength(s[1..]) else 0
  }

  /** Python's `s.split()`: the maximal runs of non-whitespace characters. */
  function Split(s: string): (ws: seq<string>)
    decreases |s|
  {
    var t := TrimStart(s);
    if t == [] then []
    else
      var n := WordLength(t);
      [t[..n]] + Split(t[n..])
  }

  /** A string with a non-space character splits into at least one word. */
  lemma SplitNonEmpty(s: string, j: int)
    requires 0 <= j < |s| && !IsSpace(s[j])
    ensures |Split(s)| >= 1
  {
    assert j >= LeadingSpaces(s);
  }

  /** Whitespace at `m` separates the non-space characters at `i` and `j`. */
  predicate Gap(s: string, i: int, m: int, j: int) {
    0 <= i < m < j < |s| && !IsSpace(s[i]) && IsSpace(s[m]) && !IsSpace(s[j])
  }

  lemma SplitGivesGap(s: string)
    requires |Split(s)| > 1
    ensures exists i, m, j :: Gap(s, i, m, j)
  {
    var a := LeadingSpaces(s);
    var t := TrimStart(s);
    var n := WordLength(t);
    var rest := t[n..];
    var b := LeadingSpaces(rest);
    assert n < |t|;
    assert b < |rest|;
    assert s[a] == t[0] && s[a + n] == t[n] && s[a + n + b] == rest[b];
    assert Gap(s, a, a + n, a + n + b);
  }

  lemma GapGivesSplit(s: string, i: int, m: int, j: int)
    requires Gap(s, i, m, j)
    ensures |Split(s)| > 1
  {
    var a := LeadingSpaces(s);
    var t := TrimStart(s);
    assert t[i - a] == s[i];
    var n := WordLength(t);
    assert t[m - a] == s[m];
    var rest := t[n..];
    assert rest[j - a - n] == s[j];
    SplitNonEmpty(rest, j - a - n);
  }

  /** `s.split()` has more than one word exactly when whitespace separates
      two non-space characters of `s`. */
  lemma SplitIffGap(s: string)
    ensures |Split(s)| > 1 <==> exists i, m, j :: Gap(s, i, m, j)
  {
    if |Split(s)| > 1 {
      SplitGivesGap(s);
    }
    if exists i, m, j :: Gap(s, i, m, j) {
      var i, m, j :| Gap(s, i, m, j);
      GapGivesSplit(s, i, m, j);
    }
  }

  // ---------------------------------------------------------------------------
  // Lines: `str.splitlines`
  // ---------------------------------------------------------------------------

  function IndexOf(s: string, c: char): (r: Option<nat>)
    ensures r.None? ==> c !in s
    ensures r.Some? ==> r.value < |s| && s[r.value] == c && c !in s[..r.value]
  {
    if s == [] then None
    else if s[0] == c then Some(0)
    else match IndexOf(s[1..], c)
      case None => None
      case Some(k) => assert s[1..][..k] == s[1..k + 1]; Some(k + 1)
  }

  /** Python's `s.splitlines()` with '\n' as the only line break: a final
      line break does not open an empty last line. */
  function Lines(s: string): (ls: seq<string>)
    ensures forall k :: 0 <= k < |ls| ==> '\n' !in ls[k]
    decreases |s|
  {
    if s == [] then []
    else match IndexOf(s, '\n')
      case None => [s]
      case Some(k) => [s[..k]] + Lines(s[k + 1..])
  }

  /** `'\n'.join(ls)`. */
  function Join(ls: seq<string>): string {
    if ls == [] then ""
    else if |ls| == 1 then ls[0]
    else ls[0] + "\n" + Join(ls[1..])
  }

  /** `'\n'` if the text ends in a line break, else nothing. */
  function FinalBreak(s: string): string {
    if s != [] && s[|s| - 1] == '\n' then "\n" else ""
  }

  /** Rejoining the lines with line breaks gives back the text, up to the
      final line break that `splitlines` drops. */
  lemma {:induction false} LinesRoundTrip(s: string)
    ensures s == Join(Lines(s)) + FinalBreak(s)
    decreases |s|
  {
    if s != [] {
      match IndexOf(s, '\n')
      case None =>
        assert s[|s| - 1] in s;
      case Some(k) =>
        var rest := s[k + 1..];
        assert s == s[..k] + "\n" + rest;
        if rest != [] {
          LinesRoundTrip(rest);
          assert Lines(rest) != [];
          assert FinalBreak(s) == FinalBreak(rest);
          assert Join(Lines(s)) == s[..k] + "\n" + Join(Lines(rest));
        }
    }
  }
}
