/** The contact extractor, `extract_name_email` (ResumeParser.py lines
    130-145): the email is the leftmost match of `[\w\.-]+@[\w\.-]+` in the
    whole text; the name is the first of the first six lines that reads as
    two or more words of letters, and failing that the first of them holding
    at least two whitespace-separated tokens. */
module Contact {
  import opened Text

  // ---------------------------------------------------------------------------
  // The email: `re.search(r"[\w\.-]+@[\w\.-]+", text)`
  // ---------------------------------------------------------------------------

  /** The class `[\w\.-]`. */
  predicate IsEmailChar(c: char) {
    IsWordChar(c) || c == '.' || c == '-'
  }

  /** Where the longest run of email characters starting at `i` stops. */
  function RunEnd(s: string, i: nat): (r: nat)
    requires i <= |s|
    ensures i <= r <= |s|
    ensures forall k :: i <= k < r ==> IsEmailChar(s[k])
    ensures r == |s| || !IsEmailChar(s[r])
    decreases |s| - i
  {
    if i < |s| && IsEmailChar(s[i]) then RunEnd(s, i + 1) else i
  }

  /** A match of the pattern starts at `i`. The '@' is not an email
      character, so the greedy first run can only be followed by it where the
      run ends; the match then runs on as far as the second run goes. */
  predicate EmailAt(s: string, i: nat) {
    i < |s| && IsEmailChar(s[i])
    && RunEnd(s, i) + 1 < |s| && s[RunEnd(s, i)] == '@' && IsEmailChar(s[RunEnd(s, i) + 1])
  }

  /** The text of the match that starts at `i`. */
  function EmailSpan(s: string, i: nat): string
    requires EmailAt(s, i)
  {
    s[i..RunEnd(s, RunEnd(s, i) + 1)]
  }

  /** The leftmost start at or after `i` of a match. */
  function SearchFrom(s: string, i: nat): (r: Option<nat>)
    requires i <= |s|
    ensures r.Some? ==> (i <= r.value < |s| && EmailAt(s, r.value)
      && forall k :: i <= k < r.value ==> !EmailAt(s, k))
    ensures r.None? ==> forall k :: i <= k < |s| ==> !EmailAt(s, k)
    decreases |s| - i
  {
    if i == |s| then None
    else if EmailAt(s, i) then Some(i)
    else SearchFrom(s, i + 1)
  }

  /** `email_match.group(0) if email_match else "Not found"`. */
  function EmailOf(text: string): string {
    match SearchFrom(text, 0)
    case Some(i) => EmailSpan(text, i)
    case None => "Not found"
  }

  /** A non-empty run of email characters, an '@' and another non-empty
      run. */
  predicate EmailShaped(e: string) {
    exists a :: 0 < a < |e| - 1 && e[a] == '@'
      && (forall k :: 0 <= k < |e| && k != a ==> IsEmailChar(e[k]))
  }

  /** Every match of the pattern is email-shaped. */
  lemma SpanShaped(s: string, i: nat)
    requires EmailAt(s, i)
    ensures EmailShaped(EmailSpan(s, i))
  {
    var at := RunEnd(s, i);
    var e := EmailSpan(s, i);
    assert e[at - i] == '@';
    forall k | 0 <= k < |e| && k != at - i
      ensures IsEmailChar(e[k])
    {
      assert e[k] == s[i + k];
    }
  }

  /** When the pattern matches somewhere, the email is email-shaped and is
      cut out of the text at the leftmost match. */
  lemma EmailFound(text: string)
    requires exists i :: EmailAt(text, i)
    ensures SearchFrom(text, 0).Some?
    ensures var i := SearchFrom(text, 0).value;
      EmailAt(text, i) && (forall k :: 0 <= k < i ==> !EmailAt(text, k))
      && OccursAt(text, EmailOf(text), i)
    ensures EmailShaped(EmailOf(text))
  {
    var w :| EmailAt(text, w);
    var i := SearchFrom(text, 0).value;
    var e := EmailSpan(text, i);
    assert EmailOf(text) == e;
    assert |e| == RunEnd(text, RunEnd(text, i) + 1) - i;
    SpanShaped(text, i);
  }

  /** "Not found" exactly when the pattern matches nowhere. */
  lemma EmailNotFoundIff(text: string)
    ensures EmailOf(text) == "Not found" <==> forall i :: !EmailAt(text, i)
  {
    match SearchFrom(text, 0)
    case None =>
    case Some(i) =>
      var at := RunEnd(text, i);
      assert EmailOf(text)[at - i] == '@';
      assert '@' !in "Not found";
  }

  /** The match is maximal on both sides: leftmost search lands on the start
      of a run, and the greedy second run stops where the run does. */
  lemma EmailMaximal(text: string)
    requires SearchFrom(text, 0).Some?
    ensures var i := SearchFrom(text, 0).value;
      (i == 0 || !IsEmailChar(text[i - 1]))
      && var stop := RunEnd(text, RunEnd(text, i) + 1);
      (stop == |text| || !IsEmailChar(text[stop]))
  {
    var i := SearchFrom(text, 0).value;
    if i > 0 && IsEmailChar(text[i - 1]) {
      assert RunEnd(text, i - 1) == RunEnd(text, i);
      assert EmailAt(text, i - 1);
      assert false;
    }
  }

  // ---------------------------------------------------------------------------
  // The name
  // ---------------------------------------------------------------------------

  /** `re.match(r"^[A-Za-z]+(?: [A-Za-z]+)+$", t)`: words of ASCII letters
      joined by single spaces, at least two of them. */
  predicate NameShaped(t: string) {
    |t| > 0 && IsLetter(t[0]) && IsLetter(t[|t| - 1])
    && (forall k :: 0 <= k < |t| ==> IsLetter(t[k]) || t[k] == ' ')
    && (forall k :: 0 <= k < |t| - 1 ==> !(t[k] == ' ' && t[k + 1] == ' '))
    && ' ' in t
  }

  /** The first loop's test: the stripped line is name-shaped. */
  predicate HoldsName(line: string) {
    NameShaped(Strip(line))
  }

  /** The fallback's test, `len(line.split()) > 1`. */
  predicate MultiWord(line: string) {
    |Split(line)| > 1
  }

  /** The first of `lines` that passes `test`. */
  function FirstWhere(lines: seq<string>, test: string -> bool): (r: Option<nat>)
    ensures r.Some? ==> (r.value < |lines| && test(lines[r.value])
      && forall k :: 0 <= k < r.value ==> !test(lines[k]))
    ensures r.None? ==> forall k :: 0 <= k < |lines| ==> !test(lines[k])
  {
    if lines == [] then None
    else if test(lines[0]) then Some(0)
    else match FirstWhere(lines[1..], test)
      case None => None
      case Some(k) => Some(k + 1)
  }

  /** `lines[:6]`. */
  function Head(text: string): (head: seq<string>)
    ensures |head| <= 6 && |head| <= |Lines(text)| && head == Lines(text)[..|head|]
    ensures |head| < 6 ==> head == Lines(text)
  {
    var lines := Lines(text);
    if |lines| <= 6 then lines else lines[..6]
  }

  /** `name_match if name_match else "Unknown"`, the first loop's match
      taking precedence over the fallback's. */
  function NameOf(text: string): string {
    var head := Head(text);
    var found :=
      match FirstWhere(head, HoldsName)
      case Some(k) => Strip(head[k])
      case None =>
        match FirstWhere(head, MultiWord)
        case Some(k) => Strip(head[k])
        case None => "";
    if found == "" then "Unknown" else found
  }

  lemma LetterNotSpace(c: char)
    requires IsLetter(c)
    ensures !IsSpace(c)
  {
  }

  /** `line.strip()` is `line` without its leading and trailing whitespace. */
  lemma StripIsSlice(line: string)
    ensures LeadingSpaces(line) + |Strip(line)| <= |line|
    ensures Strip(line) == line[LeadingSpaces(line)..LeadingSpaces(line) + |Strip(line)|]
    ensures forall k :: LeadingSpaces(line) + |Strip(line)| <= k < |line| ==> IsSpace(line[k])
  {
    var a := LeadingSpaces(line);
    var t := TrimStart(line);
    var b := TrailingSpaces(t);
    assert forall k :: a + |t| - b <= k < |line| ==> line[k] == t[k - a];
  }

  /** A line the first loop accepts would pass the fallback's test too. */
  lemma NameLineIsMultiWord(line: string)
    requires HoldsName(line)
    ensures MultiWord(line)
  {
    var t := Strip(line);
    var a := LeadingSpaces(line);
    StripIsSlice(line);
    assert ' ' in t;
    var p :| 0 <= p < |t| && t[p] == ' ';
    var last := |t| - 1;
    LetterNotSpace(t[0]);
    LetterNotSpace(t[last]);
    assert 0 < p < last;
    assert line[a] == t[0] && line[a + p] == t[p] && line[a + last] == t[last];
    assert Gap(line, a, a + p, a + last);
    GapGivesSplit(line, a, a + p, a + last);
  }

  /** A line with more than one token strips to a non-empty string that
      still holds whitespace. */
  lemma MultiWordStrip(line: string)
    requires MultiWord(line)
    ensures Strip(line) != "" && exists k :: 0 <= k < |Strip(line)| && IsSpace(Strip(line)[k])
  {
    SplitGivesGap(line);
    var i, m, j :| Gap(line, i, m, j);
    var a := LeadingSpaces(line);
    StripIsSlice(line);
    var t := Strip(line);
    assert a <= i;
    assert j < a + |t|;
    assert t[m - a] == line[m];
  }

  /** The name is "Unknown" exactly when none of the first six lines holds
      two tokens: the first loop's hits are among the fallback's, and every
      hit strips to a string with whitespace in it, so never to "" nor to
      "Unknown". */
  lemma NameUnknownIff(text: string)
    ensures NameOf(text) == "Unknown" <==> forall k :: 0 <= k < |Head(text)| ==> !MultiWord(Head(text)[k])
  {
    var head := Head(text);
    match FirstWhere(head, HoldsName)
    case Some(k) =>
      NameLineIsMultiWord(head[k]);
      NotUnknown(head[k]);
    case None =>
      match FirstWhere(head, MultiWord)
      case Some(k) =>
        NotUnknown(head[k]);
      case None =>
  }

  lemma NotUnknown(line: string)
    requires MultiWord(line)
    ensures Strip(line) != "" && Strip(line) != "Unknown"
  {
    MultiWordStrip(line);
    var k :| 0 <= k < |Strip(line)| && IsSpace(Strip(line)[k]);
  }

  /** A known name is one of the first six lines, stripped; it is the first
      name-shaped one when there is one, and otherwise the first with two
      tokens. */
  lemma NameIsFirstFit(text: string)
    requires NameOf(text) != "Unknown"
    ensures exists k :: (0 <= k < |Head(text)| && NameOf(text) == Strip(Head(text)[k])
      && (forall j :: 0 <= j < k ==> !HoldsName(Head(text)[j]))
      && (HoldsName(Head(text)[k])
          || ((forall j :: 0 <= j < |Head(text)| ==> !HoldsName(Head(text)[j]))
              && MultiWord(Head(text)[k]) && (forall j :: 0 <= j < k ==> !MultiWord(Head(text)[j])))))
  {
    var head := Head(text);
    match FirstWhere(head, HoldsName)
    case Some(k) =>
      NameLineIsMultiWord(head[k]);
      NotUnknown(head[k]);
    case None =>
      match FirstWhere(head, MultiWord)
      case Some(k) =>
        NotUnknown(head[k]);
      case None =>
  }

  /** One of the two loops over `lines[:6]`: the first line passing `test`,
      stopping there. */
  method FirstHit(lines: seq<string>, test: string -> bool) returns (hit: Option<nat>)
    ensures hit == FirstWhere(lines, test)
  {
    hit := None;
    var i := 0;
    while i < |lines|
      invariant 0 <= i <= |lines|
      invariant forall k :: 0 <= k < i ==> !test(lines[k])
    {
      if test(lines[i]) {
        hit := Some(i);
        break;
      }
      i := i + 1;
    }
  }

  /** `extract_name_email`: the name loop, then the fallback loop only when
      the first found nothing. */
  method ExtractNameEmail(text: string) returns (name: string, email: string)
    ensures name == NameOf(text) && email == EmailOf(text)
  {
    var lines := Lines(text);
    var head := if |lines| <= 6 then lines else lines[..6];
    email := EmailOf(text);
    var nameMatch := "";
    var first := FirstHit(head, HoldsName);
    if first.Some? {
      nameMatch := Strip(head[first.value]);
    }
    if nameMatch == "" {
      var second := FirstHit(head, MultiWord);
      if second.Some? {
        nameMatch := Strip(head[second.value]);
      }
    }
    name := if nameMatch == "" then "Unknown" else nameMatch;
  }
}
