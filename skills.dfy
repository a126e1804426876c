/** The skill matcher (ResumeParser.py lines 163-164 and 234): which
    vocabulary terms occur in the text, how often, and the five most frequent
    ones. */
module SkillMatcher {
  import opened Text
  import opened Tables

  // ---------------------------------------------------------------------------
  // Presence: `[skill for skill in SKILL_KEYWORDS if skill in text]`
  // ---------------------------------------------------------------------------

  /** `r` is `s` with some elements left out, the rest kept in order. */
  ghost predicate Subsequence(r: seq<string>, s: seq<string>)
    decreases |s|
  {
    r == [] || (s != [] && ((r[0] == s[0] && Subsequence(r[1..], s[1..])) || Subsequence(r, s[1..])))
  }

  /** The terms of `vocab` that occur in `text`, in the order of `vocab`. */
  function PresentIn(text: string, vocab: seq<string>): (r: seq<string>)
    ensures forall s :: s in r <==> s in vocab && Contains(text, s)
    ensures Subsequence(r, vocab)
  {
    if vocab == [] then []
    else if Contains(text, vocab[0]) then [vocab[0]] + PresentIn(text, vocab[1..])
    else PresentIn(text, vocab[1..])
  }

  /** The presence list of the source: the vocabulary terms found in `text`. */
  function Presence(text: string): seq<string> {
    PresentIn(text, SkillKeywords)
  }

  /** Empty text matches no vocabulary term. */
  lemma {:induction false} PresenceOfEmptyText()
    ensures Presence("") == []
  {
    VocabularyNonEmpty();
    var r := Presence("");
    if r != [] {
      assert r[0] in r;
      EmptyContainsOnlyEmpty(r[0]);
    }
  }

  // ---------------------------------------------------------------------------
  // Counts: `Counter({skill: text.count(skill) for skill in ... if skill in text})`
  // ---------------------------------------------------------------------------

  /** One entry of the counter: a term and its number of occurrences. */
  datatype Tally = Tally(skill: string, count: nat)

  function TallyOf(text: string, skills: seq<string>): seq<Tally> {
    seq(|skills|, i requires 0 <= i < |skills| => Tally(skills[i], Count(text, skills[i])))
  }

  /** The counter of the source, in insertion (vocabulary) order. */
  function SkillCounts(text: string): seq<Tally> {
    TallyOf(text, Presence(text))
  }

  /** Every counted term is a vocabulary term found in the text, and is
      counted at least once. */
  lemma SkillCountsPositive(text: string)
    ensures forall t :: t in SkillCounts(text) ==>
      t.skill in SkillKeywords && Contains(text, t.skill) && t.count >= 1
  {
    forall t | t in SkillCounts(text)
      ensures t.skill in SkillKeywords && Contains(text, t.skill) && t.count >= 1
    {
      var i :| 0 <= i < |SkillCounts(text)| && SkillCounts(text)[i] == t;
      assert Presence(text)[i] in Presence(text);
      CountPositiveIffContains(text, t.skill);
    }
  }

  // ---------------------------------------------------------------------------
  // Ranking: `most_common`, a stable sort by count, largest first
  // ---------------------------------------------------------------------------

  ghost predicate Descending(r: seq<Tally>) {
    forall i, j :: 0 <= i < j < |r| ==> r[i].count >= r[j].count
  }

  /** The entries of `s` whose count is `c`, in the order of `s`. */
  function WithCount(s: seq<Tally>, c: nat): seq<Tally> {
    if s == [] then []
    else (if s[0].count == c then [s[0]] else []) + WithCount(s[1..], c)
  }

  /** Places `x` after every entry counted at least as often. */
  function Insert(r: seq<Tally>, x: Tally): seq<Tally> {
    if r == [] then [x]
    else if r[0].count >= x.count then [r[0]] + Insert(r[1..], x)
    else [x] + r
  }

  /** Sorts by count, largest first; entries with equal counts keep their
      order, as Python's sort with `reverse=True` does. */
  function Rank(ts: seq<Tally>): seq<Tally>
    decreases |ts|
  {
    if ts == [] then [] else Insert(Rank(ts[..|ts| - 1]), ts[|ts| - 1])
  }

  lemma {:induction false} WithCountAppend(a: seq<Tally>, b: seq<Tally>, c: nat)
    ensures WithCount(a + b, c) == WithCount(a, c) + WithCount(b, c)
    decreases |a|
  {
    if a == [] {
      assert a + b == b;
    } else {
      assert (a + b)[0] == a[0];
      assert (a + b)[1..] == a[1..] + b;
      WithCountAppend(a[1..], b, c);
    }
  }

  lemma {:induction false} WithCountNone(r: seq<Tally>, c: nat)
    requires forall i :: 0 <= i < |r| ==> r[i].count < c
    ensures WithCount(r, c) == []
    decreases |r|
  {
    if r != [] {
      WithCountNone(r[1..], c);
    }
  }

  lemma {:induction false} InsertMultiset(r: seq<Tally>, x: Tally)
    ensures multiset(Insert(r, x)) == multiset(r) + multiset{x}
    decreases |r|
  {
    if r != [] && r[0].count >= x.count {
      InsertMultiset(r[1..], x);
      assert r == [r[0]] + r[1..];
    }
  }

  lemma {:induction false} InsertDescending(r: seq<Tally>, x: Tally)
    requires Descending(r)
    ensures Descending(Insert(r, x))
    decreases |r|
  {
    if r != [] && r[0].count >= x.count {
      InsertDescending(r[1..], x);
      InsertMultiset(r[1..], x);
      var tail := Insert(r[1..], x);
      assert Insert(r, x) == [r[0]] + tail;
      forall j | 0 <= j < |tail| ensures r[0].count >= tail[j].count {
        assert tail[j] in multiset(r[1..]) + multiset{x};
        if tail[j] in multiset(r[1..]) {
          var k :| 0 <= k < |r[1..]| && r[1..][k] == tail[j];
          assert r[k + 1] == tail[j];
        }
      }
    }
  }

  lemma {:induction false} InsertWithCount(r: seq<Tally>, x: Tally, c: nat)
    requires Descending(r)
    ensures WithCount(Insert(r, x), c) == WithCount(r, c) + WithCount([x], c)
    decreases |r|
  {
    if r == [] {
    } else if r[0].count >= x.count {
      InsertWithCount(r[1..], x, c);
      var tail := Insert(r[1..], x);
      assert Insert(r, x) == [r[0]] + tail;
      assert r == [r[0]] + r[1..];
      WithCountAppend([r[0]], tail, c);
      WithCountAppend([r[0]], r[1..], c);
    } else {
      assert Insert(r, x) == [x] + r;
      WithCountAppend([x], r, c);
      if x.count == c {
        WithCountNone(r, c);
      }
    }
  }

  lemma {:induction false} RankSorts(ts: seq<Tally>)
    ensures Descending(Rank(ts))
    ensures multiset(Rank(ts)) == multiset(ts)
    ensures forall c :: WithCount(Rank(ts), c) == WithCount(ts, c)
    decreases |ts|
  {
    if ts != [] {
      var init, last := ts[..|ts| - 1], ts[|ts| - 1];
      assert ts == init + [last];
      RankSorts(init);
      InsertDescending(Rank(init), last);
      InsertMultiset(Rank(init), last);
      forall c ensures WithCount(Rank(ts), c) == WithCount(ts, c) {
        InsertWithCount(Rank(init), last, c);
        WithCountAppend(init, [last], c);
      }
    }
  }

  // ---------------------------------------------------------------------------
  // Top skills: `[skill for skill, _ in skill_counts.most_common(5)]`
  // ---------------------------------------------------------------------------

  function Min(a: int, b: int): int {
    if a <= b then a else b
  }

  /** The five most frequent counter entries (fewer when fewer terms occur). */
  function TopTallies(text: string): seq<Tally> {
    var ranked := Rank(SkillCounts(text));
    ranked[..Min(5, |ranked|)]
  }

  function TopSkills(text: string): seq<string> {
    seq(|TopTallies(text)|, i requires 0 <= i < |TopTallies(text)| => TopTallies(text)[i].skill)
  }

  /** The ranking puts every counter entry in a place of its own. */
  lemma RankedCounts(text: string)
    ensures Descending(Rank(SkillCounts(text)))
    ensures |Rank(SkillCounts(text))| == |Presence(text)|
    ensures multiset(Rank(SkillCounts(text))) == multiset(SkillCounts(text))
    ensures forall c :: WithCount(Rank(SkillCounts(text)), c) == WithCount(SkillCounts(text), c)
  {
    var counts := SkillCounts(text);
    RankSorts(counts);
    assert |Rank(counts)| == |counts| by {
      assert |multiset(Rank(counts))| == |multiset(counts)|;
    }
  }

  /** What `most_common(5)` promises: at most five entries, all of them terms
      found in the text, ordered by count with the largest first. */
  lemma {:induction false} TopTalliesRanked(text: string)
    ensures |TopTallies(text)| == Min(5, |Presence(text)|)
    ensures forall t :: t in TopTallies(text) ==> t in SkillCounts(text)
    ensures Descending(TopTallies(text))
  {
    RankedCounts(text);
    var ranked := Rank(SkillCounts(text));
    forall t | t in TopTallies(text) ensures t in SkillCounts(text) {
      assert t in ranked;
      assert t in multiset(ranked);
    }
  }

  /** Equal counts keep vocabulary order: the kept entries of any one count
      are the first entries of that count in the counter. */
  lemma {:induction false} TopTalliesTieBreak(text: string, c: nat)
    ensures exists rest :: WithCount(TopTallies(text), c) + rest == WithCount(SkillCounts(text), c)
  {
    RankedCounts(text);
    var ranked := Rank(SkillCounts(text));
    var k := Min(5, |ranked|);
    assert ranked == ranked[..k] + ranked[k..];
    WithCountAppend(ranked[..k], ranked[k..], c);
  }

  /** No term left out of the top five occurs more often than a term kept. */
  lemma {:induction false} TopTalliesDominate(text: string, t: Tally, u: Tally)
    requires t in SkillCounts(text) && t !in TopTallies(text)
    requires u in TopTallies(text)
    ensures t.count <= u.count
  {
    RankedCounts(text);
    var ranked := Rank(SkillCounts(text));
    var k := Min(5, |ranked|);
    assert t in multiset(ranked);
    var j :| 0 <= j < |ranked| && ranked[j] == t;
    var i :| 0 <= i < k && ranked[i] == u;
    assert forall m :: 0 <= m < k ==> ranked[..k][m] == ranked[m];
  }
}
