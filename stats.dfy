/** The learning-database statistics shown to administrators: entries per
    source tag, the number of high-confidence entries and the five most
    voted patterns. */
module LearningStats {
  import opened Wrappers
  import opened Knowledge
  import Storage

  /** Confidence above 0.8 counts as high. */
  const HighConfidence: int := 80

  /** Entries whose source tag is `tag`. */
  function CountSource(entries: seq<Entry>, tag: string): (r: nat)
    ensures r <= |entries|
  {
    if |entries| == 0 then 0
    else CountSource(entries[..|entries| - 1], tag) + (if entries[|entries| - 1].source == tag then 1 else 0)
  }

  /** The four tags the statistics report on. */
  predicate KnownSource(tag: string) {
    tag == "user" || tag == "system" || tag == "community" || tag == "internet"
  }

  /** Entries whose tag is none of the four (the seed tag "learned", for one). */
  function CountUnreported(entries: seq<Entry>): (r: nat)
    ensures r <= |entries|
  {
    if |entries| == 0 then 0
    else CountUnreported(entries[..|entries| - 1]) + (if KnownSource(entries[|entries| - 1].source) then 0 else 1)
  }

  function ReportedTotal(entries: seq<Entry>): nat
  {
    CountSource(entries, "user") + CountSource(entries, "system")
      + CountSource(entries, "community") + CountSource(entries, "internet")
  }

  /** The four reported counts and the unreported entries add up to the
      store's size. */
  lemma {:induction false} SourcePartition(entries: seq<Entry>)
    ensures ReportedTotal(entries) + CountUnreported(entries) == |entries|
    decreases |entries|
  {
    if |entries| > 0 {
      SourcePartition(entries[..|entries| - 1]);
    }
  }

  lemma {:induction false} NoUnreported(entries: seq<Entry>)
    ensures CountUnreported(entries) == 0 <==>
      forall i :: 0 <= i < |entries| ==> KnownSource(entries[i].source)
    decreases |entries|
  {
    if |entries| > 0 {
      var init := entries[..|entries| - 1];
      NoUnreported(init);
      assert forall i :: 0 <= i < |init| ==> init[i] == entries[i];
    }
  }

  /** The `bySource` counts never exceed the store's size, and they cover
      the whole store exactly when every entry carries one of the four tags. */
  lemma BySourceCoversStore(entries: seq<Entry>)
    ensures ReportedTotal(entries) <= |entries|
    ensures ReportedTotal(entries) == |entries| <==>
      forall i :: 0 <= i < |entries| ==> KnownSource(entries[i].source)
  {
    SourcePartition(entries);
    NoUnreported(entries);
  }

  /** Entries with confidence above 0.8. */
  function CountHigh(entries: seq<Entry>): (r: nat)
    ensures r <= |entries|
  {
    if |entries| == 0 then 0
    else CountHigh(entries[..|entries| - 1]) + (if entries[|entries| - 1].confidence > HighConfidence then 1 else 0)
  }

  /** Entry-wise, the high-confidence count is monotone in confidence. */
  lemma {:induction false} CountHighMonotone(a: seq<Entry>, b: seq<Entry>)
    requires |a| <= |b|
    requires forall j :: 0 <= j < |a| ==> a[j].confidence <= b[j].confidence
    ensures CountHigh(a) <= CountHigh(b)
    decreases |b|
  {
    if |b| > |a| {
      CountHighMonotone(a, b[..|b| - 1]);
    } else if |a| > 0 {
      CountHighMonotone(a[..|a| - 1], b[..|b| - 1]);
    }
  }

  /** Positive learning never lowers the number of high-confidence entries. */
  lemma LearningKeepsHighConfidence(entries: seq<Entry>, pattern: string, solution: string, source: string, now: int)
    requires ConfidenceBounded(entries)
    ensures CountHigh(entries) <= CountHigh(Learned(entries, pattern, solution, source, now))
  {
    LearnKeepsPlaces(entries, pattern, solution, source, now);
    CountHighMonotone(entries, Learned(entries, pattern, solution, source, now));
  }

  /** Negative feedback never raises it. */
  lemma DecayKeepsHighConfidence(entries: seq<Entry>, pattern: string)
    requires ConfidenceBounded(entries)
    ensures CountHigh(Decayed(entries, pattern)) <= CountHigh(entries)
  {
    var r := Decayed(entries, pattern);
    assert |r| == |entries|;
    assert forall j :: 0 <= j < |r| ==> r[j].confidence <= entries[j].confidence;
    CountHighMonotone(r, entries);
  }

  // ---------------------------------------------------------------------
  // Top patterns: a stable sort by votes, highest first.

  ghost predicate SortedByVotes(s: seq<Entry>) {
    forall i, j :: 0 <= i < j < |s| ==> s[i].votes >= s[j].votes
  }

  /** Insert `x` after every entry with at least as many votes. */
  function Insert(s: seq<Entry>, x: Entry): (r: seq<Entry>)
    ensures multiset(r) == multiset(s) + multiset{x}
    ensures |r| == |s| + 1
  {
    if |s| == 0 then [x]
    else if s[0].votes < x.votes then [x] + s
    else
      assert s == [s[0]] + s[1..];
      [s[0]] + Insert(s[1..], x)
  }

  /** `[...entries].sort((a, b) => b.votes - a.votes)` with the stable sort
      of the runtime: an insertion sort taking the entries in order. */
  function SortByVotes(s: seq<Entry>): (r: seq<Entry>)
    ensures multiset(r) == multiset(s)
    ensures |r| == |s|
  {
    if |s| == 0 then []
    else
      assert s == s[..|s| - 1] + [s[|s| - 1]];
      Insert(SortByVotes(s[..|s| - 1]), s[|s| - 1])
  }

  lemma {:induction false} InsertSorted(s: seq<Entry>, x: Entry)
    requires SortedByVotes(s)
    ensures SortedByVotes(Insert(s, x))
    decreases |s|
  {
    if |s| > 0 && s[0].votes >= x.votes {
      InsertSorted(s[1..], x);
      var r := Insert(s, x);
      assert r == [s[0]] + Insert(s[1..], x);
      forall j | 0 < j < |r| ensures r[0].votes >= r[j].votes {
        assert r[j] in multiset(Insert(s[1..], x));
        assert r[j] in multiset(s[1..]) + multiset{x};
        if r[j] in multiset(s[1..]) {
          var m :| 0 <= m < |s[1..]| && s[1..][m] == r[j];
          assert s[1 + m] == r[j];
        }
      }
    }
  }

  /** Entries with exactly `v` votes, in order. */
  function WithVotes(s: seq<Entry>, v: int): (r: seq<Entry>)
  {
    if |s| == 0 then []
    else WithVotes(s[..|s| - 1], v) + (if s[|s| - 1].votes == v then [s[|s| - 1]] else [])
  }

  lemma {:induction false} WithVotesCons(x: Entry, s: seq<Entry>, v: int)
    ensures WithVotes([x] + s, v) == (if x.votes == v then [x] else []) + WithVotes(s, v)
    decreases |s|
  {
    if |s| > 0 {
      var t := [x] + s;
      assert t[..|t| - 1] == [x] + s[..|s| - 1];
      WithVotesCons(x, s[..|s| - 1], v);
    } else {
      assert [x] + s == [x];
      assert ([x] + s)[..0] == [];
    }
  }

  lemma {:induction false} WithVotesNone(s: seq<Entry>, v: int)
    requires forall i :: 0 <= i < |s| ==> s[i].votes != v
    ensures WithVotes(s, v) == []
    decreases |s|
  {
    if |s| > 0 {
      WithVotesNone(s[..|s| - 1], v);
    }
  }

  /** Inserting keeps the order among entries of equal votes and puts the
      new entry after all of its ties. */
  lemma {:induction false} InsertStable(s: seq<Entry>, x: Entry, v: int)
    requires SortedByVotes(s)
    ensures WithVotes(Insert(s, x), v) == WithVotes(s, v) + (if x.votes == v then [x] else [])
    decreases |s|
  {
    if |s| == 0 {
      assert Insert(s, x) == [] + [x];
    } else if s[0].votes < x.votes {
      InsertInFront(s, x, v);
    } else {
      InsertStable(s[1..], x, v);
      InsertBehind(s, x, v);
    }
  }

  /** One step of stability: an entry that goes behind the head keeps the
      head's place in front of it. */
  lemma InsertBehind(s: seq<Entry>, x: Entry, v: int)
    requires |s| > 0 && s[0].votes >= x.votes
    requires WithVotes(Insert(s[1..], x), v) == WithVotes(s[1..], v) + (if x.votes == v then [x] else [])
    ensures WithVotes(Insert(s, x), v) == WithVotes(s, v) + (if x.votes == v then [x] else [])
  {
    InsertHead(s, x);
    WithVotesCons(s[0], Insert(s[1..], x), v);
    WithVotesCons(s[0], s[1..], v);
    ConsTail(s);
    SeqAssoc(if s[0].votes == v then [s[0]] else [], WithVotes(s[1..], v), if x.votes == v then [x] else []);
  }

  lemma InsertHead(s: seq<Entry>, x: Entry)
    requires |s| > 0 && s[0].votes >= x.votes
    ensures Insert(s, x) == [s[0]] + Insert(s[1..], x)
  {
  }

  lemma ConsTail(s: seq<Entry>)
    requires |s| > 0
    ensures [s[0]] + s[1..] == s
  {
  }

  lemma SeqAssoc(a: seq<Entry>, b: seq<Entry>, c: seq<Entry>)
    ensures a + (b + c) == (a + b) + c
  {
  }

  /** An entry with more votes than the head of a sorted list goes first
      and has no ties in it. */
  lemma InsertInFront(s: seq<Entry>, x: Entry, v: int)
    requires SortedByVotes(s) && |s| > 0 && s[0].votes < x.votes
    ensures WithVotes(Insert(s, x), v) == WithVotes(s, v) + (if x.votes == v then [x] else [])
  {
    assert Insert(s, x) == [x] + s;
    WithVotesCons(x, s, v);
    if x.votes == v {
      WithVotesNone(s, v);
    } else {
      assert WithVotes(s, v) + [] == WithVotes(s, v);
    }
  }

  /** The sort orders by votes, highest first. */
  lemma {:induction false} SortByVotesSorted(s: seq<Entry>)
    ensures SortedByVotes(SortByVotes(s))
    decreases |s|
  {
    if |s| > 0 {
      SortByVotesSorted(s[..|s| - 1]);
      InsertSorted(SortByVotes(s[..|s| - 1]), s[|s| - 1]);
    }
  }

  /** The sort is stable: entries with equal votes keep their store order. */
  lemma {:induction false} SortByVotesStable(s: seq<Entry>, v: int)
    ensures WithVotes(SortByVotes(s), v) == WithVotes(s, v)
    decreases |s|
  {
    if |s| > 0 {
      SortByVotesStable(s[..|s| - 1], v);
      SortByVotesSorted(s[..|s| - 1]);
      InsertStable(SortByVotes(s[..|s| - 1]), s[|s| - 1], v);
    }
  }

  /** One row of `topPatterns`. */
  datatype TopPattern = TopPattern(pattern: string, votes: int, confidence: int)

  function Summary(e: Entry): TopPattern {
    TopPattern(e.pattern, e.votes, e.confidence)
  }

  /** The first five entries of the sorted copy, summarised. */
  function TopPatterns(entries: seq<Entry>): (r: seq<TopPattern>)
    ensures |r| <= 5 && |r| <= |entries|
  {
    var sorted := SortByVotes(entries);
    var n := if |sorted| <= 5 then |sorted| else 5;
    seq(n, i requires 0 <= i < n => Summary(sorted[i]))
  }

  /** At most five rows, the whole store when it has five entries or
      fewer, in non-increasing votes, each the summary of a store entry,
      and none with fewer votes than an entry left out. */
  lemma TopPatternsSpec(entries: seq<Entry>)
    ensures var r := TopPatterns(entries);
      && |r| == (if |entries| <= 5 then |entries| else 5)
      && (forall i, j :: 0 <= i < j < |r| ==> r[i].votes >= r[j].votes)
      && (forall i :: 0 <= i < |r| ==> SummaryOfSome(entries, r[i]))
      && (forall i, e :: 0 <= i < |r| && e in multiset(entries) - multiset(SortByVotes(entries)[..|r|])
            ==> r[i].votes >= e.votes)
  {
    TopPatternsRows(entries);
    TopPatternsOrdered(entries);
    TopPatternsFromStore(entries);
    TopPatternsBeatRest(entries);
  }

  lemma TopPatternsOrdered(entries: seq<Entry>)
    ensures var r := TopPatterns(entries);
      forall i, j :: 0 <= i < j < |r| ==> r[i].votes >= r[j].votes
  {
    TopPatternsRows(entries);
    SortByVotesSorted(entries);
  }

  /** `t` summarises some entry of the store. */
  ghost predicate SummaryOfSome(entries: seq<Entry>, t: TopPattern) {
    exists e :: e in entries && t == Summary(e)
  }

  lemma TopPatternsFromStore(entries: seq<Entry>)
    ensures var r := TopPatterns(entries);
      forall i :: 0 <= i < |r| ==> SummaryOfSome(entries, r[i])
  {
    var r := TopPatterns(entries);
    TopPatternsRows(entries);
    forall i | 0 <= i < |r| ensures SummaryOfSome(entries, r[i]) {
      SortedFromStore(entries, i);
      var e := SortByVotes(entries)[i];
      assert e in entries && r[i] == Summary(e);
    }
  }

  lemma TopPatternsBeatRest(entries: seq<Entry>)
    ensures var r := TopPatterns(entries);
      forall i, e :: 0 <= i < |r| && e in multiset(entries) - multiset(SortByVotes(entries)[..|r|])
        ==> r[i].votes >= e.votes
  {
    var sorted := SortByVotes(entries);
    var r := TopPatterns(entries);
    TopPatternsRows(entries);
    SortByVotesSorted(entries);
    forall i, e | 0 <= i < |r| && e in multiset(entries) - multiset(sorted[..|r|])
      ensures r[i].votes >= e.votes
    {
      SortedSuffixBelow(sorted, |r|, i, e);
    }
  }

  /** The rows are the summaries of the first entries of the sorted copy. */
  lemma TopPatternsRows(entries: seq<Entry>)
    ensures var r := TopPatterns(entries);
      && |r| == (if |entries| <= 5 then |entries| else 5)
      && forall i :: 0 <= i < |r| ==> r[i] == Summary(SortByVotes(entries)[i])
  {
  }

  /** Every entry of the sorted copy is an entry of the store. */
  lemma SortedFromStore(entries: seq<Entry>, i: nat)
    requires i < |SortByVotes(entries)|
    ensures SortByVotes(entries)[i] in entries
  {
    var sorted := SortByVotes(entries);
    assert sorted[i] in multiset(sorted);
  }

  /** In a sorted sequence, an element of the prefix has at least the votes
      of anything outside the prefix. */
  lemma SortedSuffixBelow(sorted: seq<Entry>, n: nat, i: nat, e: Entry)
    requires SortedByVotes(sorted)
    requires i < n <= |sorted|
    requires e in multiset(sorted) - multiset(sorted[..n])
    ensures sorted[i].votes >= e.votes
  {
    assert sorted == sorted[..n] + sorted[n..];
    assert multiset(sorted) == multiset(sorted[..n]) + multiset(sorted[n..]);
    assert e in multiset(sorted[n..]);
    var m :| 0 <= m < |sorted[n..]| && sorted[n..][m] == e;
    assert sorted[n + m] == e;
  }

  // ---------------------------------------------------------------------
  // The report

  datatype BySource = BySource(user: nat, system: nat, community: nat, internet: nat)

  datatype Report = Report(
    totalEntries: nat,
    bySource: BySource,
    highConfidenceEntries: nat,
    topPatterns: seq<TopPattern>)

  datatype StatsError = Unauthorized | UserNotFound | AccessDenied

  /** `getLearningStats`: a signed-in, existing administrator gets the
      report; anyone else (including the falsy id 0) gets the matching
      refusal. The average confidence is not part of the model. */
  function GetLearningStats(users: seq<Storage.User>, userId: Option<int>, entries: seq<Entry>): (r: Result<Report, StatsError>)
    ensures r.Ok? ==> Storage.SignedIn(userId) && r.value.totalEntries == |entries|
  {
    if !Storage.SignedIn(userId) then Err(Unauthorized)
    else match Storage.GetUser(users, userId.value)
      case None => Err(UserNotFound)
      case Some(u) =>
        if !u.isAdmin then Err(AccessDenied)
        else Ok(Report(
          |entries|,
          BySource(CountSource(entries, "user"), CountSource(entries, "system"),
                   CountSource(entries, "community"), CountSource(entries, "internet")),
          CountHigh(entries),
          TopPatterns(entries)))
  }

  /** The report is given exactly to signed-in administrators, and a
      caller without a truthy id is refused as unauthorized before the user
      table is read; its source counts never exceed the total, nor does the
      high-confidence count. */
  lemma LearningStatsAccess(users: seq<Storage.User>, userId: Option<int>, entries: seq<Entry>)
    ensures var r := GetLearningStats(users, userId, entries);
      && (!Storage.SignedIn(userId) ==> r == Err(Unauthorized))
      && (Storage.SignedIn(userId) && Storage.GetUser(users, userId.value).None? ==> r == Err(UserNotFound))
      && (r.Ok? <==> (Storage.SignedIn(userId) && Storage.GetUser(users, userId.value).Some?
                      && Storage.GetUser(users, userId.value).value.isAdmin))
      && (r.Ok? ==>
            (&& r.value.totalEntries == |entries|
             && r.value.bySource.user + r.value.bySource.system
                + r.value.bySource.community + r.value.bySource.internet <= r.value.totalEntries
             && r.value.highConfidenceEntries <= r.value.totalEntries))
  {
    BySourceCoversStore(entries);
  }
}
