/** The learning database: pattern/solution entries that are reinforced,
    appended and decayed in place. Confidence is kept in integer
    hundredths (0.7 is 70), which makes the clamping rules exact. */
module Knowledge {
  import opened Wrappers
  import opened Strings

  /** Confidence of a newly learned entry (0.7). */
  const InitialConfidence: int := 70
  /** Ceiling for reinforcement (0.99). */
  const MaxConfidence: int := 99
  /** Floor for decay (0.1). */
  const MinConfidence: int := 10
  /** Reinforcement step (0.01) and decay step (0.1). */
  const ReinforceStep: int := 1
  const DecayStep: int := 10

  /** One learned pattern. `updatedAt` is an opaque timestamp. */
  datatype Entry = Entry(
    pattern: string,
    solution: string,
    confidence: int,
    votes: int,
    updatedAt: int,
    source: string)

  /** Patterns are compared case-insensitively. */
  predicate SamePattern(a: string, b: string) {
    ToLower(a) == ToLower(b)
  }

  /** `learningDatabase.find(e => e.pattern.toLowerCase() === pattern.toLowerCase())`,
      as an index into the store. */
  function FindPattern(entries: seq<Entry>, pattern: string): (r: Option<nat>)
    ensures r.Some? ==> r.value < |entries| && SamePattern(entries[r.value].pattern, pattern)
    ensures r.Some? ==> forall j :: 0 <= j < r.value ==> !SamePattern(entries[j].pattern, pattern)
    ensures r.None? <==> forall j :: 0 <= j < |entries| ==> !SamePattern(entries[j].pattern, pattern)
  {
    if |entries| == 0 then None
    else if SamePattern(entries[0].pattern, pattern) then Some(0)
    else match FindPattern(entries[1..], pattern)
      case None => None
      case Some(k) => Some(k + 1)
  }

  /** At most one entry per lower-cased pattern. */
  ghost predicate UniquePatterns(entries: seq<Entry>) {
    forall i, j :: 0 <= i < j < |entries| ==> !SamePattern(entries[i].pattern, entries[j].pattern)
  }

  /** Every confidence lies within [0.1, 0.99]. */
  ghost predicate ConfidenceBounded(entries: seq<Entry>) {
    forall i :: 0 <= i < |entries| ==> MinConfidence <= entries[i].confidence <= MaxConfidence
  }

  ghost predicate Consistent(entries: seq<Entry>) {
    UniquePatterns(entries) && ConfidenceBounded(entries)
  }

  /** In a store with unique patterns, the entry found is the only one. */
  lemma FindPatternUnique(entries: seq<Entry>, pattern: string, i: nat)
    requires UniquePatterns(entries)
    requires i < |entries| && SamePattern(entries[i].pattern, pattern)
    ensures FindPattern(entries, pattern) == Some(i)
  {
    var r := FindPattern(entries, pattern);
    if r != Some(i) {
      assert r.Some?;
      assert r.value < i;
      assert SamePattern(entries[r.value].pattern, entries[i].pattern);
    }
  }

  const ReactPattern: string := "react state management"
  const IndexingPattern: string := "database indexing strategy"
  const MicroservicesPattern: string := "microservices communication"
  const ReactSolution: string := "For complex state management in React, consider using Redux Toolkit or Zustand instead of plain Context API."
  const IndexingSolution: string := "Create composite indexes for frequently queried columns, and use covering indexes for read-heavy operations."
  const MicroservicesSolution: string := "Consider using an event-driven architecture with a message broker like Kafka for asynchronous communication between microservices."

  /** The initial content of the learning database. Dates are written as
      YYYYMMDD numbers. */
  function SeedEntries(): seq<Entry>
  {
    [ Entry(ReactPattern, ReactSolution,
        92, 47, 20250501, "community"),
      Entry(IndexingPattern, IndexingSolution,
        89, 31, 20250415, "learned"),
      Entry(MicroservicesPattern, MicroservicesSolution,
        95, 78, 20250422, "community")
    ]
  }

  lemma DifferentInitials(a: string, b: string)
    requires |a| > 0 && |b| > 0 && Lower(a[0]) != Lower(b[0])
    ensures !SamePattern(a, b)
  {
    assert ToLower(a)[0] != ToLower(b)[0];
  }

  lemma SeedUnique()
    ensures UniquePatterns(SeedEntries())
  {
    var s := SeedEntries();
    assert ReactPattern[0] == 'r' && IndexingPattern[0] == 'd' && MicroservicesPattern[0] == 'm';
    DifferentInitials(ReactPattern, IndexingPattern);
    DifferentInitials(ReactPattern, MicroservicesPattern);
    DifferentInitials(IndexingPattern, MicroservicesPattern);
    assert s[0].pattern == ReactPattern && s[1].pattern == IndexingPattern && s[2].pattern == MicroservicesPattern;
  }

  /** The seed data satisfies the store's invariant. */
  lemma SeedConsistent()
    ensures Consistent(SeedEntries())
  {
    SeedUnique();
    assert ConfidenceBounded(SeedEntries());
  }

  function Min(a: int, b: int): int { if a <= b then a else b }
  function Max(a: int, b: int): int { if a >= b then a else b }

  /** An existing entry after one more observation. */
  function Reinforced(e: Entry, solution: string, source: string, now: int): Entry
  {
    e.(votes := e.votes + ReinforceStep,
       confidence := Min(MaxConfidence, e.confidence + ReinforceStep),
       updatedAt := now,
       solution := if source == "internet" then solution else e.solution)
  }

  function NewEntry(pattern: string, solution: string, source: string, now: int): Entry
  {
    Entry(pattern, solution, InitialConfidence, 1, now, source)
  }

  /** The store after `learnFromSolution(pattern, solution, source)`. */
  function Learned(entries: seq<Entry>, pattern: string, solution: string, source: string, now: int): (r: seq<Entry>)
    ensures |r| == |entries| + (if FindPattern(entries, pattern).None? then 1 else 0)
  {
    match FindPattern(entries, pattern)
    case Some(k) => entries[k := Reinforced(entries[k], solution, source, now)]
    case None => entries + [NewEntry(pattern, solution, source, now)]
  }

  /** An entry after negative feedback. */
  function Weakened(e: Entry): Entry
  {
    e.(confidence := Max(MinConfidence, e.confidence - DecayStep), votes := e.votes - 1)
  }

  /** The store after the negative branch of `processFeedback`. */
  function Decayed(entries: seq<Entry>, pattern: string): (r: seq<Entry>)
    ensures |r| == |entries|
    ensures forall j :: 0 <= j < |r| ==> r[j].pattern == entries[j].pattern && r[j].source == entries[j].source
    ensures FindPattern(entries, pattern).None? ==> r == entries
  {
    match FindPattern(entries, pattern)
    case Some(k) => entries[k := Weakened(entries[k])]
    case None => entries
  }

  /** Reinforcing a pattern that is present (case-insensitively): one more
      vote, confidence up by 0.01 but not past 0.99, the timestamp
      refreshed, the solution replaced only for an "internet" source; the
      pattern and source tag are kept, no other entry changes and the
      store does not grow. */
  lemma LearnExisting(entries: seq<Entry>, pattern: string, solution: string, source: string, now: int, k: nat)
    requires k < |entries| && SamePattern(entries[k].pattern, pattern)
    requires UniquePatterns(entries)
    ensures var r := Learned(entries, pattern, solution, source, now);
      && |r| == |entries|
      && r[k].votes == entries[k].votes + 1
      && r[k].confidence == Min(99, entries[k].confidence + 1)
      && r[k].updatedAt == now
      && r[k].solution == (if source == "internet" then solution else entries[k].solution)
      && r[k].pattern == entries[k].pattern && r[k].source == entries[k].source
      && (forall j :: 0 <= j < |entries| && j != k ==> r[j] == entries[j])
  {
    FindPatternUnique(entries, pattern, k);
  }

  /** A pattern with no case-insensitive match is appended at the end with
      confidence 0.7, one vote and the given source; earlier entries are
      untouched and the store grows by exactly one. */
  lemma LearnNew(entries: seq<Entry>, pattern: string, solution: string, source: string, now: int)
    requires forall j :: 0 <= j < |entries| ==> !SamePattern(entries[j].pattern, pattern)
    ensures var r := Learned(entries, pattern, solution, source, now);
      && |r| == |entries| + 1
      && r[..|entries|] == entries
      && r[|entries|] == Entry(pattern, solution, 70, 1, now, source)
  {
    var r := Learned(entries, pattern, solution, source, now);
    assert r == entries + [NewEntry(pattern, solution, source, now)];
  }

  /** Learning keeps every existing entry's place, pattern and source tag,
      and never lowers a bounded confidence: an index into the store keeps
      denoting the same entry across learning. */
  lemma LearnKeepsPlaces(entries: seq<Entry>, pattern: string, solution: string, source: string, now: int)
    requires ConfidenceBounded(entries)
    ensures var r := Learned(entries, pattern, solution, source, now);
      && |entries| <= |r| <= |entries| + 1
      && forall j :: 0 <= j < |entries| ==>
           r[j].pattern == entries[j].pattern && r[j].source == entries[j].source
           && r[j].confidence >= entries[j].confidence && r[j].votes >= entries[j].votes
  {
  }

  /** If no two entries share a lower-cased pattern before learning, none
      do after, and every confidence stays within [0.1, 0.99]. */
  lemma LearnPreservesConsistent(entries: seq<Entry>, pattern: string, solution: string, source: string, now: int)
    requires Consistent(entries)
    ensures Consistent(Learned(entries, pattern, solution, source, now))
  {
    var r := Learned(entries, pattern, solution, source, now);
    match FindPattern(entries, pattern)
    case Some(k) =>
      assert forall j :: 0 <= j < |r| ==> r[j].pattern == entries[j].pattern;
    case None =>
      assert r == entries + [NewEntry(pattern, solution, source, now)];
      forall i, j | 0 <= i < j < |r| ensures !SamePattern(r[i].pattern, r[j].pattern) {
        if j == |entries| {
          assert r[j].pattern == pattern;
        } else {
          assert r[i] == entries[i] && r[j] == entries[j];
        }
      }
  }

  /** After learning, the pattern is present; learning it again does not
      add a second entry. */
  lemma LearnThenFind(entries: seq<Entry>, pattern: string, solution: string, source: string, now: int)
    requires UniquePatterns(entries)
    ensures var r := Learned(entries, pattern, solution, source, now);
      && FindPattern(r, pattern).Some?
      && forall s2: string, src2: string, t2: int :: |Learned(r, pattern, s2, src2, t2)| == |r|
  {
    var r := Learned(entries, pattern, solution, source, now);
    match FindPattern(entries, pattern)
    case Some(k) =>
      assert SamePattern(r[k].pattern, pattern);
    case None =>
      assert r[|entries|].pattern == pattern;
  }

  /** Negative feedback on a present pattern lowers its confidence by 0.1
      but not below 0.1 and takes one vote away (votes may go negative);
      nothing else changes and the store does not grow. */
  lemma DecayExisting(entries: seq<Entry>, pattern: string, k: nat)
    requires k < |entries| && SamePattern(entries[k].pattern, pattern)
    requires UniquePatterns(entries)
    ensures var r := Decayed(entries, pattern);
      && |r| == |entries|
      && r[k].confidence == Max(10, entries[k].confidence - 10)
      && r[k].votes == entries[k].votes - 1
      && r[k] == entries[k].(confidence := r[k].confidence, votes := r[k].votes)
      && (forall j :: 0 <= j < |entries| && j != k ==> r[j] == entries[j])
  {
    FindPatternUnique(entries, pattern, k);
  }

  /** Negative feedback never adds an entry: for an absent pattern it
      changes nothing. */
  lemma DecayAbsent(entries: seq<Entry>, pattern: string)
    requires forall j :: 0 <= j < |entries| ==> !SamePattern(entries[j].pattern, pattern)
    ensures Decayed(entries, pattern) == entries
  {
  }

  lemma DecayPreservesConsistent(entries: seq<Entry>, pattern: string)
    requires Consistent(entries)
    ensures Consistent(Decayed(entries, pattern))
    ensures |Decayed(entries, pattern)| == |entries|
  {
    var r := Decayed(entries, pattern);
    assert forall j :: 0 <= j < |r| ==> r[j].pattern == entries[j].pattern;
  }

  /** However often a pattern is decayed, its confidence stays at or above
      0.1 and it never decays below where it started once at the floor. */
  lemma {:induction false} RepeatedDecayFloor(entries: seq<Entry>, pattern: string, n: nat)
    requires Consistent(entries)
    ensures Consistent(DecayedTimes(entries, pattern, n))
    ensures |DecayedTimes(entries, pattern, n)| == |entries|
    decreases n
  {
    if n > 0 {
      RepeatedDecayFloor(entries, pattern, n - 1);
      DecayPreservesConsistent(DecayedTimes(entries, pattern, n - 1), pattern);
    }
  }

  function DecayedTimes(entries: seq<Entry>, pattern: string, n: nat): seq<Entry>
  {
    if n == 0 then entries else Decayed(DecayedTimes(entries, pattern, n - 1), pattern)
  }

  /** `learningDatabase.find(e => text.toLowerCase().includes(e.pattern.toLowerCase())
      && e.confidence > threshold)`: the first entry whose pattern occurs in the
      text with confidence above the threshold (in hundredths). */
  function FindContained(entries: seq<Entry>, text: string, threshold: int): (r: Option<nat>)
    ensures r.Some? ==> (r.value < |entries|
                          && Contains(ToLower(text), ToLower(entries[r.value].pattern))
                          && entries[r.value].confidence > threshold)
    ensures r.Some? ==> forall j :: 0 <= j < r.value ==>
      !(Contains(ToLower(text), ToLower(entries[j].pattern)) && entries[j].confidence > threshold)
    ensures r.None? <==> forall j :: 0 <= j < |entries| ==>
      !(Contains(ToLower(text), ToLower(entries[j].pattern)) && entries[j].confidence > threshold)
  {
    if |entries| == 0 then None
    else if Contains(ToLower(text), ToLower(entries[0].pattern)) && entries[0].confidence > threshold then Some(0)
    else match FindContained(entries[1..], text, threshold)
      case None => None
      case Some(k) => Some(k + 1)
  }

  /** `learningDatabase.find(e => e.pattern.toLowerCase() === key.toLowerCase()
      && e.confidence > threshold)`. */
  function FindConfident(entries: seq<Entry>, key: string, threshold: int): (r: Option<nat>)
    ensures r.Some? ==> (r.value < |entries| && SamePattern(entries[r.value].pattern, key)
                          && entries[r.value].confidence > threshold)
    ensures r.None? <==> forall j :: 0 <= j < |entries| ==>
      !(SamePattern(entries[j].pattern, key) && entries[j].confidence > threshold)
  {
    if |entries| == 0 then None
    else if SamePattern(entries[0].pattern, key) && entries[0].confidence > threshold then Some(0)
    else match FindConfident(entries[1..], key, threshold)
      case None => None
      case Some(k) => Some(k + 1)
  }

  /** With unique patterns, the confident lookup is the exact lookup
      followed by the confidence test. */
  lemma FindConfidentIsFindPattern(entries: seq<Entry>, key: string, threshold: int)
    requires UniquePatterns(entries)
    ensures FindConfident(entries, key, threshold) ==
      match FindPattern(entries, key)
      case Some(k) => if entries[k].confidence > threshold then Some(k) else None
      case None => None
  {
    match FindConfident(entries, key, threshold)
    case Some(i) =>
      FindPatternUnique(entries, key, i);
    case None =>
  }

  /** The learning database, shared by all request handlers. */
  class KnowledgeStore {
    var entries: seq<Entry>

    ghost predicate Valid()
      reads this
    {
      Consistent(entries)
    }

    /** The store as the process starts: the three seed entries. */
    constructor ()
      ensures Valid() && entries == SeedEntries()
    {
      entries := SeedEntries();
      SeedConsistent();
    }

    /** The `find` by case-insensitive pattern. */
    method Find(pattern: string) returns (r: Option<nat>)
      ensures r == FindPattern(entries, pattern)
    {
      var i := 0;
      while i < |entries|
        invariant 0 <= i <= |entries|
        invariant forall j :: 0 <= j < i ==> !SamePattern(entries[j].pattern, pattern)
      {
        if ToLower(entries[i].pattern) == ToLower(pattern) {
          r := Some(i);
          return;
        }
        i := i + 1;
      }
      r := None;
    }

    /** `learnFromSolution`: reinforce the entry in place or push a new one. */
    method Learn(pattern: string, solution: string, source: string, now: int)
      requires Valid()
      modifies this
      ensures Valid()
      ensures entries == Learned(old(entries), pattern, solution, source, now)
    {
      LearnPreservesConsistent(entries, pattern, solution, source, now);
      var found := Find(pattern);
      match found {
        case Some(k) =>
          var e := entries[k];
          e := e.(votes := e.votes + 1);
          e := e.(confidence := Min(MaxConfidence, e.confidence + ReinforceStep));
          e := e.(updatedAt := now);
          if source == "internet" {
            e := e.(solution := solution);
          }
          entries := entries[k := e];
        case None =>
          entries := entries + [Entry(pattern, solution, InitialConfidence, 1, now, source)];
      }
    }

    /** The negative-feedback branch of `processFeedback`: weaken the entry
        in place if there is one. */
    method Decay(pattern: string)
      requires Valid()
      modifies this
      ensures Valid()
      ensures entries == Decayed(old(entries), pattern)
    {
      DecayPreservesConsistent(entries, pattern);
      var found := Find(pattern);
      if found.Some? {
        var k := found.value;
        entries := entries[k := entries[k].(confidence := Max(MinConfidence, entries[k].confidence - DecayStep))];
        entries := entries[k := entries[k].(votes := entries[k].votes - 1)];
      }
    }
  }
}
