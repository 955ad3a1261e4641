/** The decisions the AI bridge's request handlers make around the
    knowledge store: which model a user may use, how feedback changes the
    store, what code generation learns from a prompt, and what the
    auto-fix endpoint learns and reports. Requests, responses and delays
    are not modelled; a signed-in user is an optional id. */
module Bridge {
  import opened Wrappers
  import opened Strings
  import opened Knowledge
  import Storage
  import Catalog
  import TextAnalysis
  import Scanner
  import Trends

  datatype BridgeError =
    | Unauthorized
    | InvalidRequest(message: string)
    | UserNotFound
    | NoSuitableModel

  // ---------------------------------------------------------------------
  // selectAppropriateModel

  /** `user.subscriptionPlanId || 1`: a missing plan and the falsy plan 0
      both mean the basic level 1. */
  function SubscriptionLevel(planId: Option<int>): (level: int)
    ensures planId.None? || planId.value == 0 ==> level == 1
    ensures planId.Some? && planId.value != 0 ==> level == planId.value
  {
    if planId.None? || planId.value == 0 then 1 else planId.value
  }

  function RecordNames(records: seq<Storage.AiModelRecord>): (r: seq<string>)
    ensures |r| == |records|
    ensures forall i :: 0 <= i < |records| ==> r[i] == records[i].name
  {
    seq(|records|, i requires 0 <= i < |records| => records[i].name)
  }

  /** `selectAppropriateModel(userId, taskType)`: nothing for an unknown
      user; otherwise the strongest catalog model of the task's type that
      is active and named by an ai_models row available at the user's
      level. */
  function SelectAppropriateModel(users: seq<Storage.User>, modelRows: seq<Storage.AiModelRecord>,
                                  userId: int, kind: Catalog.TaskType): (r: Option<Catalog.AIModel>)
    ensures Storage.GetUser(users, userId).None? ==> r.None?
    ensures r.Some? ==> r.value in Catalog.SupportedModels() && r.value.kind == kind && r.value.isActive
  {
    match Storage.GetUser(users, userId)
    case None => None
    case Some(u) =>
      var allowed := Storage.ModelsBySubscriptionLevel(modelRows, SubscriptionLevel(u.subscriptionPlanId));
      Catalog.SelectModel(Catalog.SupportedModels(), kind, RecordNames(allowed))
  }

  /** A model row grants a catalog model when it is available at the
      level and its lower-cased name is the model's id. */
  predicate Grants(row: Storage.AiModelRecord, level: int, m: Catalog.AIModel) {
    Storage.AvailableAt(row, level) && ToLower(row.name) == m.id
  }

  /** Some row of the table grants the model at the level. */
  predicate Granted(rows: seq<Storage.AiModelRecord>, level: int, m: Catalog.AIModel) {
    exists row :: row in rows && Grants(row, level, m)
  }

  /** The ids the catalog filter compares with: the lower-cased names of
      the rows available at the level. */
  function AllowedIds(rows: seq<Storage.AiModelRecord>, level: int): seq<string>
  {
    Catalog.LowerAll(RecordNames(Storage.ModelsBySubscriptionLevel(rows, level)))
  }

  lemma AllowedIdsGrant(rows: seq<Storage.AiModelRecord>, level: int, m: Catalog.AIModel)
    ensures m.id in AllowedIds(rows, level) <==> Granted(rows, level, m)
  {
    var allowed := Storage.ModelsBySubscriptionLevel(rows, level);
    var ids := AllowedIds(rows, level);
    if m.id in ids {
      var i :| 0 <= i < |ids| && ids[i] == m.id;
      assert allowed[i] in allowed;
      assert Grants(allowed[i], level, m);
    }
    if Granted(rows, level, m) {
      var row :| row in rows && Grants(row, level, m);
      assert row in allowed;
      var i :| 0 <= i < |allowed| && allowed[i] == row;
      assert ids[i] == m.id;
    }
  }

  /** A model the user may run for the task at the level: of the task's
      type, active, and granted by a row. */
  predicate Usable(rows: seq<Storage.AiModelRecord>, level: int, kind: Catalog.TaskType, m: Catalog.AIModel) {
    m.kind == kind && m.isActive && Granted(rows, level, m)
  }

  /** `m` is at index `k` of the catalog and strictly stronger than every
      usable model before it: the stable sort puts it first. */
  ghost predicate FirstStrongestAt(cat: seq<Catalog.AIModel>, rows: seq<Storage.AiModelRecord>, level: int,
                                   kind: Catalog.TaskType, m: Catalog.AIModel, k: int) {
    0 <= k < |cat| && cat[k] == m
    && forall j :: 0 <= j < k && Usable(rows, level, kind, cat[j]) ==> cat[j].parameters < m.parameters
  }

  /** Over any catalog: the selection at a level is empty exactly when no
      active model of the type is granted, and otherwise it is a granted
      active model of the type with the most parameters, the first such in
      catalog order on a tie. */
  lemma SelectAtLevel(cat: seq<Catalog.AIModel>, rows: seq<Storage.AiModelRecord>, level: int, kind: Catalog.TaskType)
    ensures var r := Catalog.SelectModel(cat, kind, RecordNames(Storage.ModelsBySubscriptionLevel(rows, level)));
      && (r.None? <==> forall m :: m in cat ==> !Usable(rows, level, kind, m))
      && (r.Some? ==>
            && r.value in cat && Usable(rows, level, kind, r.value)
            && (forall m :: m in cat && Usable(rows, level, kind, m) ==> m.parameters <= r.value.parameters)
            && (exists k :: FirstStrongestAt(cat, rows, level, kind, r.value, k)))
  {
    var names := RecordNames(Storage.ModelsBySubscriptionLevel(rows, level));
    var ids := AllowedIds(rows, level);
    forall m | m in cat
      ensures Catalog.Eligible(m, kind, ids) <==> Usable(rows, level, kind, m)
    {
      AllowedIdsGrant(rows, level, m);
    }
    var e := Catalog.EligibleModels(cat, kind, ids);
    if e != [] {
      assert e[0] in e;
    }
    var r := Catalog.SelectModel(cat, kind, names);
    if r.Some? {
      Catalog.SelectModelMaximal(cat, kind, names);
      var k :| Catalog.EarliestStrongestAt(cat, kind, ids, r.value, k);
      forall j | 0 <= j < k && Usable(rows, level, kind, cat[j])
        ensures cat[j].parameters < r.value.parameters
      {
        assert cat[j] in cat;
      }
      assert FirstStrongestAt(cat, rows, level, kind, r.value, k);
    }
  }

  /** The selection is empty exactly when the user is unknown or no active
      catalog model of the type is granted by a row at the user's level
      (the plan id, or 1 for a missing or zero plan); otherwise it is such
      a model with the most parameters, the first in catalog order on a
      tie. */
  lemma SelectAppropriateModelSpec(users: seq<Storage.User>, modelRows: seq<Storage.AiModelRecord>,
                                   userId: int, kind: Catalog.TaskType)
    ensures var r := SelectAppropriateModel(users, modelRows, userId, kind);
      var u := Storage.GetUser(users, userId);
      var cat := Catalog.SupportedModels();
      && (u.None? ==> r.None?)
      && (u.Some? ==>
            var level := SubscriptionLevel(u.value.subscriptionPlanId);
            && (r.None? <==> forall m :: m in cat ==> !Usable(modelRows, level, kind, m))
            && (r.Some? ==>
                  && r.value in cat && Usable(modelRows, level, kind, r.value)
                  && (forall m :: m in cat && Usable(modelRows, level, kind, m) ==> m.parameters <= r.value.parameters)
                  && (exists k :: FirstStrongestAt(cat, modelRows, level, kind, r.value, k))))
  {
    var u := Storage.GetUser(users, userId);
    if u.Some? {
      SelectAtLevel(Catalog.SupportedModels(), modelRows, SubscriptionLevel(u.value.subscriptionPlanId), kind);
    }
  }

  /** A handler's model: the catalog entry named by an explicit model id,
      otherwise the selection for the task. */
  function ResolveModel(users: seq<Storage.User>, modelRows: seq<Storage.AiModelRecord>,
                        userId: int, kind: Catalog.TaskType, modelId: string): (r: Option<Catalog.AIModel>)
    ensures r.Some? ==> r.value in Catalog.SupportedModels()
    ensures modelId != "" && r.Some? ==> r.value.id == modelId
    ensures modelId == "" && r.Some? ==> r.value.kind == kind && r.value.isActive
  {
    if modelId != "" then Catalog.FindById(Catalog.SupportedModels(), modelId)
    else SelectAppropriateModel(users, modelRows, userId, kind)
  }

  /** An explicit model id bypasses entitlement: the result depends on
      neither the user nor the subscription, nor even on the task type. */
  lemma ExplicitModelIgnoresEntitlement(users1: seq<Storage.User>, rows1: seq<Storage.AiModelRecord>, userId1: int,
                                        kind1: Catalog.TaskType,
                                        users2: seq<Storage.User>, rows2: seq<Storage.AiModelRecord>, userId2: int,
                                        kind2: Catalog.TaskType, modelId: string)
    requires modelId != ""
    ensures ResolveModel(users1, rows1, userId1, kind1, modelId) == ResolveModel(users2, rows2, userId2, kind2, modelId)
    ensures ResolveModel(users1, rows1, userId1, kind1, modelId).Some? <==>
      modelId in Catalog.CatalogIds()
  {
    Catalog.FindInCatalog(modelId);
  }

  // ---------------------------------------------------------------------
  // processFeedback

  /** The store after feedback that passed validation. */
  function AfterFeedback(entries: seq<Entry>, pattern: string, solution: string, rating: int,
                         source: string, now: int): seq<Entry>
  {
    if rating >= 4 then Learned(entries, pattern, solution, if source == "" then "user" else source, now)
    else Decayed(entries, pattern)
  }

  /** Positive feedback grows the store by at most one entry and only for
      a pattern it did not hold; negative feedback never changes its size. */
  lemma FeedbackSize(entries: seq<Entry>, pattern: string, solution: string, rating: int, source: string, now: int)
    requires Consistent(entries)
    ensures var r := AfterFeedback(entries, pattern, solution, rating, source, now);
      && (rating < 4 ==> |r| == |entries|)
      && (|r| == |entries| + 1 <==> rating >= 4 && FindPattern(entries, pattern).None?)
      && (|r| == |entries| || |r| == |entries| + 1)
      && Consistent(r)
  {
    if rating >= 4 {
      var src := if source == "" then "user" else source;
      LearnPreservesConsistent(entries, pattern, solution, src, now);
      match FindPattern(entries, pattern) {
        case Some(k) =>
          LearnExisting(entries, pattern, solution, src, now, k);
        case None =>
          LearnNew(entries, pattern, solution, src, now);
      }
    } else {
      DecayPreservesConsistent(entries, pattern);
    }
  }

  /** `processFeedback`: refuse an anonymous caller and a request whose
      pattern, solution or rating is falsy (an empty string, rating 0)
      without touching the store; otherwise learn from a rating of 4 or
      more (source defaulting to "user") or weaken the entry, and report
      the store's size. */
  method ProcessFeedback(store: KnowledgeStore, userId: Option<int>, pattern: string, solution: string,
                         rating: int, source: string, now: int) returns (r: Result<nat, BridgeError>)
    requires store.Valid()
    modifies store
    ensures store.Valid()
    ensures !Storage.SignedIn(userId) ==> r == Err(Unauthorized) && store.entries == old(store.entries)
    ensures Storage.SignedIn(userId) && (pattern == "" || solution == "" || rating == 0) ==>
      r == Err(InvalidRequest("Pattern, solution and rating are required")) && store.entries == old(store.entries)
    ensures Storage.SignedIn(userId) && pattern != "" && solution != "" && rating != 0 ==>
      store.entries == AfterFeedback(old(store.entries), pattern, solution, rating, source, now)
      && r == Ok(|store.entries|)
  {
    if !Storage.SignedIn(userId) {
      return Err(Unauthorized);
    }
    if pattern == "" || solution == "" || rating == 0 {
      return Err(InvalidRequest("Pattern, solution and rating are required"));
    }
    if rating >= 4 {
      store.Learn(pattern, solution, if source == "" then "user" else source, now);
    } else {
      store.Decay(pattern);
    }
    r := Ok(|store.entries|);
  }

  // ---------------------------------------------------------------------
  // generateCode: learning from the prompt's keywords

  /** The solution text learned for a keyword. */
  function KeywordAdvice(keyword: string, language: string): string
  {
    "For " + keyword + "-related tasks, consider using: " + (if language == "" then "appropriate language" else language)
  }

  /** The store after learning every keyword longer than four characters,
      in order, under the source tag "system". */
  function LearnedKeywords(entries: seq<Entry>, keywords: seq<string>, language: string, now: int): seq<Entry>
  {
    if |keywords| == 0 then entries
    else
      var before := LearnedKeywords(entries, keywords[..|keywords| - 1], language, now);
      LearnKeyword(before, keywords[|keywords| - 1], language, now)
  }

  /** One keyword of the learning step: learned only when longer than four
      characters. */
  function LearnKeyword(entries: seq<Entry>, k: string, language: string, now: int): seq<Entry>
  {
    if |k| > 4 then Learned(entries, k, KeywordAdvice(k, language), "system", now) else entries
  }

  /** Learning keeps a pattern that is present present. */
  lemma LearnKeepsFound(entries: seq<Entry>, pattern: string, solution: string, source: string, now: int, key: string)
    requires ConfidenceBounded(entries)
    requires FindPattern(entries, key).Some?
    ensures FindPattern(Learned(entries, pattern, solution, source, now), key).Some?
  {
    LearnKeepsPlaces(entries, pattern, solution, source, now);
    var j := FindPattern(entries, key).value;
    var r := Learned(entries, pattern, solution, source, now);
    assert SamePattern(r[j].pattern, key);
  }

  /** Keyword learning keeps the store consistent and grows it by at most
      one entry per keyword. */
  lemma {:induction false} LearnedKeywordsConsistent(entries: seq<Entry>, keywords: seq<string>, language: string, now: int)
    requires Consistent(entries)
    ensures var r := LearnedKeywords(entries, keywords, language, now);
      Consistent(r) && |entries| <= |r| <= |entries| + |keywords|
    decreases |keywords|
  {
    if |keywords| > 0 {
      var init := keywords[..|keywords| - 1];
      var before := LearnedKeywords(entries, init, language, now);
      LearnedKeywordsConsistent(entries, init, language, now);
      var k := keywords[|keywords| - 1];
      if |k| > 4 {
        LearnPreservesConsistent(before, k, KeywordAdvice(k, language), "system", now);
        LearnKeepsPlaces(before, k, KeywordAdvice(k, language), "system", now);
      }
    }
  }

  /** Afterwards every keyword longer than four characters is in the store. */
  lemma {:induction false} LearnedKeywordsPresent(entries: seq<Entry>, keywords: seq<string>, language: string, now: int)
    requires Consistent(entries)
    ensures forall i :: 0 <= i < |keywords| && |keywords[i]| > 4 ==>
      FindPattern(LearnedKeywords(entries, keywords, language, now), keywords[i]).Some?
    decreases |keywords|
  {
    if |keywords| > 0 {
      var init := keywords[..|keywords| - 1];
      LearnedKeywordsPresent(entries, init, language, now);
      LearnedKeywordsConsistent(entries, init, language, now);
      PresentAfterStep(LearnedKeywords(entries, init, language, now), init, keywords[|keywords| - 1], language, now);
      LastKeyword(keywords);
    }
  }

  lemma LastKeyword(keywords: seq<string>)
    requires |keywords| > 0
    ensures keywords == keywords[..|keywords| - 1] + [keywords[|keywords| - 1]]
  {
  }

  /** One more keyword step keeps the earlier long keywords present and
      adds the new one when it is long. */
  lemma PresentAfterStep(before: seq<Entry>, init: seq<string>, k: string, language: string, now: int)
    requires Consistent(before)
    requires forall i :: 0 <= i < |init| && |init[i]| > 4 ==> FindPattern(before, init[i]).Some?
    ensures var r := if |k| > 4 then Learned(before, k, KeywordAdvice(k, language), "system", now) else before;
      forall i :: 0 <= i < |init + [k]| && |(init + [k])[i]| > 4 ==> FindPattern(r, (init + [k])[i]).Some?
  {
    var keywords := init + [k];
    if |k| > 4 {
      var r := Learned(before, k, KeywordAdvice(k, language), "system", now);
      LearnThenFind(before, k, KeywordAdvice(k, language), "system", now);
      forall i | 0 <= i < |keywords| && |keywords[i]| > 4
        ensures FindPattern(r, keywords[i]).Some?
      {
        if i < |init| {
          LearnKeepsFound(before, k, KeywordAdvice(k, language), "system", now, init[i]);
        }
      }
    }
  }

  /** Only keywords longer than four characters are ever added: a pattern
      absent before and not among those keywords is absent after. */
  lemma {:induction false} LearnedKeywordsOnlyLong(entries: seq<Entry>, keywords: seq<string>, language: string,
                                                    now: int, key: string)
    requires FindPattern(entries, key).None?
    requires forall i :: 0 <= i < |keywords| && |keywords[i]| > 4 ==> !SamePattern(keywords[i], key)
    ensures FindPattern(LearnedKeywords(entries, keywords, language, now), key).None?
    decreases |keywords|
  {
    if |keywords| > 0 {
      var init := keywords[..|keywords| - 1];
      var before := LearnedKeywords(entries, init, language, now);
      LearnedKeywordsOnlyLong(entries, init, language, now, key);
      var k := keywords[|keywords| - 1];
      if |k| > 4 {
        var r := Learned(before, k, KeywordAdvice(k, language), "system", now);
        forall j | 0 <= j < |r| ensures !SamePattern(r[j].pattern, key) {
          if j < |before| {
            assert r[j].pattern == before[j].pattern;
          } else {
            assert r[j].pattern == k;
          }
        }
      }
    }
  }

  /** The learning step of `generateCode`: for each extracted keyword
      longer than four characters, learn a "system" hint naming the
      requested language. */
  method LearnFromPrompt(store: KnowledgeStore, prompt: string, language: string, now: int)
    requires store.Valid()
    modifies store
    ensures store.Valid()
    ensures store.entries == LearnedKeywords(old(store.entries), TextAnalysis.ExtractKeywords(prompt), language, now)
  {
    var keywords := TextAnalysis.ExtractKeywords(prompt);
    LearnKeywords(store, keywords, language, now);
  }

  /** The loop of the learning step, over the extracted keywords. */
  method LearnKeywords(store: KnowledgeStore, keywords: seq<string>, language: string, now: int)
    requires store.Valid()
    modifies store
    ensures store.Valid()
    ensures store.entries == LearnedKeywords(old(store.entries), keywords, language, now)
  {
    ghost var start := store.entries;
    var i := 0;
    while i < |keywords|
      invariant 0 <= i <= |keywords|
      invariant store.Valid()
      invariant store.entries == LearnedKeywords(start, keywords[..i], language, now)
    {
      LearnedKeywordsStep(start, keywords, i, language, now);
      ghost var before := store.entries;
      var k := keywords[i];
      if |k| > 4 {
        store.Learn(k, KeywordAdvice(k, language), "system", now);
      }
      assert store.entries == LearnKeyword(before, k, language, now);
      i := i + 1;
    }
    assert keywords[..|keywords|] == keywords;
  }

  /** One more keyword: learn it when it is long enough. */
  lemma LearnedKeywordsStep(entries: seq<Entry>, keywords: seq<string>, i: nat, language: string, now: int)
    requires i < |keywords|
    ensures LearnedKeywords(entries, keywords[..i + 1], language, now)
      == LearnKeyword(LearnedKeywords(entries, keywords[..i], language, now), keywords[i], language, now)
  {
    assert keywords[..i + 1][..i] == keywords[..i];
  }

  /** The topics that make `generateCode` consult the trend search. */
  function TrendingTopics(): seq<string> {
    ["react", "typescript", "javascript", "ai", "database"]
  }

  predicate IsTrendingTopic(prompt: string) {
    exists i :: 0 <= i < |TrendingTopics()| && Contains(ToLower(prompt), TrendingTopics()[i])
  }

  /** A trending prompt that mentions one of the table's keywords gets a
      trend; one that is trending only through "ai" may not, as the table
      knows "ai coding" but not "ai". */
  lemma TrendingPromptsAnswered(prompt: string)
    ensures (Contains(ToLower(prompt), "react") || Contains(ToLower(prompt), "typescript")
             || Contains(ToLower(prompt), "javascript") || Contains(ToLower(prompt), "database"))
            ==> IsTrendingTopic(prompt) && Trends.TrendAnswer(prompt) != Trends.NoTrends
    ensures IsTrendingTopic("ai") && Trends.TrendAnswer("ai") == Trends.NoTrends
  {
    var t := Trends.TrendTable();
    var lower := ToLower(prompt);
    if Contains(lower, "react") {
      assert TrendingTopics()[0] == "react";
      Trends.MentionedKeywordAnswers(prompt, 1);
    } else if Contains(lower, "typescript") {
      assert TrendingTopics()[1] == "typescript";
      Trends.MentionedKeywordAnswers(prompt, 0);
    } else if Contains(lower, "javascript") {
      assert TrendingTopics()[2] == "javascript";
      Trends.MentionedKeywordAnswers(prompt, 5);
    } else if Contains(lower, "database") {
      assert TrendingTopics()[4] == "database";
      Trends.MentionedKeywordAnswers(prompt, 4);
    }
    AiAloneHasNoTrend();
  }

  lemma AiAloneHasNoTrend()
    ensures IsTrendingTopic("ai") && Trends.TrendAnswer("ai") == Trends.NoTrends
  {
    var lower := ToLower("ai");
    assert lower == "ai";
    assert Contains(lower, TrendingTopics()[3]);
    var t := Trends.TrendTable();
    forall j | 0 <= j < |t| ensures !Contains(lower, t[j].keyword) {
      assert |t[j].keyword| > 2;
      TooLongNotContained(lower, t[j].keyword);
    }
  }

  lemma {:induction false} TooLongNotContained(s: string, sub: string)
    requires |sub| > |s|
    ensures !Contains(s, sub)
    decreases |s|
  {
    if |s| > 0 {
      TooLongNotContained(s[1..], sub);
    }
  }

  // ---------------------------------------------------------------------
  // autoFixCode

  datatype AutoFixReply = AutoFixReply(
    model: string,
    fixedCode: string,
    detectedIssues: seq<string>,
    performanceImprovements: seq<string>,
    message: string)

  /** The reply's summary line. */
  function FixSummary(issues: nat, improvements: nat): (m: string)
  {
    if issues > 0 then "Fixed " + NatToString(issues) + " issues and suggested "
                       + NatToString(improvements) + " performance improvements"
    else "No issues detected"
  }

  /** The summary names the two counts, so different counts give
      different summaries. */
  lemma FixSummaryInjective(i1: nat, m1: nat, i2: nat, m2: nat)
    requires i1 > 0 && i2 > 0
    requires FixSummary(i1, m1) == FixSummary(i2, m2)
    ensures i1 == i2 && m1 == m2
  {
    SummaryParts("Fixed ", NatToString(i1), " issues and suggested ", NatToString(m1),
                 " performance improvements", NatToString(i2), NatToString(m2));
    NatToStringInjective(i1, i2);
    NatToStringInjective(m1, m2);
  }

  /** Two digit strings framed by the same texts, each gap starting with a
      space, are read back the same. */
  lemma SummaryParts(p: string, a1: string, q: string, b1: string, s: string, a2: string, b2: string)
    requires forall i :: 0 <= i < |a1| ==> '0' <= a1[i] <= '9'
    requires forall i :: 0 <= i < |a2| ==> '0' <= a2[i] <= '9'
    requires forall i :: 0 <= i < |b1| ==> '0' <= b1[i] <= '9'
    requires forall i :: 0 <= i < |b2| ==> '0' <= b2[i] <= '9'
    requires |q| > 0 && q[0] == ' ' && |s| > 0 && s[0] == ' '
    requires p + a1 + q + b1 + s == p + a2 + q + b2 + s
    ensures a1 == a2 && b1 == b2
  {
    var t1, t2 := a1 + (q + (b1 + s)), a2 + (q + (b2 + s));
    assert p + a1 + q + b1 + s == p + t1;
    assert p + a2 + q + b2 + s == p + t2;
    assert t1 == (p + t1)[|p|..] && t2 == (p + t2)[|p|..];
    DigitsThenSpace(a1, q + (b1 + s), a2, q + (b2 + s));
    assert b1 + s == (q + (b1 + s))[|q|..] && b2 + s == (q + (b2 + s))[|q|..];
    DigitsThenSpace(b1, s, b2, s);
  }

  /** The store after learning "Auto-fixed: <issue>" for each issue. */
  function LearnedIssues(entries: seq<Entry>, issues: seq<string>, now: int): seq<Entry>
  {
    if |issues| == 0 then entries
    else
      var before := LearnedIssues(entries, issues[..|issues| - 1], now);
      Learned(before, issues[|issues| - 1], "Auto-fixed: " + issues[|issues| - 1], "system", now)
  }

  /** Learns "Auto-fixed: <issue>" under the source tag "system" for each
      issue, in order. */
  method LearnIssues(store: KnowledgeStore, issues: seq<string>, now: int)
    requires store.Valid()
    modifies store
    ensures store.Valid()
    ensures store.entries == LearnedIssues(old(store.entries), issues, now)
  {
    ghost var start := store.entries;
    var i := 0;
    while i < |issues|
      invariant 0 <= i <= |issues|
      invariant store.Valid()
      invariant store.entries == LearnedIssues(start, issues[..i], now)
    {
      assert issues[..i + 1][..i] == issues[..i];
      store.Learn(issues[i], "Auto-fixed: " + issues[i], "system", now);
      i := i + 1;
    }
    assert issues[..|issues|] == issues;
  }

  /** Whether the auto-fix endpoint accepts the request. */
  predicate AutoFixAccepted(users: seq<Storage.User>, modelRows: seq<Storage.AiModelRecord>,
                            userId: Option<int>, code: string)
  {
    Storage.SignedIn(userId) && code != ""
    && SelectAppropriateModel(users, modelRows, userId.value, Catalog.Debugging).Some?
  }

  /** `autoFixCode`: refuse an anonymous caller, empty code and a user
      without a debugging model; otherwise scan the code, learn each
      detected issue and summarise. */
  method AutoFixCode(store: KnowledgeStore, users: seq<Storage.User>, modelRows: seq<Storage.AiModelRecord>,
                     userId: Option<int>, code: string, now: int) returns (r: Result<AutoFixReply, BridgeError>)
    requires store.Valid()
    modifies store
    ensures store.Valid()
    ensures r.Err? ==> store.entries == old(store.entries)
    ensures r.Ok? <==> AutoFixAccepted(users, modelRows, userId, code)
    ensures !Storage.SignedIn(userId) ==> r == Err(Unauthorized)
    ensures Storage.SignedIn(userId) && code == "" ==> r == Err(InvalidRequest("Code is required"))
    ensures Storage.SignedIn(userId) && code != ""
            && SelectAppropriateModel(users, modelRows, userId.value, Catalog.Debugging).None? ==>
      r == Err(NoSuitableModel)
    ensures r.Ok? ==>
      && r.value.model == SelectAppropriateModel(users, modelRows, userId.value, Catalog.Debugging).value.name
      && r.value.fixedCode == Scanner.FixedCode(code, Scanner.AsWritten)
      && r.value.detectedIssues == Scanner.Messages(Scanner.ErrorRules(), code)
      && r.value.performanceImprovements == Scanner.Messages(Scanner.PerformanceRules(), code)
      && r.value.message == FixSummary(|r.value.detectedIssues|, |r.value.performanceImprovements|)
      && store.entries == LearnedIssues(old(store.entries), r.value.detectedIssues, now)
  {
    if !Storage.SignedIn(userId) {
      return Err(Unauthorized);
    }
    if code == "" {
      return Err(InvalidRequest("Code is required"));
    }
    var model := SelectAppropriateModel(users, modelRows, userId.value, Catalog.Debugging);
    if model.None? {
      return Err(NoSuitableModel);
    }
    var scan := Scanner.AutoDetectAndFix(code, Scanner.AsWritten);
    LearnIssues(store, scan.detectedIssues, now);
    var message := FixSummary(|scan.detectedIssues|, |scan.performanceImprovements|);
    r := Ok(AutoFixReply(model.value.name, scan.fixedCode, scan.detectedIssues, scan.performanceImprovements, message));
  }
}
