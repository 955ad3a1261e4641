/** The simulated internet search: a fixed, ordered table of technology
    trends scanned for the first keyword the query mentions. A hit is also
    learned into the knowledge store under the source tag "internet". */
module Trends {
  import opened Wrappers
  import opened Strings
  import opened Knowledge

  datatype Trend = Trend(keyword: string, info: string)

  const TypeScriptInfo: string := "TypeScript 5.4 introduces more powerful type inference and new decorators API, improving developer experience with stricter type safety."
  const ReactInfo: string := "React's new compiler architecture focuses on partial hydration and streaming SSR, significantly improving performance metrics."
  const AiCodingInfo: string := "AI coding assistants have evolved to understand full repository context and generate patches rather than just completing snippets."
  const WebAssemblyInfo: string := "WebAssembly's component model standardization is enabling language-agnostic module reuse across different environments."
  const DatabaseInfo: string := "Vector databases are becoming essential infrastructure for AI applications requiring similarity search operations."
  const JavaScriptInfo: string := "JavaScript's Temporal API is revolutionizing date/time handling with immutable types and timezone-aware operations."
  const ArchitectureInfo: string := "Micro-frontends are gaining adoption for large-scale applications with domain-focused vertical slices."
  const SecurityInfo: string := "Supply chain attacks increased 300% in 2024, driving adoption of software bill of materials (SBOM) tooling."

  /** Answer when no keyword of the table occurs in the query. */
  const NoTrends: string := "No specific trends found. Consider narrowing your search query."

  /** The trend table, in the order it is scanned. */
  function TrendTable(): seq<Trend>
  {
    [Trend("typescript", TypeScriptInfo),
     Trend("react", ReactInfo),
     Trend("ai coding", AiCodingInfo),
     Trend("webassembly", WebAssemblyInfo),
     Trend("database", DatabaseInfo),
     Trend("javascript", JavaScriptInfo),
     Trend("architecture", ArchitectureInfo),
     Trend("security", SecurityInfo)]
  }

  /** `trends.find(t => query.toLowerCase().includes(t.keyword))` over a
      table, as an index. */
  function FirstMention(table: seq<Trend>, query: string): (r: Option<nat>)
    ensures r.Some? ==> r.value < |table| && Contains(ToLower(query), table[r.value].keyword)
    ensures r.Some? ==> forall j :: 0 <= j < r.value ==> !Contains(ToLower(query), table[j].keyword)
    ensures r.None? <==> forall j :: 0 <= j < |table| ==> !Contains(ToLower(query), table[j].keyword)
  {
    if |table| == 0 then None
    else if Contains(ToLower(query), table[0].keyword) then Some(0)
    else match FirstMention(table[1..], query)
      case None => None
      case Some(k) => Some(k + 1)
  }

  /** The answer of the search: the info of the first trend mentioned, or
      the sentinel. */
  function TrendAnswer(query: string): string
  {
    match FirstMention(TrendTable(), query)
    case Some(k) => TrendTable()[k].info
    case None => NoTrends
  }

  /** Every keyword of the table is lower-case, so it can be found in a
      lower-cased query whatever the case the query was written in. */
  lemma TrendKeywordsLowerCase()
    ensures forall k :: 0 <= k < |TrendTable()| ==> IsLowerCase(TrendTable()[k].keyword)
  {
    var t := TrendTable();
    KeywordsLowerCase();
    assert t[0].keyword == "typescript" && t[1].keyword == "react" && t[2].keyword == "ai coding";
    assert t[3].keyword == "webassembly" && t[4].keyword == "database" && t[5].keyword == "javascript";
    assert t[6].keyword == "architecture" && t[7].keyword == "security";
  }

  lemma KeywordsLowerCase()
    ensures IsLowerCase("typescript") && IsLowerCase("react") && IsLowerCase("ai coding")
    ensures IsLowerCase("webassembly") && IsLowerCase("database") && IsLowerCase("javascript")
    ensures IsLowerCase("architecture") && IsLowerCase("security")
  {
  }

  /** A query that spells a keyword of the table, in any letter case,
      gets an answer from the table and never the sentinel. */
  lemma MentionedKeywordAnswers(query: string, k: nat)
    requires k < |TrendTable()|
    requires Contains(ToLower(query), TrendTable()[k].keyword)
    ensures FirstMention(TrendTable(), query).Some?
    ensures FirstMention(TrendTable(), query).value <= k
    ensures TrendAnswer(query) != NoTrends
  {
    var t := TrendTable();
    var i := FirstMention(t, query).value;
    assert t[i].info != NoTrends by {
      assert i < 8;
      assert |NoTrends| == 63;
      assert i == 0 || i == 1 || i == 2 || i == 3 || i == 4 || i == 5 || i == 6 || i == 7;
    }
  }

  /** The store after a search: the hit is learned as ("internet"),
      a miss leaves it unchanged. */
  function AfterSearch(entries: seq<Entry>, query: string, now: int): seq<Entry>
  {
    match FirstMention(TrendTable(), query)
    case Some(k) => Learned(entries, TrendTable()[k].keyword, TrendTable()[k].info, "internet", now)
    case None => entries
  }

  /** After a hit the store holds the keyword with the returned info as its
      solution, whether the keyword was new or already known; a miss
      changes nothing and returns the sentinel. */
  lemma SearchLearnsAnswer(entries: seq<Entry>, query: string, now: int)
    requires UniquePatterns(entries)
    ensures var r := AfterSearch(entries, query, now);
      match FirstMention(TrendTable(), query)
      case Some(k) =>
        && TrendAnswer(query) == TrendTable()[k].info
        && FindPattern(r, TrendTable()[k].keyword).Some?
        && r[FindPattern(r, TrendTable()[k].keyword).value].solution == TrendAnswer(query)
        && |entries| <= |r| <= |entries| + 1
      case None =>
        r == entries && TrendAnswer(query) == NoTrends
  {
    match FirstMention(TrendTable(), query)
    case Some(k) =>
      var key, info := TrendTable()[k].keyword, TrendTable()[k].info;
      var r := Learned(entries, key, info, "internet", now);
      match FindPattern(entries, key) {
      case Some(i) =>
        LearnExisting(entries, key, info, "internet", now, i);
        assert UniquePatterns(r) by {
          forall a, b | 0 <= a < b < |r| ensures !SamePattern(r[a].pattern, r[b].pattern) {
            assert r[a].pattern == entries[a].pattern && r[b].pattern == entries[b].pattern;
          }
        }
        FindPatternUnique(r, key, i);
      case None =>
        LearnNew(entries, key, info, "internet", now);
        var n := |entries|;
        assert SamePattern(r[n].pattern, key);
        FindPatternUnique(r, key, n) by {
          forall a, b | 0 <= a < b < |r| ensures !SamePattern(r[a].pattern, r[b].pattern) {
            if b == n {
              assert r[a] == entries[a];
            } else {
              assert r[a] == entries[a] && r[b] == entries[b];
            }
          }
        }
      }
    case None =>
  }

  /** `searchInternetTrends` (without its simulated latency): answer the
      query from the table and learn the hit into the store. */
  method SearchInternetTrends(store: KnowledgeStore, query: string, now: int) returns (info: string)
    requires store.Valid()
    modifies store
    ensures store.Valid()
    ensures info == TrendAnswer(query)
    ensures store.entries == AfterSearch(old(store.entries), query, now)
  {
    var table := TrendTable();
    var found := FirstMention(table, query);
    match found {
      case Some(k) =>
        store.Learn(table[k].keyword, table[k].info, "internet", now);
        info := table[k].info;
      case None =>
        info := NoTrends;
    }
  }
}
