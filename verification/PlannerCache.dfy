/** The query planner: explicit override, cached answer, model answer, keyword
    rules, a confidence gate, and a bounded cache of model answers. */
module PlannerCache {
  import opened Sequences

  datatype QueryType = FactualLookup | RelationshipQuery | Summarization | Comparison
  datatype Depth = Shallow | Deep
  datatype Origin = Explicit | Cached | Model | Rule

  /** When retrieval may stop: the type's own condition, or an escalation naming the confidence. */
  datatype Termination =
    | TopSeedsFound
    | GraphDepthReached
    | TopChunksAggregated
    | AllEntitiesResolved
    | Escalated(confidence: real)

  /** A classification with the name of the model that gave it, if any; this is what the cache stores. */
  datatype Answer = Answer(queryType: QueryType, confidence: real, rationale: string, model: Option<string>)

  datatype Plan = Plan(queryType: QueryType, depth: Depth, seedCount: nat, termination: Termination, confidence: real,
    origin: Origin, model: Option<string>, rationale: string)

  datatype Settings = Settings(confidenceHigh: real, confidenceLow: real, confidenceMinimum: real)

  /** Rejected: PlannerClassificationError. Raised: an error of the model call that no handler takes. */
  datatype Outcome = Accepted(plan: Plan) | Rejected(rejected: Plan) | Raised

  /** What a model call does: answer, fail with an error the planner handles, or fail otherwise. */
  datatype ModelCall = NoModel | Answered(answer: Answer) | Failed | Broken

  /** A call by its cache key (query.lower().strip()), with what the model and the keyword rules would say. */
  datatype Call = Call(key: string, override: Option<QueryType>, modelCall: ModelCall, rule: Answer)

  const CACHE_MAXSIZE := 128

  datatype Entry = Entry(key: string, answer: Answer)

  /** The dictionary in insertion order. */
  type Cache = seq<Entry>

  predicate HasKey(cache: Cache, key: string) { exists i :: 0 <= i < |cache| && cache[i].key == key }

  function Lookup(cache: Cache, key: string): Answer
    requires HasKey(cache, key)
  {
    if cache[0].key == key then cache[0].answer else LaterKey(cache, key); Lookup(cache[1..], key)
  }

  lemma LaterKey(cache: Cache, key: string)
    requires HasKey(cache, key) && cache[0].key != key
    ensures HasKey(cache[1..], key)
  {
    var i :| 0 <= i < |cache| && cache[i].key == key;
    assert cache[1..][i - 1] == cache[i];
  }

  function KeyIsNot(key: string): Entry -> bool { (e: Entry) => e.key != key }

  // ---- Plans ----

  function BaseDepth(t: QueryType): (Depth, nat, Termination) {
    match t
    case FactualLookup => (Shallow, 1, TopSeedsFound)
    case RelationshipQuery => (Deep, 2, GraphDepthReached)
    case Summarization => (Deep, 5, TopChunksAggregated)
    case Comparison => (Shallow, 0, AllEntitiesResolved)
  }

  /** _build_plan: a middling confidence escalates. */
  function BuildPlan(settings: Settings, a: Answer, origin: Origin): Plan {
    var (depth, seedCount, termination) := BaseDepth(a.queryType);
    if settings.confidenceLow <= a.confidence < settings.confidenceHigh then
      Plan(a.queryType, Deep, if seedCount < 3 then 3 else seedCount, Escalated(a.confidence), a.confidence,
        origin, a.model, a.rationale)
    else
      Plan(a.queryType, depth, seedCount, termination, a.confidence, origin, a.model, a.rationale)
  }

  /** Exactly a confidence in the middle band escalates, and an escalated plan is deep with at least three seeds. */
  lemma EscalatesExactly(settings: Settings, a: Answer, origin: Origin)
    ensures var plan := BuildPlan(settings, a, origin);
      && (plan.termination.Escalated? <==> settings.confidenceLow <= a.confidence < settings.confidenceHigh)
      && (plan.termination.Escalated? ==> plan.depth == Deep && plan.seedCount >= 3)
      && plan.seedCount >= BaseDepth(a.queryType).1
  {
  }

  /** _check_confidence without an override */
  function Gate(settings: Settings, plan: Plan): Outcome {
    if plan.confidence < settings.confidenceMinimum then Rejected(plan) else Accepted(plan)
  }

  // ---- One call ----

  function TypeName(t: QueryType): string {
    match t
    case FactualLookup => "factual_lookup"
    case RelationshipQuery => "relationship_query"
    case Summarization => "summarization"
    case Comparison => "comparison"
  }

  function OverrideAnswer(t: QueryType): Answer { Answer(t, 1.0, "explicit type override: " + TypeName(t), None) }

  predicate Hits(cache: Cache, c: Call) { c.override.None? && HasKey(cache, c.key) }

  predicate Fills(cache: Cache, c: Call) { c.override.None? && !HasKey(cache, c.key) && c.modelCall.Answered? }

  function OutcomeOf(settings: Settings, cache: Cache, c: Call): Outcome {
    if c.override.Some? then
      Accepted(BuildPlan(settings, OverrideAnswer(c.override.value), Explicit))
    else if HasKey(cache, c.key) then Gate(settings, BuildPlan(settings, Lookup(cache, c.key), Cached))
    else
      match c.modelCall
      case Answered(a) => Gate(settings, BuildPlan(settings, a, Model))
      case Broken => Raised
      case _ => Gate(settings, BuildPlan(settings, c.rule, Rule))
  }

  class QueryPlanner {
    const settings: Settings
    var cache: Cache

    constructor (settings: Settings)
      ensures this.settings == settings && cache == []
    {
      this.settings := settings;
      cache := [];
    }

    /** _cache_put: a known key moves to the end, a new one pushes the oldest entry out of a full cache. */
    method CachePut(key: string, answer: Answer)
      requires |cache| <= CACHE_MAXSIZE
      modifies this
      ensures cache == if HasKey(old(cache), key) then Keep(KeyIsNot(key), old(cache)) + [Entry(key, answer)]
                       else LastEntries(old(cache) + [Entry(key, answer)])
    {
      if HasKey(cache, key) {
        cache := Keep(KeyIsNot(key), cache);
      } else if |cache| >= CACHE_MAXSIZE {
        cache := cache[1..];
      }
      cache := cache + [Entry(key, answer)];
    }

    /** classify_query */
    method ClassifyQuery(c: Call) returns (outcome: Outcome)
      requires |cache| <= CACHE_MAXSIZE
      modifies this
      ensures outcome == OutcomeOf(settings, old(cache), c)
      ensures cache == AfterCall(old(cache), c)
    {
      if c.override.Some? {
        return Accepted(BuildPlan(settings, OverrideAnswer(c.override.value), Explicit));
      }
      if HasKey(cache, c.key) {
        return Gate(settings, BuildPlan(settings, Lookup(cache, c.key), Cached));
      }
      if c.modelCall.Broken? {
        return Raised;
      }
      if c.modelCall.Answered? {
        CachePut(c.key, c.modelCall.answer);
        return Gate(settings, BuildPlan(settings, c.modelCall.answer, Model));
      }
      return Gate(settings, BuildPlan(settings, c.rule, Rule));
    }
  }

  function LastEntries(entries: seq<Entry>): Cache {
    if |entries| <= CACHE_MAXSIZE then entries else entries[|entries| - CACHE_MAXSIZE..]
  }

  /** Only a model answer for an unknown key changes the cache. */
  function AfterCall(cache: Cache, c: Call): Cache {
    if Fills(cache, c) then LastEntries(cache + [Entry(c.key, c.modelCall.answer)]) else cache
  }

  // ---- Any sequence of calls ----

  function CacheAfter(calls: seq<Call>): Cache {
    if calls == [] then [] else AfterCall(CacheAfter(calls[..|calls| - 1]), calls[|calls| - 1])
  }

  /** Every model answer the calls stored, in order. */
  function FillsOf(calls: seq<Call>): seq<Entry> {
    if calls == [] then []
    else
      var n := |calls| - 1;
      FillsOf(calls[..n])
        + if Fills(CacheAfter(calls[..n]), calls[n]) then [Entry(calls[n].key, calls[n].modelCall.answer)] else []
  }

  predicate KeysDiffer(cache: Cache) { forall i, j :: 0 <= i < j < |cache| ==> cache[i].key != cache[j].key }

  /** First in, first out: the cache is the last 128 fills, in fill order, under distinct keys. */
  lemma {:induction false} CacheIsLastFills(calls: seq<Call>)
    ensures CacheAfter(calls) == LastEntries(FillsOf(calls))
    ensures KeysDiffer(CacheAfter(calls)) && |CacheAfter(calls)| <= CACHE_MAXSIZE
  {
    if calls == [] {
    } else {
      var n := |calls| - 1;
      CacheIsLastFills(calls[..n]);
      var cache, fills, c := CacheAfter(calls[..n]), FillsOf(calls[..n]), calls[n];
      if Fills(cache, c) {
        LastOfLast(fills, Entry(c.key, c.modelCall.answer));
        KeysStayApart(cache, Entry(c.key, c.modelCall.answer));
      } else {
        assert FillsOf(calls) == fills;
      }
    }
  }

  lemma LastOfLast(entries: seq<Entry>, e: Entry)
    ensures LastEntries(LastEntries(entries) + [e]) == LastEntries(entries + [e])
  {
  }

  lemma KeysStayApart(cache: Cache, e: Entry)
    requires KeysDiffer(cache) && !HasKey(cache, e.key)
    ensures KeysDiffer(LastEntries(cache + [e]))
  {
  }

  /** What a call leaves under a key is what it filled in, or was there before. */
  lemma EntryAfterCall(cache: Cache, c: Call, key: string)
    requires KeysDiffer(cache) && |cache| <= CACHE_MAXSIZE && KeysDiffer(AfterCall(cache, c))
    requires HasKey(AfterCall(cache, c), key)
    ensures var now := Lookup(AfterCall(cache, c), key);
      || (Fills(cache, c) && c.key == key && now == c.modelCall.answer)
      || (HasKey(cache, key) && Lookup(cache, key) == now)
  {
    var after := AfterCall(cache, c);
    var i :| 0 <= i < |after| && after[i].key == key;
    LookupIsEntry(after, i);
    if Fills(cache, c) && i < |after| - 1 {
      var j := if |cache| == CACHE_MAXSIZE then i + 1 else i;
      assert cache[j] == after[i];
      LookupIsEntry(cache, j);
    }
  }

  /** The call that stored what the cache holds for a key. */
  lemma {:induction false} EntryWasFilled(calls: seq<Call>, key: string) returns (m: nat)
    requires HasKey(CacheAfter(calls), key)
    ensures m < |calls| && calls[m].key == key && Fills(CacheAfter(calls[..m]), calls[m])
    ensures calls[m].modelCall.answer == Lookup(CacheAfter(calls), key)
  {
    var n := |calls| - 1;
    var cache, c := CacheAfter(calls[..n]), calls[n];
    CacheIsLastFills(calls[..n]);
    CacheIsLastFills(calls);
    hide AfterCall, LastEntries, Lookup, FillsOf, KeysDiffer, HasKey;
    EntryAfterCall(cache, c, key);
    if Fills(cache, c) && c.key == key && Lookup(CacheAfter(calls), key) == c.modelCall.answer {
      m := n;
    } else {
      m := EntryWasFilled(calls[..n], key);
      assert calls[..n][..m] == calls[..m];
    }
  }

  lemma {:induction false} LookupIsEntry(cache: Cache, i: nat)
    requires KeysDiffer(cache) && i < |cache|
    ensures HasKey(cache, cache[i].key) && Lookup(cache, cache[i].key) == cache[i].answer
  {
    if i == 0 {
    } else {
      assert cache[1..][i - 1] == cache[i];
      LookupIsEntry(cache[1..], i - 1);
    }
  }

  /** Accept or reject, type, depth, seed count and confidence; only the origin may differ. */
  predicate SameDecision(a: Outcome, b: Outcome) {
    match (a, b)
    case (Accepted(p), Accepted(q)) => p == q.(origin := p.origin)
    case (Rejected(p), Rejected(q)) => p == q.(origin := p.origin)
    case _ => false
  }

  /** A hit decides as the call that filled the entry did, rejections included. */
  lemma HitRepeatsFill(settings: Settings, calls: seq<Call>, n: nat) returns (m: nat)
    requires n < |calls| && Hits(CacheAfter(calls[..n]), calls[n])
    ensures m < n && calls[m].key == calls[n].key && Fills(CacheAfter(calls[..m]), calls[m])
    ensures SameDecision(OutcomeOf(settings, CacheAfter(calls[..m]), calls[m]),
                         OutcomeOf(settings, CacheAfter(calls[..n]), calls[n]))
  {
    m := EntryWasFilled(calls[..n], calls[n].key);
    assert calls[..n][..m] == calls[..m];
  }

  /** A hit does not refresh its entry: with a full cache, asking the oldest key again and then a
      new one drops the oldest key all the same. */
  lemma HitsDoNotRefresh(calls: seq<Call>, again: Call, other: Call)
    requires |CacheAfter(calls)| == CACHE_MAXSIZE
    requires again.override.None? && again.key == CacheAfter(calls)[0].key
    requires Fills(CacheAfter(calls), other)
    ensures Hits(CacheAfter(calls), again)
    ensures !HasKey(CacheAfter(calls + [again, other]), again.key)
  {
    var cache := CacheAfter(calls);
    CacheIsLastFills(calls);
    LookupIsEntry(cache, 0);
    assert calls + [again, other] == (calls + [again]) + [other];
    assert (calls + [again])[..|calls|] == calls;
    assert ((calls + [again]) + [other])[..|calls| + 1] == calls + [again];
    assert CacheAfter(calls + [again]) == cache;
    assert CacheAfter(calls + [again, other]) == cache[1..] + [Entry(other.key, other.modelCall.answer)];
  }
}
