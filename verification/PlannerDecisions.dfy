/** What the planner decides for a call, read off the call, the cache and the
    settings. */
module PlannerDecisions {
  import opened Sequences
  import opened PlannerCache

  /** Depth, seeds and termination by type; a confidence in the middle band makes the plan deep, with three seeds
      at least. Everything else of the plan is the answer's. */
  lemma PlansAre(settings: Settings, a: Answer, origin: Origin)
    ensures var plan := BuildPlan(settings, a, origin);
      && plan.queryType == a.queryType && plan.confidence == a.confidence && plan.origin == origin
      && plan.model == a.model && plan.rationale == a.rationale
    ensures var plan := BuildPlan(settings, a, origin);
      settings.confidenceLow <= a.confidence < settings.confidenceHigh ==>
        && plan.depth == Deep && plan.termination == Escalated(a.confidence)
        && plan.seedCount == if a.queryType.Summarization? then 5 else 3
    ensures var plan := BuildPlan(settings, a, origin);
      !(settings.confidenceLow <= a.confidence < settings.confidenceHigh) ==>
        match a.queryType
        case FactualLookup => plan.depth == Shallow && plan.seedCount == 1 && plan.termination == TopSeedsFound
        case RelationshipQuery => plan.depth == Deep && plan.seedCount == 2 && plan.termination == GraphDepthReached
        case Summarization => plan.depth == Deep && plan.seedCount == 5 && plan.termination == TopChunksAggregated
        case Comparison => plan.depth == Shallow && plan.seedCount == 0 && plan.termination == AllEntitiesResolved
  {
  }

  /** The first cache entry of a key, if any. */
  function Remembered(cache: Cache, key: string): Option<Answer> {
    if cache == [] then None
    else if cache[0].key == key then Some(cache[0].answer) else Remembered(cache[1..], key)
  }

  lemma {:induction false} RememberedIs(cache: Cache, key: string)
    ensures HasKey(cache, key) <==> Remembered(cache, key).Some?
    ensures HasKey(cache, key) ==> Lookup(cache, key) == Remembered(cache, key).value
  {
    if cache == [] {
    } else {
      RememberedIs(cache[1..], key);
      assert forall i :: 0 < i < |cache| ==> cache[i] == cache[1..][i - 1];
      if HasKey(cache, key) && cache[0].key != key {
        var i :| 0 <= i < |cache| && cache[i].key == key;
        assert cache[1..][i - 1].key == key;
      }
      if HasKey(cache[1..], key) {
        var i :| 0 <= i < |cache[1..]| && cache[1..][i].key == key;
        assert cache[i + 1].key == key;
      }
    }
  }

  /** Which answer decides a call, and where it comes from: the caller's type, the cache, the model, or the keyword
      rules when there is no model or its call failed. */
  function Deciding(cache: Cache, c: Call): Option<(Answer, Origin)> {
    if c.override.Some? then
      var name := match c.override.value
        case FactualLookup => "factual_lookup"
        case RelationshipQuery => "relationship_query"
        case Summarization => "summarization"
        case Comparison => "comparison";
      Some((Answer(c.override.value, 1.0, "explicit type override: " + name, None), Explicit))
    else if Remembered(cache, c.key).Some? then Some((Remembered(cache, c.key).value, Cached))
    else match c.modelCall
      case Answered(a) => Some((a, Model))
      case Broken => None
      case Failed => Some((c.rule, Rule))
      case NoModel => Some((c.rule, Rule))
  }

  /** The call raises exactly when nothing decides it; it is rejected exactly when the caller forces no type and the
      deciding confidence is below the minimum; either way the plan is the deciding answer's. */
  lemma DecidesExactly(settings: Settings, cache: Cache, c: Call)
    ensures var outcome := OutcomeOf(settings, cache, c);
      && (outcome.Raised? <==> Deciding(cache, c).None?)
      && (Deciding(cache, c).Some? ==>
            var (a, origin) := Deciding(cache, c).value;
            && (outcome.Rejected? <==> c.override.None? && a.confidence < settings.confidenceMinimum)
            && (outcome.Accepted? ==> outcome.plan == BuildPlan(settings, a, origin))
            && (outcome.Rejected? ==> outcome.rejected == BuildPlan(settings, a, origin)))
  {
    RememberedIs(cache, c.key);
    hide Lookup, HasKey;
  }

  /** After a call the cache has one entry more, of the model's answer to a key it did not know, and then keeps its
      last 128; otherwise it is as before. */
  lemma CacheAfterCall(cache: Cache, c: Call)
    requires |cache| <= 128
    ensures var learns := c.override.None? && Remembered(cache, c.key).None? && c.modelCall.Answered?;
      && (!learns ==> AfterCall(cache, c) == cache)
      && (learns && |cache| < 128 ==> AfterCall(cache, c) == cache + [Entry(c.key, c.modelCall.answer)])
      && (learns && |cache| == 128 ==> AfterCall(cache, c) == cache[1..] + [Entry(c.key, c.modelCall.answer)])
  {
    RememberedIs(cache, c.key);
  }
}
