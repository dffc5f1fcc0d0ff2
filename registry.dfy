/** The engine registry: engines registered by id, and a search that runs every
    enabled engine, weights what each returns, gathers the outputs in completion
    order and hands them to the aggregator. */
module Registry {
  import opened Wrappers
  import opened Models
  import opened Config
  import Aggregator
  import Google
  import Bing
  import DuckDuckGo
  import Wikipedia
  import Qwant
  import Reddit

  /** The engines that can be registered. */
  datatype Provider =
    | GoogleEngine | BingEngine | DuckDuckGoEngine | WikipediaEngine | QwantEngine | RedditEngine
  {
    /** `SearchEngine::id`. */
    function Id(): string {
      match this
      case GoogleEngine => Google.Id
      case BingEngine => Bing.Id
      case DuckDuckGoEngine => DuckDuckGo.Id
      case WikipediaEngine => Wikipedia.Id
      case QwantEngine => Qwant.Id
      case RedditEngine => Reddit.Id
    }
  }

  /** No two engines share an id, so registering one never evicts another. */
  lemma IdsDistinct(p: Provider, q: Provider)
    ensures p.Id() == q.Id() <==> p == q
  {
  }

  /** How one engine's search went, as its spawned task sees it: it finished
      within the engine's timeout with a result, it ran out of time, or the spawned task
      itself failed (a panic), which `join_next` reports as a join error. */
  datatype Outcome =
    | Finished(result: Result<seq<SearchResult>, EngineError>)
    | TimedOut
    | Panicked

  predicate Succeeded(outcome: Outcome) {
    outcome.Finished? && outcome.result.Ok?
  }

  /** Every result with its score multiplied by the engine's weight. */
  function Weighted(rs: seq<SearchResult>, weight: real): seq<SearchResult> {
    seq(|rs|, i requires 0 <= i < |rs| => rs[i].(score := rs[i].score * weight))
  }

  /** Weighting changes the score and nothing else: same results, same order. */
  lemma WeightedKeepsResults(rs: seq<SearchResult>, weight: real)
    ensures |Weighted(rs, weight)| == |rs|
    ensures forall i :: 0 <= i < |rs| ==>
      && Weighted(rs, weight)[i].url == rs[i].url
      && Weighted(rs, weight)[i].title == rs[i].title
      && Weighted(rs, weight)[i].content == rs[i].content
      && Weighted(rs, weight)[i].engines == rs[i].engines
      && Weighted(rs, weight)[i].metadata == rs[i].metadata
      && Weighted(rs, weight)[i].score == rs[i].score * weight
    ensures Aggregator.Urls(Weighted(rs, weight)) == Aggregator.Urls(rs)
  {
    var w := Weighted(rs, weight);
    forall u | u in Aggregator.Urls(rs) ensures u in Aggregator.Urls(w) {
      var i :| 0 <= i < |rs| && rs[i].url == u;
      assert w[i] in w;
    }
  }

  /** The default weight 1.0 leaves the results as the engine returned them. */
  lemma UnitWeight(rs: seq<SearchResult>)
    ensures Weighted(rs, 1.0) == rs
  {
  }

  /** A positive weight keeps the engine's own ranking of its results. */
  lemma PositiveWeightKeepsRanking(rs: seq<SearchResult>, weight: real, i: int, j: int)
    requires weight > 0.0 && 0 <= i < |rs| && 0 <= j < |rs|
    ensures rs[i].score < rs[j].score <==> Weighted(rs, weight)[i].score < Weighted(rs, weight)[j].score
  {
    var w := Weighted(rs, weight);
    assert w[i].score == rs[i].score * weight && w[j].score == rs[j].score * weight;
    if rs[i].score < rs[j].score {
      assert (rs[j].score - rs[i].score) * weight > 0.0;
    } else {
      assert (rs[i].score - rs[j].score) * weight >= 0.0;
    }
  }

  /** The weighting loop of the spawned task, updating each result in place. */
  method ApplyWeight(results: seq<SearchResult>, weight: real) returns (weighted: seq<SearchResult>)
    ensures weighted == Weighted(results, weight)
  {
    weighted := results;
    for i := 0 to |weighted|
      invariant |weighted| == |results|
      invariant forall k :: 0 <= k < i ==> weighted[k] == results[k].(score := results[k].score * weight)
      invariant forall k :: i <= k < |weighted| ==> weighted[k] == results[k]
    {
      weighted := weighted[i := weighted[i].(score := weighted[i].score * weight)];
    }
    assert forall k :: 0 <= k < |results| ==> weighted[k] == Weighted(results, weight)[k];
  }

  /** What a spawned task hands to `join_next`: the weighted results on success,
      nothing on an engine error or a timeout (both logged), and no vector at
      all when the spawned task failed. */
  function TaskOutput(config: EngineConfig, outcome: Outcome): Option<seq<SearchResult>> {
    match outcome
    case Finished(Ok(rs)) => Some(Weighted(rs, config.weight))
    case Finished(Err(_)) => Some([])
    case TimedOut => Some([])
    case Panicked => None
  }

  /** The spawned task: wait for the engine (its outcome is given), then weight. */
  method RunTask(config: EngineConfig, outcome: Outcome) returns (output: Option<seq<SearchResult>>)
    ensures output == TaskOutput(config, outcome)
  {
    match outcome {
      case Finished(result) =>
        match result {
          case Ok(results) =>
            var weighted := ApplyWeight(results, config.weight);
            output := Some(weighted);
          case Err(_) =>
            output := Some([]);
        }
      case TimedOut =>
        output := Some([]);
      case Panicked =>
        output := None;
    }
  }

  /** What engine `id` adds to the raw results once its task is joined. */
  function Output(engines: map<string, Provider>, settings: map<string, EngineConfig>,
                  outcomeOf: Provider -> Outcome, id: string): seq<SearchResult>
  {
    if id in engines then TaskOutput(ConfigFor(settings, id), outcomeOf(engines[id])).GetOr([]) else []
  }

  /** A failed, timed-out or panicked engine adds nothing; a successful one adds
      exactly its own results, reweighted. */
  lemma OutputRule(engines: map<string, Provider>, settings: map<string, EngineConfig>,
                   outcomeOf: Provider -> Outcome, id: string)
    requires id in engines
    ensures !Succeeded(outcomeOf(engines[id])) ==> Output(engines, settings, outcomeOf, id) == []
    ensures Succeeded(outcomeOf(engines[id])) ==>
      Output(engines, settings, outcomeOf, id)
        == Weighted(outcomeOf(engines[id]).result.value, ConfigFor(settings, id).weight)
  {
  }

  /** The raw results: the outputs of the engines in the order their tasks were joined. */
  function Gather(engines: map<string, Provider>, settings: map<string, EngineConfig>,
                  outcomeOf: Provider -> Outcome, order: seq<string>): seq<SearchResult>
    decreases |order|
  {
    if order == [] then []
    else
      var earlier := Gather(engines, settings, outcomeOf, order[..|order| - 1]);
      earlier + Output(engines, settings, outcomeOf, order[|order| - 1])
  }

  /** A URL is among the raw results exactly when one of the joined engines output it. */
  lemma {:induction false} GatherUrls(engines: map<string, Provider>, settings: map<string, EngineConfig>,
                                      outcomeOf: Provider -> Outcome, order: seq<string>, u: string)
    ensures u in Aggregator.Urls(Gather(engines, settings, outcomeOf, order)) <==>
      exists i :: 0 <= i < |order| && u in Aggregator.Urls(Output(engines, settings, outcomeOf, order[i]))
    decreases |order|
  {
    if order != [] {
      var init := order[..|order| - 1];
      var last := order[|order| - 1];
      var g := Gather(engines, settings, outcomeOf, init);
      var o := Output(engines, settings, outcomeOf, last);
      GatherUrls(engines, settings, outcomeOf, init, u);
      assert Aggregator.Urls(g + o) == Aggregator.Urls(g) + Aggregator.Urls(o) by {
        forall r | r in g + o ensures r in g || r in o { }
      }
      if exists i :: 0 <= i < |order| && u in Aggregator.Urls(Output(engines, settings, outcomeOf, order[i])) {
        var i :| 0 <= i < |order| && u in Aggregator.Urls(Output(engines, settings, outcomeOf, order[i]));
        if i < |order| - 1 {
          assert order[i] == init[i];
        }
      }
    }
  }

  /** Engine `id` is registered, enabled, succeeded, and returned a result for `u`. */
  ghost predicate Supplied(engines: map<string, Provider>, settings: map<string, EngineConfig>,
                           outcomeOf: Provider -> Outcome, id: string, u: string)
  {
    && id in engines
    && ConfigFor(settings, id).enabled
    && Succeeded(outcomeOf(engines[id]))
    && u in Aggregator.Urls(outcomeOf(engines[id]).result.value)
  }

  ghost predicate Distinct(ids: seq<string>) {
    forall i, j :: 0 <= i < j < |ids| ==> ids[i] != ids[j]
  }

  class EngineRegistry {
    var engines: map<string, Provider>
    /** The `engines` table of the settings. */
    const settings: map<string, EngineConfig>

    /** Every engine is stored under its own id. */
    ghost predicate Valid()
      reads this
    {
      forall id :: id in engines ==> engines[id].Id() == id
    }

    /** `EngineRegistry::new`: no engines yet. */
    constructor (settings: map<string, EngineConfig>)
      ensures Valid()
      ensures engines == map[] && this.settings == settings
    {
      engines := map[];
      this.settings := settings;
    }

    /** `register_engine`: stores the engine under its id, replacing an engine
        already registered under that id. */
    method RegisterEngine(engine: Provider)
      requires Valid()
      modifies this
      ensures Valid()
      ensures engines == old(engines)[engine.Id() := engine]
    {
      engines := engines[engine.Id() := engine];
    }

    /** `search`: runs every enabled engine once (each engine's outcome for
        this query is given by `outcomeOf`), gathers their outputs in the
        completion order `order`, and aggregates them. A URL comes out exactly
        when some enabled engine succeeded and returned it; each comes out once,
        as the best-scored (weighted) copy, in non-increasing score order.
        Since every engine is stored under its own id, the settings looked up
        by the table key are the engine's own. */
    method Search(outcomeOf: Provider -> Outcome)
      returns (out: seq<SearchResult>, ghost order: seq<string>, ghost raw: seq<SearchResult>)
      requires Valid()
      ensures Distinct(order)
      ensures forall id :: id in order ==> id in engines && engines[id].Id() == id
      ensures forall id :: id in order <==> id in engines && ConfigFor(settings, id).enabled
      ensures raw == Gather(engines, settings, outcomeOf, order)
      ensures Aggregator.SortedByScoreDesc(out) && Aggregator.DistinctUrls(out)
      ensures Aggregator.EachFirstBest(raw, out)
      ensures forall u :: u in Aggregator.Urls(out) <==>
        exists id :: Supplied(engines, settings, outcomeOf, id, u)
    {
      var tasks := SpawnAll(outcomeOf);
      var gathered;
      gathered, order := JoinAll(outcomeOf, tasks);
      raw := gathered;
      out := Aggregator.Aggregate(gathered);
      forall u ensures u in Aggregator.Urls(out) <==> exists id :: Supplied(engines, settings, outcomeOf, id, u) {
        GatherUrls(engines, settings, outcomeOf, order, u);
        SuppliedIffOutput(outcomeOf, order, u);
      }
    }

    /** The spawning loop: one task per enabled engine, the engines visited in
        any order; each task's output is what it will hand back when joined. */
    method SpawnAll(outcomeOf: Provider -> Outcome) returns (tasks: map<string, Option<seq<SearchResult>>>)
      ensures forall id :: id in tasks <==> id in engines && ConfigFor(settings, id).enabled
      ensures forall id :: id in tasks ==> tasks[id] == TaskOutput(ConfigFor(settings, id), outcomeOf(engines[id]))
    {
      tasks := map[];
      var unvisited := engines.Keys;
      while unvisited != {}
        invariant unvisited <= engines.Keys
        invariant forall id :: id in tasks <==> id in engines && id !in unvisited && ConfigFor(settings, id).enabled
        invariant forall id :: id in tasks ==> tasks[id] == TaskOutput(ConfigFor(settings, id), outcomeOf(engines[id]))
        decreases |unvisited|
      {
        var id :| id in unvisited;
        unvisited := unvisited - {id};
        var config := ConfigFor(settings, id);
        if !config.enabled {
          continue;
        }
        var output := RunTask(config, outcomeOf(engines[id]));
        tasks := tasks[id := output];
      }
    }

    /** The joining loop: tasks complete in any order `order`; a task's vector
        extends the raw results and a join error adds nothing. */
    method JoinAll(outcomeOf: Provider -> Outcome, tasks: map<string, Option<seq<SearchResult>>>)
      returns (raw: seq<SearchResult>, ghost order: seq<string>)
      requires forall id :: id in tasks ==> id in engines
      requires forall id :: id in tasks ==> tasks[id] == TaskOutput(ConfigFor(settings, id), outcomeOf(engines[id]))
      ensures Distinct(order)
      ensures forall id :: id in order <==> id in tasks
      ensures raw == Gather(engines, settings, outcomeOf, order)
    {
      raw := [];
      order := [];
      var pending := tasks.Keys;
      while pending != {}
        invariant pending <= tasks.Keys
        invariant forall id :: id in order <==> id in tasks && id !in pending
        invariant Distinct(order)
        invariant raw == Gather(engines, settings, outcomeOf, order)
        decreases |pending|
      {
        var id :| id in pending;
        pending := pending - {id};
        assert (order + [id])[..|order|] == order;
        match tasks[id] {
          case Some(results) => raw := raw + results;
          case None =>
        }
        order := order + [id];
      }
    }

    /** Over the enabled engines, a URL is in some engine's output exactly when
        that engine supplied it. */
    lemma SuppliedIffOutput(outcomeOf: Provider -> Outcome, order: seq<string>, u: string)
      requires forall id :: id in order <==> id in engines && ConfigFor(settings, id).enabled
      ensures (exists i :: 0 <= i < |order| && u in Aggregator.Urls(Output(engines, settings, outcomeOf, order[i])))
        <==> exists id :: Supplied(engines, settings, outcomeOf, id, u)
    {
      if exists i :: 0 <= i < |order| && u in Aggregator.Urls(Output(engines, settings, outcomeOf, order[i])) {
        var i :| 0 <= i < |order| && u in Aggregator.Urls(Output(engines, settings, outcomeOf, order[i]));
        var id := order[i];
        assert id in order;
        OutputRule(engines, settings, outcomeOf, id);
        WeightedKeepsResults(outcomeOf(engines[id]).result.value, ConfigFor(settings, id).weight);
        assert Supplied(engines, settings, outcomeOf, id, u);
      }
      if exists id :: Supplied(engines, settings, outcomeOf, id, u) {
        var id :| Supplied(engines, settings, outcomeOf, id, u);
        assert id in order;
        var i :| 0 <= i < |order| && order[i] == id;
        OutputRule(engines, settings, outcomeOf, id);
        WeightedKeepsResults(outcomeOf(engines[id]).result.value, ConfigFor(settings, id).weight);
      }
    }
  }
}
