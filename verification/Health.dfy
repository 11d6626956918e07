/** Endpoint health: threshold hysteresis, and agreement with every copy in the route table. */
module Health {
  import opened Routing

  // ---------------------------------------------------------------- one endpoint's counters

  datatype Thresholds = Thresholds(failure: nat, success: nat)

  predicate ValidThresholds(t: Thresholds) { t.failure > 0 && t.success > 0 }

  datatype Counter = Counter(healthy: bool, failures: nat, successes: nat)

  const FRESH: Counter := Counter(true, 0, 0)

  function Step(t: Thresholds, c: Counter, success: bool): Counter {
    if success then
      Counter(c.healthy || c.successes + 1 >= t.success, 0, c.successes + 1)
    else
      Counter(c.healthy && c.failures + 1 < t.failure, c.failures + 1, 0)
  }

  function After(t: Thresholds, results: seq<bool>): Counter {
    if results == [] then FRESH else Step(t, After(t, results[..|results| - 1]), results[|results| - 1])
  }

  /** How often the flag has changed. */
  function Transitions(t: Thresholds, results: seq<bool>): nat {
    if results == [] then 0
    else
      var before := results[..|results| - 1];
      Transitions(t, before) + if After(t, before).healthy == After(t, results).healthy then 0 else 1
  }

  /** The fewest results that can make `k` changes, starting healthy. */
  function Needed(t: Thresholds, k: nat): nat { (k + 1) / 2 * t.failure + k / 2 * t.success }

  lemma NeededStep(t: Thresholds, k: nat)
    ensures Needed(t, k + 1) == Needed(t, k) + if k % 2 == 0 then t.failure else t.success
  {
    if k % 2 == 0 {
      var h := k / 2;
      assert (k + 1) / 2 == h && (k + 2) / 2 == h + 1;
    } else {
      var h := k / 2;
      assert (k + 1) / 2 == h + 1 && (k + 2) / 2 == h + 1;
    }
  }

  /** Results so far pay for the changes so far and for the run towards the next one. */
  lemma {:induction false} ChangesArePaidFor(t: Thresholds, results: seq<bool>)
    requires ValidThresholds(t)
    ensures var c, k := After(t, results), Transitions(t, results);
            && (c.healthy <==> k % 2 == 0)
            && |results| >= Needed(t, k) + (if c.healthy then c.failures else c.successes)
            && (c.healthy ==> c.failures < t.failure) && (!c.healthy ==> c.successes < t.success)
    decreases |results|
  {
    hide Needed;
    NothingNeeded(t);
    if results != [] {
      var before := results[..|results| - 1];
      ChangesArePaidFor(t, before);
      NeededStep(t, Transitions(t, before));
    }
  }

  /** Hysteresis: `k` changes of one endpoint take at least this many results. */
  lemma Hysteresis(t: Thresholds, results: seq<bool>)
    requires ValidThresholds(t)
    ensures |results| >= Needed(t, Transitions(t, results))
  {
    ChangesArePaidFor(t, results);
  }

  /** The last `n` results are all this one. */
  predicate EndsWith(results: seq<bool>, result: bool, n: nat) {
    n <= |results| && forall i | |results| - n <= i < |results| :: results[i] == result
  }

  /** The counters are the lengths of the runs of equal results at the end: each counts as far back
  as the last result of the other kind, and no further. */
  lemma {:induction false} CountersAreRuns(t: Thresholds, results: seq<bool>)
    ensures var c := After(t, results);
            && (forall n: nat :: EndsWith(results, false, n) <==> n <= c.failures)
            && (forall n: nat :: EndsWith(results, true, n) <==> n <= c.successes)
    decreases |results|
  {
    if results != [] {
      var before := results[..|results| - 1];
      CountersAreRuns(t, before);
      forall result, n: nat ensures EndsWith(results, result, n) <==>
                               n == 0 || (results[|results| - 1] == result && EndsWith(before, result, n - 1)) {
        OneMoreResult(results, result, n);
      }
    }
  }

  lemma OneMoreResult(results: seq<bool>, result: bool, n: nat)
    requires results != []
    ensures EndsWith(results, result, n) <==>
            n == 0 || (results[|results| - 1] == result && EndsWith(results[..|results| - 1], result, n - 1))
  {
    if n > 0 && results[|results| - 1] == result && EndsWith(results[..|results| - 1], result, n - 1) {
      forall i | |results| - n <= i < |results| ensures results[i] == result {
        assert i < |results| - 1 ==> results[..|results| - 1][i] == result;
      }
    }
  }

  /** An endpoint starts healthy, and its flag changes at a result if and only if that result
  completes a run of as many equal ones as the threshold asks: failures while it is healthy,
  successes while it is not. Any result of the other kind in between starts the run again. */
  lemma FlagChangesExactly(t: Thresholds, results: seq<bool>)
    requires ValidThresholds(t)
    ensures After(t, []).healthy
    ensures results != [] ==>
              var was, now := After(t, results[..|results| - 1]).healthy, After(t, results).healthy;
              now != was <==> if was then EndsWith(results, false, t.failure) else EndsWith(results, true, t.success)
  {
    hide EndsWith;
    CountersAreRuns(t, results);
  }

  function Repeat(result: bool, count: nat): (r: seq<bool>)
    ensures |r| == count
  {
    seq(count, _ => result)
  }

  lemma NothingNeeded(t: Thresholds)
    ensures Needed(t, 0) == 0
  {
  }

  /** Failures up to the threshold, then successes up to theirs, and so on. */
  function Alternating(t: Thresholds, k: nat): seq<bool> {
    if k == 0 then [] else Alternating(t, k - 1) + if k % 2 == 1 then Repeat(false, t.failure) else Repeat(true, t.success)
  }

  lemma AlternatingStep(t: Thresholds, k: nat, result: bool)
    requires k > 0 && result == (k % 2 == 0)
    ensures Alternating(t, k) == Alternating(t, k - 1) + Repeat(result, if result then t.success else t.failure)
    ensures (k - 1) % 2 == 0 <==> !result
  {
    hide Repeat;
  }

  /** `results` make `k` changes, and are as few as that takes; nothing counts towards another. */
  predicate Fewest(t: Thresholds, results: seq<bool>, k: nat, healthy: bool) {
    && |results| == Needed(t, k) && Transitions(t, results) == k
    && After(t, results).healthy == healthy
    && (if healthy then After(t, results).failures else After(t, results).successes) == 0
  }

  lemma OneMoreChange(t: Thresholds, results: seq<bool>, k: nat, healthy: bool)
    requires ValidThresholds(t) && Fewest(t, results, k, healthy) && (healthy <==> k % 2 == 0)
    ensures Fewest(t, results + Repeat(!healthy, if healthy then t.failure else t.success), k + 1, !healthy)
  {
    hide Needed, After, Transitions;
    NeededStep(t, k);
    RunOfResults(t, results, !healthy, if healthy then t.failure else t.success);
  }

  /** The bound is exact: for every `k` some results make `k` changes and are as few as that. */
  lemma {:induction false} HysteresisIsTight(t: Thresholds, k: nat)
    requires ValidThresholds(t)
    ensures Fewest(t, Alternating(t, k), k, k % 2 == 0)
    decreases k
  {
    if k == 0 {
      NothingNeeded(t);
    } else {
      hide Fewest, Repeat, Alternating;
      AlternatingStep(t, k, k % 2 == 0);
      HysteresisIsTight(t, k - 1);
      OneMoreChange(t, Alternating(t, k - 1), k - 1, (k - 1) % 2 == 0);
    }
  }

  /** A run of equal results: no change before the threshold is reached, one when it is. */
  lemma {:induction false} RunOfResults(t: Thresholds, before: seq<bool>, result: bool, count: nat)
    requires ValidThresholds(t) && After(t, before).healthy == !result
    requires if result then After(t, before).successes == 0 else After(t, before).failures == 0
    requires count <= if result then t.success else t.failure
    ensures var c, all := After(t, before + Repeat(result, count)), count == if result then t.success else t.failure;
            && c.healthy == (if all then result else !result)
            && (if result then c.successes else c.failures) == count
            && (count > 0 ==> (if result then c.failures else c.successes) == 0)
            && Transitions(t, before + Repeat(result, count)) == Transitions(t, before) + if all then 1 else 0
    decreases count
  {
    var results := before + Repeat(result, count);
    if count == 0 {
      assert results == before;
    } else {
      assert results[..|results| - 1] == before + Repeat(result, count - 1);
      RunOfResults(t, before, result, count - 1);
    }
  }

  // ---------------------------------------------------------------- every copy of an endpoint

  lemma {:induction false} AllWithHealth(before: seq<RouteState>, after: seq<RouteState>, address: string, port: nat, healthy: bool)
    requires |before| == |after|
    requires forall i | 0 <= i < |before| ::
               after[i] == before[i].(definition := RouteWithHealth(before[i].definition, address, port, healthy))
    ensures AllUpstreams(after) == WithHealth(AllUpstreams(before), address, port, healthy)
    decreases |before|
  {
    if before != [] {
      var n := |before| - 1;
      AllWithHealth(before[..n], after[..n], address, port, healthy);
      assert AllUpstreams(before) == AllUpstreams(before[..n]) + before[n].definition.upstreams;
      assert AllUpstreams(after) == AllUpstreams(after[..n]) + after[n].definition.upstreams;
    }
  }

  datatype HealthState = HealthState(endpoint: Endpoint, failures: nat, successes: nat)

  function CounterOf(state: HealthState): Counter { Counter(state.endpoint.healthy, state.failures, state.successes) }

  /** The health table knows every endpoint of the routes, and every copy has its flag. */
  ghost predicate Agrees(health: map<string, HealthState>, all: seq<Endpoint>) {
    forall u | u in all :: KeyOf(u) in health && health[KeyOf(u)].endpoint.healthy == u.healthy
  }

  lemma FlagEverywhere(health: map<string, HealthState>, all: seq<Endpoint>, key: string, state: HealthState)
    requires Agrees(health, all) && key == KeyOf(state.endpoint)
    ensures Agrees(health[key := state], WithHealth(all, state.endpoint.address, state.endpoint.port, state.endpoint.healthy))
  {
    hide EndpointKey;
    var e := state.endpoint;
    var changed := WithHealth(all, e.address, e.port, e.healthy);
    forall u | u in changed ensures KeyOf(u) in health[key := state] && health[key := state][KeyOf(u)].endpoint.healthy == u.healthy {
      var i :| 0 <= i < |changed| && changed[i] == u;
      assert all[i] in all;
      EndpointKeyExactness(u.address, u.port, e.address, e.port);
    }
  }

  /** Counting a result that changes no flag keeps the agreement. */
  lemma FlagUnchanged(health: map<string, HealthState>, all: seq<Endpoint>, key: string, state: HealthState)
    requires Agrees(health, all) && key in health && health[key].endpoint.healthy == state.endpoint.healthy
    ensures Agrees(health[key := state], all)
  {
  }

  lemma FoundAreHealthy(found: seq<Endpoint>, all: seq<Endpoint>)
    requires OnePerAddress(found, all) && forall u | u in all :: u.healthy
    ensures forall k | 0 <= k < |found| :: found[k].healthy
  {
  }

  lemma AgreesAtStart(health: map<string, HealthState>, found: seq<Endpoint>, all: seq<Endpoint>)
    requires OnePerAddress(found, all) && forall u | u in all :: u.healthy
    requires forall k | 0 <= k < |found| :: KeyOf(found[k]) in health
    requires forall key | key in health :: CounterOf(health[key]) == FRESH
    ensures Agrees(health, all)
  {
    hide EndpointKey;
    forall u | u in all ensures KeyOf(u) in health {
      var i :| 0 <= i < |found| && IsAt(found[i], u.address, u.port);
    }
  }

  lemma {:induction false} AmongAll(states: seq<RouteState>, i: nat, u: Endpoint)
    requires i < |states| && u in states[i].definition.upstreams
    ensures u in AllUpstreams(states)
    decreases |states|
  {
    if i < |states| - 1 {
      AmongAll(states[..|states| - 1], i, u);
    }
  }

  class HealthMonitor {
    const table: RouteTable
    const thresholds: Thresholds
    var health: map<string, HealthState>
    /** Every result recorded for an endpoint. */
    ghost var history: map<string, seq<bool>>

    ghost predicate Valid()
      reads this, table
    {
      && table.Valid() && ValidThresholds(thresholds)
      && Agrees(health, AllUpstreams(table.states))
      && history.Keys == health.Keys
      && forall key | key in health ::
           key == KeyOf(health[key].endpoint) && CounterOf(health[key]) == After(thresholds, history[key])
    }

    /** `rebuild_health`: all endpoints start healthy, with nothing counted. */
    constructor (table: RouteTable, thresholds: Thresholds)
      requires table.Valid() && ValidThresholds(thresholds)
      requires forall u | u in AllUpstreams(table.states) :: u.healthy
      ensures Valid() && this.table == table && this.thresholds == thresholds
      ensures forall key | key in history :: history[key] == []
    {
      hide EndpointKey, Agrees, OnePerAddress, RouteTable.Valid, AllUpstreams;
      this.table, this.thresholds, health, history := table, thresholds, map[], map[];
      new;
      var endpoints := table.UniqueEndpoints();
      FoundAreHealthy(endpoints, AllUpstreams(table.states));
      for i := 0 to |endpoints|
        invariant forall key | key in health :: key == KeyOf(health[key].endpoint) && CounterOf(health[key]) == FRESH
        invariant forall k | 0 <= k < i :: KeyOf(endpoints[k]) in health
      {
        health := health[KeyOf(endpoints[i]) := HealthState(endpoints[i], 0, 0)];
      }
      history := map key | key in health :: [];
      AgreesAtStart(health, endpoints, AllUpstreams(table.states));
    }

    /** Every copy of an endpoint, used for routing or published, has the flag of the health table,
    and that flag has changed no more often than the results recorded for it allow. */
    lemma EveryCopyAgrees(i: nat, u: Endpoint)
      requires Valid() && i < |table.publicRoutes|
      requires u in table.states[i].definition.upstreams || u in table.publicRoutes[i].upstreams
      ensures KeyOf(u) in health && health[KeyOf(u)].endpoint.healthy == u.healthy
      ensures KeyOf(u) in history && |history[KeyOf(u)]| >= Needed(thresholds, Transitions(thresholds, history[KeyOf(u)]))
    {
      hide EndpointKey, Needed;
      AmongAll(table.states, i, u);
      Hysteresis(thresholds, history[KeyOf(u)]);
    }

    /** One probe or request outcome for an endpoint; unknown endpoints are ignored. */
    method RecordResult(key: string, success: bool)
      requires Valid()
      modifies this`health, this`history, table
      ensures Valid()
      ensures history == if key in old(history) then old(history)[key := old(history)[key] + [success]] else old(history)
      ensures forall k | k in old(health) && k != key :: k in health && health[k] == old(health)[k]
      ensures key in old(health) ==>
                && key in health && key in history
                && var was := old(health)[key].endpoint.healthy;
                   health[key].endpoint.healthy != was <==>
                   if was then EndsWith(history[key], false, thresholds.failure)
                   else EndsWith(history[key], true, thresholds.success)
    {
      hide EndpointKey, Agrees, After, EndsWith;
      if key !in health {
        return;
      }
      var state := health[key];
      if success {
        state := state.(failures := 0, successes := state.successes + 1);
        if !state.endpoint.healthy && state.successes >= thresholds.success {
          state := state.(endpoint := state.endpoint.(healthy := true));
        }
      } else {
        state := state.(successes := 0, failures := state.failures + 1);
        if state.endpoint.healthy && state.failures >= thresholds.failure {
          state := state.(endpoint := state.endpoint.(healthy := false));
        }
      }
      CountOne(history[key], success, CounterOf(state));
      FlagChangesExactly(thresholds, history[key] + [success]);
      Publish(key, state, history[key] + [success]);
    }

    lemma CountOne(results: seq<bool>, success: bool, counter: Counter)
      requires counter == Step(thresholds, After(thresholds, results), success)
      ensures counter == After(thresholds, results + [success]) && (results + [success])[..|results|] == results
    {
      assert (results + [success])[..|results|] == results;
    }

    /** The flag goes into the route table when it has changed, and the state into the health table. */
    method Publish(key: string, state: HealthState, ghost results: seq<bool>)
      requires Valid() && key in health && key == KeyOf(state.endpoint)
      requires CounterOf(state) == After(thresholds, results)
      modifies this`health, this`history, table
      ensures Valid() && health == old(health)[key := state] && history == old(history)[key := results]
    {
      hide EndpointKey, Agrees, After, RouteTable.Valid;
      if state.endpoint.healthy != health[key].endpoint.healthy {
        FlagEverywhere(health, AllUpstreams(table.states), key, state);
        ghost var before := table.states;
        var _ := table.SetEndpointHealth(state.endpoint.address, state.endpoint.port, state.endpoint.healthy);
        AllWithHealth(before, table.states, state.endpoint.address, state.endpoint.port, state.endpoint.healthy);
      } else {
        FlagUnchanged(health, AllUpstreams(table.states), key, state);
      }
      health, history := health[key := state], history[key := results];
    }
  }
}
