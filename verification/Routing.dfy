/** The route table: the most specific route, round robin among its healthy upstreams. */
module Routing {
  import opened Text
  import opened HostNames

  datatype Endpoint = Endpoint(id: string, address: string, port: nat, healthy: bool)

  datatype RouteDefinition = RouteDefinition(id: string, hostPattern: string, pathPrefix: string, upstreams: seq<Endpoint>)

  datatype RouteState = RouteState(definition: RouteDefinition, host: string, wildcard: bool, cursor: nat)

  datatype LookupResult = Matched(routeId: string, upstream: Endpoint) | NoHealthyUpstream(id: string) | NoRoute

  // ---------------------------------------------------------------- acceptable tables

  predicate IsWildcard(pattern: string) { "*." <= pattern }

  function BarePattern(pattern: string): string { if IsWildcard(pattern) then pattern[2..] else pattern }

  function StateOf(route: RouteDefinition): RouteState {
    RouteState(route, NormalizeHost(BarePattern(route.hostPattern)), IsWildcard(route.hostPattern), 0)
  }

  predicate ValidEndpoint(u: Endpoint) { u.id != "" && u.address != "" && u.port != 0 }

  predicate ValidUpstreams(us: seq<Endpoint>) {
    && (forall i | 0 <= i < |us| :: ValidEndpoint(us[i]))
    && (forall i, j | 0 <= i < j < |us| :: us[i].id != us[j].id)
  }

  predicate ValidRoute(route: RouteDefinition) {
    && route.id != "" && route.pathPrefix != "" && route.pathPrefix[0] == '/' && route.upstreams != []
    && '*' !in BarePattern(route.hostPattern) && StateOf(route).host != ""
    && ValidUpstreams(route.upstreams)
  }

  /** Two routes a request could not tell apart. */
  predicate Clash(a: RouteState, b: RouteState) {
    || a.definition.id == b.definition.id
    || (a.wildcard == b.wildcard && a.host == b.host && a.definition.pathPrefix == b.definition.pathPrefix)
  }

  predicate Acceptable(routes: seq<RouteDefinition>) {
    && (forall i | 0 <= i < |routes| :: ValidRoute(routes[i]))
    && (forall i, j | 0 <= i < j < |routes| :: !Clash(StateOf(routes[i]), StateOf(routes[j])))
  }

  // ---------------------------------------------------------------- matching

  predicate HostMatches(route: RouteState, host: string) {
    if !route.wildcard then host == route.host
    else
      && |host| > |route.host| && host[|host| - |route.host| - 1] == '.'
      && host[|host| - |route.host|..] == route.host
  }

  predicate Matches(route: RouteState, host: string, path: string) {
    HostMatches(route, host) && route.definition.pathPrefix <= path
  }

  /** Exact before wildcard, then the longer host, then the longer path prefix. */
  predicate Better(a: RouteState, b: RouteState) {
    || (b.wildcard && !a.wildcard)
    || (a.wildcard == b.wildcard && |a.host| > |b.host|)
    || (a.wildcard == b.wildcard && |a.host| == |b.host| && |a.definition.pathPrefix| > |b.definition.pathPrefix|)
  }

  ghost predicate Distinct(states: seq<RouteState>) {
    forall i, j | 0 <= i < j < |states| :: !Clash(states[i], states[j])
  }

  /** The one route that beats every other matching route. */
  ghost predicate IsBest(states: seq<RouteState>, best: nat, host: string, path: string) {
    && best < |states| && Matches(states[best], host, path)
    && forall i | 0 <= i < |states| && i != best && Matches(states[i], host, path) :: Better(states[best], states[i])
  }

  /** Routes that match the same request and do not clash are not equally specific. */
  lemma Separated(a: RouteState, b: RouteState, host: string, path: string)
    requires Matches(a, host, path) && Matches(b, host, path) && !Clash(a, b)
    ensures Better(a, b) || Better(b, a)
  {
    SamePrefix(a.definition.pathPrefix, b.definition.pathPrefix, path);
  }

  lemma SamePrefix(a: string, b: string, whole: string)
    requires a <= whole && b <= whole
    ensures |a| == |b| ==> a == b
  {
  }

  lemma NotBoth(a: RouteState, b: RouteState)
    ensures !(Better(a, b) && Better(b, a))
  {
  }

  lemma BestIsUnique(states: seq<RouteState>, i: nat, j: nat, host: string, path: string)
    requires IsBest(states, i, host, path) && IsBest(states, j, host, path)
    ensures i == j
  {
    hide Better, Matches;
    NotBoth(states[i], states[j]);
  }

  // ---------------------------------------------------------------- round robin

  predicate Eligible(us: seq<Endpoint>, excluded: seq<string>, i: nat)
    requires i < |us|
  {
    us[i].healthy && us[i].id !in excluded
  }

  /** The eligible upstreams among `lo..hi`, in order. */
  function Eligibles(us: seq<Endpoint>, excluded: seq<string>, lo: nat, hi: nat): (r: seq<nat>)
    requires lo <= hi <= |us|
    ensures forall i | 0 <= i < |r| :: lo <= r[i] < hi
    decreases hi - lo
  {
    if lo == hi then []
    else (if Eligible(us, excluded, lo) then [lo] else []) + Eligibles(us, excluded, lo + 1, hi)
  }

  /** The eligible upstreams, once round from the cursor. */
  function Round(us: seq<Endpoint>, excluded: seq<string>, cursor: nat): seq<nat>
    requires cursor < |us|
  {
    Eligibles(us, excluded, cursor, |us|) + Eligibles(us, excluded, 0, cursor)
  }

  function Advanced(us: seq<Endpoint>, pick: nat): (r: nat)
    requires pick < |us|
    ensures r == if pick + 1 == |us| then 0 else pick + 1
  {
    (pick + 1) % |us|
  }

  lemma {:induction false} EligiblesSplit(us: seq<Endpoint>, excluded: seq<string>, lo: nat, mid: nat, hi: nat)
    requires lo <= mid <= hi <= |us|
    ensures Eligibles(us, excluded, lo, hi) == Eligibles(us, excluded, lo, mid) + Eligibles(us, excluded, mid, hi)
    decreases mid - lo
  {
    if lo < mid {
      EligiblesSplit(us, excluded, lo + 1, mid, hi);
    }
  }

  lemma EligiblesStep(us: seq<Endpoint>, excluded: seq<string>, lo: nat, hi: nat)
    requires lo < hi <= |us|
    ensures Eligibles(us, excluded, lo, hi) ==
            (if Eligible(us, excluded, lo) then [lo] else []) + Eligibles(us, excluded, lo + 1, hi)
  {
  }

  lemma {:induction false} EligiblesAre(us: seq<Endpoint>, excluded: seq<string>, lo: nat, hi: nat)
    requires lo <= hi <= |us|
    ensures forall i :: i in Eligibles(us, excluded, lo, hi) <==> lo <= i < hi && Eligible(us, excluded, i)
    decreases hi - lo
  {
    if lo < hi {
      EligiblesStep(us, excluded, lo, hi);
      hide Eligibles, Eligible;
      EligiblesAre(us, excluded, lo + 1, hi);
    }
  }

  lemma {:induction false} EligiblesAscend(us: seq<Endpoint>, excluded: seq<string>, lo: nat, hi: nat)
    requires lo <= hi <= |us|
    ensures var es := Eligibles(us, excluded, lo, hi); forall i, j | 0 <= i < j < |es| :: es[i] < es[j]
    decreases hi - lo
  {
    if lo < hi {
      EligiblesStep(us, excluded, lo, hi);
      hide Eligibles, Eligible;
      EligiblesAscend(us, excluded, lo + 1, hi);
    }
  }

  /** One round holds each eligible upstream exactly once, and nothing else. */
  lemma RoundIsFair(us: seq<Endpoint>, excluded: seq<string>, cursor: nat)
    requires cursor < |us|
    ensures var round := Round(us, excluded, cursor);
            && (forall i :: i in round <==> 0 <= i < |us| && Eligible(us, excluded, i))
            && (forall i, j | 0 <= i < j < |round| :: round[i] != round[j])
            && |round| == |Eligibles(us, excluded, 0, |us|)|
  {
    EligiblesAre(us, excluded, cursor, |us|);
    EligiblesAre(us, excluded, 0, cursor);
    EligiblesAscend(us, excluded, cursor, |us|);
    EligiblesAscend(us, excluded, 0, cursor);
    EligiblesSplit(us, excluded, 0, cursor, |us|);
    hide Eligibles, Eligible;
  }

  /** Serving the first of a round leaves the same round, turned by one. */
  lemma RoundTurns(us: seq<Endpoint>, excluded: seq<string>, cursor: nat)
    requires cursor < |us| && Round(us, excluded, cursor) != []
    ensures var round := Round(us, excluded, cursor);
            && round[0] < |us| && Eligible(us, excluded, round[0])
            && [round[0]] + Round(us, excluded, Advanced(us, round[0])) == round + [round[0]]
  {
    hide Eligibles;
    var ahead := Eligibles(us, excluded, cursor, |us|);
    if ahead != [] {
      TurnAhead(us, excluded, cursor, ahead[0]);
    } else {
      TurnBehind(us, excluded, cursor, Eligibles(us, excluded, 0, cursor)[0]);
    }
  }

  lemma TurnAhead(us: seq<Endpoint>, excluded: seq<string>, cursor: nat, p: nat)
    requires cursor < |us| && Eligibles(us, excluded, cursor, |us|) != [] && p == Eligibles(us, excluded, cursor, |us|)[0]
    ensures Eligible(us, excluded, p)
    ensures [p] + Round(us, excluded, Advanced(us, p)) == Round(us, excluded, cursor) + [p]
  {
    hide Eligibles, Eligible, Advanced, Round;
    FirstEligible(us, excluded, cursor, |us|);
    EligiblesSplit(us, excluded, 0, cursor, p + 1);
    var before, after := Eligibles(us, excluded, 0, cursor), Eligibles(us, excluded, p + 1, |us|);
    RoundIs(us, excluded, cursor);
    RoundAfter(us, excluded, p);
    TurnedAhead(p, after, before);
  }

  lemma RoundIs(us: seq<Endpoint>, excluded: seq<string>, cursor: nat)
    requires cursor < |us|
    ensures Round(us, excluded, cursor) == Eligibles(us, excluded, cursor, |us|) + Eligibles(us, excluded, 0, cursor)
  {
  }

  /** The round from the place after `p`, which may be the beginning. */
  lemma RoundAfter(us: seq<Endpoint>, excluded: seq<string>, p: nat)
    requires p < |us|
    ensures Round(us, excluded, Advanced(us, p)) ==
            Eligibles(us, excluded, p + 1, |us|) + Eligibles(us, excluded, 0, p + 1)
  {
    hide Eligible, Advanced;
    if p + 1 == |us| {
      var all := Eligibles(us, excluded, 0, |us|);
      assert all + [] == all == [] + all;
    }
  }

  lemma TurnedAhead(p: nat, after: seq<nat>, before: seq<nat>)
    ensures [p] + (after + (before + [p])) == ([p] + after) + before + [p]
  {
  }

  lemma TurnBehind(us: seq<Endpoint>, excluded: seq<string>, cursor: nat, p: nat)
    requires cursor < |us| && Eligibles(us, excluded, cursor, |us|) == []
    requires Eligibles(us, excluded, 0, cursor) != [] && p == Eligibles(us, excluded, 0, cursor)[0]
    ensures Eligible(us, excluded, p)
    ensures [p] + Round(us, excluded, Advanced(us, p)) == Round(us, excluded, cursor) + [p]
  {
    FirstEligible(us, excluded, 0, cursor);
    EligiblesSplit(us, excluded, p + 1, cursor, |us|);
    hide Eligibles, Eligible, Advanced;
    var after := Eligibles(us, excluded, p + 1, cursor);
    Turned(p, Eligibles(us, excluded, cursor, |us|), Eligibles(us, excluded, p + 1, cursor));
  }

  /** The sequence algebra of a turn: moving the first element to the end. */
  lemma Turned(p: nat, empty: seq<nat>, after: seq<nat>)
    requires empty == []
    ensures [p] + ((after + empty) + [p]) == (empty + ([p] + after)) + [p]
  {
  }

  /** The eligible upstreams begin with the first one, and nothing eligible comes before it. */
  lemma {:induction false} FirstEligible(us: seq<Endpoint>, excluded: seq<string>, lo: nat, hi: nat)
    requires lo <= hi <= |us| && Eligibles(us, excluded, lo, hi) != []
    ensures var p := Eligibles(us, excluded, lo, hi)[0];
            && Eligible(us, excluded, p) && Eligibles(us, excluded, lo, p + 1) == [p]
            && Eligibles(us, excluded, lo, hi) == [p] + Eligibles(us, excluded, p + 1, hi)
    decreases hi - lo
  {
    if !Eligible(us, excluded, lo) {
      FirstEligible(us, excluded, lo + 1, hi);
    }
  }

  /** The upstreams that `count` lookups in a row serve. */
  function Served(us: seq<Endpoint>, cursor: nat, count: nat): seq<nat>
    requires cursor < |us|
    decreases count
  {
    var round := Round(us, [], cursor);
    if count == 0 || round == [] then []
    else
      [round[0]] + Served(us, Advanced(us, round[0]), count - 1)
  }

  /** From any cursor, as many lookups as there are healthy upstreams serve each exactly once. */
  lemma {:induction false} RoundRobinFairness(us: seq<Endpoint>, cursor: nat, count: nat)
    requires cursor < |us| && count <= |Round(us, [], cursor)|
    ensures Served(us, cursor, count) == Round(us, [], cursor)[..count]
    decreases count
  {
    hide Round;
    if count > 0 {
      var round := Round(us, [], cursor);
      RoundTurns(us, [], cursor);
      var next := Round(us, [], Advanced(us, round[0]));
      assert |next| == |round|;
      RoundRobinFairness(us, Advanced(us, round[0]), count - 1);
      assert [round[0]] + next[..count - 1] == ([round[0]] + next)[..count] == round[..count];
    }
  }

  lemma EachHealthyOnce(us: seq<Endpoint>, cursor: nat, i: nat)
    requires cursor < |us| && i < |us|
    ensures var h := |Eligibles(us, [], 0, |us|)|;
            var served := Served(us, cursor, h);
            && |served| == h && (i in served <==> us[i].healthy)
            && (forall j, k | 0 <= j < k < h :: served[j] != served[k])
  {
    RoundIsFair(us, [], cursor);
    var h := |Eligibles(us, [], 0, |us|)|;
    RoundRobinFairness(us, cursor, h);
    assert Round(us, [], cursor)[..h] == Round(us, [], cursor);
  }

  // ---------------------------------------------------------------- the chosen route

  lemma BetterTransitive(a: RouteState, b: RouteState, c: RouteState)
    requires Better(a, b) && Better(b, c)
    ensures Better(a, c)
  {
  }

  /** Position of the one best route for a request, if any route matches. */
  ghost function ChosenRoute(states: seq<RouteState>, hostHeader: string, target: string): (r: Option<nat>)
    ensures r.Some? ==> r.value < |states|
  {
    var host, path := NormalizeHost(hostHeader), TargetPath(target);
    if host != "" && path != "" && exists best: nat :: IsBest(states, best, host, path) then
      var best: nat :| IsBest(states, best, host, path);
      Some(best)
    else
      None
  }

  lemma ChosenIs(states: seq<RouteState>, hostHeader: string, target: string, best: nat)
    requires NormalizeHost(hostHeader) != "" && TargetPath(target) != ""
    requires IsBest(states, best, NormalizeHost(hostHeader), TargetPath(target))
    ensures ChosenRoute(states, hostHeader, target) == Some(best)
  {
    hide IsBest, NormalizeHost, TargetPath;
    var host, path := NormalizeHost(hostHeader), TargetPath(target);
    var other := ChosenRoute(states, hostHeader, target).value;
    BestIsUnique(states, best, other, host, path);
  }

  /** A request is unroutable exactly when it has no host, no path, or no matching route. */
  lemma {:induction false} NoRouteExactness(states: seq<RouteState>, hostHeader: string, target: string)
    requires Distinct(states)
    ensures var host, path := NormalizeHost(hostHeader), TargetPath(target);
            ChosenRoute(states, hostHeader, target).None? <==>
            host == "" || path == "" || forall i | 0 <= i < |states| :: !Matches(states[i], host, path)
  {
    hide NormalizeHost, TargetPath, Matches, Better, Clash;
    var host, path := NormalizeHost(hostHeader), TargetPath(target);
    var best := BestAmong(states, |states|, host, path);
    if best.Some? && host != "" && path != "" {
      assert IsBest(states, best.value, host, path);
    }
  }

  ghost predicate BestSoFar(states: seq<RouteState>, count: nat, best: Option<nat>, host: string, path: string)
    requires count <= |states|
  {
    match best
    case None => forall i | 0 <= i < count :: !Matches(states[i], host, path)
    case Some(b) =>
      && b < count && Matches(states[b], host, path)
      && forall i | 0 <= i < count && i != b && Matches(states[i], host, path) :: Better(states[b], states[i])
  }

  lemma {:induction false} BestAmong(states: seq<RouteState>, count: nat, host: string, path: string) returns (best: Option<nat>)
    requires Distinct(states) && count <= |states|
    ensures BestSoFar(states, count, best, host, path)
    decreases count
  {
    hide Matches, Better, Clash;
    if count == 0 {
      return None;
    }
    best := BestAmong(states, count - 1, host, path);
    best := OneMore(states, count - 1, best, host, path);
  }

  /** One step of the search: the candidate replaces the best so far exactly when it is better. */
  lemma OneMore(states: seq<RouteState>, i: nat, best: Option<nat>, host: string, path: string) returns (next: Option<nat>)
    requires Distinct(states) && i < |states| && BestSoFar(states, i, best, host, path)
    ensures next == if Matches(states[i], host, path) && (best.None? || Better(states[i], states[best.value])) then Some(i) else best
    ensures BestSoFar(states, i + 1, next, host, path)
  {
    hide Matches, Better, Clash;
    if !Matches(states[i], host, path) {
      return best;
    }
    if best.None? {
      return Some(i);
    }
    Separated(states[best.value], states[i], host, path);
    if Better(states[i], states[best.value]) {
      next := Some(i);
      forall k | 0 <= k < i && k != best.value && Matches(states[k], host, path) ensures Better(states[i], states[k]) {
        BetterTransitive(states[i], states[best.value], states[k]);
      }
    } else {
      next := best;
    }
  }

  /** Neither health nor cursors take part in choosing a route. */
  predicate SameShape(a: RouteState, b: RouteState) {
    && a.host == b.host && a.wildcard == b.wildcard
    && a.definition.id == b.definition.id && a.definition.pathPrefix == b.definition.pathPrefix
  }

  lemma HealthDoesNotMatter(a: seq<RouteState>, b: seq<RouteState>, hostHeader: string, target: string)
    requires |a| == |b| && forall i | 0 <= i < |a| :: SameShape(a[i], b[i])
    ensures ChosenRoute(a, hostHeader, target) == ChosenRoute(b, hostHeader, target)
  {
    hide NormalizeHost, TargetPath;
    var host, path := NormalizeHost(hostHeader), TargetPath(target);
    forall i: nat | IsBest(a, i, host, path) ensures IsBest(b, i, host, path) {
    }
    forall i: nat | IsBest(b, i, host, path) ensures IsBest(a, i, host, path) {
    }
    if ChosenRoute(a, hostHeader, target).Some? {
      ChosenIs(b, hostHeader, target, ChosenRoute(a, hostHeader, target).value);
    }
  }

  /** The matching route that the rules single out: an exact host before any wildcard; then no
  match of its kind has a longer host; and none of those with as long a one has as long a prefix. */
  ghost predicate MostSpecific(states: seq<RouteState>, best: nat, host: string, path: string) {
    && best < |states| && Matches(states[best], host, path)
    && forall i | 0 <= i < |states| && i != best && Matches(states[i], host, path) ::
         && (!states[i].wildcard ==> !states[best].wildcard)
         && (states[i].wildcard == states[best].wildcard ==>
               && |states[i].host| <= |states[best].host|
               && (|states[i].host| == |states[best].host| ==>
                     |states[i].definition.pathPrefix| < |states[best].definition.pathPrefix|))
  }

  /** The chosen route is the one the rules single out, and is chosen exactly then. */
  lemma ChosenIsMostSpecific(states: seq<RouteState>, hostHeader: string, target: string, best: nat)
    ensures var host, path := NormalizeHost(hostHeader), TargetPath(target);
            ChosenRoute(states, hostHeader, target) == Some(best) <==>
            host != "" && path != "" && MostSpecific(states, best, host, path)
  {
    hide NormalizeHost, TargetPath, Matches;
    var host, path := NormalizeHost(hostHeader), TargetPath(target);
    if host != "" && path != "" && MostSpecific(states, best, host, path) {
      ChosenIs(states, hostHeader, target, best);
    }
  }

  /** An exact pattern matches that host alone; a wildcard, any host that ends in a dot and its own
  host; a prefix, any path that begins with it. */
  lemma MatchMeaning(route: RouteState, host: string, path: string)
    ensures Matches(route, host, path) <==>
            && (if route.wildcard then exists more :: host == more + "." + route.host else host == route.host)
            && exists rest :: path == route.definition.pathPrefix + rest
  {
    var prefix, n := route.definition.pathPrefix, |host| - |route.host| - 1;
    if prefix <= path {
      assert path == prefix + path[|prefix|..];
    }
    if route.wildcard && HostMatches(route, host) {
      assert host == host[..n] + "." + route.host;
    }
    if route.wildcard && exists more :: host == more + "." + route.host {
      var more :| host == more + "." + route.host;
      assert host[|host| - |route.host|..] == route.host && host[n] == '.';
    }
  }

  /** The path of a target is what precedes its first question mark. */
  lemma PathMeaning(path: string, query: string)
    requires path != "" && path[0] == '/' && Lacks(path, '?')
    ensures TargetPath(path) == path && TargetPath(path + "?" + query) == path
  {
    hide Find;
    assert "" + path == path && "" + path + ['?'] + query == path + "?" + query;
    FindNoSeparator("", path, '?');
    FindSeparator("", path, query, '?');
    assert (path + "?" + query)[..|path|] == path && (path + "?" + query)[0] == path[0];
  }

  /** Two places of a table have their two places in any permutation of it. */
  lemma TwoPlaces(a: seq<RouteState>, b: seq<RouteState>, i: nat, j: nat) returns (p: nat, q: nat)
    requires multiset(a) == multiset(b) && i < j < |b|
    ensures p < |a| && q < |a| && p != q && a[p] == b[i] && a[q] == b[j]
  {
    p := PlaceIn(a, b, i);
    WithoutOne(a, p);
    WithoutOne(b, i);
    var r := PlaceIn(Without(a, p), Without(b, i), j - 1);
    q := if r < p then r else r + 1;
  }

  function Without(a: seq<RouteState>, p: nat): (r: seq<RouteState>)
    requires p < |a|
    ensures |r| == |a| - 1 && forall k | 0 <= k < |r| :: r[k] == if k < p then a[k] else a[k + 1]
  {
    a[..p] + a[p + 1..]
  }

  lemma WithoutOne(a: seq<RouteState>, p: nat)
    requires p < |a|
    ensures multiset(Without(a, p)) == multiset(a) - multiset{a[p]}
  {
    assert a == a[..p] + ([a[p]] + a[p + 1..]);
    assert multiset(a) == multiset(a[..p]) + (multiset{a[p]} + multiset(a[p + 1..]));
  }

  lemma PlaceIn(a: seq<RouteState>, b: seq<RouteState>, i: nat) returns (p: nat)
    requires multiset(a) == multiset(b) && i < |b|
    ensures p < |a| && a[p] == b[i]
  {
    assert b[i] in multiset(b);
    p :| p < |a| && a[p] == b[i];
  }

  lemma BestPermuted(a: seq<RouteState>, b: seq<RouteState>, i: nat, host: string, path: string) returns (k: nat)
    requires multiset(a) == multiset(b) && IsBest(a, i, host, path)
    ensures IsBest(b, k, host, path) && b[k] == a[i]
  {
    hide Better, Matches;
    k := PlaceIn(b, a, i);
    forall m | 0 <= m < |b| && m != k && Matches(b[m], host, path) ensures Better(b[k], b[m]) {
      var p, q := TwoPlaces(a, b, if m < k then m else k, if m < k then k else m);
      var n := if m < k then p else q;
      assert a[n] == b[m] && a[p + q - n] == b[k];
      if n == i {
        NotBoth(a[i], a[i]);
      }
    }
  }

  /** The order of the table does not matter: a permutation of it finds a route exactly when it
  does, and the same one. */
  lemma OrderDoesNotMatter(a: seq<RouteState>, b: seq<RouteState>, hostHeader: string, target: string)
    requires multiset(a) == multiset(b)
    ensures var x, y := ChosenRoute(a, hostHeader, target), ChosenRoute(b, hostHeader, target);
            (x.Some? <==> y.Some?) && (x.Some? ==> a[x.value] == b[y.value])
  {
    hide NormalizeHost, TargetPath, IsBest;
    var host, path := NormalizeHost(hostHeader), TargetPath(target);
    var x, y := ChosenRoute(a, hostHeader, target), ChosenRoute(b, hostHeader, target);
    if x.Some? {
      var k := BestPermuted(a, b, x.value, host, path);
      ChosenIs(b, hostHeader, target, k);
    } else if y.Some? {
      var k := BestPermuted(b, a, y.value, host, path);
      ChosenIs(a, hostHeader, target, k);
    }
  }

  // ---------------------------------------------------------------- health of an endpoint

  predicate IsAt(u: Endpoint, address: string, port: nat) { u.address == address && u.port == port }

  function WithHealth(us: seq<Endpoint>, address: string, port: nat, healthy: bool): (r: seq<Endpoint>)
    ensures |r| == |us|
    ensures forall i | 0 <= i < |us| :: r[i] == if IsAt(us[i], address, port) then us[i].(healthy := healthy) else us[i]
  {
    seq(|us|, i requires 0 <= i < |us| => if IsAt(us[i], address, port) then us[i].(healthy := healthy) else us[i])
  }

  function RouteWithHealth(route: RouteDefinition, address: string, port: nat, healthy: bool): RouteDefinition {
    route.(upstreams := WithHealth(route.upstreams, address, port, healthy))
  }

  /** The inner loop over one route's upstreams. */
  method SetHealth(us: seq<Endpoint>, address: string, port: nat, healthy: bool) returns (r: seq<Endpoint>, changed: nat)
    ensures r == WithHealth(us, address, port, healthy)
    ensures changed == 0 <==> r == us
  {
    r, changed := us, 0;
    for i := 0 to |us|
      invariant |r| == |us| && r[i..] == us[i..]
      invariant forall k | 0 <= k < i :: r[k] == WithHealth(us, address, port, healthy)[k]
      invariant changed == 0 <==> r[..i] == us[..i]
    {
      assert r[i] == r[i..][0] == us[i];
      ghost var before := r;
      if IsAt(r[i], address, port) {
        if r[i].healthy != healthy {
          changed := changed + 1;
        }
        r := r[i := r[i].(healthy := healthy)];
      }
      assert r[..i] == before[..i] && r[i + 1..] == before[i..][1..];
      assert r[..i + 1] == before[..i] + [r[i]] && us[..i + 1] == us[..i] + [us[i]];
    }
    assert r == WithHealth(us, address, port, healthy);
    assert r[..|us|] == r && us[..|us|] == us;
  }

  // ---------------------------------------------------------------- the table

  function MatchKey(route: RouteState): string {
    (if route.wildcard then "*." else "=") + route.host + "\n" + route.definition.pathPrefix
  }

  predicate SameMatch(a: RouteState, b: RouteState) {
    a.wildcard == b.wildcard && a.host == b.host && a.definition.pathPrefix == b.definition.pathPrefix
  }

  /** The key tells routes apart exactly when a request can: hosts contain no line feed. */
  lemma KeyExactness(a: RouteState, b: RouteState)
    requires '\n' !in a.host && '\n' !in b.host
    ensures MatchKey(a) == MatchKey(b) <==> SameMatch(a, b)
  {
    hide Find;
    KeyParts(a);
    KeyParts(b);
  }

  lemma KeyParts(a: RouteState)
    requires '\n' !in a.host
    ensures var key := MatchKey(a);
            && key != "" && a.wildcard == (key[0] == '*')
            && var from := if a.wildcard then 2 else 1;
               var end := Find(key, "\n", from);
               end.Some? && a.host == key[from..end.value] && a.definition.pathPrefix == key[end.value + 1..]
  {
    hide Find;
    var mark := if a.wildcard then "*." else "=";
    var key := MatchKey(a);
    assert forall i | 0 <= i < |a.host| :: a.host[i] in a.host;
    assert key == mark + a.host + ['\n'] + a.definition.pathPrefix;
    FindSeparator(mark, a.host, a.definition.pathPrefix, '\n');
  }

  class RouteTable {
    var states: seq<RouteState>
    var publicRoutes: seq<RouteDefinition>

    /** The routes are acceptable ones, and the published copies agree with them. */
    ghost predicate Valid()
      reads this
    {
      && Distinct(states) && |publicRoutes| == |states|
      && forall i | 0 <= i < |states| :: ValidState(states[i]) && publicRoutes[i] == states[i].definition
    }

    constructor (states: seq<RouteState>, publicRoutes: seq<RouteDefinition>)
      ensures this.states == states && this.publicRoutes == publicRoutes
    {
      this.states, this.publicRoutes := states, publicRoutes;
    }

    /** The checks of the constructor: a table is made exactly of acceptable routes. */
    static method Create(routes: seq<RouteDefinition>) returns (r: Option<RouteTable>)
      ensures r.Some? <==> Acceptable(routes)
      ensures r.Some? ==> fresh(r.value) && r.value.Valid() && r.value.publicRoutes == routes
      ensures r.Some? ==> |r.value.states| == |routes| && forall i | 0 <= i < |routes| :: r.value.states[i] == StateOf(routes[i])
    {
      hide ValidRoute, ValidState, ValidUpstreams, Clash, NormalizeHost, BarePattern, IsWildcard;
      var routeIds: set<string>, matchKeys: set<string> := {}, {};
      var states: seq<RouteState> := [];
      for i := 0 to |routes|
        invariant |states| == i && forall j | 0 <= j < i :: states[j] == StateOf(routes[j]) && ValidState(states[j])
        invariant forall j | 0 <= j < i :: ValidRoute(routes[j])
        invariant Distinct(states)
        invariant routeIds == set j | 0 <= j < i :: states[j].definition.id
        invariant matchKeys == set j | 0 <= j < i :: MatchKey(states[j])
      {
        var state := StateOf(routes[i]);
        var ok := CheckRoute(state, routeIds, matchKeys);
        FreshState(routes[i]);
        AddsTo(states, state, routeIds, matchKeys);
        if !ok {
          return None;
        }
        routeIds, matchKeys := routeIds + {state.definition.id}, matchKeys + {MatchKey(state)};
        states := states + [state];
      }
      var table := new RouteTable(states, routes);
      return Some(table);
    }

    /** The best route, and the next eligible upstream in its round; only its cursor moves. */
    method Lookup(hostHeader: string, target: string, excluded: seq<string>) returns (r: LookupResult)
      requires Valid()
      modifies this`states
      ensures Valid()
      ensures (r, states) == Answer(old(states), ChosenRoute(old(states), hostHeader, target), excluded)
      ensures !r.NoRoute? ==>
                exists best: nat ::
                  && MostSpecific(old(states), best, NormalizeHost(hostHeader), TargetPath(target))
                  && old(states)[best].definition.id == if r.Matched? then r.routeId else r.id
    {
      hide MostSpecific, Matches, Better, Clash, NormalizeHost, TargetPath, StateOf, ValidRoute, IsBest, ChosenRoute, Eligibles;
      var host := Normalize(hostHeader);
      var path := TargetPath(target);
      if host == "" || path == "" {
        NoRouteExactness(states, hostHeader, target);
        return NoRoute;
      }
      var best: Option<nat> := None;
      for i := 0 to |states|
        invariant states == old(states) && BestSoFar(states, i, best, host, path)
      {
        ghost var next := OneMore(states, i, best, host, path);
        if Matches(states[i], host, path) && (best.None? || Better(states[i], states[best.value])) {
          best := Some(i);
        }
      }
      BestFound(best, hostHeader, target);
      if best.None? {
        return NoRoute;
      }
      ChosenIsMostSpecific(states, hostHeader, target, best.value);
      var upstreams, cursor := states[best.value].definition.upstreams, states[best.value].cursor;
      var pick := NextInRound(upstreams, cursor, excluded);
      if pick.None? {
        return NoHealthyUpstream(states[best.value].definition.id);
      }
      MoveCursor(best.value, Advanced(upstreams, pick.value));
      return Matched(states[best.value].definition.id, upstreams[pick.value]);
    }

    lemma BestFound(best: Option<nat>, hostHeader: string, target: string)
      requires Valid() && NormalizeHost(hostHeader) != "" && TargetPath(target) != ""
      requires BestSoFar(states, |states|, best, NormalizeHost(hostHeader), TargetPath(target))
      ensures best == ChosenRoute(states, hostHeader, target)
    {
      hide Matches, Better, Clash, NormalizeHost, TargetPath, ValidState, ChosenRoute;
      if best.Some? {
        ChosenIs(states, hostHeader, target, best.value);
      } else {
        NoRouteExactness(states, hostHeader, target);
      }
    }

    method MoveCursor(i: nat, cursor: nat)
      requires Valid() && i < |states| && cursor < |states[i].definition.upstreams|
      modifies this`states
      ensures Valid() && states == old(states)[i := old(states)[i].(cursor := cursor)]
    {
      hide StateOf, ValidRoute;
      states := states[i := states[i].(cursor := cursor)];
    }

    /** The physical endpoints of all routes, each once, in the order of the table. */
    method UniqueEndpoints() returns (result: seq<Endpoint>)
      ensures OnePerAddress(result, AllUpstreams(states))
    {
      hide OnePerAddress;
      result := [];
      var keys: set<string> := {};
      NoEndpoints();
      for i := 0 to |states|
        invariant OnePerAddress(result, AllUpstreams(states[..i])) && keys == set k | 0 <= k < |result| :: KeyOf(result[k])
      {
        assert states[..i + 1][..i] == states[..i];
        result, keys := CollectFrom(states[i].definition.upstreams, result, keys, AllUpstreams(states[..i]));
      }
      assert states[..|states|] == states;
    }

    /** Every copy of an endpoint, in the table and among the published routes, gets the flag. */
    method SetEndpointHealth(address: string, port: nat, healthy: bool) returns (changed: nat)
      requires Valid()
      modifies this
      ensures Valid() && |states| == |old(states)|
      ensures forall i | 0 <= i < |states| ::
                states[i] == old(states)[i].(definition := RouteWithHealth(old(states)[i].definition, address, port, healthy))
      ensures changed == 0 <==> states == old(states)
    {
      hide StateOf, ValidRoute, WithHealth, Clash;
      changed := 0;
      var newStates, newPublic := [], [];
      for i := 0 to |states|
        invariant unchanged(this) && |newStates| == i && (changed == 0 <==> newStates == states[..i])
        invariant forall k | 0 <= k < i ::
                    newStates[k] == states[k].(definition := RouteWithHealth(states[k].definition, address, port, healthy))
      {
        var upstreams, count := SetHealth(states[i].definition.upstreams, address, port, healthy);
        var next := states[i].(definition := states[i].definition.(upstreams := upstreams));
        assert next == states[i] <==> upstreams == states[i].definition.upstreams;
        assert newStates + [next] == states[..i + 1] <==> newStates == states[..i] && next == states[i] by {
          assert states[..i + 1] == states[..i] + [states[i]];
          assert (newStates + [next])[..i] == newStates && (newStates + [next])[i] == next;
        }
        changed, newStates := changed + count, newStates + [next];
      }
      for i := 0 to |publicRoutes|
        invariant unchanged(this) && |newPublic| == i
        invariant forall k | 0 <= k < i :: newPublic[k] == RouteWithHealth(publicRoutes[k], address, port, healthy)
      {
        var upstreams, _ := SetHealth(publicRoutes[i].upstreams, address, port, healthy);
        newPublic := newPublic + [publicRoutes[i].(upstreams := upstreams)];
      }
      assert states[..|states|] == states;
      forall i | 0 <= i < |states| ensures ValidState(newStates[i]) {
        HealthKeepsState(states[i], address, port, healthy);
      }
      assert Distinct(newStates) by {
        forall i, j | 0 <= i < j < |states| ensures !Clash(newStates[i], newStates[j]) {
          HealthKeepsClash(states[i], states[j], newStates[i], newStates[j]);
        }
      }
      states, publicRoutes := newStates, newPublic;
    }
  }

  // ---------------------------------------------------------------- physical endpoints

  function EndpointKey(address: string, port: nat): string { address + ":" + Decimal(port) }

  function KeyOf(u: Endpoint): string { EndpointKey(u.address, u.port) }

  /** A key stands for one address and one port: after its last colon come only digits. */
  lemma EndpointKeyExactness(a: string, p: nat, b: string, q: nat)
    ensures EndpointKey(a, p) == EndpointKey(b, q) <==> a == b && p == q
  {
    hide Decimal;
    if EndpointKey(a, p) == EndpointKey(b, q) {
      ColonPlace(a, p, b, q);
      ColonPlace(b, q, a, p);
      assert EndpointKey(a, p)[|a| + 1..] == Decimal(p) && EndpointKey(b, q)[|b| + 1..] == Decimal(q);
      assert EndpointKey(a, p)[..|a|] == a && EndpointKey(b, q)[..|b|] == b;
      DecimalRoundTrip(p);
      DecimalRoundTrip(q);
    }
  }

  lemma ColonPlace(a: string, p: nat, b: string, q: nat)
    requires EndpointKey(a, p) == EndpointKey(b, q)
    ensures |b| <= |a|
  {
    hide Decimal;
    var key := EndpointKey(a, p);
    assert forall i | 0 <= i < |Decimal(p)| :: DigitOf(10, Decimal(p)[i]).Some?;
    assert forall i | |a| < i < |key| :: key[i] == Decimal(p)[i - |a| - 1];
    assert EndpointKey(b, q)[|b|] == ':';
  }

  function AllUpstreams(states: seq<RouteState>): seq<Endpoint> {
    if states == [] then [] else AllUpstreams(states[..|states| - 1]) + states[|states| - 1].definition.upstreams
  }

  ghost predicate Represents(result: seq<Endpoint>, u: Endpoint) {
    exists i :: 0 <= i < |result| && IsAt(result[i], u.address, u.port)
  }

  /** One endpoint for each address and port among `all`, and nothing else. */
  ghost predicate OnePerAddress(result: seq<Endpoint>, all: seq<Endpoint>) {
    && (forall i | 0 <= i < |result| :: result[i] in all)
    && (forall u | u in all :: Represents(result, u))
    && (forall i, j | 0 <= i < j < |result| :: !IsAt(result[i], result[j].address, result[j].port))
  }

  /** The inner loop of `unique_endpoints`. */
  method CollectFrom(us: seq<Endpoint>, found: seq<Endpoint>, known: set<string>, ghost all: seq<Endpoint>)
    returns (result: seq<Endpoint>, keys: set<string>)
    requires OnePerAddress(found, all) && known == set k | 0 <= k < |found| :: KeyOf(found[k])
    ensures OnePerAddress(result, all + us) && keys == set k | 0 <= k < |result| :: KeyOf(result[k])
  {
    hide EndpointKey, OnePerAddress;
    result, keys := found, known;
    assert all + us[..0] == all;
    for j := 0 to |us|
      invariant OnePerAddress(result, all + us[..j]) && keys == set k | 0 <= k < |result| :: KeyOf(result[k])
    {
      assert all + us[..j + 1] == all + us[..j] + [us[j]];
      OneMoreEndpoint(result, all + us[..j], us[j]);
      if KeyOf(us[j]) !in keys {
        KeysOfMore(result, us[j]);
        keys, result := keys + {KeyOf(us[j])}, result + [us[j]];
      }
    }
    assert us[..|us|] == us;
  }

  lemma NoEndpoints()
    ensures OnePerAddress([], [])
  {
  }

  lemma KeysOfMore(result: seq<Endpoint>, u: Endpoint)
    ensures (set k | 0 <= k < |result + [u]| :: KeyOf((result + [u])[k])) ==
            (set k | 0 <= k < |result| :: KeyOf(result[k])) + {KeyOf(u)}
  {
    hide EndpointKey;
    var more := result + [u];
    assert more[|result|] == u && forall k | 0 <= k < |result| :: more[k] == result[k];
  }

  /** Whether the key is known tells whether the address is represented. */
  lemma OneMoreEndpoint(result: seq<Endpoint>, all: seq<Endpoint>, u: Endpoint)
    requires OnePerAddress(result, all)
    ensures if exists k :: 0 <= k < |result| && KeyOf(result[k]) == KeyOf(u) then OnePerAddress(result, all + [u])
            else OnePerAddress(result + [u], all + [u])
  {
    hide EndpointKey, OnePerAddress;
    forall k | 0 <= k < |result| ensures KeyOf(result[k]) == KeyOf(u) <==> IsAt(result[k], u.address, u.port) {
      EndpointKeyExactness(result[k].address, result[k].port, u.address, u.port);
    }
    MoreEndpoints(result, all, u);
  }

  lemma MoreEndpoints(result: seq<Endpoint>, all: seq<Endpoint>, u: Endpoint)
    requires OnePerAddress(result, all)
    ensures if Represents(result, u) then OnePerAddress(result, all + [u]) else OnePerAddress(result + [u], all + [u])
  {
    assert !Represents(result, u) ==> forall k | 0 <= k < |result| :: !IsAt(result[k], u.address, u.port);
    hide Represents, IsAt;
    if !Represents(result, u) {
      var more := result + [u];
      assert more[|result|] == u && forall k | 0 <= k < |result| :: more[k] == result[k];
      forall v | v in all + [u] ensures Represents(more, v) {
        StillRepresented(result, u, v);
      }
    }
  }

  lemma StillRepresented(result: seq<Endpoint>, u: Endpoint, v: Endpoint)
    ensures Represents(result, v) || v == u ==> Represents(result + [u], v)
  {
    var more := result + [u];
    assert more[|result|] == u;
    if Represents(result, v) {
      var i :| 0 <= i < |result| && IsAt(result[i], v.address, v.port);
      assert more[i] == result[i];
    }
  }

  /** What a lookup answers and which table it leaves, once the route is chosen. */
  function Answer(states: seq<RouteState>, best: Option<nat>, excluded: seq<string>): (LookupResult, seq<RouteState>)
    requires best.Some? ==> best.value < |states| && states[best.value].cursor < |states[best.value].definition.upstreams|
  {
    if best.None? then (NoRoute, states)
    else
      var route := states[best.value];
      var round := Round(route.definition.upstreams, excluded, route.cursor);
      if round == [] then (NoHealthyUpstream(route.definition.id), states)
      else
        (Matched(route.definition.id, route.definition.upstreams[round[0]]),
         states[best.value := route.(cursor := Advanced(route.definition.upstreams, round[0]))])
  }

  /** A match is healthy, not excluded and one of the chosen route's upstreams; there is none
  exactly when no upstream of that route is eligible; and no lookup changes a route. */
  lemma AnswerExactness(states: seq<RouteState>, best: Option<nat>, excluded: seq<string>)
    requires best.Some? ==> best.value < |states| && states[best.value].cursor < |states[best.value].definition.upstreams|
    ensures var (r, after) := Answer(states, best, excluded);
            && (r.NoRoute? <==> best.None?)
            && (best.Some? ==>
                  var route := states[best.value].definition;
                  && (r.NoHealthyUpstream? <==> forall i: nat | i < |route.upstreams| :: !Eligible(route.upstreams, excluded, i))
                  && (r.NoHealthyUpstream? ==> r.id == route.id)
                  && (r.Matched? ==> r.routeId == route.id && r.upstream in route.upstreams
                                     && r.upstream.healthy && r.upstream.id !in excluded))
            && |after| == |states| && forall i | 0 <= i < |states| :: after[i].definition == states[i].definition
  {
    hide Advanced;
    if best.Some? {
      var route := states[best.value];
      RoundIsFair(route.definition.upstreams, excluded, route.cursor);
      var round := Round(route.definition.upstreams, excluded, route.cursor);
      hide Round;
      assert round != [] ==> round[0] in round;
    }
  }

  // ---------------------------------------------------------------- lookups in a row

  datatype Query = Query(host: string, target: string, excluded: seq<string>)

  predicate CursorsInRange(states: seq<RouteState>) {
    forall i | 0 <= i < |states| :: states[i].cursor < |states[i].definition.upstreams|
  }

  ghost function Asked(states: seq<RouteState>, q: Query): (LookupResult, seq<RouteState>)
    requires CursorsInRange(states)
  {
    Answer(states, ChosenRoute(states, q.host, q.target), q.excluded)
  }

  ghost predicate Chooses(states: seq<RouteState>, q: Query, route: nat) {
    ChosenRoute(states, q.host, q.target) == Some(route)
  }

  /** A lookup moves one cursor; which route later lookups choose stays the same. */
  lemma AskedKeeps(states: seq<RouteState>, q: Query)
    requires CursorsInRange(states)
    ensures var after := Asked(states, q).1;
            && CursorsInRange(after) && |after| == |states|
            && (forall i | 0 <= i < |states| :: after[i].definition == states[i].definition)
            && (forall i: nat | i < |states| && !Chooses(states, q, i) :: after[i] == states[i])
            && (forall p: Query, i: nat :: Chooses(after, p, i) == Chooses(states, p, i))
  {
    hide ChosenRoute, Round, Advanced;
    var best := ChosenRoute(states, q.host, q.target);
    if best.Some? {
      FirstOfRound(states[best.value].definition.upstreams, q.excluded, states[best.value].cursor);
    }
    var after := Asked(states, q).1;
    forall p: Query ensures ChosenRoute(after, p.host, p.target) == ChosenRoute(states, p.host, p.target) {
      HealthDoesNotMatter(after, states, p.host, p.target);
    }
  }

  lemma FirstOfRound(us: seq<Endpoint>, excluded: seq<string>, cursor: nat)
    requires cursor < |us|
    ensures var round := Round(us, excluded, cursor); round != [] ==> round[0] < |us| && Advanced(us, round[0]) < |us|
  {
    hide Eligibles;
  }

  /** The upstreams that the lookups which choose this route are given, other lookups in between. */
  ghost function Given(states: seq<RouteState>, queries: seq<Query>, route: nat): seq<Endpoint>
    requires CursorsInRange(states)
    decreases |queries|
  {
    if queries == [] then []
    else
      AskedKeeps(states, queries[0]);
      var (r, after) := Asked(states, queries[0]);
      (if Chooses(states, queries[0], route) && r.Matched? then [r.upstream] else []) + Given(after, queries[1..], route)
  }

  ghost function Choosing(states: seq<RouteState>, queries: seq<Query>, route: nat): nat
    decreases |queries|
  {
    if queries == [] then 0
    else (if Chooses(states, queries[0], route) then 1 else 0) + Choosing(states, queries[1..], route)
  }

  lemma {:induction false} ChoosingKept(a: seq<RouteState>, b: seq<RouteState>, queries: seq<Query>, route: nat)
    requires forall q: Query :: Chooses(a, q, route) == Chooses(b, q, route)
    ensures Choosing(a, queries, route) == Choosing(b, queries, route)
    decreases |queries|
  {
    hide Chooses;
    if queries != [] {
      ChoosingKept(a, b, queries[1..], route);
    }
  }

  function EndpointsAt(us: seq<Endpoint>, places: seq<nat>): (r: seq<Endpoint>)
    requires forall i | 0 <= i < |places| :: places[i] < |us|
    ensures |r| == |places| && forall i | 0 <= i < |r| :: r[i] == us[places[i]]
  {
    seq(|places|, i requires 0 <= i < |places| => us[places[i]])
  }

  /** Whatever lookups of other routes come in between: the lookups without exclusions that choose
  one route are given its healthy upstreams in the order of the round. */
  lemma {:induction false} LookupsServeTheRound(states: seq<RouteState>, queries: seq<Query>, route: nat)
    requires CursorsInRange(states) && route < |states|
    requires forall i | 0 <= i < |queries| && Chooses(states, queries[i], route) :: queries[i].excluded == []
    ensures ServesTheRound(states, queries, route)
    decreases |queries|
  {
    hide Chooses, Round, Advanced, EndpointsAt, Served, ServesTheRound, ChosenRoute, Answer;
    if queries == [] {
      NoQueries(states, route);
    } else {
      var q, more := queries[0], queries[1..];
      AskedKeeps(states, q);
      var after := Asked(states, q).1;
      StillUnexcluded(states, after, queries, route);
      ChoosingKept(states, after, more, route);
      LookupsServeTheRound(after, more, route);
      if Chooses(states, q, route) {
        OneMoreServed(states, q, more, route);
      } else {
        OtherServed(states, q, more, route);
      }
    }
  }

  lemma StillUnexcluded(states: seq<RouteState>, after: seq<RouteState>, queries: seq<Query>, route: nat)
    requires queries != [] && forall q: Query :: Chooses(after, q, route) == Chooses(states, q, route)
    requires forall i | 0 <= i < |queries| && Chooses(states, queries[i], route) :: queries[i].excluded == []
    ensures queries == [queries[0]] + queries[1..]
    ensures forall i | 0 <= i < |queries[1..]| && Chooses(after, queries[1..][i], route) :: queries[1..][i].excluded == []
  {
    hide Chooses;
    assert forall i | 0 <= i < |queries[1..]| :: queries[1..][i] == queries[i + 1];
  }

  ghost predicate ServesTheRound(states: seq<RouteState>, queries: seq<Query>, route: nat)
    requires CursorsInRange(states) && route < |states|
  {
    var us, served := states[route].definition.upstreams,
                      Served(states[route].definition.upstreams, states[route].cursor, Choosing(states, queries, route));
    (forall i | 0 <= i < |served| :: served[i] < |us|) && Given(states, queries, route) == EndpointsAt(us, served)
  }

  lemma NoQueries(states: seq<RouteState>, route: nat)
    requires CursorsInRange(states) && route < |states|
    ensures ServesTheRound(states, [], route)
  {
  }

  lemma OtherServed(states: seq<RouteState>, q: Query, more: seq<Query>, route: nat)
    requires CursorsInRange(states) && route < |states| && !Chooses(states, q, route)
    requires var after := Asked(states, q).1;
             && CursorsInRange(after) && |after| == |states| && after[route] == states[route]
             && Choosing(after, more, route) == Choosing(states, more, route) && ServesTheRound(after, more, route)
    ensures ServesTheRound(states, [q] + more, route)
  {
    hide Chooses, Served, EndpointsAt, Asked;
    assert ([q] + more)[1..] == more;
  }

  lemma OneMoreServed(states: seq<RouteState>, q: Query, more: seq<Query>, route: nat)
    requires CursorsInRange(states) && route < |states| && Chooses(states, q, route) && q.excluded == []
    requires var after := Asked(states, q).1;
             && CursorsInRange(after) && |after| == |states| && after[route].definition == states[route].definition
             && Choosing(after, more, route) == Choosing(states, more, route) && ServesTheRound(after, more, route)
    ensures ServesTheRound(states, [q] + more, route)
  {
    hide Chooses, Round, Advanced, EndpointsAt, Asked, Served, Given;
    assert ([q] + more)[1..] == more;
    var us, cursor, count := states[route].definition.upstreams, states[route].cursor, Choosing(states, more, route);
    OneServed(states, q, route);
    FirstOfRound(us, [], cursor);
    GivenStep(states, q, more, route);
    ServedStep(us, cursor, count);
    var round := Round(us, [], cursor);
    if round == [] {
      NoneServed(us, cursor, count);
    } else {
      EndpointsMore(us, round[0], Served(us, Advanced(us, round[0]), count));
    }
  }

  lemma GivenStep(states: seq<RouteState>, q: Query, more: seq<Query>, route: nat)
    requires CursorsInRange(states) && CursorsInRange(Asked(states, q).1)
    ensures var (r, after) := Asked(states, q);
            Given(states, [q] + more, route) ==
            (if Chooses(states, q, route) && r.Matched? then [r.upstream] else []) + Given(after, more, route)
  {
    hide Chooses, Asked;
    assert ([q] + more)[1..] == more;
  }

  lemma ServedStep(us: seq<Endpoint>, cursor: nat, count: nat)
    requires cursor < |us|
    ensures var round := Round(us, [], cursor);
            Served(us, cursor, count + 1) ==
            if round == [] then [] else [round[0]] + Served(us, Advanced(us, round[0]), count)
  {
    hide Round, Advanced;
  }

  lemma OneServed(states: seq<RouteState>, q: Query, route: nat)
    requires CursorsInRange(states) && route < |states| && Chooses(states, q, route) && q.excluded == []
    ensures var us, cursor := states[route].definition.upstreams, states[route].cursor;
            var (r, after), round := Asked(states, q), Round(us, [], cursor);
            if round == [] then !r.Matched? && after == states
            else r.Matched? && r.upstream == us[round[0]] && after[route].cursor == Advanced(us, round[0])
  {
    hide ChosenRoute, Round, Advanced;
  }

  lemma NoneServed(us: seq<Endpoint>, cursor: nat, count: nat)
    requires cursor < |us| && Round(us, [], cursor) == []
    ensures Served(us, cursor, count) == []
  {
    hide Round;
  }

  lemma EndpointsMore(us: seq<Endpoint>, place: nat, places: seq<nat>)
    requires place < |us| && forall i | 0 <= i < |places| :: places[i] < |us|
    ensures EndpointsAt(us, [place] + places) == [us[place]] + EndpointsAt(us, places)
  {
  }

  /** A window of lookups as long as the route has healthy upstreams gives each of them exactly once. */
  lemma WindowIsFair(states: seq<RouteState>, queries: seq<Query>, route: nat)
    requires CursorsInRange(states) && route < |states| && ValidUpstreams(states[route].definition.upstreams)
    requires forall i | 0 <= i < |queries| && Chooses(states, queries[i], route) :: queries[i].excluded == []
    requires var us := states[route].definition.upstreams; Choosing(states, queries, route) == |Eligibles(us, [], 0, |us|)|
    ensures var us, given := states[route].definition.upstreams, Given(states, queries, route);
            && |given| == Choosing(states, queries, route)
            && (forall i | 0 <= i < |us| :: us[i].healthy <==> us[i] in given)
            && (forall j, k | 0 <= j < k < |given| :: given[j].id != given[k].id)
  {
    hide Eligibles, Served, Chooses, Choosing, Given;
    var us, cursor, h := states[route].definition.upstreams, states[route].cursor, Choosing(states, queries, route);
    LookupsServeTheRound(states, queries, route);
    var served, given := Served(us, cursor, h), Given(states, queries, route);
    forall i | 0 <= i < |us| ensures us[i].healthy <==> us[i] in given {
      EachHealthyOnce(us, cursor, i);
      if us[i].healthy {
        var k :| 0 <= k < |served| && served[k] == i;
        assert given[k] == us[i];
      }
      if us[i] in given {
        var k :| 0 <= k < |given| && given[k] == us[i];
        assert us[served[k]].id == us[i].id;
      }
    }
    EachHealthyOnce(us, cursor, 0);
  }

  /** The loop over the offsets from the cursor stops at the first of the round. */
  method NextInRound(us: seq<Endpoint>, cursor: nat, excluded: seq<string>) returns (pick: Option<nat>)
    requires cursor < |us|
    ensures var round := Round(us, excluded, cursor); pick == if round == [] then None else Some(round[0])
    ensures pick.Some? ==> pick.value < |us|
  {
    hide Eligibles;
    var count := |us|;
    RemainingAtStart(us, excluded, cursor);
    for offset := 0 to count
      invariant Round(us, excluded, cursor) == Remaining(us, excluded, cursor, offset)
    {
      var index := (cursor + offset) % count;
      OffsetIndex(cursor, offset, count);
      RemainingStep(us, excluded, cursor, offset);
      if us[index].healthy && us[index].id !in excluded {
        return Some(index);
      }
    }
    RemainingAtEnd(us, excluded, cursor);
    return None;
  }

  /** What of a round is left after `offset` positions. */
  function Remaining(us: seq<Endpoint>, excluded: seq<string>, cursor: nat, offset: nat): seq<nat>
    requires cursor < |us| && offset <= |us|
  {
    if cursor + offset <= |us| then Eligibles(us, excluded, cursor + offset, |us|) + Eligibles(us, excluded, 0, cursor)
    else Eligibles(us, excluded, cursor + offset - |us|, cursor)
  }

  function IndexAt(cursor: nat, offset: nat, count: nat): nat {
    if cursor + offset < count then cursor + offset else cursor + offset - count
  }

  lemma OffsetIndex(cursor: nat, offset: nat, count: nat)
    requires cursor < count && offset < count
    ensures (cursor + offset) % count == IndexAt(cursor, offset, count)
  {
    if cursor + offset >= count {
      Wraps(cursor + offset - count, count);
    }
  }

  lemma Wraps(rest: nat, count: nat)
    requires rest < count
    ensures (rest + count) % count == rest
  {
  }

  lemma RemainingAtStart(us: seq<Endpoint>, excluded: seq<string>, cursor: nat)
    requires cursor < |us|
    ensures Remaining(us, excluded, cursor, 0) == Round(us, excluded, cursor)
  {
  }

  lemma RemainingAtEnd(us: seq<Endpoint>, excluded: seq<string>, cursor: nat)
    requires cursor < |us|
    ensures Remaining(us, excluded, cursor, |us|) == []
  {
  }

  lemma Associated(a: seq<nat>, b: seq<nat>, c: seq<nat>)
    ensures a + b + c == a + (b + c)
  {
  }

  lemma RemainingStep(us: seq<Endpoint>, excluded: seq<string>, cursor: nat, offset: nat)
    requires cursor < |us| && offset < |us|
    ensures var index := IndexAt(cursor, offset, |us|);
            Remaining(us, excluded, cursor, offset) ==
            (if Eligible(us, excluded, index) then [index] else []) + Remaining(us, excluded, cursor, offset + 1)
  {
    hide Eligibles, Eligible;
    if cursor + offset < |us| {
      EligiblesStep(us, excluded, cursor + offset, |us|);
      Associated(if Eligible(us, excluded, cursor + offset) then [cursor + offset] else [],
                 Eligibles(us, excluded, cursor + offset + 1, |us|), Eligibles(us, excluded, 0, cursor));
    } else {
      EligiblesStep(us, excluded, cursor + offset - |us|, cursor);
      NoneLeft(us, excluded, Eligibles(us, excluded, 0, cursor));
    }
  }

  lemma NoneLeft(us: seq<Endpoint>, excluded: seq<string>, more: seq<nat>)
    ensures Eligibles(us, excluded, |us|, |us|) + more == more
  {
  }

  lemma HealthKeepsState(state: RouteState, address: string, port: nat, healthy: bool)
    requires ValidState(state)
    ensures ValidState(state.(definition := RouteWithHealth(state.definition, address, port, healthy)))
  {
    hide NormalizeHost, BarePattern, IsWildcard;
  }

  lemma HealthKeepsClash(a: RouteState, b: RouteState, a': RouteState, b': RouteState)
    requires SameShape(a, a') && SameShape(b, b')
    ensures Clash(a', b') == Clash(a, b)
  {
  }

  lemma FreshState(route: RouteDefinition)
    ensures ValidState(StateOf(route)) <==> ValidRoute(route)
  {
    hide NormalizeHost, BarePattern, IsWildcard;
  }

  method CheckRoute(state: RouteState, routeIds: set<string>, matchKeys: set<string>) returns (ok: bool)
    requires state == StateOf(state.definition)
    ensures ok == (ValidRoute(state.definition) && state.definition.id !in routeIds && MatchKey(state) !in matchKeys)
  {
    hide NormalizeHost;
    var route := state.definition;
    if route.id == "" || route.id in routeIds {
      return false;
    }
    if route.pathPrefix == "" || route.pathPrefix[0] != '/' || route.upstreams == [] {
      return false;
    }
    if '*' in BarePattern(route.hostPattern) || state.host == "" || MatchKey(state) in matchKeys {
      return false;
    }
    ok := CheckUpstreams(route.upstreams);
  }

  method CheckUpstreams(us: seq<Endpoint>) returns (ok: bool)
    ensures ok == ValidUpstreams(us)
  {
    var ids: set<string> := {};
    for i := 0 to |us|
      invariant ValidUpstreams(us[..i]) && ids == set j | 0 <= j < i :: us[j].id
    {
      if !ValidEndpoint(us[i]) || us[i].id in ids {
        return false;
      }
      ids := ids + {us[i].id};
    }
    assert us[..|us|] == us;
    return true;
  }

  /** The two sets tell whether a route clashes with one already taken. */
  lemma AddsTo(states: seq<RouteState>, state: RouteState, routeIds: set<string>, matchKeys: set<string>)
    requires forall j | 0 <= j < |states| :: states[j] == StateOf(states[j].definition)
    requires state == StateOf(state.definition)
    requires routeIds == set j | 0 <= j < |states| :: states[j].definition.id
    requires matchKeys == set j | 0 <= j < |states| :: MatchKey(states[j])
    ensures state.definition.id !in routeIds && MatchKey(state) !in matchKeys <==>
            forall j | 0 <= j < |states| :: !Clash(states[j], state)
  {
    hide NormalizeHost, MatchKey, BarePattern, IsWildcard;
    forall j | 0 <= j < |states| ensures MatchKey(states[j]) == MatchKey(state) <==> SameMatch(states[j], state) {
      NormalForm(BarePattern(states[j].definition.hostPattern));
      NormalForm(BarePattern(state.definition.hostPattern));
      KeyExactness(states[j], state);
    }
  }

  ghost predicate ValidState(state: RouteState) {
    && ValidRoute(state.definition) && state.cursor < |state.definition.upstreams|
    && state == StateOf(state.definition).(cursor := state.cursor)
  }
}
