/** What a session meets outside itself: sockets, the event loop, the clock, routing.

Every answer is arbitrary within its documented range. Only interrupted calls are limited: they
may be repeated finitely often, since a call interrupted for ever never returns. */
module SessionEnvironment {
  import opened Text

  datatype RecvResult = Data(bytes: string) | Eof | RecvInterrupted | RecvWouldBlock | RecvFailed

  datatype SendResult = Sent(count: nat) | SendInterrupted | SendWouldBlock | SendFailed

  datatype ConnectResult = Connected | InProgress | Refused

  datatype Upstream = Upstream(id: string, address: string, port: nat)

  datatype LookupResult = Matched(routeId: string, upstream: Upstream) | NoHealthyUpstream(id: string) | NoRoute

  datatype Timeouts = Timeouts(
    clientHeader: nat, upstreamConnect: nat, upstreamHeader: nat, ioIdle: nat, requestTotal: nat, keepAliveIdle: nat)

  datatype Interest = Readable | Writable

  class Environment {
    /** The route a table generation chooses for a host and a target, and the route's upstreams. */
    const routeOf: (nat, string, string) -> Option<string>
    const belongs: (nat, string, Upstream) -> bool
    var now: nat
    var interrupts: nat
    var refusals: nat
    /** How often a call failed or an end of stream was reported, how often something was read, and
    the latest answers. */
    ghost var failures: nat
    ghost var receipts: nat
    ghost var lastRecv: RecvResult
    ghost var lastSend: SendResult
    ghost var lastLookup: LookupResult

    constructor (routeOf: (nat, string, string) -> Option<string>, belongs: (nat, string, Upstream) -> bool,
                 now: nat, interrupts: nat)
      ensures this.routeOf == routeOf && this.belongs == belongs
    {
      this.routeOf, this.belongs, this.now, this.interrupts, refusals := routeOf, belongs, now, interrupts, 0;
      lastRecv, lastSend, lastLookup := RecvWouldBlock, SendWouldBlock, NoRoute;
      failures, receipts := 0, 0;
    }

    method Clock() returns (t: nat)
      modifies this`now
      ensures old(now) <= t == now
    {
      var elapsed: int := *;
      if elapsed > 0 {
        now := now + elapsed;
      }
      t := now;
    }

    method Recv(capacity: nat) returns (r: RecvResult)
      requires capacity > 0
      modifies this`interrupts, this`lastRecv, this`failures, this`receipts
      ensures receipts == old(receipts) + 1
      ensures lastRecv == r && failures == old(failures) + if r.Eof? || r.RecvFailed? then 1 else 0
      ensures r.Data? ==> 0 < |r.bytes| <= capacity
      ensures if r.RecvInterrupted? then interrupts < old(interrupts) else interrupts == old(interrupts)
    {
      r := *;
      if r.Data? && !(0 < |r.bytes| <= capacity) {
        r := RecvWouldBlock;
      } else if r.RecvInterrupted? {
        if interrupts == 0 {
          r := RecvWouldBlock;
        } else {
          interrupts := interrupts - 1;
        }
      }
      lastRecv, failures, receipts := r, failures + if r.Eof? || r.RecvFailed? then 1 else 0, receipts + 1;
    }

    method Send(size: nat) returns (r: SendResult)
      requires size > 0
      modifies this`interrupts, this`lastSend, this`failures
      ensures lastSend == r && failures == old(failures) + if r.SendFailed? then 1 else 0
      ensures r.Sent? ==> 0 < r.count <= size
      ensures if r.SendInterrupted? then interrupts < old(interrupts) else interrupts == old(interrupts)
    {
      r := *;
      if r.Sent? && !(0 < r.count <= size) {
        r := SendFailed;
      } else if r.SendInterrupted? {
        if interrupts == 0 {
          r := SendWouldBlock;
        } else {
          interrupts := interrupts - 1;
        }
      }
      lastSend, failures := r, failures + if r.SendFailed? then 1 else 0;
    }

    /** `socket`, `inet_pton`, `getsockopt(SO_ERROR)` and `EventLoop::add` succeed or not. */
    method Succeeds() returns (ok: bool)
      modifies this`failures
      ensures failures == old(failures) + if ok then 0 else 1
    {
      ok := *;
      failures := failures + if ok then 0 else 1;
    }

    method Connect() returns (r: ConnectResult)
      modifies this`failures
      ensures failures == old(failures) + if r == Refused then 1 else 0
    {
      r := *;
      failures := failures + if r == Refused then 1 else 0;
    }

    /** `EventLoop::modify` on a descriptor that is registered: the kernel may still refuse. */
    method Modify(registered: bool) returns (ok: bool)
      modifies this`refusals
      ensures !registered ==> !ok
      ensures registered ==> refusals == if ok then old(refusals) else old(refusals) + 1
    {
      ok := *;
      if !registered {
        ok := false;
      } else if !ok {
        refusals := refusals + 1;
      }
    }

    /** The table and the timeouts in force now; a reload may have replaced them. */
    method CurrentRoutes() returns (generation: nat)
    {
      generation := *;
    }

    method CurrentTimeouts() returns (timeouts: Timeouts)
    {
      timeouts := *;
    }

    /** `RouteTable::lookup` on a table generation: the route depends on host and target alone, and
    the upstream is one of the route's that is not excluded. */
    method Lookup(generation: nat, host: string, target: string, excluded: seq<string>) returns (r: LookupResult)
      modifies this`lastLookup
      ensures lastLookup == r
      ensures r.Matched? ==>
                && routeOf(generation, host, target) == Some(r.routeId)
                && belongs(generation, r.routeId, r.upstream)
                && r.upstream.id !in excluded
      ensures r.NoHealthyUpstream? ==> routeOf(generation, host, target) == Some(r.id)
      ensures r.NoRoute? <==> routeOf(generation, host, target).None?
    {
      var route := routeOf(generation, host, target);
      var candidate: Upstream := *;
      if route.None? {
        r := NoRoute;
      } else if belongs(generation, route.value, candidate) && candidate.id !in excluded {
        r := Matched(route.value, candidate);
      } else {
        r := NoHealthyUpstream(route.value);
      }
      lastLookup := r;
    }
  }
}
