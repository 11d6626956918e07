/** The service around the sessions: ticks, drain and stop. */
module Runtime {
  import opened Text
  import opened SessionEnvironment
  import opened SessionTypes
  import opened Session
  import opened SessionCodec

  datatype ServiceMode = Running | Draining | Drained | Stopping

  /** A service only moves on. */
  function Stage(mode: ServiceMode): nat {
    match mode
    case Running => 0
    case Draining => 1
    case Drained => 2
    case Stopping => 3
  }

  const STOP_DELAY: nat := 250

  /** What a batch may bring besides the timer. */
  datatype Action =
    | Deliver(index: nat, role: Role, events: set<Event>)
    | Connect(client: string)
    | Drain(stopAfterDrain: bool)

  datatype Batch = Batch(before: seq<Action>, tickAt: Option<nat>, after: seq<Action>)

  /** Timer readings never go back. */
  predicate Ascending(from: nat, batches: seq<Batch>)
    decreases |batches|
  {
    batches == [] ||
    (if batches[0].tickAt.None? then Ascending(from, batches[1..])
     else from <= batches[0].tickAt.value && Ascending(batches[0].tickAt.value, batches[1..]))
  }

  class ReliableRuntime {
    const env: Environment
    const config: Config
    const drainTimeout: nat
    var mode: ServiceMode
    var stopAfterDrain: bool
    var drainDeadline: nat
    var shutdownNotBefore: nat
    var listening: bool
    var stopRequested: bool
    /** The sessions that exist: at least one of their handlers is not yet destroyed. */
    var sessions: seq<ReliableSession>
    ghost var lastTick: nat

    /** A session between two calls. */
    ghost predicate SessionValid(s: ReliableSession)
      reads this`lastTick, s
    {
      s.env == env && s.Valid() && TickRule(s.Trail()) && s.lastTick <= lastTick
    }

    ghost predicate Valid()
      reads this, sessions
    {
      && ValidConfig(config)
      && (mode != Running ==> !listening) && (mode == Stopping <==> stopAfterDrain)
      && (forall i | 0 <= i < |sessions| :: SessionValid(sessions[i]))
      && (forall i, j | 0 <= i < j < |sessions| :: sessions[i] != sessions[j])
    }

    /** At the start of a batch every session still has its client descriptor registered. */
    ghost predicate AllRegistered()
      reads this, sessions
    {
      forall i | 0 <= i < |sessions| :: sessions[i].clientRegistered
    }

    /** Every session was there before, or is new. */
    twostate predicate NoneIntruded(before: seq<ReliableSession>)
      reads this
    {
      forall i | 0 <= i < |sessions| :: sessions[i] in before || fresh(sessions[i])
    }

    /** Closed sessions stay closed. */
    twostate predicate StillClosed(before: seq<ReliableSession>)
      reads before
    {
      forall i | 0 <= i < |before| :: old(before[i].state) == Closed ==> before[i].state == Closed
    }

    ghost predicate AllServable()
      reads this, sessions
    {
      forall i | 0 <= i < |sessions| :: sessions[i].Servable()
    }

    constructor (env: Environment, config: Config, drainTimeout: nat)
      requires ValidConfig(config)
      ensures Valid() && mode == Running && sessions == [] && this.env == env
    {
      this.env, this.config, this.drainTimeout := env, config, drainTimeout;
      mode, stopAfterDrain, drainDeadline, shutdownNotBefore := Running, false, 0, 0;
      listening, stopRequested, sessions, lastTick := true, false, [], 0;
    }

    /** The listener accepts a client. */
    method Accept(client: string)
      requires Valid() && listening
      modifies this`sessions, env`now
      ensures Valid() && (old(AllServable()) ==> AllServable())
      ensures sessions != [] &&
              var s := sessions[|sessions| - 1];
              sessions == old(sessions) + [s] && fresh(s) && s.clientRegistered && s.state == ReadingRequestHead
      ensures NoneIntruded(old(sessions)) && StillClosed(old(sessions))
    {
      hide ReliableSession.Valid, ReliableSession.Trail, ReliableSession.Interests, ValidCodec, CodecOf, TickRule;
      CodecIsValid(config, client);
      var s := new ReliableSession(env, config, CodecOf(config, client));
      sessions := sessions + [s];
    }

    /** An event for a descriptor still registered. */
    method DeliverTo(index: nat, role: Role, events: set<Event>)
      requires Valid()
      modifies sessions, env
      ensures Valid() && (old(AllServable()) ==> AllServable()) && StillClosed(old(sessions))
    {
      hide ReliableSession.Valid, ReliableSession.Trail, ReliableSession.Watched, ReliableSession.Servable;
      if index < |sessions| {
        var s := sessions[index];
        s.ClosedHasLeft();
        if s.clientRegistered && (role == Client || s.upstreamAttached) {
          s.OnEvent(role, events);
        }
      }
    }

    /** Drain, or stop after draining: the deadline is set when the service leaves `Running`, and
    never again. */
    method RequestDrain(now: nat, stop: bool)
      requires Valid()
      modifies this`mode, this`stopAfterDrain, this`drainDeadline, this`shutdownNotBefore, this`listening, sessions, env
      ensures Valid() && AllServable() && StillClosed(old(sessions))
      ensures stopAfterDrain == (stop || old(stopAfterDrain))
      ensures mode == if stopAfterDrain then Stopping else if old(mode) == Running then Draining else old(mode)
      ensures drainDeadline == if old(mode) == Running then now + drainTimeout else old(drainDeadline)
      ensures shutdownNotBefore == if stop && !old(stopAfterDrain) then now + STOP_DELAY else old(shutdownNotBefore)
      ensures forall i | 0 <= i < |sessions| :: sessions[i].WindingDown()
    {
      hide SessionValid, ReliableSession.Servable, ReliableSession.WindingDown;
      if stop && !stopAfterDrain {
        stopAfterDrain := true;
        shutdownNotBefore := now + STOP_DELAY;
      }
      if mode == Running {
        listening := false;
        drainDeadline := now + drainTimeout;
      }
      if stopAfterDrain {
        mode := Stopping;
      } else if mode == Running {
        mode := Draining;
      }
      DrainAll();
    }

    method DrainAll()
      requires Valid()
      modifies sessions, env
      ensures Valid() && AllServable() && StillClosed(sessions)
      ensures forall i | 0 <= i < |sessions| :: sessions[i].WindingDown()
    {
      hide SessionValid, ReliableSession.Servable, ReliableSession.WindingDown;
      for i := 0 to |sessions|
        invariant Valid() && (forall k | 0 <= k < i :: sessions[k].Servable() && sessions[k].WindingDown())
        invariant StillClosed(sessions)
      {
        DrainOne(i);
      }
    }

    method DrainOne(i: nat)
      requires Valid() && i < |sessions|
      modifies sessions[i], env
      ensures Valid() && sessions[i].Servable() && sessions[i].WindingDown()
      ensures old(sessions[i].state == Closed) ==> sessions[i].state == Closed
    {
      hide ReliableSession.Valid, ReliableSession.Trail, ReliableSession.Watched;
      sessions[i].BeginDrain();
    }

    /** The timer: drains or forces sessions to close, checks their deadlines, and ends the drain. */
    method Tick(now: nat)
      requires Valid() && AllServable() && lastTick <= now
      modifies this`mode, this`stopRequested, this`lastTick, sessions, env
      ensures Valid() && lastTick == now && Stage(old(mode)) <= Stage(mode) && (mode == Running <==> old(mode) == Running)
      ensures old(mode) != Running && now >= drainDeadline ==> forall i | 0 <= i < |sessions| :: sessions[i].state == Closed
      ensures forall i | 0 <= i < |sessions| :: sessions[i].state == Closed || sessions[i].lastTick == now
      ensures old(mode) != Running && sessions == [] ==>
                if stopAfterDrain then mode == Stopping && (now >= shutdownNotBefore ==> stopRequested) else mode == Drained
    {
      hide Valid, AllServable;
      TickAll(now);
      if mode != Running && |sessions| == 0 {
        if stopAfterDrain && now >= shutdownNotBefore {
          StopLoop();
          return;
        }
        if !stopAfterDrain {
          FinishDrain();
        }
      }
    }

    method StopLoop()
      requires Valid()
      modifies this`stopRequested
      ensures Valid() && stopRequested
    {
      stopRequested := true;
    }

    method FinishDrain()
      requires Valid() && mode != Running && !stopAfterDrain
      modifies this`mode
      ensures Valid() && mode == Drained && Stage(old(mode)) <= Stage(mode)
    {
      mode := Drained;
    }

    method NoteTick(now: nat)
      requires Valid() && AllServable() && lastTick <= now
      modifies this`lastTick
      ensures Valid() && AllServable() && lastTick == now
    {
      hide ReliableSession.Valid, ReliableSession.Trail, ReliableSession.Servable;
      lastTick := now;
    }

    method TickAll(now: nat)
      requires Valid() && AllServable() && lastTick <= now
      modifies this`lastTick, sessions, env
      ensures Valid() && lastTick == now && (mode == Stopping <==> stopAfterDrain)
      ensures mode != Running && now >= drainDeadline ==> forall i | 0 <= i < |sessions| :: sessions[i].state == Closed
      ensures forall i | 0 <= i < |sessions| :: sessions[i].state == Closed || sessions[i].lastTick == now
    {
      hide ReliableSession.Valid, ReliableSession.Trail, ReliableSession.Watched;
      NoteTick(now);
      for i := 0 to |sessions|
        invariant Valid() && forall k | i <= k < |sessions| :: sessions[k].Servable()
        invariant mode != Running && now >= drainDeadline ==> forall k | 0 <= k < i :: sessions[k].state == Closed
        invariant forall k | 0 <= k < i :: sessions[k].state == Closed || sessions[k].lastTick == now
        modifies sessions, env
      {
        TickOne(i, now);
      }
    }

    method TickOne(i: nat, now: nat)
      requires Valid() && i < |sessions| && sessions[i].Servable() && now == lastTick
      modifies sessions[i], env
      ensures Valid() && (mode != Running && now >= drainDeadline ==> sessions[i].state == Closed)
      ensures sessions[i].state == Closed || sessions[i].lastTick == now
      ensures mode != Running && old(sessions[i].Trail().idle) ==> sessions[i].state == Closed
    {
      hide ReliableSession.Valid, ReliableSession.Trail, ReliableSession.Watched;
      if mode != Running {
        if now >= drainDeadline {
          sessions[i].ForceClose();
        } else {
          sessions[i].BeginDrain();
        }
      }
      sessions[i].CheckTimeout(now);
    }

    // -------------------------------------------------------------- batches and runs

    method Perform(action: Action)
      requires Valid()
      modifies this, sessions, env
      ensures Valid() && (old(AllServable()) ==> AllServable())
      ensures Stage(old(mode)) <= Stage(mode) && lastTick == old(lastTick)
      ensures old(mode) != Running ==> sessions == old(sessions) && drainDeadline == old(drainDeadline)
      ensures old(stopAfterDrain) ==> stopAfterDrain
      ensures NoneIntruded(old(sessions)) && StillClosed(old(sessions))
      ensures if action.Drain? then mode != Running else mode == old(mode)
    {
      hide SessionValid;
      match action {
        case Deliver(index, role, events) => DeliverTo(index, role, events);
        case Connect(client) =>
          if listening {
            Accept(client);
          }
        case Drain(stop) =>
          var now := env.Clock();
          RequestDrain(now, stop);
      }
    }

    method PerformAll(actions: seq<Action>)
      requires Valid()
      modifies this, sessions, env
      ensures Valid() && (old(AllServable()) ==> AllServable())
      ensures Stage(old(mode)) <= Stage(mode) && lastTick == old(lastTick)
      ensures old(mode) != Running ==> sessions == old(sessions) && drainDeadline == old(drainDeadline)
      ensures old(stopAfterDrain) ==> stopAfterDrain
      ensures NoneIntruded(old(sessions)) && StillClosed(old(sessions))
      ensures if HasDrain(actions) then mode != Running else mode == old(mode)
    {
      hide Valid, AllServable;
      for i := 0 to |actions|
        invariant if exists k | 0 <= k < i :: actions[k].Drain? then mode != Running else mode == old(mode)
        invariant Valid() && (old(AllServable()) ==> AllServable())
        invariant Stage(old(mode)) <= Stage(mode) && lastTick == old(lastTick)
        invariant old(mode) != Running ==> sessions == old(sessions) && drainDeadline == old(drainDeadline)
        invariant old(stopAfterDrain) ==> stopAfterDrain
        invariant NoneIntruded(old(sessions)) && StillClosed(old(sessions))
      {
        Perform(actions[i]);
      }
    }

    /** The end of a batch: sessions whose client handler was removed are destroyed with it. */
    method EndBatch()
      requires Valid()
      modifies this`sessions
      ensures Valid() && AllRegistered() && AllServable() && |sessions| <= |old(sessions)|
      ensures (forall i | 0 <= i < |old(sessions)| :: old(sessions)[i].state == Closed) ==> sessions == []
      ensures forall i | 0 <= i < |sessions| :: sessions[i] in old(sessions)
    {
      hide ReliableSession.Valid, ReliableSession.Trail, ReliableSession.Servable, TickRule;
      var kept: seq<ReliableSession> := [];
      for i := 0 to |sessions|
        invariant sessions == old(sessions) && |kept| <= i
        invariant forall s | s in kept :: s in sessions[..i] && s.clientRegistered && SessionValid(s) && s.Servable()
        invariant forall j, k | 0 <= j < k < |kept| :: kept[j] != kept[k]
        invariant (forall k | 0 <= k < i :: sessions[k].state == Closed) ==> kept == []
      {
        sessions[i].ClosedHasLeft();
        if sessions[i].clientRegistered {
          kept := kept + [sessions[i]];
        }
      }
      sessions := kept;
    }

    /** One batch of the event loop, with the timer among its events or not. `late`: the timer
    fired at or after the deadline of a drain. */
    method RunBatch(batch: Batch) returns (ghost late: bool)
      requires Valid() && AllServable() && (batch.tickAt.Some? ==> lastTick <= batch.tickAt.value)
      modifies this, sessions, env
      ensures Valid() && AllServable() && lastTick == if batch.tickAt.Some? then batch.tickAt.value else old(lastTick)
      ensures Stage(old(mode)) <= Stage(mode)
      ensures mode != Running <==> old(mode) != Running || Drains(batch)
      ensures old(mode) != Running ==> |sessions| <= |old(sessions)| && drainDeadline == old(drainDeadline)
      ensures old(mode) != Running && FiresLate(batch, drainDeadline) ==> late
      ensures late ==> sessions == [] && mode != Running
      ensures late && old(mode) != Running && old(sessions) == [] ==> mode == Drained || mode == Stopping
      ensures NoneIntruded(old(sessions))
    {
      hide Valid, AllServable, AllRegistered, SessionValid;
      PerformAll(batch.before);
      late := batch.tickAt.Some? && mode != Running && batch.tickAt.value >= drainDeadline;
      if batch.tickAt.Some? {
        Tick(batch.tickAt.value);
      }
      PerformAll(batch.after);
      EndBatch();
    }

    /** Whatever the batches bring: a drain is bounded. From `start` on the service is draining:
    at once if it was already, and otherwise from the first batch on that asked for it. After one
    batch whose timer fires at or after the deadline no session is left; after two the service has
    left `Draining`; meanwhile the deadline has not moved, and no session was added. */
    method Run(batches: seq<Batch>) returns (ghost start: nat)
      requires Valid() && AllServable() && Ascending(lastTick, batches)
      modifies this, sessions, env
      ensures Valid() && AllServable() && Stage(old(mode)) <= Stage(mode)
      ensures start <= |batches| && (if old(mode) != Running then start == 0 else start > 0 || mode == Running)
      ensures mode != Running && start > 0 ==> Drains(batches[start - 1])
      ensures forall k | 0 <= k < |batches| && Drains(batches[k]) :: start <= k + 1 && mode != Running
      ensures mode != Running && LateCount(batches[start..], drainDeadline) >= 1 ==> sessions == []
      ensures mode != Running && LateCount(batches[start..], drainDeadline) >= 2 ==> mode == Drained || mode == Stopping
      ensures old(mode) != Running ==> |sessions| <= |old(sessions)| && drainDeadline == old(drainDeadline)
    {
      hide Valid, AllServable, Ascending, LateCount, Drains, FiresLate;
      ghost var late := 0;
      start := 0;
      assert batches[0..] == batches;
      LateNone(batches);
      for i := 0 to |batches|
        invariant Valid() && AllServable() && Ascending(lastTick, batches[i..]) && Stage(old(mode)) <= Stage(mode)
        invariant if mode == Running then start == i else start <= i && late >= LateCount(batches[start..i], drainDeadline)
        invariant if old(mode) != Running then start == 0 else start > 0 || mode == Running
        invariant mode != Running && start > 0 ==> Drains(batches[start - 1])
        invariant mode == Running ==> old(mode) == Running
        invariant forall k | 0 <= k < i && Drains(batches[k]) :: start <= k + 1 && mode != Running
        invariant late >= 1 ==> sessions == [] && mode != Running
        invariant late >= 2 ==> mode == Drained || mode == Stopping
        invariant old(mode) != Running ==> |sessions| <= |old(sessions)| && drainDeadline == old(drainDeadline)
        invariant NoneIntruded(old(sessions))
      {
        AscendingStep(lastTick, batches, i);
        ghost var running := mode == Running;
        ghost var expired := RunBatch(batches[i]);
        late := if expired then late + 1 else late;
        if running {
          start := i + 1;
        } else {
          LateStep(batches, start, i, drainDeadline);
        }
      }
      assert batches[start..] == batches[start..|batches|];
    }
  }

  lemma AscendingStep(from: nat, batches: seq<Batch>, i: nat)
    requires i < |batches| && Ascending(from, batches[i..])
    ensures batches[i].tickAt.Some? ==> from <= batches[i].tickAt.value
    ensures Ascending(if batches[i].tickAt.Some? then batches[i].tickAt.value else from, batches[i + 1..])
  {
    assert batches[i..][0] == batches[i] && batches[i..][1..] == batches[i + 1..];
  }

  lemma LateNone(batches: seq<Batch>)
    ensures forall i: nat, deadline | i <= |batches| :: LateCount(batches[i..i], deadline) == 0
  {
  }

  lemma LateStep(batches: seq<Batch>, start: nat, i: nat, deadline: nat)
    requires start <= i < |batches|
    ensures LateCount(batches[start..i + 1], deadline) ==
            LateCount(batches[start..i], deadline) + if FiresLate(batches[i], deadline) then 1 else 0
  {
    hide FiresLate;
    assert batches[start..i + 1][..i - start] == batches[start..i];
  }

  predicate FiresLate(batch: Batch, deadline: nat) { batch.tickAt.Some? && batch.tickAt.value >= deadline }

  predicate Drains(batch: Batch) {
    HasDrain(batch.before) || HasDrain(batch.after)
  }

  predicate HasDrain(actions: seq<Action>) {
    exists k | 0 <= k < |actions| :: actions[k].Drain?
  }

  /** How many of the batches bring the timer at or after the deadline. */
  function LateCount(batches: seq<Batch>, deadline: nat): nat {
    if batches == [] then 0
    else LateCount(batches[..|batches| - 1], deadline) + if FiresLate(batches[|batches| - 1], deadline) then 1 else 0
  }
}
