/** The event loop: handlers by descriptor, and removal deferred while a batch is dispatched. */
module EventLoops {

  /** A handler object, told apart by an identity of its own. */
  type Handler = nat

  /** What a handler may ask of the loop while it runs. */
  datatype Call = AddHandler(fd: nat) | ModifyInterests(fd: nat) | RemoveHandler(fd: nat)

  /** What happened in the batch, in order. */
  datatype Entry = Called(fd: nat, handler: Handler) | Removed(fd: nat) | Added(fd: nat, handler: Handler)

  /** No handler is called once it has been removed, and what is called is what was registered
  when the kernel reported the event. */
  ghost predicate Orderly(start: map<nat, Handler>, log: seq<Entry>) {
    && (forall i | 0 <= i < |log| && log[i].Called? :: log[i].fd in start && log[i].handler == start[log[i].fd])
    && (forall i, j | 0 <= i < j < |log| && log[i].Removed? && log[j].Called? :: log[i].fd != log[j].fd)
  }

  lemma StillLogged(before: seq<Entry>, called: seq<Entry>, log: seq<Entry>, entry: Entry)
    requires called == before + [entry] && called <= log
    ensures entry in log && forall e | e in before :: e in log
  {
    assert log[|before|] == called[|before|] == entry;
    forall e | e in before ensures e in log {
      var i :| 0 <= i < |before| && before[i] == e;
      assert log[i] == called[i] == e;
    }
  }

  /** The pending removals are what the log says was removed. */
  ghost predicate Marks(log: seq<Entry>, pending: set<nat>) {
    && (forall i | 0 <= i < |log| && log[i].Removed? :: log[i].fd in pending)
    && (forall fd | fd in pending :: Removed(fd) in log)
  }

  lemma OneMoreMark(log: seq<Entry>, pending: set<nat>, entry: Entry)
    requires Marks(log, pending)
    ensures Marks(log + [entry], if entry.Removed? then pending + {entry.fd} else pending)
  {
    assert (log + [entry])[|log|] == entry;
    assert forall e | e in log :: e in log + [entry];
  }

  lemma OneMoreEntry(start: map<nat, Handler>, log: seq<Entry>, pending: set<nat>, entry: Entry)
    requires Orderly(start, log) && Marks(log, pending)
    requires entry.Called? ==> entry.fd in start && entry.handler == start[entry.fd] && entry.fd !in pending
    ensures Orderly(start, log + [entry])
  {
  }

  /** Each of the first `count` reported handlers was called, or removed. */
  ghost predicate Handled(ready: seq<nat>, count: nat, start: map<nat, Handler>, log: seq<Entry>)
    requires count <= |ready| && forall k | 0 <= k < |ready| :: ready[k] in start
  {
    forall k | 0 <= k < count :: Called(ready[k], start[ready[k]]) in log || Removed(ready[k]) in log
  }

  lemma OneMoreHandled(ready: seq<nat>, count: nat, start: map<nat, Handler>, before: seq<Entry>, log: seq<Entry>)
    requires count < |ready| && forall k | 0 <= k < |ready| :: ready[k] in start
    requires Handled(ready, count, start, before) && forall e | e in before :: e in log
    requires Called(ready[count], start[ready[count]]) in log || Removed(ready[count]) in log
    ensures Handled(ready, count + 1, start, log)
  {
  }

  /** The handlers of these descriptors. */
  ghost function HandlersOf(all: map<nat, Handler>, fds: set<nat>): set<Handler>
    requires fds <= all.Keys
  {
    set fd | fd in fds :: all[fd]
  }

  lemma OneMoreGone(all: map<nat, Handler>, pending: set<nat>, left: set<nat>, fd: nat)
    requires left <= pending <= all.Keys && fd in left
    ensures (all - (pending - left)) - {fd} == all - (pending - (left - {fd}))
    ensures HandlersOf(all, pending - (left - {fd})) == HandlersOf(all, pending - left) + {all[fd]}
  {
    assert pending - (left - {fd}) == (pending - left) + {fd};
  }

  class EventLoop {
    var handlers: map<nat, Handler>
    var pendingRemovals: set<nat>
    var dispatching: bool
    /** The identity of the next handler object to be made. */
    var nextHandler: Handler
    ghost var destroyed: set<Handler>
    ghost var log: seq<Entry>

    ghost predicate Valid()
      reads this
    {
      && pendingRemovals <= handlers.Keys && (!dispatching ==> pendingRemovals == {})
      && (forall fd | fd in handlers :: handlers[fd] !in destroyed && handlers[fd] < nextHandler)
      && (forall h | h in destroyed :: h < nextHandler)
      && (forall a, b | a in handlers && b in handlers && handlers[a] == handlers[b] :: a == b)
    }

    constructor ()
      ensures Valid() && handlers == map[] && !dispatching
    {
      handlers, pendingRemovals, dispatching, nextHandler := map[], {}, false, 0;
      destroyed, log := {}, [];
    }

    predicate Contains(fd: nat)
      reads this
    {
      fd in handlers && fd !in pendingRemovals
    }

    function HandlerCount(): (n: int)
      requires Valid()
      reads this
      ensures n == |set fd | fd in handlers && Contains(fd)|
    {
      assert (set fd | fd in handlers && Contains(fd)) == handlers.Keys - pendingRemovals;
      |handlers| - |pendingRemovals|
    }

    /** A new handler for a descriptor: one in use, pending removals included, is refused; so may
    the kernel refuse it. */
    method Add(fd: nat, kernelAccepts: bool) returns (ok: bool)
      requires Valid()
      modifies this`handlers, this`nextHandler, this`log
      ensures Valid() && ok == (fd !in old(handlers) && kernelAccepts)
      ensures handlers == if ok then old(handlers)[fd := old(nextHandler)] else old(handlers)
      ensures log == if ok then old(log) + [Added(fd, old(nextHandler))] else old(log)
    {
      var handler := nextHandler;
      nextHandler := nextHandler + 1;
      if fd in handlers || !kernelAccepts {
        return false;
      }
      handlers, log := handlers[fd := handler], log + [Added(fd, handler)];
      return true;
    }

    method Modify(fd: nat, kernelAccepts: bool) returns (ok: bool)
      ensures ok == (Contains(fd) && kernelAccepts)
    {
      ok := fd in handlers && fd !in pendingRemovals && kernelAccepts;
    }

    /** While a batch runs the handler is only marked; otherwise it is destroyed at once. */
    method Remove(fd: nat) returns (ok: bool)
      requires Valid()
      modifies this`handlers, this`pendingRemovals, this`destroyed, this`log
      ensures Valid() && ok == (fd in old(handlers)) && !Contains(fd)
      ensures if ok && !dispatching then
                handlers == old(handlers) - {fd} && destroyed == old(destroyed) + {old(handlers)[fd]}
              else
                handlers == old(handlers) && destroyed == old(destroyed)
      ensures pendingRemovals == if ok && dispatching then old(pendingRemovals) + {fd} else old(pendingRemovals)
      ensures log == if ok then old(log) + [Removed(fd)] else old(log)
    {
      if fd !in handlers {
        return false;
      }
      log := log + [Removed(fd)];
      if dispatching {
        pendingRemovals := pendingRemovals + {fd};
      } else {
        destroyed := destroyed + {handlers[fd]};
        handlers := handlers - {fd};
      }
      return true;
    }

    /** What holds while a batch is dispatched: nothing registered at its start has gone away or
    changed hands, and whatever was removed is marked. */
    ghost predicate InBatch(start: map<nat, Handler>, dead: set<Handler>)
      reads this
    {
      && Valid() && dispatching && destroyed == dead
      && (forall fd | fd in start :: fd in handlers && handlers[fd] == start[fd])
      && Orderly(start, log)
      && Marks(log, pendingRemovals)
    }

    /** A handler runs and calls back into the loop as it likes. */
    method Serve(calls: seq<Call>, ghost start: map<nat, Handler>, ghost dead: set<Handler>)
      requires InBatch(start, dead)
      modifies this
      ensures InBatch(start, dead) && old(log) <= log
    {
      hide InBatch;
      for i := 0 to |calls|
        invariant InBatch(start, dead) && old(log) <= log
      {
        Place(calls[i], start, dead);
      }
    }

    method Place(call: Call, ghost start: map<nat, Handler>, ghost dead: set<Handler>)
      requires InBatch(start, dead)
      modifies this
      ensures InBatch(start, dead) && old(log) <= log
    {
      hide Orderly, Marks;
      var kernelAccepts: bool := *;
      forall entry: Entry | !entry.Called?
        ensures Orderly(start, log + [entry])
        ensures Marks(log + [entry], if entry.Removed? then pendingRemovals + {entry.fd} else pendingRemovals)
      {
        OneMoreEntry(start, log, pendingRemovals, entry);
        OneMoreMark(log, pendingRemovals, entry);
      }
      match call {
        case AddHandler(fd) => var _ := Add(fd, kernelAccepts);
        case ModifyInterests(fd) => var _ := Modify(fd, kernelAccepts);
        case RemoveHandler(fd) => var _ := Remove(fd);
      }
    }

    /** One batch of reported events, in order. Each reported handler is called, unless it was
    removed earlier in the batch; nothing is destroyed before all of them have returned; then
    exactly what was removed is. */
    method RunOnce(ready: seq<nat>)
      requires Valid() && !dispatching && forall k | 0 <= k < |ready| :: ready[k] in handlers
      modifies this
      ensures Valid() && !dispatching && Orderly(old(handlers), log)
      ensures forall k | 0 <= k < |ready| :: Called(ready[k], old(handlers)[ready[k]]) in log || Removed(ready[k]) in log
      ensures forall fd | fd in old(handlers) ::
                && (Removed(fd) in log <==> fd !in handlers)
                && (Removed(fd) in log <==> old(handlers)[fd] in destroyed)
                && (fd in handlers ==> handlers[fd] == old(handlers)[fd])
    {
      ghost var start, dead := handlers, destroyed;
      dispatching, log := true, [];
      for index := 0 to |ready|
        invariant InBatch(start, dead)
        invariant Handled(ready, index, start, log)
      {
        hide InBatch, Handled;
        ghost var before := log;
        Dispatch(ready[index], start, dead);
        OneMoreHandled(ready, index, start, before, log);
      }
      hide Orderly;
      dispatching := false;
      FinishPendingRemovals();
    }

    /** One reported event: its handler runs, unless it is gone. */
    method Dispatch(fd: nat, ghost start: map<nat, Handler>, ghost dead: set<Handler>)
      requires InBatch(start, dead) && fd in start
      modifies this
      ensures InBatch(start, dead)
      ensures (Called(fd, start[fd]) in log || Removed(fd) in log) && forall e | e in old(log) :: e in log
    {
      if fd in handlers && fd !in pendingRemovals {
        LogCall(fd, start, dead);
        ghost var called := log;
        var calls: seq<Call> := *;
        hide InBatch;
        Serve(calls, start, dead);
        StillLogged(old(log), called, log, Called(fd, start[fd]));
      }
    }

    ghost method LogCall(fd: nat, start: map<nat, Handler>, dead: set<Handler>)
      requires InBatch(start, dead) && fd in start && fd !in pendingRemovals
      modifies this`log
      ensures InBatch(start, dead) && log == old(log) + [Called(fd, start[fd])]
    {
      hide Orderly, Marks;
      OneMoreEntry(start, log, pendingRemovals, Called(fd, start[fd]));
      OneMoreMark(log, pendingRemovals, Called(fd, start[fd]));
      log := log + [Called(fd, start[fd])];
    }

    method FinishPendingRemovals()
      requires pendingRemovals <= handlers.Keys && !dispatching
      requires forall fd | fd in handlers :: handlers[fd] !in destroyed && handlers[fd] < nextHandler
      requires forall h | h in destroyed :: h < nextHandler
      requires forall a, b | a in handlers && b in handlers && handlers[a] == handlers[b] :: a == b
      modifies this`handlers, this`pendingRemovals, this`destroyed
      ensures Valid() && handlers == old(handlers) - old(pendingRemovals) && pendingRemovals == {}
      ensures destroyed == old(destroyed) + HandlersOf(old(handlers), old(pendingRemovals))
    {
      ghost var all, pending, dead := handlers, pendingRemovals, destroyed;
      while pendingRemovals != {}
        invariant pendingRemovals <= pending && handlers == all - (pending - pendingRemovals)
        invariant destroyed == dead + HandlersOf(all, pending - pendingRemovals)
        decreases |pendingRemovals|
      {
        var fd :| fd in pendingRemovals;
        OneMoreGone(all, pending, pendingRemovals, fd);
        destroyed := destroyed + {handlers[fd]};
        handlers, pendingRemovals := handlers - {fd}, pendingRemovals - {fd};
      }
    }
  }
}
