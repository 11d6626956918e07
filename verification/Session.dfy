/** The streaming session: one client connection, at most one upstream connection at a time.

The session holds what its collaborators' contracts expose: the contents of the two byte
buffers, and the state of the chunk decoder. The fields of a request cycle are grouped by side. */
module Session {
  import opened Text
  import opened SessionEnvironment
  import opened SessionTypes
  import CD = ChunkedDecoder
  import Rsp = ResponseParsing

  class ReliableSession {
    const env: Environment
    const config: Config
    const codec: Codec
    var state: StreamState
    var upstreamAttached: bool
    var clientRegistered: bool
    var clientMask: set<Interest>
    var upstreamMask: set<Interest>
    var request: RequestSide
    var response: ResponseSide
    var toUpstream: string
    var toClient: string
    var clientReadClosed: bool
    var closeAfterResponse: bool
    var completedAtLeastOne: bool
    var deadlines: Deadlines
    var accessRecords: nat

    ghost var wires: Wires
    /** Responses of earlier cycles, each fully sent. */
    ghost var deliveries: seq<Wires>
    /** Timer ticks at or after the deadline of this request, and the time of the last tick. */
    ghost var expiredTicks: nat
    ghost var lastTick: nat

    // -------------------------------------------------------------- invariants

    /** Holds between any two statements that change several fields together. */
    ghost predicate Core()
      reads this`state, this`upstreamAttached, this`clientRegistered, this`request, this`response, this`toUpstream
      reads this`toClient, this`deadlines, this`accessRecords, this`wires, this`deliveries, this`expiredTicks
      reads this`lastTick
    {
      && ValidConfig(config) && ValidCodec(codec)
      && |toUpstream| <= config.capacity && |toClient| <= config.capacity
      && Ledger(codec, wires, toClient, response.bytesSent)
      && Attempts(env, request)
      && HeadLedger(codec, env, request, wires.noneHealthy)
      && BodyCount(request)
      && (upstreamAttached ==> clientRegistered && UpstreamLedger(request, wires, toUpstream))
      && Records(codec, config, accessRecords, deliveries, response.accessLogged, wires, toClient)
      && (state == Closed ==> !upstreamAttached && !clientRegistered)
      && (expiredTicks > 0 ==> deadlines.request <= lastTick)
    }

    /** What holds in each state whenever the session waits for the next event. */
    ghost predicate Rest()
      reads this`state, this`upstreamAttached, this`request, this`response, this`toUpstream, this`toClient
      reads this`clientRegistered, this`clientReadClosed, this`closeAfterResponse, this`wires
    {
      match state
      case ReadingRequestHead =>
        && !upstreamAttached && !clientReadClosed && response.headBytes == ""
        && RequestUntouched(request, wires, toUpstream) && ResponsePending(response, wires, toClient)
        && NoBlankLine(request.headBytes) && |request.headBytes| <= config.maxHeader
      case ConnectingUpstream => Requesting() && wires.upstream == ""
      case SendingRequest => Requesting() && (toUpstream != "" || !request.bodyComplete)
      case ReadingResponseHead =>
        && upstreamAttached && toUpstream == "" && request.bodyComplete && ResponsePending(response, wires, toClient)
        && wires.heard == response.headBytes
        && NoBlankLine(response.headBytes) && |response.headBytes| <= config.maxHeader
      case StreamingResponse => Streaming() && BodyProgress(codec, config, response, wires.plan)
      case DrainingResponse => Draining() && !upstreamAttached && toClient != ""
      case Closed => true
    }

    ghost predicate Requesting()
      reads this`state, this`upstreamAttached, this`request, this`response, this`toUpstream, this`toClient
      reads this`clientReadClosed, this`closeAfterResponse, this`wires
    {
      && upstreamAttached && RequestFlow(config, request, toUpstream, clientReadClosed)
      && ResponsePending(response, wires, toClient) && response.headBytes == "" && wires.heard == ""
    }

    ghost predicate Streaming()
      reads this`state, this`upstreamAttached, this`request, this`response, this`toUpstream, this`toClient
      reads this`clientReadClosed, this`closeAfterResponse, this`wires
    {
      && upstreamAttached && toUpstream == "" && request.bodyComplete
      && Relaying(codec, response, wires) && FlowControlled(config, response.paused, |toClient|) && ClosePromised()
    }

    /** A relayed head that announced the end of the connection is meant. */
    ghost predicate ClosePromised()
      reads this`closeAfterResponse, this`clientReadClosed, this`wires
    {
      wires.plan.Relay? && wires.plan.close ==> closeAfterResponse || clientReadClosed
    }

    /** Only an error reply may be sent before the request body has arrived, and only it, after
    that, on a connection already given up. */
    ghost predicate Draining()
      reads this`clientRegistered, this`request, this`response, this`closeAfterResponse, this`clientReadClosed, this`wires
    {
      && ClosePromised()
      && Finished(codec, config, response, wires, closeAfterResponse)
      && (wires.plan.ErrorReply? || (clientRegistered && request.bodyComplete))
      && (clientRegistered || request.bodyComplete)
    }

    ghost predicate Valid()
      reads this`state, this`upstreamAttached, this`clientRegistered, this`request, this`response, this`toUpstream
      reads this`toClient, this`deadlines, this`accessRecords, this`wires, this`deliveries, this`expiredTicks
      reads this`lastTick, this`clientReadClosed, this`closeAfterResponse
    {
      Core() && Rest()
    }

    /** How far the session is from having to end: 0 closed, 1 nothing but queued octets left,
    2 on its second upstream, 3 otherwise. */
    ghost function Rank(): nat
      reads this`state, this`request
    {
      match state
      case Closed => 0
      case DrainingResponse => 1
      case ReadingRequestHead => 3
      case _ => if |request.attempted| >= 2 then 2 else 3
    }

    ghost function Trail(): Log
      reads this`state, this`request, this`wires, this`deliveries, this`deadlines, this`expiredTicks
      reads this`closeAfterResponse
    {
      Log(deliveries, wires.client, RoutedHead(env, request), wires.noneHealthy, request.attempted, request.bodyComplete,
          closeAfterResponse && state != ReadingRequestHead, deadlines.request, expiredTicks,
          state == ReadingRequestHead && request.headBytes == "", Rank())
    }

    // -------------------------------------------------------------- interests

    function Interests(role: Role): set<Interest>
      reads this`state, this`request, this`response, this`toUpstream, this`toClient, this`clientReadClosed
    {
      if state == Closed then {}
      else match role
        case Client =>
          (if (state == ReadingRequestHead
               || ((state == ConnectingUpstream || state == SendingRequest) && !request.bodyComplete))
              && !request.paused && !clientReadClosed then {Readable} else {})
          + (if toClient != "" then {Writable} else {})
        case Server =>
          if state == ConnectingUpstream then {Writable}
          else (if toUpstream != "" then {Writable} else {})
               + (if (state == ReadingResponseHead || state == StreamingResponse) && !response.paused
                  then {Readable} else {})
    }

    constructor (env: Environment, config: Config, codec: Codec)
      requires ValidConfig(config) && ValidCodec(codec)
      modifies env`now
      ensures Valid() && state == ReadingRequestHead && clientRegistered && deliveries == []
      ensures this.env == env && this.config == config && this.codec == codec && clientMask == Interests(Client)
      ensures expiredTicks == 0 && lastTick == 0 && TickRule(Trail())
      ensures deadlines.request == env.now + deadlines.timeouts.requestTotal
      ensures deadlines.phase == env.now + deadlines.timeouts.clientHeader && deadlines.lastIo == env.now
    {
      IdleRequest(codec, env);
      IdleResponse(codec, Rsp.NoBody);
      this.env, this.config, this.codec := env, config, codec;
      state, upstreamAttached, clientRegistered := ReadingRequestHead, false, true;
      clientMask, upstreamMask := {Readable}, {};
      request, response, toUpstream, toClient := IDLE_REQUEST, IDLE_RESPONSE, "", "";
      clientReadClosed, closeAfterResponse, completedAtLeastOne := false, false, false;
      accessRecords := 0;
      wires, deliveries, expiredTicks, lastTick := SILENCE, [], 0, 0;
      new;
      var now := env.Clock();
      var timeouts := env.CurrentTimeouts();
      deadlines := Deadlines(timeouts, now + timeouts.requestTotal, now + timeouts.clientHeader, now);
    }

    // -------------------------------------------------------------- closing

    method CloseUpstream()
      modifies this`upstreamAttached
      ensures !upstreamAttached
    {
      upstreamAttached := false;
    }

    method CloseSession()
      requires Core()
      modifies this`state, this`upstreamAttached, this`clientRegistered
      ensures Valid() && state == Closed && !upstreamAttached && !clientRegistered
    {
      hide ValidCodec, Ledger, Attempts, HeadLedger, UpstreamLedger, BodyCount, Records;
      hide RequestUntouched, ResponsePending, RequestFlow, Relaying, Finished, BodyProgress, NoBlankLine;
      if state == Closed {
        return;
      }
      state := Closed;
      CloseUpstream();
      clientRegistered := false;
    }

    // -------------------------------------------------------------- backpressure

    /** Pauses at the high mark, resumes at the low mark, and otherwise leaves things as they are. */
    method UpdateRequestBackpressure()
      requires ValidConfig(config)
      modifies this`request
      ensures request == old(request).(paused := request.paused)
      ensures FlowControlled(config, request.paused, |toUpstream|)
      ensures request.paused != old(request.paused) ==>
                if request.paused then |toUpstream| >= config.highWatermark else |toUpstream| <= config.lowWatermark
    {
      if !request.paused && |toUpstream| >= config.highWatermark {
        request := request.(paused := true);
      } else if request.paused && |toUpstream| <= config.lowWatermark {
        request := request.(paused := false);
      }
    }

    method UpdateResponseBackpressure()
      requires ValidConfig(config)
      modifies this`response
      ensures response == old(response).(paused := response.paused)
      ensures FlowControlled(config, response.paused, |toClient|)
      ensures response.paused != old(response.paused) ==>
                if response.paused then |toClient| >= config.highWatermark else |toClient| <= config.lowWatermark
    {
      if !response.paused && |toClient| >= config.highWatermark {
        response := response.(paused := true);
      } else if response.paused && |toClient| <= config.lowWatermark {
        response := response.(paused := false);
      }
    }

    method NoteIo()
      modifies this`deadlines, env`now
      ensures deadlines == old(deadlines).(lastIo := deadlines.lastIo)
      ensures deadlines.lastIo == env.now >= old(env.now)
    {
      var t := env.Clock();
      deadlines := deadlines.(lastIo := t);
    }

    // -------------------------------------------------------------- sending to the client

    /** One access record for each response whose last octet has been handed over. */
    method LogAccessOnce()
      requires Core() && Finished(codec, config, response, wires, closeAfterResponse) && toClient == ""
      modifies this`response, this`accessRecords
      ensures Core() && response == old(response).(accessLogged := true)
    {
      hide ValidCodec, Ledger, Attempts, HeadLedger, UpstreamLedger, BodyCount, Records;
      RecordLogged(codec, config, accessRecords, deliveries, response, wires, closeAfterResponse);
      if response.accessLogged {
        assert false;
      }
      response := response.(accessLogged := true);
      accessRecords := accessRecords + 1;
    }

    /** The cycle is over: its response joins the deliveries, and the next request may come. */
    method ResetForKeepAlive()
      requires Core() && response.accessLogged && toClient == "" && KeptOpen(wires)
      requires !upstreamAttached && clientRegistered && !clientReadClosed && state != Closed
      modifies this`state, this`request, this`response, this`toUpstream, this`closeAfterResponse, this`deadlines
      modifies this`wires, this`deliveries, this`expiredTicks, env`now
      ensures Valid() && state == ReadingRequestHead
      ensures deliveries == old(deliveries) + [old(wires)] && expiredTicks == 0
      ensures wires == SILENCE
    {
      hide Core, RequestUntouched, ResponsePending;
      IdleRequest(codec, env);
      ForgetCycle();
      ExpectNextRequest();
      StillReadingHead();
    }

    method ForgetCycle()
      requires Core() && response.accessLogged && toClient == "" && KeptOpen(wires)
      requires !upstreamAttached && clientRegistered && !clientReadClosed && state != Closed
      modifies this`state, this`request, this`response, this`toUpstream, this`closeAfterResponse
      modifies this`wires, this`deliveries
      ensures Core() && HeadPhase() && request == IDLE_REQUEST
      ensures deliveries == old(deliveries) + [old(wires)]
      ensures wires == SILENCE
    {
      hide ValidCodec, Ledger, Attempts, HeadLedger, UpstreamLedger, BodyCount, Records;
      hide RequestUntouched, ResponsePending;
      RecordDelivery(codec, config, accessRecords, deliveries, wires, toClient);
      IdleRequest(codec, env);
      IdleResponse(codec, response.mode);
      deliveries := deliveries + [wires];
      wires := SILENCE;
      state := ReadingRequestHead;
      request, response, toUpstream := IDLE_REQUEST, IDLE_RESPONSE.(mode := response.mode), "";
      closeAfterResponse := false;
    }

    /** Timeouts are taken anew: a reload never changes those of a request under way. */
    method ExpectNextRequest()
      requires Core()
      modifies this`deadlines, this`expiredTicks, env`now
      ensures Core() && expiredTicks == 0
      ensures deadlines.request == env.now + deadlines.timeouts.requestTotal && deadlines.lastIo == env.now
      ensures deadlines.phase == env.now + deadlines.timeouts.keepAliveIdle
    {
      hide ValidCodec, Ledger, Attempts, HeadLedger, UpstreamLedger, BodyCount, Records;
      var now := env.Clock();
      var timeouts := env.CurrentTimeouts();
      deadlines := Deadlines(timeouts, now + timeouts.requestTotal, now + timeouts.keepAliveIdle, now);
      expiredTicks := 0;
    }

    /** Octets the kernel took: they move from the queue to the wire, in order. */
    method ClientTook(count: nat)
      requires Core() && !response.accessLogged && count <= |toClient|
      modifies this`toClient, this`wires, this`response, this`deadlines, env`now
      ensures Core() && FlowControlled(config, response.paused, |toClient|)
      ensures wires == old(wires).(client := old(wires.client) + old(toClient)[..count])
      ensures response == old(response).(bytesSent := response.bytesSent, paused := response.paused)
      ensures toClient == old(toClient)[count..] && deadlines == old(deadlines).(lastIo := deadlines.lastIo)
      ensures Continues(old(Trail()), Trail())
      ensures deadlines.lastIo == env.now >= old(env.now)
    {
      hide ValidCodec, Ledger, Attempts, HeadLedger, BodyCount, Records;
      NoteIo();
      LedgerSend(codec, wires, toClient, response.bytesSent, count);
      RecordsUnlogged(codec, config, accessRecords, deliveries, wires, toClient,
                      wires.(client := wires.client + toClient[..count]), toClient[count..]);
      wires := wires.(client := wires.client + toClient[..count]);
      response := response.(bytesSent := response.bytesSent + count);
      toClient := toClient[count..];
      UpdateResponseBackpressure();
    }

    /** The sending loop: until the queue is empty, the socket would block, or it fails. */
    method FlushClient() returns (failed: bool)
      requires Core() && !response.accessLogged
      modifies this`toClient, this`wires, this`response, this`deadlines, env`now, env`interrupts
      modifies env`failures, env`lastSend
      ensures old(env.failures) <= env.failures
      ensures Core() && old(wires.client) <= wires.client
      ensures wires == old(wires).(client := wires.client)
      ensures response == old(response).(bytesSent := response.bytesSent, paused := response.paused)
      ensures old(FlowControlled(config, response.paused, |toClient|)) ==> FlowControlled(config, response.paused, |toClient|)
      ensures deadlines == old(deadlines).(lastIo := deadlines.lastIo)
      ensures toClient != "" ==> if failed then env.lastSend.SendFailed? else env.lastSend.SendWouldBlock?
      ensures Continues(old(Trail()), Trail()) && (state != ReadingRequestHead ==> Follows(old(Trail()), Trail()))
      ensures old(env.now) <= env.now && (wires.client != old(wires.client) ==> deadlines.lastIo >= old(env.now))
    {
      hide Core, Continues, Trail, Follows, Rank;
      ContinuesItself(Trail());
      BusyTrail();
      ghost var flow := FlowControlled(config, response.paused, |toClient|);
      while toClient != ""
        invariant old(env.failures) <= env.failures
        invariant old(env.now) <= env.now && (wires.client != old(wires.client) ==> deadlines.lastIo >= old(env.now))
        invariant Core() && old(wires.client) <= wires.client && Continues(old(Trail()), Trail())
        invariant wires == old(wires).(client := wires.client)
        invariant response == old(response).(bytesSent := response.bytesSent, paused := response.paused)
        invariant flow ==> FlowControlled(config, response.paused, |toClient|)
        invariant deadlines == old(deadlines).(lastIo := deadlines.lastIo)
        decreases |toClient|, env.interrupts
      {
        var sent := env.Send(|toClient|);
        if sent.Sent? {
          ghost var before := Trail();
          ClientTook(sent.count);
          ContinuesTransitive(old(Trail()), before, Trail());
        } else if !sent.SendInterrupted? {
          BusyTrail();
          return sent.SendFailed?;
        }
      }
      BusyTrail();
      return false;
    }

    /** Only a session that waits for a request can be idle. */
    lemma BusyTrail()
      ensures Trail().rank == Rank()
      ensures forall before: Log | Continues(before, Trail()) && before.rank == Rank() && state != ReadingRequestHead ::
                Follows(before, Trail())
    {
      hide Rank, RouteOf;
    }

    /** The response with this plan is still the one of this cycle, or its cycle has ended. */
    ghost predicate Carried(before: seq<Wires>, plan: Plan)
      reads this`wires, this`deliveries
    {
      if deliveries == before then wires.plan == plan
      else before < deliveries && deliveries[|before|].plan == plan
    }

    method WriteClient()
      requires Core()
      requires (state == StreamingResponse && Streaming() && BodyProgress(codec, config, response, wires.plan))
               || (state == DrainingResponse && !upstreamAttached && Draining())
      modifies this`state, this`upstreamAttached, this`clientRegistered, this`request, this`response, this`toUpstream
      modifies this`toClient, this`closeAfterResponse, this`deadlines, this`accessRecords
      modifies this`wires, this`deliveries, this`expiredTicks, env`now, env`interrupts
      modifies env`failures, env`lastSend
      ensures old(env.failures) <= env.failures
      ensures Valid()
      ensures Follows(old(Trail()), Trail())
      ensures old(closeAfterResponse) || old(state) == StreamingResponse ==> Continues(old(Trail()), Trail())
      ensures old(closeAfterResponse) || old(state) == StreamingResponse ==>
                wires == old(wires).(client := wires.client) && request == old(request)
      ensures state != Closed ==> clientRegistered == old(clientRegistered)
      ensures state == ReadingRequestHead ==> old(deliveries) < deliveries
      ensures state == old(state) || state == Closed || (state == ReadingRequestHead && clientRegistered)
      ensures state != Closed && toClient != "" ==> env.lastSend.SendWouldBlock?
      ensures Carried(old(deliveries), old(wires.plan))
      ensures old(closeAfterResponse) ==> state != ReadingRequestHead
      ensures wires.plan.ErrorReply? ==> wires.plan == old(wires.plan)
    {
      hide Core, Rest, Settled, Sound, Asked, Follows, Continues, Trail, Rank;
      var failed := FlushClient();
      SettledIgnoresClient(codec, config, old(wires), wires.client);
      ghost var flushed := Trail();
      if failed {
        CloseNow();
        FollowsTransitive(old(Trail()), flushed, Trail());
        ContinuesTransitive(old(Trail()), flushed, Trail());
        return;
      }
      if toClient != "" || state == StreamingResponse {
        StillDelivering();
        return;
      }
      EndCycle();
      FollowsTransitive(old(Trail()), flushed, Trail());
      if old(closeAfterResponse) {
        ContinuesTransitive(old(Trail()), flushed, Trail());
      }
    }

    /** The last octet is out: the response is logged, and the connection closes or goes on. */
    method EndCycle()
      requires Core() && state == DrainingResponse && !upstreamAttached && Draining() && toClient == ""
      modifies this`state, this`upstreamAttached, this`clientRegistered, this`request, this`response, this`toUpstream
      modifies this`closeAfterResponse, this`deadlines, this`accessRecords
      modifies this`wires, this`deliveries, this`expiredTicks, env`now
      ensures Valid() && Follows(old(Trail()), Trail())
      ensures old(closeAfterResponse) ==> Continues(old(Trail()), Trail())
      ensures old(closeAfterResponse) ==> wires == old(wires) && request == old(request)
      ensures state != Closed ==> clientRegistered == old(clientRegistered)
      ensures state == ReadingRequestHead ==> old(deliveries) < deliveries
      ensures state == Closed || (state == ReadingRequestHead && clientRegistered)
      ensures Carried(old(deliveries), old(wires.plan))
      ensures old(closeAfterResponse) ==> state != ReadingRequestHead
      ensures old(wires.plan.Relay? && wires.plan.close) ==> state == Closed
      ensures wires.plan.ErrorReply? ==> wires.plan == old(wires.plan)
    {
      hide Core, Rest, Settled, Sound, Asked;
      SettledIsThere(codec, config, wires);
      LogAccessOnce();
      if closeAfterResponse || clientReadClosed {
        CloseNow();
      } else {
        ResetForKeepAlive();
      }
    }

    lemma StillDelivering()
      requires Core()
      requires (state == StreamingResponse && Streaming() && BodyProgress(codec, config, response, wires.plan))
               || (state == DrainingResponse && !upstreamAttached && Draining() && toClient != "")
      ensures Valid()
    {
      hide Core, BodyProgress;
    }

    // -------------------------------------------------------------- errors, retries, connecting

    /** The client is being sent, or was sent, this error, unless it did not even fit the queue. */
    ghost predicate Answered(code: nat, reason: string)
      reads this`state, this`wires
    {
      || wires.plan == ErrorReply(code, reason)
      || (state == Closed && wires.plan == Nothing && |codec.errorReply(code, reason)| > config.capacity)
    }

    ghost predicate BadGateway()
      reads this`state, this`wires
    {
      Answered(502, "Bad Gateway")
    }

    /** An error that is planned now was planned before, or is this one, or says that an upstream failed. */
    ghost predicate OnlyError(before: Plan, code: nat, reason: string)
      reads this`wires
    {
      wires.plan.ErrorReply? ==> wires.plan in {before, ErrorReply(code, reason), BAD_GATEWAY}
    }

    /** The same for what a client sends: an error refuses its head, or says that an upstream failed. */
    ghost predicate OnlyRefusal(before: Plan)
      reads this`wires
    {
      wires.plan.ErrorReply? ==> wires.plan in {before, BAD_GATEWAY} + REFUSALS
    }

    lemma GatewayIsAllowed(before: Plan)
      requires OnlyError(before, 502, "Bad Gateway")
      ensures OnlyRefusal(before)
    {
      hide REFUSALS;
    }

    lemma RefusalIsAllowed(before: Plan)
      requires wires.plan.Nothing? || wires.plan in REFUSALS
      ensures OnlyRefusal(before)
    {
      hide REFUSALS;
    }

    /** After a failure: there is another upstream, or the client is told, unless it has already been
    sent a part of something else. */
    ghost predicate FailedWith(sent: nat, code: nat, reason: string)
      reads this`upstreamAttached, this`state, this`wires
    {
      upstreamAttached || if sent != 0 then state == Closed else Answered(code, reason) || BadGateway()
    }

    /** What became of the upstream of this cycle: it, or another one, is attached; or its response is
    whole, or broken off with a part of it sent; or the client is told that it failed. */
    ghost predicate Resolved(before: seq<Wires>)
      reads this`upstreamAttached, this`state, this`wires, this`deliveries
    {
      if upstreamAttached then deliveries == before
      else deliveries != before || BadGateway()
           || (wires.plan.Relay? && (wires.plan.ended || (state == Closed && wires.client != "")))
    }

    lemma ResolvedByFailure(before: seq<Wires>, sent: nat)
      requires deliveries == before && FailedWith(sent, 502, "Bad Gateway")
      requires sent != 0 && !upstreamAttached ==> wires.plan.Relay? && wires.client != ""
      ensures Resolved(before)
    {
    }

    lemma ResolvedByEnd(before: seq<Wires>, plan: Plan)
      requires !upstreamAttached && plan.Relay? && Carried(before, plan.(ended := true))
      ensures Resolved(before)
    {
    }

    lemma PartSent()
      requires Core()
      ensures response.bytesSent != 0 ==> wires.client != ""
    {
      hide ValidCodec, Attempts, HeadLedger, UpstreamLedger, BodyCount, Records;
    }

    lemma NothingSent()
      requires Core() && wires.plan.Nothing?
      ensures response.bytesSent == 0
    {
      hide ValidCodec, Attempts, HeadLedger, UpstreamLedger, BodyCount, Records;
    }

    lemma PlannedIsAnswered()
      ensures wires.plan == BAD_GATEWAY ==> BadGateway()
    {
    }

    lemma BadGatewaySent()
      requires Core() && BadGateway()
      ensures response.bytesSent == 0 || wires.plan == BAD_GATEWAY
    {
      hide Core;
      if wires.plan.Nothing? {
        NothingSent();
      }
    }

    /** What `retry_upstream` asks of a request. */
    predicate Retryable()
      reads this`request
    {
      && request.bodyComplete && request.bodyExpected == 0 && (request.verb == "GET" || request.verb == "HEAD")
      && |request.attempted| < 2 && request.routes.Some?
    }

    /** Replaces whatever was queued by an error reply: only while nothing of it was sent. */
    method QueueError(code: nat, reason: string)
      requires Core() && wires.client == "" && !response.accessLogged
      requires clientRegistered || request.bodyComplete
      modifies this`state, this`upstreamAttached, this`clientRegistered, this`request, this`response, this`toUpstream
      modifies this`toClient, this`closeAfterResponse, this`deadlines, this`accessRecords
      modifies this`wires, this`deliveries, this`expiredTicks, env`now, env`interrupts
      modifies env`failures, env`lastSend
      ensures old(env.failures) <= env.failures
      ensures Valid() && (state == DrainingResponse || state == Closed) && !upstreamAttached
      ensures state != Closed ==> clientRegistered == old(clientRegistered)
      ensures Answered(code, reason) && request == old(request)
      ensures wires == old(wires).(plan := wires.plan, client := wires.client)
      ensures Continues(old(Trail()), Trail())
    {
      hide Core, Rest, Finished, BodyProgress, Streaming, Trail, Draining, Continues, Follows;
      var fits := PlanError(code, reason);
      SameCycle();
      ghost var planned := Trail();
      if !fits {
        CloseNow();
        ContinuesTransitive(old(Trail()), planned, Trail());
        return;
      }
      WriteClient();
      ContinuesTransitive(old(Trail()), planned, Trail());
      ClosedIsDetached();
    }

    /** What the trail sees has stayed the same, or only moved nearer to the end. */
    twostate lemma SameCycle()
      requires deliveries == old(deliveries)
      requires request == old(request).(selected := request.selected, attempted := request.attempted)
      requires old(request.attempted) <= request.attempted
      requires wires.client == old(wires.client) && wires.noneHealthy == old(wires.noneHealthy)
      requires deadlines == old(deadlines) && expiredTicks == old(expiredTicks)
      requires old(closeAfterResponse) ==> closeAfterResponse
      requires old(state) != ReadingRequestHead ==> state != ReadingRequestHead
      ensures Continues(old(Trail()), Trail())
    {
    }

    lemma ClosedIsDetached()
      requires Valid() && (state == DrainingResponse || state == Closed)
      ensures !upstreamAttached
    {
      hide ValidCodec, Ledger, Attempts, HeadLedger, UpstreamLedger, BodyCount, Records;
    }

    /** `close_upstream`, and both queues emptied. */
    method DropQueues()
      requires Core() && wires.client == "" && !response.accessLogged
      modifies this`upstreamAttached, this`toUpstream, this`toClient, this`wires
      ensures Core() && wires == old(wires).(plan := Nothing) && !upstreamAttached && toUpstream == "" && toClient == ""
    {
      hide ValidCodec, Ledger, Attempts, HeadLedger, UpstreamLedger, BodyCount, Records;
      CloseUpstream();
      LedgerReplace(codec, wires, toClient, response.bytesSent, wires.(plan := Nothing));
      RecordsUnlogged(codec, config, accessRecords, deliveries, wires, toClient, wires.(plan := Nothing), "");
      toUpstream, toClient, wires := "", "", wires.(plan := Nothing);
    }

    method PlanError(code: nat, reason: string) returns (fits: bool)
      requires Core() && wires.client == "" && !response.accessLogged
      requires clientRegistered || request.bodyComplete
      modifies this`state, this`upstreamAttached, this`response, this`toUpstream
      modifies this`toClient, this`closeAfterResponse, this`wires
      ensures Core() && wires.client == "" && !upstreamAttached && (fits || state == old(state))
      ensures wires == old(wires).(plan := wires.plan)
      ensures old(closeAfterResponse) ==> closeAfterResponse
      ensures if fits then wires.plan == ErrorReply(code, reason)
              else wires.plan == Nothing && |codec.errorReply(code, reason)| > config.capacity
      ensures fits ==> state == DrainingResponse && closeAfterResponse && Draining()
    {
      hide ValidCodec, Ledger, Attempts, HeadLedger, UpstreamLedger, BodyCount, Records, Sound, BodyDone, Asked;
      var text := codec.errorReply(code, reason);
      DropQueues();
      if |text| > config.capacity {
        return false;
      }
      LedgerReplace(codec, wires, toClient, response.bytesSent, wires.(plan := ErrorReply(code, reason)));
      RecordsUnlogged(codec, config, accessRecords, deliveries, wires, toClient, wires.(plan := ErrorReply(code, reason)), text);
      toClient, wires := text, wires.(plan := ErrorReply(code, reason));
      closeAfterResponse := true;
      response := response.(complete := true);
      state := DrainingResponse;
      return true;
    }

    /** An upstream has failed: try another one, or answer with an error, or, with part of the
    response already sent, give up the connection. */
    method UpstreamFailure(finalStatus: nat, reason: string)
      requires Core() && state != Closed && !response.accessLogged
      requires clientRegistered || (|request.attempted| >= 2 && request.bodyComplete)
      modifies this`state, this`upstreamAttached, this`clientRegistered, this`upstreamMask, this`request, this`response
      modifies this`toUpstream, this`toClient, this`closeAfterResponse, this`deadlines, this`accessRecords
      modifies this`wires, this`deliveries, this`expiredTicks, env`now, env`interrupts
      modifies env`failures, env`lastSend, env`lastLookup
      ensures old(env.failures) <= env.failures
      ensures Valid() && state != ReadingRequestHead
      ensures Continues(old(Trail()), Trail())
      ensures upstreamAttached ==> |old(request).attempted| < |request.attempted|
      ensures old(upstreamAttached) && old(Rank()) >= 2 ==> Follows(old(Trail()), Trail())
      ensures old(clientRegistered) && !clientRegistered ==>
                state == Closed || |old(request).attempted| < |request.attempted|
      ensures old(response.bytesSent) != 0 ==> state == Closed && wires == old(wires)
      ensures old(response.bytesSent) == 0 && request.attempted == old(request.attempted) ==> Answered(finalStatus, reason)
      ensures old(response.bytesSent) == 0 && old(Retryable()) && request.attempted == old(request.attempted) ==>
                !env.lastLookup.Matched?
      ensures !old(Retryable()) ==> request.attempted == old(request.attempted)
      ensures Fresh(old(closeAfterResponse)) && (wires.plan.Relay? ==> wires == old(wires))
      ensures upstreamAttached ==> old(Retryable())
      ensures OnlyError(old(wires.plan), finalStatus, reason)
      ensures FailedWith(old(response.bytesSent), finalStatus, reason)
      ensures deliveries == old(deliveries)
      decreases AttemptsLeft(), 2
    {
      hide Core, Rest, Follows, Continues, Trail, Rank, Answered, Retryable;
      CoreBounds();
      TrailNow();
      ContinuesItself(Trail());
      CloseUpstreamKeepsCore();
      if response.bytesSent == 0 {
        var retried := RetryUpstream();
        if retried {
          SameDeliveries(old(Trail()));
          FailureFollows(old(Trail()));
          return;
        }
      }
      ghost var failed := Trail();
      GiveUp(finalStatus, reason);
      PlannedIsAnswered();
      ContinuesTransitive(old(Trail()), failed, Trail());
      SameDeliveries(old(Trail()));
      FailureFollows(old(Trail()));
    }

    /** After a failure a session has either a new attempt or nothing but a queue left to drain. */
    lemma FailureFollows(before: Log)
      requires Valid() && state != ReadingRequestHead && Continues(before, Trail())
      requires upstreamAttached ==> |before.attempted| < |request.attempted|
      ensures before.attempted != [] && before.rank >= 2 ==> Follows(before, Trail())
    {
      hide Core, Rest;
      CoreBounds();
      RankBound();
    }

    /** Without an upstream, and past the request head, there is at most a queue left to drain. */
    lemma RankBound()
      requires Valid() && state != ReadingRequestHead
      ensures !upstreamAttached ==> Rank() <= 1
    {
      hide ValidCodec, Ledger, Attempts, HeadLedger, UpstreamLedger, BodyCount, Records;
    }

    ghost function AttemptsLeft(): nat
      reads this
    {
      if |request.attempted| < 2 then 2 - |request.attempted| else 0
    }

    method CloseUpstreamKeepsCore()
      requires Core()
      modifies this`upstreamAttached
      ensures Core() && !upstreamAttached
    {
      hide ValidCodec, Ledger, Attempts, HeadLedger, UpstreamLedger, BodyCount, Records;
      CloseUpstream();
    }

    method GiveUp(finalStatus: nat, reason: string)
      requires Core() && !upstreamAttached && (clientRegistered || request.bodyComplete)
      modifies this`state, this`upstreamAttached, this`clientRegistered, this`request, this`response, this`toUpstream
      modifies this`toClient, this`closeAfterResponse, this`deadlines, this`accessRecords
      modifies this`wires, this`deliveries, this`expiredTicks, env`now, env`interrupts
      modifies env`failures, env`lastSend
      ensures old(env.failures) <= env.failures
      ensures Valid() && (state == DrainingResponse || state == Closed)
      ensures state != Closed ==> clientRegistered == old(clientRegistered)
      ensures if old(response.bytesSent) == 0 then Answered(finalStatus, reason) else state == Closed && wires == old(wires)
      ensures request == old(request)
      ensures !upstreamAttached && Continues(old(Trail()), Trail())
      ensures wires.plan.Relay? ==> wires == old(wires)
      ensures OnlyError(old(wires.plan), finalStatus, reason)
    {
      hide Core, Rest;
      EmptyWire();
      if response.bytesSent != 0 {
        CloseSession();
        return;
      }
      QueueError(finalStatus, reason);
    }

    /** Only a request without a body, and only once; nothing of a response may have been sent. */
    method RetryUpstream() returns (retried: bool)
      requires Core() && state != Closed && !upstreamAttached && response.bytesSent == 0 && !response.accessLogged
      requires clientRegistered || (|request.attempted| >= 2 && request.bodyComplete)
      modifies this`state, this`upstreamAttached, this`clientRegistered, this`upstreamMask, this`request, this`response
      modifies this`toUpstream, this`toClient, this`closeAfterResponse, this`deadlines, this`accessRecords
      modifies this`wires, this`deliveries, this`expiredTicks, env`now, env`interrupts
      modifies env`failures, env`lastSend, env`lastLookup
      ensures old(env.failures) <= env.failures
      ensures Core() && (retried ==> Valid() && state != Closed && state != ReadingRequestHead)
      ensures !retried ==> !upstreamAttached && (clientRegistered || request.bodyComplete)
      ensures Continues(old(Trail()), Trail())
      ensures upstreamAttached || old(clientRegistered) != clientRegistered ==>
                |old(request).attempted| < |request.attempted|
      ensures retried ==> old(Retryable()) && |old(request).attempted| < |request.attempted|
      ensures !old(Retryable()) ==> !retried && request == old(request)
      ensures request.attempted == old(request.attempted) ==>
                request == old(request) && wires == old(wires) && response == old(response)
      ensures old(Retryable()) && request.attempted == old(request.attempted) ==> !env.lastLookup.Matched?
      ensures Fresh(old(closeAfterResponse)) && (wires.plan.Relay? ==> wires == old(wires))
      ensures OnlyError(old(wires.plan), 502, "Bad Gateway")
      ensures if retried then upstreamAttached || BadGateway() else response.bytesSent == 0 || wires.plan == BAD_GATEWAY
      decreases AttemptsLeft(), 1
    {
      hide Core, Rest, Continues, Connectable, Trail;
      TrailNow();
      ContinuesItself(Trail());
      if !request.bodyComplete || request.bodyExpected != 0 || !(request.verb == "GET" || request.verb == "HEAD")
         || |request.attempted| >= 2 {
        return false;
      }
      if request.routes.None? {
        return false;
      }
      var route := env.Lookup(request.routes.value, request.host, request.target, request.attempted);
      if !route.Matched? {
        return false;
      }
      var fits := PrepareRetry(route.routeId, route.upstream);
      ghost var prepared := Trail();
      TrailNow();
      if !fits {
        NothingSent();
        return false;
      }
      ConnectUpstream();
      ContinuesAttempts(prepared, Trail());
      TrailNow();
      ContinuesTransitive(old(Trail()), prepared, Trail());
      CoreBounds();
      if !upstreamAttached {
        BadGatewaySent();
      }
      retried := state != Closed;
    }

    lemma CoreBounds()
      requires Core()
      ensures |request.attempted| <= 2 && (state == Closed ==> !upstreamAttached)
      ensures upstreamAttached ==> request.attempted != [] && clientRegistered
    {
    }

    /** Selects the next upstream, forgets everything about the failed one, and queues the head. */
    method PrepareRetry(routeId: string, upstream: Upstream) returns (fits: bool)
      requires Core() && !upstreamAttached && response.bytesSent == 0 && !response.accessLogged
      requires request.bodyComplete && request.bodyExpected == 0 && (request.verb == "GET" || request.verb == "HEAD")
      requires |request.attempted| < 2 && upstream.id !in request.attempted
      requires RouteOf(env, request) == Some(routeId) && env.belongs(request.routes.value, routeId, upstream)
      modifies this`request, this`toUpstream, this`toClient, this`response, this`wires
      ensures Core() && Continues(old(Trail()), Trail())
      ensures old(wires.client) == "" && wires == Wires("", Nothing, "", "", "", old(wires.noneHealthy))
      ensures request == old(request).(selected := Some(upstream), attempted := old(request).attempted + [upstream.id])
      ensures (fits <==> |request.upstreamHead| <= config.capacity) && (fits ==> Connectable())
    {
      hide Core, Connectable, Trail, Continues, Attempts, RouteOf;
      fits := QueueAgain(routeId, upstream);
      SameCycle();
    }

    /** The fields of the failed attempt, set anew. */
    method QueueAgain(routeId: string, upstream: Upstream) returns (fits: bool)
      requires Core() && !upstreamAttached && response.bytesSent == 0 && !response.accessLogged
      requires request.bodyComplete && request.bodyExpected == 0 && (request.verb == "GET" || request.verb == "HEAD")
      requires |request.attempted| < 2 && upstream.id !in request.attempted
      requires RouteOf(env, request) == Some(routeId) && env.belongs(request.routes.value, routeId, upstream)
      modifies this`request, this`toUpstream, this`toClient, this`response, this`wires
      ensures Core() && old(wires.client) == "" && wires == Wires("", Nothing, "", "", "", old(wires.noneHealthy))
      ensures request == old(request).(selected := Some(upstream), attempted := old(request).attempted + [upstream.id])
      ensures (fits <==> |request.upstreamHead| <= config.capacity) && (fits ==> Connectable())
    {
      hide ValidCodec, Ledger, Attempts, HeadLedger, Records, Parsed;
      EmptyWire();
      AttemptMore(env, request, upstream, routeId);
      HeadLedgerAttempt(codec, env, request, wires.noneHealthy, Some(upstream), request.attempted + [upstream.id]);
      request := request.(selected := Some(upstream), attempted := request.attempted + [upstream.id]);
      ghost var silent := Wires("", Nothing, "", "", "", wires.noneHealthy);
      LedgerReplace(codec, wires, toClient, response.bytesSent, silent);
      RecordsUnlogged(codec, config, accessRecords, deliveries, wires, toClient, silent, "");
      toUpstream, toClient, wires := "", "", silent;
      response := ResponseSide("", response.mode, None, 0, 0, 0, false, false, false);
      if |request.upstreamHead| > config.capacity {
        return false;
      }
      toUpstream := request.upstreamHead;
      assert request.upstreamHead + "" == request.upstreamHead;
      return true;
    }

    lemma EmptyWire()
      requires Core()
      ensures |wires.client| == response.bytesSent && (response.accessLogged ==> wires.client != "")
    {
    }

    /** What opening a connection relies on: the request queued from its first octet. */
    ghost predicate Connectable()
      reads this
    {
      && !upstreamAttached && request.selected.Some?
      && ResponsePending(response, wires, toClient) && response.headBytes == ""
      && RequestFlow(config, request, toUpstream, clientReadClosed)
      && toUpstream == request.upstreamHead + wires.accepted && |wires.accepted| == request.bodyReceived
      && (wires.noneHealthy ==> request.bodyExpected == 0)
    }

    /** A fresh upstream connection has carried nothing yet in either direction. */
    method Attach(connected: bool)
      requires Core() && clientRegistered && state != Closed && Connectable()
      modifies this`state, this`upstreamAttached, this`wires
      ensures Core() && Requesting() && wires.upstream == "" && Continues(old(Trail()), Trail())
      ensures wires.plan.Nothing?
      ensures upstreamAttached && state == if connected then SendingRequest else ConnectingUpstream
    {
      hide ValidCodec, Attempts, HeadLedger, Records, BodyCount, RequestFlow;
      RecordsUnlogged(codec, config, accessRecords, deliveries, wires, toClient, wires.(upstream := "", heard := ""), toClient);
      state := if connected then SendingRequest else ConnectingUpstream;
      upstreamAttached, wires := true, wires.(upstream := "", heard := "");
      assert "" + toUpstream == toUpstream;
    }

    /** Opens a connection for the queued request. */
    method ConnectUpstream()
      requires Core() && clientRegistered && state != Closed && Connectable()
      modifies this`state, this`upstreamAttached, this`clientRegistered, this`upstreamMask, this`request, this`response
      modifies this`toUpstream, this`toClient, this`closeAfterResponse, this`deadlines, this`accessRecords
      modifies this`wires, this`deliveries, this`expiredTicks, env`now, env`interrupts
      modifies env`failures, env`lastSend, env`lastLookup
      ensures env.failures == old(env.failures) ==> upstreamAttached && request.attempted == old(request.attempted)
      ensures old(env.failures) <= env.failures
      ensures Valid() && state != ReadingRequestHead
      ensures Continues(old(Trail()), Trail())
      ensures Fresh(old(closeAfterResponse)) && !wires.plan.Relay?
      ensures FailedWith(0, 502, "Bad Gateway") && OnlyError(old(wires.plan), 502, "Bad Gateway")
      decreases AttemptsLeft(), 5
    {
      hide Core, RequestFlow, Interests, BodyProgress, Finished, Relaying, Continues, Trail;
      hide Rest, Requesting, Answered, Retryable, FirstMask;
      NothingSent();
      if request.selected.None? {
        assert false;
      }
      var usable := env.Succeeds();
      if !usable {
        UpstreamFailure(502, "Bad Gateway");
        return;
      }
      var result := env.Connect();
      if result == Refused {
        UpstreamFailure(502, "Bad Gateway");
        return;
      }
      Attach(result == Connected);
      ghost var attached := Trail();
      var added := env.Succeeds();
      if !added {
        CloseUpstreamKeepsCore();
        UpstreamFailure(502, "Bad Gateway");
        ContinuesTransitive(old(Trail()), attached, Trail());
        return;
      }
      BeginSending();
      ContinuesTransitive(old(Trail()), attached, Trail());
    }

    /** A connection that is there at once is written to at once. */
    method BeginSending()
      requires Core() && clientRegistered && upstreamAttached && Requesting() && wires.upstream == "" && wires.plan.Nothing?
      requires state == ConnectingUpstream || state == SendingRequest
      modifies this`state, this`upstreamAttached, this`clientRegistered, this`upstreamMask, this`request, this`response
      modifies this`toUpstream, this`toClient, this`closeAfterResponse, this`deadlines, this`accessRecords
      modifies this`wires, this`deliveries, this`expiredTicks, env`now, env`interrupts
      modifies env`failures, env`lastSend, env`lastLookup
      ensures env.failures == old(env.failures) ==> upstreamAttached && request.attempted == old(request.attempted)
      ensures old(env.failures) <= env.failures
      ensures Valid() && state != ReadingRequestHead
      ensures Continues(old(Trail()), Trail())
      ensures Fresh(old(closeAfterResponse)) && !wires.plan.Relay?
      ensures FailedWith(0, 502, "Bad Gateway") && OnlyError(old(wires.plan), 502, "Bad Gateway")
      decreases AttemptsLeft(), 4
    {
      hide Core, Requesting, Continues, Interests;
      ContinuesItself(Trail());
      FirstInterests();
      Registered();
      if state == SendingRequest {
        WriteUpstream();
      }
    }


    /** The mask an upstream connection was registered with: what it wanted in its first moment. */
    ghost function FirstMask(): set<Interest>
      reads this`state, this`request, this`wires
    {
      if state == ConnectingUpstream || request.upstreamHead + wires.accepted != "" then {Writable} else {}
    }

    /** An upstream connection just opened, still as it was registered. */
    ghost predicate Fresh(close: bool)
      reads this`upstreamAttached, this`closeAfterResponse, this`upstreamMask, this`state, this`request, this`wires
    {
      upstreamAttached ==> state != StreamingResponse && closeAfterResponse == close && upstreamMask == FirstMask()
    }

    lemma FirstInterests()
      requires Core() && upstreamAttached && wires.upstream == "" && (state == ConnectingUpstream || state == SendingRequest)
      ensures Interests(Server) == FirstMask()
    {
      hide ValidCodec, Ledger, Attempts, HeadLedger, BodyCount, Records;
      assert "" + toUpstream == toUpstream;
    }

    /** `EventLoop::add` subscribes to the interests of the moment; the connect timeout starts. */
    method Registered()
      requires Core()
      modifies this`upstreamMask, this`deadlines, env`now
      ensures Core() && Trail() == old(Trail()) && upstreamMask == old(Interests(Server))
      ensures deadlines.phase == env.now + deadlines.timeouts.upstreamConnect
    {
      hide Core;
      upstreamMask := Interests(Server);
      SetPhase(deadlines.timeouts.upstreamConnect);
    }

    method SetPhase(length: nat)
      requires Core()
      modifies this`deadlines, env`now
      ensures Core() && deadlines == old(deadlines).(phase := deadlines.phase)
      ensures deadlines.phase == env.now + length
    {
      hide ValidCodec, Ledger, Attempts, HeadLedger, UpstreamLedger, BodyCount, Records;
      var now := env.Clock();
      deadlines := deadlines.(phase := now + length);
    }

    method UpstreamTook(count: nat)
      requires Core() && upstreamAttached && count <= |toUpstream| && !response.accessLogged
      modifies this`toUpstream, this`wires, this`request, this`deadlines, env`now
      ensures Core() && FlowControlled(config, request.paused, |toUpstream|)
      ensures wires == old(wires).(upstream := old(wires.upstream) + old(toUpstream)[..count])
      ensures request == old(request).(paused := request.paused) && toUpstream == old(toUpstream)[count..]
      ensures deadlines == old(deadlines).(lastIo := deadlines.lastIo)
      ensures deadlines.lastIo == env.now >= old(env.now)
    {
      hide ValidCodec, Attempts, HeadLedger, UpstreamLedger, BodyCount, Records;
      NoteIo();
      RecordsUnlogged(codec, config, accessRecords, deliveries, wires, toClient,
                      wires.(upstream := wires.upstream + toUpstream[..count]), toClient);
      UpstreamLedgerSend(request, wires, toUpstream, count, true);
      UpstreamLedgerSend(request, wires, toUpstream, count, false);
      PausedIrrelevant(codec, env, request, true, wires.noneHealthy);
      PausedIrrelevant(codec, env, request, false, wires.noneHealthy);
      wires := wires.(upstream := wires.upstream + toUpstream[..count]);
      toUpstream := toUpstream[count..];
      UpdateRequestBackpressure();
    }

    /** The sending loop towards the upstream. */
    method FlushUpstream() returns (failed: bool)
      requires Core() && upstreamAttached && RequestFlow(config, request, toUpstream, clientReadClosed)
      requires !response.accessLogged
      modifies this`toUpstream, this`wires, this`request, this`deadlines, env`now, env`interrupts
      modifies env`failures, env`lastSend
      ensures failed ==> old(env.failures) < env.failures
      ensures old(env.failures) <= env.failures
      ensures Core() && RequestFlow(config, request, toUpstream, clientReadClosed)
      ensures wires == old(wires).(upstream := wires.upstream) && Trail() == old(Trail())
      ensures request == old(request).(paused := request.paused)
      ensures deadlines == old(deadlines).(lastIo := deadlines.lastIo)
      ensures toUpstream != "" ==> if failed then env.lastSend.SendFailed? else env.lastSend.SendWouldBlock?
      ensures old(env.now) <= env.now && (wires.upstream != old(wires.upstream) ==> deadlines.lastIo >= old(env.now))
    {
      hide Core;
      while toUpstream != ""
        invariant old(env.failures) <= env.failures
        invariant old(env.now) <= env.now && (wires.upstream != old(wires.upstream) ==> deadlines.lastIo >= old(env.now))
        invariant Core() && RequestFlow(config, request, toUpstream, clientReadClosed)
        invariant wires == old(wires).(upstream := wires.upstream)
        invariant request == old(request).(paused := request.paused)
        invariant deadlines == old(deadlines).(lastIo := deadlines.lastIo)
        decreases |toUpstream|, env.interrupts
      {
        var sent := env.Send(|toUpstream|);
        if sent.Sent? {
          UpstreamTook(sent.count);
        } else if !sent.SendInterrupted? {
          return sent.SendFailed?;
        }
      }
      return false;
    }

    /** Sends what is queued; once the whole request is out, its response is awaited. */
    method WriteUpstream()
      requires Core() && state == SendingRequest && clientRegistered && Requesting()
      modifies this`state, this`upstreamAttached, this`clientRegistered, this`upstreamMask, this`request, this`response
      modifies this`toUpstream, this`toClient, this`closeAfterResponse, this`deadlines, this`accessRecords
      modifies this`wires, this`deliveries, this`expiredTicks, env`now, env`interrupts
      modifies env`failures, env`lastSend, env`lastLookup
      ensures env.failures == old(env.failures) ==> upstreamAttached && request.attempted == old(request.attempted)
      ensures env.failures == old(env.failures) ==> state == SendingRequest || state == ReadingResponseHead
      ensures old(env.failures) <= env.failures
      ensures Valid() && state != ReadingRequestHead
      ensures Continues(old(Trail()), Trail()) && Follows(old(Trail()), Trail())
      ensures state == SendingRequest && toUpstream != "" && request.attempted == old(request.attempted) ==>
                env.lastSend.SendWouldBlock?
      ensures !wires.plan.Relay?
      ensures Fresh(old(closeAfterResponse))
              || (closeAfterResponse == old(closeAfterResponse) && upstreamMask == old(upstreamMask)
                  && FirstMask() == old(FirstMask()) && request.attempted == old(request.attempted))
      ensures state != StreamingResponse
      ensures FailedWith(0, 502, "Bad Gateway") && OnlyError(old(wires.plan), 502, "Bad Gateway")
      ensures deliveries == old(deliveries)
      ensures state == ConnectingUpstream ==> |old(request).attempted| < |request.attempted|
      decreases AttemptsLeft(), 3
    {
      hide Core, RequestFlow, BodyProgress, Finished, Relaying, Continues, Follows, Trail, Answered, Retryable;
      ContinuesItself(Trail());
      NothingSent();
      FollowsItself(Trail());
      if !upstreamAttached {
        assert false;
      }
      var failed := FlushUpstream();
      if failed {
        UpstreamFailure(502, "Bad Gateway");
        UpstreamStatesAttached();
        return;
      }
      if toUpstream == "" && request.bodyComplete {
        AwaitResponse();
      }
    }

    method AwaitResponse()
      requires Core() && Requesting() && toUpstream == "" && request.bodyComplete && state == SendingRequest
      modifies this`state, this`deadlines, env`now
      ensures Valid() && state == ReadingResponseHead && deadlines == old(deadlines).(phase := deadlines.phase)
      ensures deadlines.phase == env.now + deadlines.timeouts.upstreamHeader && Trail() == old(Trail())
    {
      hide ValidCodec, Ledger, Attempts, HeadLedger, UpstreamLedger, BodyCount, Records;
      IdleRequest(codec, env);
      state := ReadingResponseHead;
      SetPhase(deadlines.timeouts.upstreamHeader);
    }

    // -------------------------------------------------------------- the response

    /** The response is whole: the upstream is done with, and what is left of it drains. */
    method CompleteResponse()
      requires Core() && state == StreamingResponse && upstreamAttached && clientRegistered && request.bodyComplete
      requires Relaying(codec, response, wires) && BodyDone(codec, config, wires.plan) && ClosePromised()
      modifies this`state, this`upstreamAttached, this`clientRegistered, this`upstreamMask, this`request, this`response
      modifies this`toUpstream, this`toClient, this`closeAfterResponse, this`completedAtLeastOne, this`deadlines
      modifies this`accessRecords, this`wires, this`deliveries, this`expiredTicks, env`now, env`interrupts
      modifies env`failures, env`lastSend, env`lastLookup
      ensures Valid() && !upstreamAttached && Follows(old(Trail()), Trail())
      ensures old(wires.plan).Relay? && Carried(old(deliveries), old(wires.plan).(ended := true))
      ensures !wires.plan.ErrorReply?
      ensures completedAtLeastOne
    {
      hide Core, Rest, BodyProgress, Streaming, Requesting, Draining, Trail, Follows, Carried;
      if response.complete {
        assert false;
      }
      completedAtLeastOne := true;
      EndRelay();
      ghost var ended := Trail();
      WriteClient();
      FollowsTransitive(old(Trail()), ended, Trail());
      NotAttached();
    }

    lemma NotAttached()
      requires Valid() && state in {DrainingResponse, Closed, ReadingRequestHead}
      ensures !upstreamAttached
    {
      hide ValidCodec, Ledger, Attempts, HeadLedger, UpstreamLedger, BodyCount, Records;
    }

    method EndRelay()
      requires Core() && state == StreamingResponse && upstreamAttached && request.bodyComplete
      requires Relaying(codec, response, wires) && BodyDone(codec, config, wires.plan) && ClosePromised()
      modifies this`state, this`upstreamAttached, this`response, this`wires
      ensures Core() && state == DrainingResponse && !upstreamAttached
      ensures Draining() && Follows(old(Trail()), Trail())
      ensures old(wires.plan).Relay? && wires == old(wires).(plan := old(wires.plan).(ended := true))
      ensures response == old(response).(complete := true)
    {
      hide ValidCodec, Attempts, HeadLedger, UpstreamLedger, BodyCount, Records, Sound, BodyDone, Ledger;
      ghost var ended := wires.(plan := wires.plan.(ended := true));
      RecordsUnlogged(codec, config, accessRecords, deliveries, wires, toClient, ended, toClient);
      LedgerEnded(codec, wires, toClient, response.bytesSent);
      EndedKeepsBody(codec, config, wires.plan);
      response := response.(complete := true);
      CloseUpstream();
      state, wires := DrainingResponse, ended;
    }

    /** Octets arrive from the upstream. */
    method Hear(bytes: string)
      requires Core() && !response.accessLogged
      modifies this`wires, this`deadlines, env`now
      ensures Core() && wires == old(wires).(heard := old(wires).heard + bytes)
      ensures deadlines == old(deadlines).(lastIo := deadlines.lastIo)
      ensures Trail() == old(Trail())
      ensures deadlines.lastIo == env.now >= old(env.now)
    {
      hide ValidCodec, Attempts, HeadLedger, BodyCount, Records;
      NoteIo();
      ghost var after := wires.(heard := wires.heard + bytes);
      RecordsUnlogged(codec, config, accessRecords, deliveries, wires, toClient, after, toClient);
      wires := after;
    }

    /** Body octets are checked against the framing and then forwarded verbatim. */
    method AppendResponseBody(bytes: string, ghost before: string) returns (ok: bool)
      requires Core() && state == StreamingResponse && upstreamAttached && clientRegistered && bytes != ""
      requires toUpstream == "" && request.bodyComplete && FlowControlled(config, response.paused, |toClient|)
      requires Relaying(codec, response, wires.(heard := before)) && wires.heard == before + bytes
      requires BodyProgress(codec, config, response, wires.plan) && ClosePromised()
      modifies this`state, this`upstreamAttached, this`clientRegistered, this`upstreamMask, this`request, this`response
      modifies this`toUpstream, this`toClient, this`closeAfterResponse, this`completedAtLeastOne, this`deadlines
      modifies this`accessRecords, this`wires, this`deliveries, this`expiredTicks, env`now, env`interrupts
      modifies env`failures, env`lastSend, env`lastLookup
      ensures Valid() && Follows(old(Trail()), Trail())
      ensures ok <==> |bytes| <= config.capacity - |old(toClient)| && BodyFits(codec, config, old(response), bytes)
      ensures upstreamAttached ==> if ok then request == old(request) else |old(request).attempted| < |request.attempted|
      ensures ok && upstreamAttached ==> state == StreamingResponse && |toClient| > |old(toClient)|
      ensures ok && upstreamAttached ==> clientRegistered
      ensures OnlyError(old(wires.plan), 502, "Bad Gateway") && Resolved(old(deliveries))
      ensures !ok ==> FailedWith(old(response.bytesSent), 502, "Bad Gateway")
    {
      hide Core, Rest, BodyProgress, BodyDone, Relaying, BodyAccepted, BodyFits, BodyAtEnd, Trail;
      NotLogged();
      ghost var r := response;
      var accepted := CheckBody(bytes, wires.(heard := before));
      if !accepted {
        PartSent();
        UpstreamFailure(502, "Bad Gateway");
        ResolvedByFailure(old(deliveries), old(response.bytesSent));
        return false;
      }
      ForwardBody(bytes, before, r);
      ghost var plan := wires.plan;
      if BodyAtEnd(response) {
        CompleteResponse();
        ResolvedByEnd(old(deliveries), plan);
      } else {
        StillStreaming();
        FollowsItself(Trail());
      }
      ok := true;
    }

    lemma NotLogged()
      ensures forall w: Wires :: Relaying(codec, response, w) ==>
                              w.plan.Relay? && w.plan.head.mode == response.mode && !response.accessLogged
    {
    }

    lemma StillStreaming()
      requires Core() && state == StreamingResponse && Streaming() && BodyProgress(codec, config, response, wires.plan)
      ensures Valid()
    {
      hide Core;
    }

    method CheckBody(bytes: string, ghost w: Wires) returns (accepted: bool)
      requires Core() && Relaying(codec, response, w)
      modifies this`response
      ensures Core() && Relaying(codec, response, w) && !response.accessLogged
      ensures response == old(response).(bodyReceived := response.bodyReceived, decoder := response.decoder)
      ensures accepted <==> |bytes| <= config.capacity - |toClient| && BodyFits(codec, config, old(response), bytes)
      ensures accepted ==> BodyAccepted(codec, config, old(response), bytes, response)
    {
      hide ValidCodec, Ledger, Attempts, HeadLedger, UpstreamLedger, BodyCount, Records, Sound;
      if |bytes| > config.capacity - |toClient| {
        return false;
      }
      match response.mode
      case ContentLength(_) =>
        if |bytes| > response.bodyExpected - response.bodyReceived {
          return false;
        }
        response := response.(bodyReceived := response.bodyReceived + |bytes|);
        return true;
      case Chunked =>
        if response.decoder.None? {
          return false;
        }
        var next := codec.feed(response.decoder.value, bytes);
        response := response.(decoder := Some(next));
        return next.phase != CD.Error;
      case CloseDelimited =>
        if |bytes| > config.maxResponseBody || response.bodyReceived > config.maxResponseBody - |bytes| {
          return false;
        }
        response := response.(bodyReceived := response.bodyReceived + |bytes|);
        return true;
      case NoBody =>
        return false;
    }

    lemma BodyGrowsPaused(bytes: string, r: ResponseSide, paused: bool)
      requires Core() && wires.plan.Relay? && wires.plan.head.mode == r.mode
      requires BodyProgress(codec, config, r, wires.plan) && BodyAccepted(codec, config, r, bytes, response)
      requires response == r.(bodyReceived := response.bodyReceived, decoder := response.decoder)
      ensures var plan := wires.plan.(body := wires.plan.body + bytes);
              var next := response.(paused := paused);
              if BodyAtEnd(next) then BodyDone(codec, config, plan) else BodyProgress(codec, config, next, plan)
    {
      hide ValidCodec, Ledger, Attempts, HeadLedger, UpstreamLedger, BodyCount, Records, BodyProgress, BodyDone;
      BodyGrows(codec, config, r, wires.plan, bytes, response.(paused := paused));
    }

    method ForwardBody(bytes: string, ghost before: string, ghost r: ResponseSide)
      requires wires.plan.Relay? && BodyProgress(codec, config, r, wires.plan) && BodyAccepted(codec, config, r, bytes, response)
      requires response == r.(bodyReceived := response.bodyReceived, decoder := response.decoder)
      requires Core() && state == StreamingResponse && upstreamAttached && |bytes| <= config.capacity - |toClient|
      requires Relaying(codec, response, wires.(heard := before)) && wires.heard == before + bytes
      modifies this`toClient, this`wires, this`response
      ensures Core() && Relaying(codec, response, wires) && FlowControlled(config, response.paused, |toClient|)
      ensures if BodyAtEnd(response) then BodyDone(codec, config, wires.plan) else BodyProgress(codec, config, response, wires.plan)
      ensures toClient == old(toClient) + bytes && response == old(response).(paused := response.paused)
      ensures wires == old(wires).(plan := old(wires).plan.(body := old(wires).plan.body + bytes))
      ensures Trail() == old(Trail())
    {
      hide Core, Relaying, BodyProgress, BodyAccepted, BodyAtEnd, BodyDone, Trail;
      NotLogged();
      BodyGrowsPaused(bytes, r, true);
      BodyGrowsPaused(bytes, r, false);
      QueueOctets(bytes, before);
      PauseResponse();
    }

    /** Octets join the client's queue and the relayed body. */
    method QueueOctets(bytes: string, ghost before: string)
      requires Core() && state == StreamingResponse && upstreamAttached && |bytes| <= config.capacity - |toClient|
      requires wires.plan.Relay? && Relaying(codec, response, wires.(heard := before)) && wires.heard == before + bytes
      modifies this`toClient, this`wires
      ensures Core() && Relaying(codec, response, wires) && toClient == old(toClient) + bytes
      ensures wires == old(wires).(plan := old(wires).plan.(body := old(wires).plan.body + bytes))
      ensures Trail() == old(Trail())
    {
      hide ValidCodec, Attempts, HeadLedger, BodyCount, Records, Sound, Ledger;
      ghost var grown := wires.(plan := wires.plan.(body := wires.plan.body + bytes));
      RelayGrows(codec, wires, toClient, response.bytesSent, bytes);
      RecordsUnlogged(codec, config, accessRecords, deliveries, wires, toClient, grown, toClient + bytes);
      GrownKeepsHead(codec, wires.plan, bytes);
      assert wires.plan.rawHead + (wires.plan.body + bytes) == wires.plan.rawHead + wires.plan.body + bytes;
      toClient, wires := toClient + bytes, grown;
    }

    /** A complete response head: its rewritten form is queued, and the body follows. */
    method FinishResponseHead(extra: string) returns (ok: bool)
      requires Core() && state == ReadingResponseHead && upstreamAttached && clientRegistered
      requires toUpstream == "" && request.bodyComplete && ResponsePending(response, wires, toClient)
      requires wires.heard == response.headBytes + extra && HeadOnly(response.headBytes)
      modifies this`state, this`upstreamAttached, this`clientRegistered, this`upstreamMask, this`request, this`response
      modifies this`toUpstream, this`toClient, this`closeAfterResponse, this`completedAtLeastOne, this`deadlines
      modifies this`accessRecords, this`wires, this`deliveries, this`expiredTicks, env`now, env`interrupts
      modifies env`failures, env`lastSend, env`lastLookup
      ensures Valid() && Follows(old(Trail()), Trail())
      ensures upstreamAttached ==> if ok then request == old(request) else |old(request).attempted| < |request.attempted|
      ensures ok && upstreamAttached ==> state == StreamingResponse && clientRegistered
      ensures OnlyError(old(wires.plan), 502, "Bad Gateway") && Resolved(old(deliveries))
      ensures !ok ==> FailedWith(0, 502, "Bad Gateway")
    {
      hide Core, Rest, BodyProgress, BodyDone, Relaying, Requesting, Trail, Follows, Continues;
      FollowsItself(Trail());
      EmptyWire();
      var head := codec.response(request.verb, response.headBytes);
      if head.None? {
        UpstreamFailure(502, "Bad Gateway");
        ResolvedByFailure(old(deliveries), 0);
        return false;
      }
      var fits := StartRelay(head.value, extra);
      ghost var started := Trail();
      EmptyWire();
      if !fits {
        UpstreamFailure(502, "Bad Gateway");
        ResolvedByFailure(old(deliveries), 0);
        FollowsTransitive(old(Trail()), started, Trail());
        return false;
      }
      assert response.headBytes + "" == response.headBytes;
      assert extra == "" ==> wires.(heard := response.headBytes) == wires;
      if response.mode == Rsp.NoBody || response.mode == Rsp.ContentLength(0) {
        if extra != "" {
          UpstreamFailure(502, "Bad Gateway");
          ResolvedByFailure(old(deliveries), 0);
          FollowsTransitive(old(Trail()), started, Trail());
          return false;
        }
        ghost var plan := wires.plan;
        CompleteResponse();
        ResolvedByEnd(old(deliveries), plan);
        FollowsTransitive(old(Trail()), started, Trail());
        return true;
      }
      if extra == "" {
        StillStreaming();
        return true;
      }
      ok := AppendResponseBody(extra, response.headBytes);
      FollowsTransitive(old(Trail()), started, Trail());
    }

    /** Mode, expected length and a fresh chunk decoder, from the parsed head. */
    method AdoptMode(head: Rsp.Head)
      requires Core() && ResponsePending(response, wires, toClient)
      requires state != ReadingRequestHead
      modifies this`response, this`closeAfterResponse
      ensures Core() && !response.accessLogged && !response.complete && !response.paused && response.mode == head.mode
      ensures Follows(old(Trail()), Trail())
      ensures closeAfterResponse == (old(closeAfterResponse) || head.mode == Rsp.CloseDelimited)
      ensures response == old(response).(mode := head.mode, bodyExpected := response.bodyExpected, decoder := response.decoder)
      ensures forall plan: Plan | plan.Relay? && plan.head == head && plan.body == "" ::
                if head.mode == Rsp.NoBody || head.mode == Rsp.ContentLength(0) then BodyDone(codec, config, plan)
                else forall paused :: BodyProgress(codec, config, response.(paused := paused), plan)
    {
      hide Ledger, Attempts, HeadLedger, UpstreamLedger, BodyCount, Records, ValidCodec;
      FeedNothing(codec);
      response := response.(mode := head.mode, bodyExpected := if head.mode.ContentLength? then head.mode.length else 0);
      if head.mode == Rsp.Chunked {
        response := response.(decoder := Some(CD.INITIAL));
      }
      if head.mode == Rsp.CloseDelimited {
        closeAfterResponse := true;
      }
    }

    method StartRelay(head: Rsp.Head, ghost extra: string) returns (fits: bool)
      requires Core() && state == ReadingResponseHead && upstreamAttached && toUpstream == "" && request.bodyComplete
      requires ResponsePending(response, wires, toClient) && wires.heard == response.headBytes + extra
      requires HeadOnly(response.headBytes) && codec.response(request.verb, response.headBytes) == Some(head)
      modifies this`state, this`response, this`wires, this`toClient, this`closeAfterResponse
      ensures Core() && !response.accessLogged && wires.client == old(wires.client) && response.mode == head.mode
      ensures closeAfterResponse == (old(closeAfterResponse) || head.mode == Rsp.CloseDelimited)
      ensures wires == old(wires).(plan := wires.plan) && response.headBytes == old(response.headBytes)
      ensures Follows(old(Trail()), Trail()) && Rank() == old(Rank())
      ensures state == if fits then StreamingResponse else ReadingResponseHead
      ensures fits <==> |codec.clientHead(head, closeAfterResponse || clientReadClosed)| <= config.capacity
      ensures fits ==>
                && wires.plan == Relay(request.headBytes, request.verb, response.headBytes, head,
                                       closeAfterResponse || clientReadClosed, "", false)
                && toClient == codec.clientHead(head, closeAfterResponse || clientReadClosed)
                && Relaying(codec, response, wires.(heard := response.headBytes))
                && FlowControlled(config, response.paused, |toClient|)
                && (if head.mode == Rsp.NoBody || head.mode == Rsp.ContentLength(0)
                    then BodyDone(codec, config, wires.plan) else BodyProgress(codec, config, response, wires.plan))
      ensures !fits ==> wires == old(wires)
    {
      hide Core, ResponsePending, BodyDone, BodyProgress, Trail, Follows, Rank, RouteOf, Relaying, ValidCodec, Sound, HeadOnly;
      FollowsItself(Trail());
      PendingIsEmpty();
      AdoptMode(head);
      var close := closeAfterResponse || clientReadClosed;
      var text := codec.clientHead(head, close);
      if |text| > config.capacity {
        return false;
      }
      ghost var adopted := Trail();
      QueueHead(head, close, text);
      FollowsTransitive(old(Trail()), adopted, Trail());
      PauseResponse();
      return true;
    }

    /** `update_response_backpressure` touches nothing but the pause flag. */
    method PauseResponse()
      requires Core()
      modifies this`response
      ensures Core() && response == old(response).(paused := response.paused)
      ensures FlowControlled(config, response.paused, |toClient|)
      ensures forall w: Wires :: Relaying(codec, response, w) == Relaying(codec, old(response), w)
    {
      hide Ledger, Attempts, HeadLedger, UpstreamLedger, BodyCount, Records, ValidCodec, Sound;
      UpdateResponseBackpressure();
    }

    lemma PendingIsEmpty()
      requires Core() && ResponsePending(response, wires, toClient)
      ensures ValidConfig(config) && toClient == "" && wires.client == "" && wires.plan == Nothing
    {
    }

    /** The rewritten head is queued: the plan is now to relay this response. */
    method QueueHead(head: Rsp.Head, close: bool, text: string)
      requires Core() && !response.accessLogged && !response.complete && response.mode == head.mode
      requires toClient == "" && wires.client == "" && text == codec.clientHead(head, close) && |text| <= config.capacity
      requires state == ReadingResponseHead && codec.response(request.verb, response.headBytes) == Some(head)
      requires HeadOnly(response.headBytes) && upstreamAttached && toUpstream == "" && request.bodyComplete
      modifies this`state, this`wires, this`toClient
      ensures Core() && state == StreamingResponse && toClient == text
      ensures Follows(old(Trail()), Trail()) && Rank() == old(Rank())
      ensures wires == old(wires).(plan := Relay(request.headBytes, request.verb, response.headBytes, head, close, "", false))
      ensures Relaying(codec, response, wires.(heard := response.headBytes))
    {
      hide Attempts, HeadLedger, UpstreamLedger, BodyCount, Records, ValidCodec, Asked;
      ghost var relayed := wires.(plan := Relay(request.headBytes, request.verb, response.headBytes, head, close, "", false));
      RecordsUnlogged(codec, config, accessRecords, deliveries, wires, toClient, relayed, text);
      UpstreamLedgerIgnores(request, wires, relayed.plan, toUpstream);
      RequestDelivered(codec, env, request, wires, relayed.plan);
      assert text + "" == text && "" + text == text && response.headBytes + "" == response.headBytes;
      toClient, wires, state := text, relayed, StreamingResponse;
    }

    method AcceptResponseBytes(bytes: string) returns (ok: bool)
      requires Core() && upstreamAttached && clientRegistered && bytes != "" && toUpstream == "" && request.bodyComplete
      requires if state == ReadingResponseHead then
                 && ResponsePending(response, wires, toClient) && wires.heard == response.headBytes + bytes
                 && |response.headBytes| <= config.maxHeader
               else
                 && state == StreamingResponse && FlowControlled(config, response.paused, |toClient|)
                 && |wires.heard| >= |bytes|
                 && Relaying(codec, response, wires.(heard := wires.heard[..|wires.heard| - |bytes|]))
                 && wires.heard == wires.heard[..|wires.heard| - |bytes|] + bytes
                 && BodyProgress(codec, config, response, wires.plan) && ClosePromised()
      modifies this`state, this`upstreamAttached, this`clientRegistered, this`upstreamMask, this`request, this`response
      modifies this`toUpstream, this`toClient, this`closeAfterResponse, this`completedAtLeastOne, this`deadlines
      modifies this`accessRecords, this`wires, this`deliveries, this`expiredTicks, env`now, env`interrupts
      modifies env`failures, env`lastSend, env`lastLookup
      ensures Valid() && Follows(old(Trail()), Trail())
      ensures upstreamAttached ==> if ok then request == old(request) else |old(request).attempted| < |request.attempted|
      ensures ok && upstreamAttached ==> clientRegistered && (state == ReadingResponseHead || state == StreamingResponse)
      ensures ok && upstreamAttached && state == ReadingResponseHead ==>
                old(state) == ReadingResponseHead && |old(response).headBytes| < |response.headBytes|
      ensures ok && upstreamAttached && old(state) == StreamingResponse ==> |toClient| > |old(toClient)|
      ensures OnlyError(old(wires.plan), 502, "Bad Gateway") && Resolved(old(deliveries))
      ensures !ok ==> FailedWith(old(response.bytesSent), 502, "Bad Gateway")
    {
      hide Core, Rest, BodyProgress, Relaying, Trail, Follows, OnlyError, Resolved, FailedWith, ResponsePending;
      if state == ReadingResponseHead {
        ok := AppendResponseHead(bytes);
      } else {
        ok := AppendResponseBody(bytes, wires.heard[..|wires.heard| - |bytes|]);
      }
    }

    /** Octets up to the first blank line are the head; what follows them is body. */
    method AppendResponseHead(bytes: string) returns (ok: bool)
      requires Core() && upstreamAttached && clientRegistered && bytes != "" && toUpstream == "" && request.bodyComplete
      requires state == ReadingResponseHead && ResponsePending(response, wires, toClient)
      requires wires.heard == response.headBytes + bytes && |response.headBytes| <= config.maxHeader
      modifies this`state, this`upstreamAttached, this`clientRegistered, this`upstreamMask, this`request, this`response
      modifies this`toUpstream, this`toClient, this`closeAfterResponse, this`completedAtLeastOne, this`deadlines
      modifies this`accessRecords, this`wires, this`deliveries, this`expiredTicks, env`now, env`interrupts
      modifies env`failures, env`lastSend, env`lastLookup
      ensures Valid() && Follows(old(Trail()), Trail())
      ensures upstreamAttached ==> if ok then request == old(request) else |old(request).attempted| < |request.attempted|
      ensures ok && upstreamAttached ==> clientRegistered && (state == ReadingResponseHead || state == StreamingResponse)
      ensures ok && upstreamAttached && state == ReadingResponseHead ==> |old(response).headBytes| < |response.headBytes|
      ensures OnlyError(old(wires.plan), 502, "Bad Gateway") && Resolved(old(deliveries))
      ensures !ok ==> FailedWith(0, 502, "Bad Gateway") && old(response.bytesSent) == 0
    {
      hide Core, Relaying, Requesting, Trail, Follows, OnlyError, FailedWith, Find;
      EmptyWire();
      FollowsItself(Trail());
      SetResponseHead(response.headBytes + bytes);
      SendingRank();
      var end := Find(response.headBytes, CRLF_CRLF, 0);
      if end.None? {
        if |response.headBytes| > config.maxHeader {
          UpstreamFailure(502, "Bad Gateway");
          ResolvedByFailure(old(deliveries), 0);
          return false;
        }
        StillNoError();
        return true;
      }
      var headerBytes := end.value + 4;
      if headerBytes > config.maxHeader {
        UpstreamFailure(502, "Bad Gateway");
        ResolvedByFailure(old(deliveries), 0);
        return false;
      }
      var extra := response.headBytes[headerBytes..];
      HeadCut(response.headBytes, end.value);
      SetResponseHead(response.headBytes[..headerBytes]);
      ok := FinishResponseHead(extra);
    }

    lemma SendingRank()
      ensures state in {ConnectingUpstream, SendingRequest, ReadingResponseHead, StreamingResponse} ==> Rank() >= 2
    {
    }

    lemma StillNoError()
      ensures OnlyError(wires.plan, 502, "Bad Gateway")
    {
    }

    method SetResponseHead(bytes: string)
      requires Core()
      modifies this`response
      ensures Core() && response == old(response).(headBytes := bytes)
      ensures ResponsePending(response, wires, toClient) == ResponsePending(old(response), wires, toClient)
    {
      hide ValidCodec, Ledger, Attempts, HeadLedger, UpstreamLedger, BodyCount, Records;
      response := response.(headBytes := bytes);
    }

    /** Reads until the socket would block, the client is too slow, or the response is over. */
    method ReadUpstream()
      requires Valid() && clientRegistered && (state == ReadingResponseHead || state == StreamingResponse)
      modifies this`state, this`upstreamAttached, this`clientRegistered, this`upstreamMask, this`request, this`response
      modifies this`toUpstream, this`toClient, this`closeAfterResponse, this`completedAtLeastOne, this`deadlines
      modifies this`accessRecords, this`wires, this`deliveries, this`expiredTicks, env`now, env`interrupts
      modifies env`failures, env`lastSend, env`lastLookup, env`lastRecv, env`receipts
      ensures Valid() && Follows(old(Trail()), Trail())
      ensures state == ConnectingUpstream || state == SendingRequest ==> |old(request).attempted| < |request.attempted|
      ensures (state == ReadingResponseHead || state == StreamingResponse) && request.attempted == old(request.attempted)
              && !response.paused ==>
                env.lastRecv.RecvWouldBlock?
      ensures OnlyError(old(wires.plan), 502, "Bad Gateway") && Resolved(old(deliveries))
    {
      hide Core, Rest, Relaying, BodyProgress, Finished, Requesting, Streaming, Follows, Continues, Trail;
      Reading();
      FollowsItself(Trail());
      while true
        invariant Valid() && clientRegistered && upstreamAttached
        invariant state == ReadingResponseHead || state == StreamingResponse
        invariant Follows(old(Trail()), Trail()) && request == old(request)
        invariant deliveries == old(deliveries) && OnlyError(old(wires.plan), 502, "Bad Gateway")
        invariant state == ReadingResponseHead ==> |response.headBytes| <= config.maxHeader
        decreases if state == ReadingResponseHead then 1 else 0,
                  if state == ReadingResponseHead then config.maxHeader - |response.headBytes| else config.capacity - |toClient|,
                  env.interrupts
      {
        Reading();
        var capacity := ReadingCapacity();
        if capacity == 0 {
          PauseStreaming();
          return;
        }
        var received := env.Recv(capacity);
        ghost var start := Trail();
        match received {
          case Data(bytes) =>
            var more := TakeOctets(bytes);
            FollowsTransitive(old(Trail()), start, Trail());
            if !more {
              return;
            }
          case RecvInterrupted =>
          case RecvWouldBlock =>
            return;
          case _ =>
            UpstreamEnds(received.Eof?);
            FollowsTransitive(old(Trail()), start, Trail());
            return;
        }
      }
    }

    /** Octets from the upstream are handled; `more`: reading may go on. */
    method TakeOctets(bytes: string) returns (more: bool)
      requires Valid() && clientRegistered && (state == ReadingResponseHead || state == StreamingResponse) && bytes != ""
      modifies this`state, this`upstreamAttached, this`clientRegistered, this`upstreamMask, this`request, this`response
      modifies this`toUpstream, this`toClient, this`closeAfterResponse, this`completedAtLeastOne, this`deadlines
      modifies this`accessRecords, this`wires, this`deliveries, this`expiredTicks, env`now, env`interrupts
      modifies env`failures, env`lastSend, env`lastLookup
      ensures Valid() && Follows(old(Trail()), Trail())
      ensures state == ConnectingUpstream || state == SendingRequest ==> |old(request).attempted| < |request.attempted|
      ensures (state == ReadingResponseHead || state == StreamingResponse) && !more ==>
                response.paused || |old(request).attempted| < |request.attempted|
      ensures more ==>
                && clientRegistered && upstreamAttached && request == old(request) && !response.paused
                && (state == ReadingResponseHead || state == StreamingResponse)
      ensures more && state == ReadingResponseHead ==>
                old(state) == ReadingResponseHead && |old(response).headBytes| < |response.headBytes| <= config.maxHeader
      ensures more && old(state) == StreamingResponse ==> |toClient| > |old(toClient)|
      ensures OnlyError(old(wires.plan), 502, "Bad Gateway") && Resolved(old(deliveries))
    {
      hide Core, Rest, Relaying, BodyProgress, Finished, Requesting, Streaming, Follows, Continues, Trail;
      Reading();
      ghost var heard := wires.heard;
      Hear(bytes);
      assert wires.heard[..|wires.heard| - |bytes|] == heard;
      var ok := AcceptResponseBytes(bytes);
      UpstreamStatesAttached();
      if !ok || !upstreamAttached {
        return false;
      }
      Reading();
      return !response.paused;
    }

    /** The upstream has sent all it will: the end of a close-delimited body, or a failure. */
    method UpstreamEnds(eof: bool)
      requires Valid() && clientRegistered && (state == ReadingResponseHead || state == StreamingResponse)
      modifies this`state, this`upstreamAttached, this`clientRegistered, this`upstreamMask, this`request, this`response
      modifies this`toUpstream, this`toClient, this`closeAfterResponse, this`completedAtLeastOne, this`deadlines
      modifies this`accessRecords, this`wires, this`deliveries, this`expiredTicks, env`now, env`interrupts
      modifies env`failures, env`lastSend, env`lastLookup
      ensures Valid() && Follows(old(Trail()), Trail())
      ensures state in {ConnectingUpstream, SendingRequest, ReadingResponseHead, StreamingResponse} ==>
                |old(request).attempted| < |request.attempted|
      ensures if eof && old(state) == StreamingResponse && old(response.mode) == Rsp.CloseDelimited
              then old(wires.plan).Relay? && Carried(old(deliveries), old(wires.plan).(ended := true))
              else deliveries == old(deliveries) && (wires.plan.Relay? ==> !wires.plan.ended)
                   && FailedWith(old(response.bytesSent), 502, "Bad Gateway")
      ensures OnlyError(old(wires.plan), 502, "Bad Gateway") && Resolved(old(deliveries))
    {
      hide Core, Rest, Relaying, BodyProgress, Finished, Requesting, Streaming, Follows, Continues, Carried;
      Reading();
      if eof && state == StreamingResponse && response.mode == Rsp.CloseDelimited {
        EofEndsBody();
        CompleteResponse();
        ResolvedByEnd(old(deliveries), old(wires.plan));
      } else {
        PartSent();
        UpstreamFailure(502, "Bad Gateway");
        ResolvedByFailure(old(deliveries), old(response.bytesSent));
      }
      UpstreamStatesAttached();
    }

    lemma SameDeliveries(before: Log)
      requires Continues(before, Trail())
      ensures deliveries == before.deliveries
    {
    }

    lemma UpstreamStatesAttached()
      requires Valid()
      ensures state in {ConnectingUpstream, SendingRequest, ReadingResponseHead, StreamingResponse} ==> upstreamAttached
    {
      hide ValidCodec, Ledger, Attempts, HeadLedger, UpstreamLedger, BodyCount, Records;
    }

    /** What a state that reads from the upstream gives. */
    lemma Reading()
      requires Valid() && (state == ReadingResponseHead || state == StreamingResponse)
      ensures Core() && ValidConfig(config) && upstreamAttached && toUpstream == "" && request.bodyComplete
      ensures wires.plan.Relay? ==> !wires.plan.ended
      ensures !response.accessLogged && |toClient| <= config.capacity
      ensures state == ReadingResponseHead ==>
                && ResponsePending(response, wires, toClient) && wires.heard == response.headBytes
                && |response.headBytes| <= config.maxHeader
      ensures state == StreamingResponse ==>
                && Streaming() && Relaying(codec, response, wires) && wires.plan.Relay? && ClosePromised()
                && FlowControlled(config, response.paused, |toClient|)
                && BodyProgress(codec, config, response, wires.plan)
    {
      hide ValidCodec, Ledger, Attempts, HeadLedger, UpstreamLedger, BodyCount, Records;
    }

    lemma EofEndsBody()
      requires state == StreamingResponse && wires.plan.Relay? && BodyProgress(codec, config, response, wires.plan)
      requires Relaying(codec, response, wires) && response.mode == Rsp.CloseDelimited
      ensures BodyDone(codec, config, wires.plan)
    {
    }

    /** How much may be read: into the head without limit, into the body what the client's queue
    and the announced length leave room for. */
    method ReadingCapacity() returns (capacity: nat)
      requires Core() && (state == StreamingResponse ==>
                            Relaying(codec, response, wires) && BodyProgress(codec, config, response, wires.plan))
      ensures state == ReadingResponseHead ==> capacity > 0
      ensures state == StreamingResponse && !response.paused && FlowControlled(config, false, |toClient|) ==> capacity > 0
      ensures state == StreamingResponse ==> capacity <= config.capacity - |toClient|
    {
      hide ValidCodec, Ledger, Attempts, HeadLedger, UpstreamLedger, BodyCount, Records, Sound;
      capacity := IO_CHUNK;
      if state == StreamingResponse {
        capacity := Least(capacity, config.capacity - |toClient|);
        if response.mode.ContentLength? {
          capacity := Least(capacity, response.bodyExpected - response.bodyReceived);
        }
      }
    }

    /** With the flag as the marks require, backpressure changes nothing. */
    method PauseStreaming()
      requires Valid() && state == StreamingResponse
      modifies this`response
      ensures Valid() && response == old(response)
    {
      hide ValidCodec, Ledger, Attempts, HeadLedger, UpstreamLedger, BodyCount, Records, Sound;
      UpdateResponseBackpressure();
    }

    // -------------------------------------------------------------- connecting, the request

    method FinishConnect()
      requires Valid() && state == ConnectingUpstream && clientRegistered
      modifies this`state, this`upstreamAttached, this`clientRegistered, this`upstreamMask, this`request, this`response
      modifies this`toUpstream, this`toClient, this`closeAfterResponse, this`deadlines, this`accessRecords
      modifies this`wires, this`deliveries, this`expiredTicks, env`now, env`interrupts
      modifies env`failures, env`lastSend, env`lastLookup
      ensures env.failures == old(env.failures) ==>
                (state == SendingRequest || state == ReadingResponseHead) && request.attempted == old(request.attempted)
      ensures Valid() && Follows(old(Trail()), Trail()) && state != ReadingRequestHead
      ensures FailedWith(0, 502, "Bad Gateway") && OnlyError(old(wires.plan), 502, "Bad Gateway")
      ensures deliveries == old(deliveries)
      ensures state == ConnectingUpstream ==> |old(request).attempted| < |request.attempted|
    {
      hide Core, Rest, Requesting;
      var usable := env.Succeeds();
      ConnectingMeans();
      NothingSent();
      if !usable {
        UpstreamFailure(502, "Bad Gateway");
        UpstreamStatesAttached();
        return;
      }
      StartSending();
      WriteUpstream();
    }

    lemma ConnectingMeans()
      requires Valid() && (state == ConnectingUpstream || state == SendingRequest)
      ensures Core() && Requesting() && upstreamAttached && !response.accessLogged && wires.plan.Nothing?
    {
      hide ValidCodec, Ledger, Attempts, HeadLedger, UpstreamLedger, BodyCount, Records;
    }

    method StartSending()
      requires Core() && Requesting() && state == ConnectingUpstream
      modifies this`state, this`deadlines, env`now
      ensures Core() && Requesting() && state == SendingRequest && deadlines == old(deadlines).(lastIo := deadlines.lastIo)
      ensures deadlines.lastIo == env.now >= old(env.now)
    {
      hide ValidCodec, Ledger, Attempts, HeadLedger, UpstreamLedger, BodyCount, Records;
      NoteIo();
      state := SendingRequest;
    }

    /** Octets from the client: into the head, or, verbatim, into the queue for the upstream. */
    method AcceptRequestBytes(bytes: string) returns (ok: bool)
      requires Valid() && clientRegistered && state != Closed && bytes != ""
      requires state != ReadingRequestHead ==>
                 |bytes| <= request.bodyExpected - request.bodyReceived && |bytes| <= config.capacity - |toUpstream|
      modifies this`state, this`upstreamAttached, this`clientRegistered, this`upstreamMask, this`request, this`response
      modifies this`toUpstream, this`toClient, this`closeAfterResponse, this`deadlines, this`accessRecords
      modifies this`wires, this`deliveries, this`expiredTicks, env`now, env`interrupts
      modifies env`failures, env`lastSend, env`lastLookup
      ensures Valid() && Follows(old(Trail()), Trail())
      ensures !ok ==> state == DrainingResponse || state == Closed
      ensures ok ==> state != Closed && (clientRegistered || request.bodyComplete)
      ensures ok && state == ReadingRequestHead ==>
                old(state) == ReadingRequestHead && |old(request).headBytes| < |request.headBytes| <= config.maxHeader
      ensures ok && old(state) != ReadingRequestHead ==>
                && state == old(state)
                && request.bodyExpected - request.bodyReceived < old(request.bodyExpected - request.bodyReceived)
      ensures old(state) != ReadingRequestHead ==>
                ok && toUpstream == old(toUpstream) + bytes && wires == old(wires).(accepted := old(wires.accepted) + bytes)
      ensures OnlyRefusal(old(wires.plan))
    {
      hide Core, Rest;
      if state != ReadingRequestHead {
        if |bytes| > request.bodyExpected - request.bodyReceived || |bytes| > config.capacity - |toUpstream| {
          assert false;
        }
        AppendRequestBody(bytes);
        return true;
      }
      ok := AppendRequestHead(bytes);
    }

    /** Body octets: never more than announced, never more than fits. */
    method AppendRequestBody(bytes: string)
      requires Valid() && clientRegistered && state != Closed && state != ReadingRequestHead && bytes != ""
      requires |bytes| <= request.bodyExpected - request.bodyReceived && |bytes| <= config.capacity - |toUpstream|
      modifies this`toUpstream, this`request, this`wires
      ensures Valid() && Continues(old(Trail()), Trail()) && Rank() == old(Rank())
      ensures request.bodyExpected == old(request.bodyExpected)
      ensures request.bodyReceived == old(request.bodyReceived) + |bytes|
      ensures toUpstream == old(toUpstream) + bytes && wires == old(wires).(accepted := old(wires.accepted) + bytes)
    {
      hide Core, Rest;
      BodyStillOpen();
      QueueBody(bytes);
      if request.bodyComplete && toUpstream == "" {
        assert false;
      }
    }

    /** A state with body octets to come is either sending them or draining an error. */
    lemma BodyStillOpen()
      requires Valid() && state != Closed && state != ReadingRequestHead && request.bodyReceived < request.bodyExpected
      ensures Core() && !request.bodyComplete
      ensures state == DrainingResponse || ((state == ConnectingUpstream || state == SendingRequest) && Requesting())
    {
      hide ValidCodec, Ledger, Attempts, HeadLedger, UpstreamLedger, Records;
    }

    method QueueBody(bytes: string)
      requires Valid() && (state == DrainingResponse || ((state == ConnectingUpstream || state == SendingRequest) && Requesting()))
      requires !request.bodyComplete && bytes != ""
      requires |bytes| <= request.bodyExpected - request.bodyReceived && |bytes| <= config.capacity - |toUpstream|
      modifies this`toUpstream, this`request, this`wires
      ensures Valid() && toUpstream == old(toUpstream) + bytes
      ensures request == old(request).(bodyReceived := old(request).bodyReceived + |bytes|,
                                       bodyComplete := request.bodyComplete, paused := request.paused)
      ensures wires == old(wires).(accepted := old(wires.accepted) + bytes)
    {
      hide Core, Sound, BodyDone, FlowControlled, Asked;
      UnloggedAtRest();
      JoinQueue(bytes);
    }

    /** Octets join the queue, and the flag follows the marks. */
    method JoinQueue(bytes: string)
      requires Core() && !response.accessLogged
      requires !request.bodyComplete && bytes != ""
      requires |bytes| <= request.bodyExpected - request.bodyReceived && |bytes| <= config.capacity - |toUpstream|
      modifies this`toUpstream, this`request, this`wires
      ensures Core() && toUpstream == old(toUpstream) + bytes && FlowControlled(config, request.paused, |toUpstream|)
      ensures request.bodyComplete <==> request.bodyReceived == request.bodyExpected
      ensures request == old(request).(bodyReceived := old(request).bodyReceived + |bytes|,
                                       bodyComplete := request.bodyComplete, paused := request.paused)
      ensures wires == old(wires).(accepted := old(wires.accepted) + bytes)
    {
      hide ValidCodec, Attempts, HeadLedger, UpstreamLedger, Records, Sound, BodyDone, Ledger;
      var received := request.bodyReceived + |bytes|;
      var complete := received == request.bodyExpected;
      if upstreamAttached {
        UpstreamLedgerGrows(request, wires, toUpstream, bytes, complete);
        UpstreamLedgerPause(request.(bodyReceived := received, bodyComplete := complete),
                            wires.(accepted := wires.accepted + bytes), toUpstream + bytes);
      }
      LedgerIgnores(codec, wires, toClient, response.bytesSent, wires.accepted + bytes);
      HeadLedgerBody(codec, env, request, received, complete, wires.noneHealthy);
      PausedIrrelevant(codec, env, request.(bodyReceived := received, bodyComplete := complete), true, wires.noneHealthy);
      PausedIrrelevant(codec, env, request.(bodyReceived := received, bodyComplete := complete), false, wires.noneHealthy);
      RecordsUnlogged(codec, config, accessRecords, deliveries, wires, toClient,
                      wires.(accepted := wires.accepted + bytes), toClient);
      toUpstream := toUpstream + bytes;
      wires := wires.(accepted := wires.accepted + bytes);
      request := request.(bodyReceived := received, bodyComplete := complete);
      UpdateRequestBackpressure();
    }

    /** The head is being read: nothing else of the cycle exists yet. */
    ghost predicate HeadPhase()
      reads this`state, this`upstreamAttached, this`clientRegistered, this`request, this`response, this`toUpstream
      reads this`toClient, this`clientReadClosed, this`wires
    {
      && state == ReadingRequestHead && !upstreamAttached && clientRegistered && !clientReadClosed
      && RequestUntouched(request, wires, toUpstream)
      && ResponsePending(response, wires, toClient) && response.headBytes == ""
    }

    method AppendRequestHead(bytes: string) returns (ok: bool)
      requires Valid() && clientRegistered && state == ReadingRequestHead && bytes != ""
      modifies this`state, this`upstreamAttached, this`clientRegistered, this`upstreamMask, this`request, this`response
      modifies this`toUpstream, this`toClient, this`closeAfterResponse, this`deadlines, this`accessRecords
      modifies this`wires, this`deliveries, this`expiredTicks, env`now, env`interrupts
      modifies env`failures, env`lastSend, env`lastLookup
      ensures Valid() && Follows(old(Trail()), Trail())
      ensures !ok ==> state == DrainingResponse || state == Closed
      ensures ok ==> state != Closed && (clientRegistered || request.bodyComplete)
      ensures ok && state == ReadingRequestHead ==> |old(request).headBytes| < |request.headBytes| <= config.maxHeader
      ensures var all := old(request.headBytes) + bytes;
              var end := Find(all, CRLF_CRLF, 0);
              if end.None? then |all| > config.maxHeader ==> Answered(413, "Payload Too Large")
              else if end.value + 4 > config.maxHeader then Answered(413, "Payload Too Large")
              else Decided(all[..end.value + 4], all[end.value + 4..])
                   && (upstreamAttached ==> AskedToClose(all[..end.value + 4], closeAfterResponse))
      ensures OnlyRefusal(old(wires.plan))
    {
      hide Core, Rest, Requesting, Trail, Follows, Continues, Answered, Decided, Rank, Find, HeadPhase;
      AtHead();
      HeadPhaseBasics();
      FollowsItself(Trail());
      if request.headBytes == "" {
        IdleNow();
        StartClock();
      }
      ghost var started := Trail();
      SetRequestHead(request.headBytes + bytes);
      ghost var extended := Trail();
      FollowsTransitive(old(Trail()), started, extended);
      HeadPhaseBasics();
      var end := Find(request.headBytes, CRLF_CRLF, 0);
      if end.None? {
        if |request.headBytes| > config.maxHeader {
          Refuse(413, "Payload Too Large");
          PastHeadFollows(old(Trail()), extended);
          return false;
        }
        StillReadingHead();
        return true;
      }
      var headerBytes := end.value + 4;
      if headerBytes > config.maxHeader {
        Refuse(413, "Payload Too Large");
        PastHeadFollows(old(Trail()), extended);
        return false;
      }
      var extra := request.headBytes[headerBytes..];
      HeadCut(request.headBytes, end.value);
      SetRequestHead(request.headBytes[..headerBytes]);
      ghost var cut := Trail();
      FollowsTransitive(old(Trail()), extended, cut);
      HeadPhaseBasics();
      ok := FinishRequestHead(extra);
      PastHeadFollows(old(Trail()), cut);
    }

    lemma IdleNow()
      requires state == ReadingRequestHead && request.headBytes == ""
      ensures Trail().idle
    {
    }

    /** Leaving the head phase is a step nearer to the end. */
    lemma PastHeadFollows(start: Log, head: Log)
      requires Follows(start, head) && Continues(head, Trail()) && head.rank == 3 && state != ReadingRequestHead
      ensures Follows(start, Trail())
    {
      hide RouteOf;
      RankRange();
      FollowsTransitive(start, head, Trail());
    }

    lemma AtHead()
      requires Valid() && clientRegistered && state == ReadingRequestHead
      ensures Core() && HeadPhase()
    {
      hide ValidCodec, Ledger, Attempts, HeadLedger, UpstreamLedger, BodyCount, Records;
    }

    lemma StillReadingHead()
      requires Core() && HeadPhase() && NoBlankLine(request.headBytes) && |request.headBytes| <= config.maxHeader
      ensures Valid()
    {
      hide Core;
    }

    /** The first octets of a request start its deadline, with the timeouts in force now. */
    method StartClock()
      requires Core()
      modifies this`deadlines, this`expiredTicks, env`now
      ensures Core() && expiredTicks == 0
      ensures deadlines.request == env.now + deadlines.timeouts.requestTotal
      ensures deadlines.phase == env.now + deadlines.timeouts.clientHeader
      ensures old(Trail()).idle ==> Follows(old(Trail()), Trail())
    {
      hide ValidCodec, Ledger, Attempts, HeadLedger, UpstreamLedger, BodyCount, Records;
      var now := env.Clock();
      var timeouts := env.CurrentTimeouts();
      deadlines := Deadlines(timeouts, now + timeouts.requestTotal, now + timeouts.clientHeader, deadlines.lastIo);
      expiredTicks := 0;
    }

    method SetRequestHead(bytes: string)
      requires Core() && HeadPhase()
      modifies this`request
      ensures Core() && HeadPhase() && request == old(request).(headBytes := bytes)
      ensures bytes != "" ==> Follows(old(Trail()), Trail())
    {
      hide ValidCodec, Ledger, Records;
      request := request.(headBytes := bytes);
    }

    /** An error before any upstream was involved. */
    method Refuse(code: nat, reason: string)
      requires Core() && state == ReadingRequestHead && !upstreamAttached && wires.client == "" && !response.accessLogged
      requires clientRegistered
      modifies this`state, this`upstreamAttached, this`clientRegistered, this`request, this`response, this`toUpstream
      modifies this`toClient, this`closeAfterResponse, this`deadlines, this`accessRecords
      modifies this`wires, this`deliveries, this`expiredTicks, env`now, env`interrupts
      modifies env`failures, env`lastSend
      ensures old(env.failures) <= env.failures
      ensures Valid() && (state == DrainingResponse || state == Closed)
      ensures Continues(old(Trail()), Trail()) && Rank() <= 1
      ensures Answered(code, reason) && request == old(request) && wires.noneHealthy == old(wires.noneHealthy)
      ensures !upstreamAttached
      ensures OnlyError(old(wires.plan), code, reason)
      ensures ErrorReply(code, reason) in REFUSALS ==> wires.plan.Nothing? || wires.plan in REFUSALS
    {
      hide Core, Rest, REFUSALS;
      QueueError(code, reason);
      RankBound();
    }

    /** What becomes of a complete head: each way to fail has its answer, and otherwise an upstream of
    the request's route has been tried, and is attached, or has failed. */
    ghost predicate Decided(head: string, extra: string)
      reads this`state, this`upstreamAttached, this`wires, this`request
    {
      var info := codec.request(head);
      if info.Err? then
        if info.error then Answered(413, "Payload Too Large") else Answered(400, "Bad Request")
      else if |extra| > info.value.length then Answered(400, "Bad Request")
      else if request.routes.None? then false
      else if env.routeOf(request.routes.value, info.value.host, info.value.target).None? then Answered(404, "Not Found")
      else if wires.noneHealthy then Answered(503, "Service Unavailable")
      else request.attempted != [] &&
           if |info.value.upstreamHead| + |extra| > config.capacity then Answered(413, "Payload Too Large")
           else upstreamAttached || BadGateway()
    }

    /** What the request says of the connection replaces what was decided before its head was read. */
    predicate AskedToClose(head: string, close: bool) {
      codec.request(head).Ok? && close == codec.request(head).value.close
    }

    /** The head is complete: it is parsed, routed and rewritten, and a connection is opened. */
    method FinishRequestHead(extra: string) returns (ok: bool)
      requires Core() && HeadPhase() && HeadOnly(request.headBytes)
      modifies this`state, this`upstreamAttached, this`clientRegistered, this`upstreamMask, this`request, this`response
      modifies this`toUpstream, this`toClient, this`closeAfterResponse, this`deadlines, this`accessRecords
      modifies this`wires, this`deliveries, this`expiredTicks, env`now, env`interrupts
      modifies env`failures, env`lastSend, env`lastLookup
      ensures Valid() && state != ReadingRequestHead && Continues(old(Trail()), Trail())
      ensures Decided(old(request.headBytes), extra)
      ensures !ok ==> state == DrainingResponse || state == Closed
      ensures ok ==> state != Closed && (clientRegistered || request.bodyComplete)
      ensures upstreamAttached ==> AskedToClose(old(request.headBytes), closeAfterResponse)
      ensures OnlyRefusal(old(wires.plan))
    {
      hide Core, Rest, Continues, Trail, Answered, HeadPhase, Connectable, OnlyError, OnlyRefusal;
      ContinuesItself(Trail());
      HeadPhaseBasics();
      var info := codec.request(request.headBytes);
      if info.Err? {
        if info.error {
          Refuse(413, "Payload Too Large");
        } else {
          Refuse(400, "Bad Request");
        }
        RefusalIsAllowed(old(wires.plan));
        return false;
      }
      var ready := PrepareRequest(info.value, extra);
      ghost var prepared := Trail();
      if !ready {
        return false;
      }
      TrailNow();
      ConnectUpstream();
      GatewayIsAllowed(old(wires.plan));
      RouteKept(prepared);
      RoutedAsAsked();
      ContinuesTransitive(old(Trail()), prepared, Trail());
      ok := state != Closed;
      if ok {
        RegisteredOrComplete();
      }
    }

    /** The steps before a connection: a refusal, or a request queued for an upstream of its route. */
    method PrepareRequest(info: RequestInfo, extra: string) returns (ready: bool)
      requires Core() && HeadPhase() && HeadOnly(request.headBytes) && codec.request(request.headBytes) == Ok(info)
      modifies this`state, this`upstreamAttached, this`clientRegistered, this`request, this`response
      modifies this`toUpstream, this`toClient, this`closeAfterResponse, this`deadlines, this`accessRecords
      modifies this`wires, this`deliveries, this`expiredTicks, env`now, env`interrupts
      modifies env`failures, env`lastSend, env`lastLookup
      ensures Core() && Continues(old(Trail()), Trail()) && !upstreamAttached
      ensures ready ==>
                && state == ReadingRequestHead && clientRegistered && Connectable() && wires.plan == old(wires.plan)
                && request.headBytes == old(request.headBytes) && closeAfterResponse == info.close
                && |extra| <= info.length && RouteOf(env, request).Some? && !wires.noneHealthy && request.attempted != []
                && |info.upstreamHead| + |extra| <= config.capacity
      ensures !ready ==>
                && Valid() && (state == DrainingResponse || state == Closed) && OnlyRefusal(old(wires.plan))
                && Decided(old(request.headBytes), extra)
    {
      hide Core, Rest, Continues, Trail, Answered, Preparing, HeadPhase, Connectable, OnlyError, OnlyRefusal, ValidCodec;
      HeadPhaseBasics();
      var fits := TakeInfo(info, extra);
      ghost var taken := Trail();
      if !fits {
        Refuse(400, "Bad Request");
        RefusalIsAllowed(old(wires.plan));
        ContinuesTransitive(old(Trail()), taken, Trail());
        return false;
      }
      var routed := RouteRequest(info);
      ghost var searched := Trail();
      ContinuesTransitive(old(Trail()), taken, searched);
      if routed.NoRoute? || routed.NoHealthyUpstream? {
        if routed.NoRoute? {
          Refuse(404, "Not Found");
        } else {
          Refuse(503, "Service Unavailable");
        }
        RefusalIsAllowed(old(wires.plan));
        ContinuesTransitive(old(Trail()), searched, Trail());
        return false;
      }
      ready := QueueRequest(info, extra);
      ghost var queued := Trail();
      ContinuesTransitive(old(Trail()), searched, queued);
      if !ready {
        Refuse(413, "Payload Too Large");
        RefusalIsAllowed(old(wires.plan));
        ContinuesTransitive(old(Trail()), queued, Trail());
      }
    }

    lemma TrailNow()
      ensures Trail().route == RoutedHead(env, request) && Trail().noneHealthy == wires.noneHealthy
      ensures Trail().deliveries == deliveries && Trail().attempted == request.attempted
      ensures Trail().bodyDone == request.bodyComplete && Trail().rank == Rank()
    {
      hide Rank;
    }

    /** The route is that of the host and target of the head, in the table the request keeps. */
    lemma RoutedAsAsked()
      requires Core() && RouteOf(env, request).Some?
      ensures var info := codec.request(request.headBytes);
              && info.Ok? && request.routes.Some?
              && env.routeOf(request.routes.value, info.value.host, info.value.target) == RouteOf(env, request)
    {
      hide ValidCodec, Ledger, Attempts, UpstreamLedger, BodyCount, Records;
    }

    lemma RouteKept(before: Log)
      requires Continues(before, Trail())
      ensures before.route.Some? ==> RoutedHead(env, request) == before.route && wires.noneHealthy == before.noneHealthy
      ensures before.attempted != [] ==> request.attempted != []
    {
    }

    lemma HeadPhaseBasics()
      requires Core() && (HeadPhase() || Preparing())
      ensures state == ReadingRequestHead && !upstreamAttached && clientRegistered && wires.client == "" && !response.accessLogged
      ensures Trail().rank == 3
    {
      hide Core;
    }

    lemma RegisteredOrComplete()
      requires Valid() && state != Closed && state != ReadingRequestHead
      ensures clientRegistered || request.bodyComplete
    {
      hide ValidCodec, Ledger, Attempts, HeadLedger, UpstreamLedger, BodyCount, Records;
    }

    /** Still in the head phase, with the request's own fields filled in one after the other. */
    ghost predicate Preparing()
      reads this`state, this`upstreamAttached, this`clientRegistered, this`response, this`toUpstream
      reads this`toClient, this`clientReadClosed, this`wires
    {
      && state == ReadingRequestHead && !upstreamAttached && clientRegistered && !clientReadClosed
      && toUpstream == "" && wires.accepted == "" && !wires.noneHealthy
      && ResponsePending(response, wires, toClient) && response.headBytes == ""
    }

    method TakeInfo(info: RequestInfo, extra: string) returns (fits: bool)
      requires Core() && HeadPhase() && HeadOnly(request.headBytes) && codec.request(request.headBytes) == Ok(info)
      modifies this`request, this`closeAfterResponse
      ensures old(request).attempted == [] && old(request).routes.None? && !old(request).bodyComplete
      ensures request.attempted == [] && request.headBytes == old(request.headBytes)
      ensures Core() && Preparing()
      ensures request.routes.None? && request.selected.None? && request.upstreamHead == "" && !request.paused
      ensures fits ==> Parsed(codec, request)
      ensures fits <==> |extra| <= info.length
      ensures fits ==> request.bodyReceived == |extra| && (request.bodyComplete <==> |extra| == request.bodyExpected)
      ensures fits ==> closeAfterResponse == info.close
      ensures Continues(old(Trail()), Trail())
      ensures fits ==> request.host == info.host && request.target == info.target
    {
      hide ValidCodec, Ledger, Records;
      request := request.(verb := info.verb, target := info.target, host := info.host, bodyExpected := info.length);
      if |extra| > info.length {
        return false;
      }
      request := request.(bodyReceived := |extra|, bodyComplete := |extra| == info.length);
      closeAfterResponse := info.close;
      return true;
    }

    /** The routing table in force now is the one this request keeps. */
    method RouteRequest(info: RequestInfo) returns (route: LookupResult)
      requires Core() && Preparing() && request.attempted == [] && request.routes.None? && request.selected.None?
      requires request.upstreamHead == "" && codec.request(request.headBytes) == Ok(info) && Parsed(codec, request)
      modifies this`request, this`wires, env`lastLookup
      ensures Core() && state == ReadingRequestHead && wires.client == "" && !response.accessLogged
      ensures request == old(request).(routes := request.routes, routeId := request.routeId, selected := request.selected,
                                       attempted := request.attempted, upstreamHead := request.upstreamHead)
      ensures route.Matched? ==> Preparing() && request.selected.Some? && request.upstreamHead == info.upstreamHead
      ensures request.routes.Some? && (route.NoRoute? <==> RouteOf(env, request).None?)
      ensures route.NoHealthyUpstream? <==> wires.noneHealthy
      ensures route.Matched? ==> request.attempted != []
      ensures Continues(old(Trail()), Trail())
      ensures wires.plan == old(wires.plan)
    {
      hide Ledger, Records, Attempts, HeadLedger, BodyCount, Parsed, RouteOf, ValidCodec, Trail, Continues;
      var routes := env.CurrentRoutes();
      route := env.Lookup(routes, request.host, request.target, []);
      FirstLookup(codec, env, request, info, routes, route);
      RecordsUnlogged(codec, config, accessRecords, deliveries, wires, toClient, wires.(noneHealthy := true), toClient);
      LedgerReplace(codec, wires, toClient, response.bytesSent, wires.(noneHealthy := true));
      request := request.(routes := Some(routes));
      match route {
        case NoRoute => request := request.(routeId := "");
        case NoHealthyUpstream(id) =>
          request := request.(routeId := id);
          wires := wires.(noneHealthy := true);
        case Matched(id, upstream) =>
          request := request.(routeId := id, selected := Some(upstream), attempted := [upstream.id],
                              upstreamHead := info.upstreamHead);
      }
      FirstTrail();
    }

    /** What a first lookup changes is new to the trail. */
    twostate lemma FirstTrail()
      requires old(request.routes).None? && old(request.attempted) == [] && state == ReadingRequestHead == old(state)
      requires deliveries == old(deliveries) && wires.client == old(wires.client)
      requires request.bodyComplete == old(request.bodyComplete)
      requires deadlines == old(deadlines) && expiredTicks == old(expiredTicks)
      ensures Continues(old(Trail()), Trail())
    {
    }

    method QueueRequest(info: RequestInfo, extra: string) returns (fits: bool)
      requires Core() && Preparing() && request.selected.Some? && request.upstreamHead == info.upstreamHead
      requires request.bodyReceived == |extra| && (request.bodyComplete <==> |extra| == request.bodyExpected)
      modifies this`toUpstream, this`wires, this`request
      ensures Core() && state == ReadingRequestHead && wires.client == "" && !response.accessLogged
      ensures request == old(request).(paused := request.paused)
      ensures fits ==> Connectable()
      ensures fits <==> |info.upstreamHead| + |extra| <= config.capacity
      ensures wires.noneHealthy == old(wires.noneHealthy)
      ensures Continues(old(Trail()), Trail())
      ensures wires.plan == old(wires.plan)
    {
      hide ValidCodec, Attempts, HeadLedger, Records;
      if |info.upstreamHead| + |extra| > config.capacity {
        return false;
      }
      PausedIrrelevant(codec, env, request, true, wires.noneHealthy);
      PausedIrrelevant(codec, env, request, false, wires.noneHealthy);
      RecordsUnlogged(codec, config, accessRecords, deliveries, wires, toClient, wires.(accepted := extra), toClient);
      toUpstream, wires := info.upstreamHead + extra, wires.(accepted := extra);
      UpdateRequestBackpressure();
      return true;
    }

    /** Pausing or resuming the request body leaves everything else as it is. */
    method PauseSending()
      requires Valid() && state != Closed && state != ReadingRequestHead
      modifies this`request
      ensures Valid() && Trail() == old(Trail())
      ensures FlowControlled(config, request.paused, |toUpstream|) && ValidConfig(config)
      ensures request == old(request).(paused := request.paused)
    {
      hide ValidCodec, Ledger, Attempts, HeadLedger, UpstreamLedger, BodyCount, Records, Parsed, BodyProgress;
      PausedIrrelevant(codec, env, request, true, wires.noneHealthy);
      PausedIrrelevant(codec, env, request, false, wires.noneHealthy);
      if upstreamAttached {
        UpstreamLedgerPause(request, wires, toUpstream);
      }
      UpdateRequestBackpressure();
    }

    /** How much may be read: into the head without limit, into the body only what was announced
    and what the queue has room for. */
    method RequestCapacity() returns (capacity: nat)
      requires Core()
      ensures state == ReadingRequestHead ==> capacity > 0
      ensures state != ReadingRequestHead ==>
                capacity <= request.bodyExpected - request.bodyReceived && capacity <= config.capacity - |toUpstream|
      ensures state != ReadingRequestHead && !request.bodyComplete && request.bodyReceived < request.bodyExpected
              && |toUpstream| < config.capacity ==>
                capacity > 0
    {
      hide ValidCodec, Ledger, Attempts, HeadLedger, UpstreamLedger, Records;
      capacity := IO_CHUNK;
      if state != ReadingRequestHead {
        capacity := Least(capacity, request.bodyExpected - request.bodyReceived);
        capacity := Least(capacity, config.capacity - |toUpstream|);
      }
    }

    /** More octets of the request are wanted only while it is not whole and there is room. */
    lemma WantsInput()
      requires Valid()
      ensures Readable in Interests(Client) ==>
                && state in {ReadingRequestHead, ConnectingUpstream, SendingRequest} && !request.paused
                && !request.bodyComplete
                && (state != ReadingRequestHead ==>
                      request.bodyReceived < request.bodyExpected && |toUpstream| < config.capacity)
    {
      hide ValidCodec, Ledger, Attempts, HeadLedger, UpstreamLedger, Records, Sound, Asked, Settled;
    }

    lemma RoomToRead()
      requires Valid()
      ensures state == ReadingRequestHead || request.bodyReceived < request.bodyExpected ==> !request.bodyComplete
      ensures state == ReadingRequestHead ==> |request.headBytes| <= config.maxHeader
    {
      hide ValidCodec, Ledger, Attempts, HeadLedger, UpstreamLedger, Records;
    }

    /** Reads until the request is complete, the upstream is too slow, or the socket would block. */
    method ReadClient()
      requires Valid() && state != Closed && clientRegistered
      modifies this`clientReadClosed
      modifies this`state, this`upstreamAttached, this`clientRegistered, this`upstreamMask, this`request, this`response
      modifies this`toUpstream, this`toClient, this`closeAfterResponse, this`deadlines, this`accessRecords
      modifies this`wires, this`deliveries, this`expiredTicks, env`now, env`interrupts
      modifies env`failures, env`lastSend, env`lastLookup, env`lastRecv, env`receipts
      ensures Valid() && Follows(old(Trail()), Trail())
      ensures state != Closed && Readable in Interests(Client) ==> env.lastRecv.RecvWouldBlock?
      ensures state != Closed ==> clientReadClosed == old(clientReadClosed)
      ensures old(env.receipts) < env.receipts && (env.lastRecv.Eof? || env.lastRecv.RecvFailed?) ==> state == Closed
      ensures OnlyRefusal(old(wires.plan))
    {
      hide Core, Rest, Follows, Continues, Interests, Trail, Rank, Requesting, Streaming, Draining;
      RoomToRead();
      FollowsItself(Trail());
      while true
        invariant Valid() && state != Closed && clientRegistered && clientReadClosed == old(clientReadClosed)
        invariant old(env.receipts) < env.receipts ==> !env.lastRecv.Eof? && !env.lastRecv.RecvFailed?
        invariant Follows(old(Trail()), Trail()) && OnlyRefusal(old(wires.plan))
        invariant state == ReadingRequestHead ==> |request.headBytes| <= config.maxHeader
        decreases if state == ReadingRequestHead then 1 else 0,
                  if state == ReadingRequestHead then config.maxHeader - |request.headBytes|
                  else request.bodyExpected - request.bodyReceived,
                  env.interrupts
      {
        var capacity := RequestCapacity();
        if capacity == 0 {
          PauseSending();
          WantsInput();
          return;
        }
        RoomToRead();
        var received := env.Recv(capacity);
        ghost var start := Trail();
        match received {
          case Data(bytes) =>
            NoteClientIo();
            var ok := AcceptRequestBytes(bytes);
            FollowsTransitive(old(Trail()), start, Trail());
            if !ok || request.bodyComplete || request.paused {
              WantsInput();
              return;
            }
          case Eof =>
            clientReadClosed := true;
            if !request.bodyComplete {
              CloseNow();
              FollowsTransitive(old(Trail()), start, Trail());
            } else {
              assert false;
            }
            return;
          case RecvInterrupted =>
          case RecvWouldBlock =>
            return;
          case RecvFailed =>
            CloseNow();
            FollowsTransitive(old(Trail()), start, Trail());
            return;
        }
      }
    }

    method NoteClientIo()
      requires Valid()
      modifies this`deadlines, env`now
      ensures Valid() && Trail() == old(Trail())
      ensures deadlines.lastIo == env.now >= old(env.now)
    {
      hide ValidCodec, Ledger, Attempts, HeadLedger, UpstreamLedger, BodyCount, Records, Rest;
      NoteIo();
    }

    // -------------------------------------------------------------- events

    /** The masks registered with the event loop are the interests of the moment. */
    ghost predicate Watched()
      reads this`state, this`request, this`response, this`toUpstream, this`toClient, this`clientReadClosed
      reads this`clientRegistered, this`upstreamAttached, this`clientMask, this`upstreamMask
    {
      state != Closed ==>
        && clientRegistered && clientMask == Interests(Client)
        && (upstreamAttached ==> upstreamMask == Interests(Server))
    }

    method RefreshInterests()
      requires Valid()
      modifies this`state, this`upstreamAttached, this`clientRegistered, this`clientMask, this`upstreamMask, this`request
      modifies this`response, this`toUpstream, this`toClient, this`closeAfterResponse, this`deadlines, this`accessRecords
      modifies this`wires, this`deliveries, this`expiredTicks, env`now, env`interrupts, env`refusals
      modifies env`failures, env`lastSend, env`lastLookup
      ensures Valid() && Follows(old(Trail()), Trail()) && Continues(old(Trail()), Trail()) && Servable()
      ensures old(state) == Closed ==> state == Closed
      ensures old(state) == ReadingRequestHead ==> state == Closed || (state == ReadingRequestHead && request == old(request))
      ensures env.refusals == old(env.refusals) && state != Closed ==>
                deliveries == old(deliveries) && request.attempted == old(request.attempted)
      ensures env.refusals == old(env.refusals) && state != Closed ==>
                forall role, events :: old(Served(role, events)) ==> Served(role, events)
      ensures env.refusals == old(env.refusals) ==> Watched()
      ensures OnlyError(old(wires.plan), 502, "Bad Gateway")
      ensures env.refusals == old(env.refusals) ==>
                && wires == old(wires) && deliveries == old(deliveries) && upstreamAttached == old(upstreamAttached)
                && (state == old(state) || state == Closed)
    {
      hide Core, Rest, Interests, Follows, Continues;
      FollowsItself(Trail());
      ContinuesItself(Trail());
      if state == Closed {
        return;
      }
      HeadIsAlone();
      DetachedWhenGone();
      var ok := env.Modify(clientRegistered);
      if !ok {
        CloseNow();
        return;
      }
      clientMask := Interests(Client);
      if upstreamAttached {
        RefreshUpstream();
      }
    }

    lemma DetachedWhenGone()
      requires Valid()
      ensures !clientRegistered ==> !upstreamAttached
    {
      hide Rest;
    }

    /** With an upstream attached, what was sent to the client belongs to a relayed response. */
    lemma SentIsRelayed()
      requires Valid() && upstreamAttached && response.bytesSent != 0
      ensures wires.plan.Relay? && wires.client != ""
    {
      hide ValidCodec, Attempts, HeadLedger, UpstreamLedger, BodyCount, Records;
    }

    lemma HeadIsAlone()
      requires Valid()
      ensures state == ReadingRequestHead ==> !upstreamAttached
    {
      hide ValidCodec, Ledger, Attempts, HeadLedger, UpstreamLedger, BodyCount, Records;
    }

    method RefreshUpstream()
      requires Valid() && upstreamAttached
      modifies this`state, this`upstreamAttached, this`clientRegistered, this`upstreamMask, this`request, this`response
      modifies this`toUpstream, this`toClient, this`closeAfterResponse, this`deadlines, this`accessRecords
      modifies this`wires, this`deliveries, this`expiredTicks, env`now, env`interrupts, env`refusals
      modifies env`failures, env`lastSend, env`lastLookup
      ensures Valid() && Follows(old(Trail()), Trail()) && Continues(old(Trail()), Trail()) && Servable()
      ensures env.refusals == old(env.refusals) ==>
                && clientRegistered && upstreamMask == Interests(Server) && env.lastSend == old(env.lastSend)
                && state == old(state) && request == old(request) && response == old(response)
                && toUpstream == old(toUpstream) && toClient == old(toClient) && deliveries == old(deliveries)
      ensures OnlyError(old(wires.plan), 502, "Bad Gateway") && FailedWith(old(response.bytesSent), 502, "Bad Gateway")
      ensures env.refusals == old(env.refusals) ==> wires == old(wires) && upstreamAttached
    {
      hide Core, Rest, Interests, Follows, Continues, Trail;
      FollowsItself(Trail());
      ContinuesItself(Trail());
      UpstreamStates();
      var ok := env.Modify(true);
      if !ok {
        CoreBounds();
        UpstreamFailure(502, "Bad Gateway");
        ContinuesAttempts(old(Trail()), Trail());
        return;
      }
      upstreamMask := Interests(Server);
    }

    /** Closing ends a session whatever it was doing. */
    method CloseNow()
      requires Core()
      modifies this`state, this`upstreamAttached, this`clientRegistered
      ensures Valid() && state == Closed && Follows(old(Trail()), Trail()) && Continues(old(Trail()), Trail())
      ensures Rank() == 0 && !upstreamAttached
    {
      hide Core, Rest;
      CloseSession();
    }

    lemma UpstreamStates()
      requires Valid() && upstreamAttached
      ensures Core() && clientRegistered && !response.accessLogged && Rank() >= 2
      ensures state in {ConnectingUpstream, SendingRequest, ReadingResponseHead, StreamingResponse}
    {
      hide ValidCodec, Ledger, Attempts, HeadLedger, UpstreamLedger, BodyCount, Records;
    }

    lemma ClientQueueStates()
      requires Valid() && toClient != "" && state != Closed
      ensures Core()
      ensures (state == StreamingResponse && Streaming() && BodyProgress(codec, config, response, wires.plan))
              || (state == DrainingResponse && !upstreamAttached && Draining())
    {
      hide ValidCodec, Ledger, Attempts, HeadLedger, UpstreamLedger, BodyCount, Records;
    }

    /** The client sends no more: a response to a whole request may still go out, then it is over. */
    method HalfClose()
      requires Valid() && state != ReadingRequestHead && request.bodyComplete
      modifies this`clientReadClosed, this`closeAfterResponse
      ensures Valid() && Follows(old(Trail()), Trail())
      ensures clientReadClosed && Trail().last
    {
      hide Core;
      clientReadClosed, closeAfterResponse := true, true;
    }

    /** What an event asked for has been done as far as the socket allowed: it is sent on until it
    takes no more, and read from until it has no more or no more is wanted. */
    ghost predicate Served(role: Role, events: set<Event>)
      reads this`state, this`request, this`response, this`toUpstream, this`toClient, this`clientReadClosed
      reads env`lastRecv, env`lastSend
    {
      if role == Client then
        && (EpollOut in events && toClient != "" ==> env.lastSend.SendWouldBlock?)
        && (EpollIn in events && Readable in Interests(Client) ==> env.lastRecv.RecvWouldBlock?)
      else
        && (EpollOut in events && state == SendingRequest && toUpstream != "" ==> env.lastSend.SendWouldBlock?)
        && ((EpollIn in events || EpollRdHup in events || EpollHup in events) && Readable in Interests(Server) ==>
              env.lastRecv.RecvWouldBlock?)
    }

    method OnClientEvent(events: set<Event>)
      requires Valid() && state != Closed && clientRegistered
      modifies this`clientReadClosed
      modifies this`state, this`upstreamAttached, this`clientRegistered, this`clientMask, this`upstreamMask, this`request
      modifies this`response, this`toUpstream, this`toClient, this`closeAfterResponse, this`deadlines, this`accessRecords
      modifies this`wires, this`deliveries, this`expiredTicks, env`now, env`interrupts, env`refusals
      modifies env`failures, env`lastSend, env`lastLookup, env`lastRecv, env`receipts
      ensures Valid() && Follows(old(Trail()), Trail()) && Servable()
      ensures env.refusals == old(env.refusals) ==> Watched()
      ensures env.refusals == old(env.refusals) && deliveries == old(deliveries) && state != Closed ==>
                Served(Client, events)
      ensures EpollRdHup in events ==> state == Closed || (clientReadClosed && Trail().last)
      ensures OnlyRefusal(old(wires.plan))
      ensures EpollErr in events || EpollHup in events ==> state == Closed
    {
      hide Core, Rest, Watched, Follows, Continues, Rank, Served;
      TakeClientInput(events);
      ghost var taken := Trail();
      if state == Closed {
        NothingToWatch();
        return;
      }
      GiveClientOutput(events);
      if taken.last {
        FollowsLast(taken, Trail());
      }
      FollowsTransitive(old(Trail()), taken, Trail());
      FollowsGrows(old(Trail()), taken);
      FollowsGrows(taken, Trail());
      ghost var given := Trail();
      RefreshInterests();
      if given.last {
        FollowsLast(given, Trail());
      }
      FollowsGrows(given, Trail());
      FollowsTransitive(old(Trail()), given, Trail());
    }

    /** Errors, input and the two kinds of hang-up. */
    method TakeClientInput(events: set<Event>)
      requires Valid() && state != Closed && clientRegistered
      modifies this`clientReadClosed
      modifies this`state, this`upstreamAttached, this`clientRegistered, this`upstreamMask, this`request, this`response
      modifies this`toUpstream, this`toClient, this`closeAfterResponse, this`deadlines, this`accessRecords
      modifies this`wires, this`deliveries, this`expiredTicks, env`now, env`interrupts
      modifies env`failures, env`lastSend, env`lastLookup, env`lastRecv, env`receipts
      ensures Valid() && Follows(old(Trail()), Trail())
      ensures state != Closed ==> EpollIn in events && Readable in Interests(Client) ==> env.lastRecv.RecvWouldBlock?
      ensures EpollRdHup in events ==> state == Closed || (clientReadClosed && Trail().last)
      ensures OnlyRefusal(old(wires.plan))
      ensures EpollErr in events || EpollHup in events ==> state == Closed
      ensures EpollRdHup in events && state != Closed ==> request.bodyComplete
    {
      hide Core, Rest, Follows, Continues, Rank, Interests;
      FollowsItself(Trail());
      if EpollErr in events {
        CloseNow();
        return;
      }
      if EpollIn in events {
        ReadClient();
      }
      if state == Closed {
        return;
      }
      ghost var read := Trail();
      if EpollRdHup in events {
        if state == ReadingRequestHead || !request.bodyComplete {
          Abandon();
          FollowsTransitive(old(Trail()), read, Trail());
          return;
        }
        HalfClose();
        WantsInput();
        FollowsTransitive(old(Trail()), read, Trail());
      }
      ghost var closing := Trail();
      if EpollHup in events {
        CloseNow();
        FollowsTransitive(old(Trail()), closing, Trail());
      }
    }

    method GiveClientOutput(events: set<Event>)
      requires Valid() && state != Closed
      requires EpollIn in events && Readable in Interests(Client) ==> env.lastRecv.RecvWouldBlock?
      modifies this`state, this`upstreamAttached, this`clientRegistered, this`request, this`response, this`toUpstream
      modifies this`toClient, this`closeAfterResponse, this`deadlines, this`accessRecords
      modifies this`wires, this`deliveries, this`expiredTicks, env`now, env`interrupts
      modifies env`failures, env`lastSend
      ensures Valid() && Follows(old(Trail()), Trail())
      ensures deliveries == old(deliveries) && state != Closed ==> Served(Client, events)
      ensures wires.plan.ErrorReply? ==> wires.plan == old(wires.plan)
    {
      hide Core, Rest, Streaming, Draining, BodyProgress, Follows, Continues, Rank, Interests;
      FollowsItself(Trail());
      if EpollOut in events && toClient != "" {
        ClientQueueStates();
        WriteClient();
        WantsInput();
      }
    }

    /** The client sends no more, and its request is not whole: there is nothing to answer. */
    method Abandon()
      requires Valid()
      modifies this`clientReadClosed, this`closeAfterResponse, this`state, this`upstreamAttached, this`clientRegistered
      ensures Valid() && state == Closed && Follows(old(Trail()), Trail())
    {
      hide Core, Rest;
      clientReadClosed, closeAfterResponse := true, true;
      CloseNow();
    }

    lemma NothingToWatch()
      requires state == Closed
      ensures Watched()
    {
    }

    lemma WantsResponse()
      ensures Readable in Interests(Server) ==>
                (state == ReadingResponseHead || state == StreamingResponse) && !response.paused
    {
    }

    method OnUpstreamEvent(events: set<Event>)
      requires Valid() && upstreamAttached
      modifies this`completedAtLeastOne
      modifies this`state, this`upstreamAttached, this`clientRegistered, this`clientMask, this`upstreamMask, this`request
      modifies this`response, this`toUpstream, this`toClient, this`closeAfterResponse, this`deadlines, this`accessRecords
      modifies this`wires, this`deliveries, this`expiredTicks, env`now, env`interrupts, env`refusals
      modifies env`failures, env`lastSend, env`lastLookup, env`lastRecv, env`receipts
      ensures Valid() && Follows(old(Trail()), Trail()) && Servable()
      ensures env.refusals == old(env.refusals) ==> Watched()
      ensures env.refusals == old(env.refusals) && deliveries == old(deliveries) && state != Closed
              && request.attempted == old(request.attempted) ==>
                Served(Server, events)
      ensures OnlyError(old(wires.plan), 502, "Bad Gateway") && (env.refusals == old(env.refusals) ==> Resolved(old(deliveries)))
    {
      hide Core, Rest, Watched, Follows, Continues, Rank, Served;
      SettleConnection(events);
      ghost var settled := Trail();
      if state == Closed {
        NothingToWatch();
        return;
      }
      ServeUpstream(events);
      FollowsTransitive(old(Trail()), settled, Trail());
      FollowsGrows(old(Trail()), settled);
      FollowsGrows(settled, Trail());
      ghost var served := Trail();
      RefreshInterests();
      FollowsGrows(served, Trail());
      FollowsTransitive(old(Trail()), served, Trail());
    }

    /** The outcome of a pending connection, or an error on an established one. */
    method SettleConnection(events: set<Event>)
      requires Valid() && upstreamAttached
      modifies this`state, this`upstreamAttached, this`clientRegistered, this`upstreamMask, this`request, this`response
      modifies this`toUpstream, this`toClient, this`closeAfterResponse, this`deadlines, this`accessRecords
      modifies this`wires, this`deliveries, this`expiredTicks, env`now, env`interrupts
      modifies env`failures, env`lastSend, env`lastLookup
      ensures Valid() && Follows(old(Trail()), Trail())
      ensures OnlyError(old(wires.plan), 502, "Bad Gateway") && Resolved(old(deliveries))
      ensures EpollErr in events && old(state) != ConnectingUpstream && upstreamAttached ==>
                |old(request).attempted| < |request.attempted|
      ensures old(state) == ConnectingUpstream && events * {EpollOut, EpollErr, EpollHup} != {} ==>
                state != ConnectingUpstream || |old(request).attempted| < |request.attempted|
    {
      hide Core, Rest, Follows, Continues, Interests;
      UpstreamStates();
      FollowsItself(Trail());
      if state == ConnectingUpstream && (EpollOut in events || EpollErr in events || EpollHup in events) {
        FinishConnect();
        ResolvedByFailure(old(deliveries), 0);
      } else if EpollErr in events {
        if response.bytesSent != 0 {
          SentIsRelayed();
        }
        UpstreamFailure(502, "Bad Gateway");
        ResolvedByFailure(old(deliveries), old(response.bytesSent));
      }
    }

    method ServeUpstream(events: set<Event>)
      requires Valid() && state != Closed
      modifies this`completedAtLeastOne
      modifies this`state, this`upstreamAttached, this`clientRegistered, this`upstreamMask, this`request, this`response
      modifies this`toUpstream, this`toClient, this`closeAfterResponse, this`deadlines, this`accessRecords
      modifies this`wires, this`deliveries, this`expiredTicks, env`now, env`interrupts
      modifies env`failures, env`lastSend, env`lastLookup, env`lastRecv, env`receipts
      ensures Valid() && Follows(old(Trail()), Trail())
      ensures deliveries == old(deliveries) && request.attempted == old(request.attempted) ==> Served(Server, events)
      ensures OnlyError(old(wires.plan), 502, "Bad Gateway")
      ensures if old(upstreamAttached) then Resolved(old(deliveries))
              else wires == old(wires) && deliveries == old(deliveries) && !upstreamAttached && state == old(state)
    {
      hide Core, Rest, Streaming, Requesting, Follows, Continues, Rank, Interests;
      FollowsItself(Trail());
      if state == SendingRequest && EpollOut in events {
        ConnectingMeans();
        ConnectedIsRegistered();
        WriteUpstream();
        ResolvedByFailure(old(deliveries), 0);
      }
      ghost var sent := Trail();
      FollowsGrows(old(Trail()), sent);
      if (state == ReadingResponseHead || state == StreamingResponse)
         && (EpollIn in events || EpollRdHup in events || EpollHup in events) {
        UpstreamStatesAttached();
        ConnectedIsRegistered();
        ReadUpstream();
        FollowsTransitive(old(Trail()), sent, Trail());
        FollowsGrows(sent, Trail());
      }
      WantsResponse();
    }

    lemma ConnectedIsRegistered()
      requires Valid() && upstreamAttached
      ensures clientRegistered
    {
      hide Rest;
    }

    /** Events on either descriptor. Afterwards the registered masks are the interests, unless the
    kernel refused one; an octet sent stays sent; and the deadline argument is kept up. */
    method OnEvent(role: Role, events: set<Event>)
      requires Valid() && (state != Closed ==> clientRegistered && (role == Server ==> upstreamAttached))
      modifies this`clientReadClosed, this`completedAtLeastOne
      modifies this`state, this`upstreamAttached, this`clientRegistered, this`clientMask, this`upstreamMask, this`request
      modifies this`response, this`toUpstream, this`toClient, this`closeAfterResponse, this`deadlines, this`accessRecords
      modifies this`wires, this`deliveries, this`expiredTicks, env`now, env`interrupts, env`refusals
      modifies env`failures, env`lastSend, env`lastLookup, env`lastRecv, env`receipts
      ensures Valid() && Follows(old(Trail()), Trail()) && Servable()
      ensures env.refusals == old(env.refusals) ==> Watched()
      ensures env.refusals == old(env.refusals) && deliveries == old(deliveries) && state != Closed
              && (role == Server ==> request.attempted == old(request.attempted)) ==>
                Served(role, events)
      ensures TickRule(old(Trail())) ==> TickRule(Trail())
      ensures role == Client && EpollRdHup in events && old(state) != Closed ==>
                state == Closed || (clientReadClosed && Trail().last)
      ensures if role == Client then OnlyRefusal(old(wires.plan)) else OnlyError(old(wires.plan), 502, "Bad Gateway")
      ensures role == Server && old(state) != Closed && env.refusals == old(env.refusals) ==> Resolved(old(deliveries))
      ensures role == Client && (EpollErr in events || EpollHup in events) ==> state == Closed
    {
      hide Core, Rest, Watched;
      if state == Closed {
        NothingToWatch();
        return;
      }
      if role == Client {
        OnClientEvent(events);
      } else {
        OnUpstreamEvent(events);
      }
      RankRange();
    }

    lemma RankRange()
      ensures Rank() <= 3 && (Rank() == 0 <==> state == Closed)
    {
    }

    // -------------------------------------------------------------- time and shutdown

    /** What a later call of the same batch may rely on: a session whose client descriptor is gone
    has used both its attempts, so nothing connects it again. */
    ghost predicate Servable()
      reads this`state, this`clientRegistered, this`request
    {
      state == Closed || clientRegistered || |request.attempted| >= 2
    }

    /** Which limits a tick can find passed: the phase's, or, once octets should flow, idleness. */
    predicate PhaseOver(now: nat)
      reads this`state, this`deadlines
    {
      if state == SendingRequest || state == StreamingResponse || state == DrainingResponse then
        now - deadlines.lastIo >= deadlines.timeouts.ioIdle
      else
        state != Closed && now >= deadlines.phase
    }

    /** No state waits without a limit: once both the phase and the idle time have passed, the tick acts. */
    lemma EveryStateIsTimed(now: nat)
      requires state != Closed && now >= deadlines.phase && now - deadlines.lastIo >= deadlines.timeouts.ioIdle
      ensures PhaseOver(now)
    {
    }

    predicate Due(now: nat)
      reads this`state, this`deadlines
    {
      state != Closed && (now >= deadlines.request || PhaseOver(now))
    }

    /** Nothing has changed but what counts the ticks. */
    twostate predicate Untouched()
      reads this
    {
      && state == old(state) && upstreamAttached == old(upstreamAttached) && clientRegistered == old(clientRegistered)
      && clientMask == old(clientMask) && upstreamMask == old(upstreamMask)
      && request == old(request) && response == old(response) && toUpstream == old(toUpstream) && toClient == old(toClient)
      && clientReadClosed == old(clientReadClosed) && closeAfterResponse == old(closeAfterResponse)
      && deadlines == old(deadlines) && accessRecords == old(accessRecords)
      && wires == old(wires) && deliveries == old(deliveries)
    }

    /** Nothing that is registered is subscribed to anything: only the timer calls this session. */
    ghost predicate Silent()
      reads this`state, this`clientRegistered, this`upstreamAttached, this`clientMask, this`upstreamMask
    {
      state != Closed && (clientRegistered ==> clientMask == {}) && (upstreamAttached ==> upstreamMask == {})
    }

    /** No mask is renewed after a tick. When the tick acted on a limit, the masks are still the
    interests exactly if the session is closed, or an error joins octets the client was already
    watched for, or another connection took over that has not sent everything at once. */
    ghost predicate StillWatched(unsent: bool)
      reads this`state, this`clientRegistered, this`upstreamAttached
    {
      state == Closed || (clientRegistered && if upstreamAttached then !unsent && state != ReadingResponseHead else unsent)
    }

    /** The client was watched for nothing, and now has an error to be sent, or waits for a new
    connection that was registered without anything to send. */
    ghost predicate Unheard()
      reads this`state, this`clientRegistered, this`upstreamAttached, this`clientMask, this`request
    {
      && state != Closed && (clientRegistered ==> clientMask == {})
      && (upstreamAttached ==> state == ReadingResponseHead && request.upstreamHead == "")
    }

    /** What the masks of a waiting session say about its client queue. */
    lemma MasksBefore()
      requires Valid() && Watched() && state != Closed && state != ReadingRequestHead
      ensures if toClient != "" then clientMask == {Writable} else Writable !in clientMask
      ensures toClient == "" && request.bodyComplete ==> clientMask == {}
    {
      hide ValidCodec, Ledger, Attempts, HeadLedger, UpstreamLedger, BodyCount, Records;
    }

    lemma MasksAfter(unsent: bool, close: bool)
      requires Valid() && state != ReadingRequestHead && Fresh(close)
      requires if unsent then clientMask == {Writable} else Writable !in clientMask
      requires upstreamAttached ==> request.bodyComplete && (unsent || clientMask == {})
      ensures Watched() <==> StillWatched(unsent)
      ensures Silent() <==> Unheard()
    {
      hide ValidCodec, Ledger, Attempts, HeadLedger, BodyCount, Records;
      if upstreamAttached {
        FirstMaskIs();
      }
    }

    lemma FirstMaskIs()
      requires Valid() && upstreamAttached && request.bodyComplete && state != StreamingResponse
      ensures FirstMask() == if state == ReadingResponseHead && request.upstreamHead == "" then {} else {Writable}
    {
      hide Ledger, Records;
    }

    /** A timer tick: nothing happens before a limit is passed; at the deadline of the request the
    session comes nearer to its end; and whoever was not answered yet is told of a timeout. */
    method CheckTimeout(now: nat)
      requires Valid() && Servable() && lastTick <= now
      modifies this`lastTick
      modifies this`state, this`upstreamAttached, this`clientRegistered, this`upstreamMask, this`request, this`response
      modifies this`toUpstream, this`toClient, this`closeAfterResponse, this`deadlines, this`accessRecords
      modifies this`wires, this`deliveries, this`expiredTicks, env`now, env`interrupts
      modifies env`failures, env`lastSend, env`lastLookup
      ensures Valid() && lastTick <= now
      ensures Continues(old(Trail()), Trail().(ticks := old(expiredTicks)))
      ensures old(state) != Closed ==> lastTick == now
      ensures old(state) == Closed ==> state == Closed
      ensures old(state) != Closed && now >= old(deadlines.request) ==>
                Rank() < old(Rank()) && expiredTicks == old(expiredTicks) + 1
      ensures !old(Due(now)) ==> Untouched() && (old(Watched()) ==> Watched() && !Silent())
      ensures old(Due(now)) ==> TimedOut(old(request))
      ensures old(Watched()) && old(Due(now)) ==> (Watched() <==> StillWatched(old(toClient) != ""))
      ensures old(Watched()) && old(Due(now)) ==> (Silent() <==> Unheard())
      ensures TickRule(old(Trail())) ==> TickRule(Trail())
      ensures old(Due(now)) && !old(Retryable()) ==> !upstreamAttached && request.attempted == old(request.attempted)
      ensures OnlyError(old(wires.plan), 504, "Gateway Timeout")
    {
      hide Core, Rest, Continues, RouteOf, TimedOut, PhaseOver, Watched, Silent, StillWatched, Unheard;
      RankRange();
      ContinuesItself(Trail());
      if state == Closed {
        AlreadyOver(now);
        return;
      }
      CountTick(now);
      ghost var counted := Trail();
      ActOnTime(now);
      RankRange();
      ContinuesTicking(old(Trail()), counted, Trail());
    }

    lemma AlreadyOver(now: nat)
      requires state == Closed
      ensures !PhaseOver(now) && Watched() && !Silent() && !Unheard()
      ensures forall asked :: TimedOut(asked)
      ensures forall unsent :: StillWatched(unsent)
    {
    }

    /** `NoLostWakeup` for masks that are current, and for a closed session. */
    lemma AwakeNow()
      requires Valid()
      ensures Watched() ==> !Silent()
    {
      hide Core, Rest, Interests;
      if Watched() && state != Closed {
        NoLostWakeup();
      }
    }

    method ActOnTime(now: nat)
      requires Valid() && Servable() && state != Closed
      modifies this`state, this`upstreamAttached, this`clientRegistered, this`upstreamMask, this`request, this`response
      modifies this`toUpstream, this`toClient, this`closeAfterResponse, this`deadlines, this`accessRecords
      modifies this`wires, this`deliveries, this`expiredTicks, env`now, env`interrupts
      modifies env`failures, env`lastSend, env`lastLookup
      ensures Valid() && Continues(old(Trail()), Trail())
      ensures now >= old(deadlines.request) ==> Rank() < old(Rank())
      ensures !old(Due(now)) ==> Untouched() && (old(Watched()) ==> Watched() && !Silent())
      ensures old(Due(now)) ==> TimedOut(old(request))
      ensures old(Watched()) && old(Due(now)) ==> (Watched() <==> StillWatched(old(toClient) != ""))
      ensures old(Watched()) && old(Due(now)) ==> (Silent() <==> Unheard())
      ensures old(Due(now)) && !old(Retryable()) ==> !upstreamAttached && request.attempted == old(request.attempted)
      ensures OnlyError(old(wires.plan), 504, "Gateway Timeout")
    {
      hide Core, Rest, Continues, Trail, Interests, Watched, Silent, Fresh;
      RankRange();
      AwakeNow();
      ContinuesItself(Trail());
      if state == ReadingRequestHead && now >= deadlines.phase {
        CloseNow();
        AlreadyOver(now);
        return;
      }
      if now >= deadlines.request {
        PassDeadline();
        return;
      }
      if (state == ConnectingUpstream || state == ReadingResponseHead) && now >= deadlines.phase {
        TimeOutUpstream();
        return;
      }
      if (state == SendingRequest || state == StreamingResponse || state == DrainingResponse)
         && now - deadlines.lastIo >= deadlines.timeouts.ioIdle {
        if (state == SendingRequest && !request.bodyComplete) || response.bytesSent != 0 {
          CloseNow();
          AlreadyOver(now);
        } else {
          TimeOutUpstream();
        }
      }
    }

    /** The session is closed, or another upstream was tried, or the client is told of the timeout. */
    ghost predicate TimedOut(asked: RequestSide)
      reads this`state, this`wires, this`request
    {
      state == Closed || |asked.attempted| < |request.attempted| || wires.plan == ErrorReply(504, "Gateway Timeout")
    }

    method PassDeadline()
      requires Valid() && state != Closed
      modifies this`state, this`upstreamAttached, this`clientRegistered, this`upstreamMask, this`request, this`response
      modifies this`toUpstream, this`toClient, this`closeAfterResponse, this`deadlines, this`accessRecords
      modifies this`wires, this`deliveries, this`expiredTicks, env`now, env`interrupts
      modifies env`failures, env`lastSend, env`lastLookup
      ensures Valid() && Continues(old(Trail()), Trail()) && Rank() < old(Rank())
      ensures TimedOut(old(request))
      ensures old(Watched()) ==> (Watched() <==> StillWatched(old(toClient) != "")) && (Silent() <==> Unheard())
      ensures !old(Retryable()) ==> !upstreamAttached && request.attempted == old(request.attempted)
      ensures OnlyError(old(wires.plan), 504, "Gateway Timeout")
    {
      hide Core, Rest, Continues, Interests, FirstMask, Fresh;
      RankRange();
      if response.bytesSent == 0 && upstreamAttached {
        UpstreamStates();
        if Watched() {
          MasksBefore();
        }
        ghost var watched, unsent, close := Watched(), toClient != "", closeAfterResponse;
        CoreBounds();
        UpstreamFailure(504, "Gateway Timeout");
        ContinuesAttempts(old(Trail()), Trail());
        if watched {
          MasksAfter(unsent, close);
        }
        CoreBounds();
        RankBound();
        RankRange();
      } else {
        CloseNow();
      }
    }

    method TimeOutUpstream()
      requires Valid() && Servable() && state != Closed && state != ReadingRequestHead
      modifies this`state, this`upstreamAttached, this`clientRegistered, this`upstreamMask, this`request, this`response
      modifies this`toUpstream, this`toClient, this`closeAfterResponse, this`deadlines, this`accessRecords
      modifies this`wires, this`deliveries, this`expiredTicks, env`now, env`interrupts
      modifies env`failures, env`lastSend, env`lastLookup
      ensures Valid() && Continues(old(Trail()), Trail()) && TimedOut(old(request))
      ensures old(Watched()) ==> (Watched() <==> StillWatched(old(toClient) != "")) && (Silent() <==> Unheard())
      ensures !old(Retryable()) ==> !upstreamAttached && request.attempted == old(request.attempted)
      ensures OnlyError(old(wires.plan), 504, "Gateway Timeout")
    {
      hide Core, Rest, Continues, Interests, FirstMask, Fresh;
      UnloggedAtRest();
      RegisteredOrComplete();
      if Watched() {
        MasksBefore();
      }
      ghost var watched, unsent, close := Watched(), toClient != "", closeAfterResponse;
      UpstreamFailure(504, "Gateway Timeout");
      ContinuesAttempts(old(Trail()), Trail());
      if watched {
        MasksAfter(unsent, close);
      }
    }

    lemma UnloggedAtRest()
      requires Valid() && state != Closed
      ensures Core() && !response.accessLogged
    {
      hide ValidCodec, Ledger, Attempts, HeadLedger, UpstreamLedger, BodyCount, Records;
    }

    ghost method CountTick(now: nat)
      requires Valid() && lastTick <= now
      modifies this`lastTick, this`expiredTicks
      ensures Valid() && lastTick == now
      ensures expiredTicks == if now >= deadlines.request then old(expiredTicks) + 1 else 0
      ensures now < deadlines.request ==> old(expiredTicks) == 0
    {
      hide ValidCodec, Ledger, Attempts, HeadLedger, UpstreamLedger, BodyCount, Records, Rest;
      lastTick := now;
      if now >= deadlines.request {
        expiredTicks := expiredTicks + 1;
      }
    }

    /** Closed; or past its head and on its last request; or with the beginning of a head, whose
    `Connection` field will decide, when it has been read, whether it is the last one. */
    ghost predicate WindingDown()
      reads this`state, this`request, this`closeAfterResponse
    {
      state != Closed ==> if state == ReadingRequestHead then request.headBytes != "" else closeAfterResponse
    }

    /** An idle connection is closed at once. One past its request head finishes its response, then
    closes; one in the middle of a head does so only if the head says so (`AppendRequestHead`). */
    method BeginDrain()
      requires Valid()
      modifies this`state, this`upstreamAttached, this`clientRegistered, this`clientMask, this`upstreamMask, this`request
      modifies this`response, this`toUpstream, this`toClient, this`closeAfterResponse, this`deadlines, this`accessRecords
      modifies this`wires, this`deliveries, this`expiredTicks, env`now, env`interrupts, env`refusals
      modifies env`failures, env`lastSend, env`lastLookup
      ensures Valid() && Follows(old(Trail()), Trail()) && Servable()
      ensures old(Trail()).idle ==> state == Closed
      ensures old(state) == Closed ==> state == Closed
      ensures TickRule(old(Trail())) ==> TickRule(Trail())
      ensures WindingDown()
      ensures env.refusals == old(env.refusals) ==> Watched()
      ensures state != Closed ==> (Trail().last <==> state != ReadingRequestHead)
      ensures old(state) == ReadingRequestHead ==> state == Closed || (state == ReadingRequestHead && request == old(request))
      ensures OnlyError(old(wires.plan), 502, "Bad Gateway")
    {
      hide Core, Rest, Watched;
      if state == Closed {
        NothingToWatch();
        return;
      }
      PromiseClose();
      RankRange();
      if state == ReadingRequestHead && request.headBytes == "" {
        CloseNow();
        NothingToWatch();
        return;
      }
      RefreshInterests();
      RankRange();
    }

    method PromiseClose()
      requires Valid()
      modifies this`closeAfterResponse
      ensures Valid() && closeAfterResponse
    {
      hide Core;
      closeAfterResponse := true;
    }

    method ForceClose()
      requires Valid()
      modifies this`state, this`upstreamAttached, this`clientRegistered
      ensures Valid() && state == Closed && Follows(old(Trail()), Trail()) && TickRule(Trail())
    {
      hide Core, Rest;
      CloseNow();
    }

    // -------------------------------------------------------------- what the invariants give

    /** A closed session has left the event loop; one that has left it can at most finish a reply. */
    lemma ClosedHasLeft()
      requires Valid()
      ensures state == Closed ==> !clientRegistered
      ensures clientRegistered ==> Servable()
    {
      hide Rest;
    }

    /** A live session always wants something from a descriptor it has; with current masks it is
    subscribed to that; and whatever body is being read has room for at least one more octet still
    expected. */
    lemma NoLostWakeup()
      requires Valid() && state != Closed && clientRegistered
      ensures Interests(Client) != {} || (upstreamAttached && Interests(Server) != {})
      ensures Watched() ==> !Silent()
      ensures Readable in Interests(Client) && state != ReadingRequestHead ==>
                request.bodyReceived < request.bodyExpected && |toUpstream| < config.capacity
      ensures Readable in Interests(Server) && state == StreamingResponse ==>
                |toClient| < config.capacity && (response.mode.ContentLength? ==> response.bodyReceived < response.bodyExpected)
    {
      hide ValidCodec, Ledger, Attempts, HeadLedger, UpstreamLedger, Records, Sound, Asked, Settled;
      assert state == ReadingRequestHead ==> Readable in Interests(Client);
      assert state == DrainingResponse ==> Writable in Interests(Client);
      assert state in {ConnectingUpstream, ReadingResponseHead} ==> Interests(Server) != {};
      assert state == SendingRequest && toUpstream == "" ==> Readable in Interests(Client);
      assert state == SendingRequest && toUpstream != "" ==> Writable in Interests(Server);
      assert state == StreamingResponse && response.paused ==> Writable in Interests(Client);
      assert state == StreamingResponse && !response.paused ==> Readable in Interests(Server);
    }

    /** A paused direction is always being drained at its other end. */
    lemma PauseIsTemporary()
      requires Valid()
      ensures state == StreamingResponse && response.paused ==> Writable in Interests(Client)
      ensures state in {ConnectingUpstream, SendingRequest} && request.paused && !request.bodyComplete ==>
                upstreamAttached && Writable in Interests(Server)
    {
      hide ValidCodec, Ledger, Attempts, HeadLedger, UpstreamLedger, BodyCount, Records, Sound, Asked, Settled;
    }

    /** After three timer ticks at or past its deadline no request is under way any more. */
    lemma RequestEnds()
      requires TickRule(Trail()) && expiredTicks >= 3
      ensures state == Closed
    {
      RankRange();
    }

    /** What was sent on this connection is a sequence of whole responses, each the answer to its
    own request, and a part of one more. */
    lemma ClientStream()
      requires Valid()
      ensures forall i | 0 <= i < |deliveries| :: Delivered(codec, config, deliveries[i]) && KeptOpen(deliveries[i])
      ensures wires.client <= PlanText(codec, wires.plan) && |request.attempted| <= 2
      ensures |request.attempted| == 2 ==>
                (request.verb == "GET" || request.verb == "HEAD") && request.bodyExpected == 0
                && request.attempted[0] != request.attempted[1]
      ensures |deliveries| <= accessRecords <= |deliveries| + 1
    {
      hide ValidCodec, HeadLedger, UpstreamLedger, BodyCount, Rest, Delivered;
    }
  }
}
