/**
 * The host and the worker joined by the two `postMessage` directions. Each
 * side's `sent` log is the channel in that direction; a cursor per direction
 * says how much of it the other side has received, so delivery is FIFO per
 * direction and at most once. A terminated worker receives and sends nothing.
 */
module SyncChannel {
  import opened Wrappers
  import opened JsValue
  import opened Promises
  import opened Envelopes
  import SyncHost
  import SyncWorker

  datatype Channel = Channel(
    host: SyncHost.Host,
    worker: SyncWorker.Worker,
    hostRead: nat,      // how many of the worker's messages the host has received
    workerRead: nat)    // how many of the host's messages the worker has received

  datatype Event =
    | DeliverToHost
    | DeliverToWorker
    | AtHost(hostEvent: SyncHost.Event)
    | AtWorker(workerEvent: SyncWorker.Event)

  predicate Inv(c: Channel) {
    && SyncHost.Inv(c.host)
    && SyncWorker.Inv(c.worker)
    && c.hostRead <= |c.worker.sent|
    && c.workerRead <= |c.host.sent|
  }

  /** `createSyncWorker(src)`: the host waits, the worker has already posted `'ready'`. */
  function Open(uid: nat, defined: set<string>): (c: Channel)
    ensures Inv(c)
  {
    Channel(SyncHost.Create(uid), SyncWorker.Start(defined), 0, 0)
  }

  function Step(c: Channel, broker: Option<SyncHost.Broker>, e: Event): Channel {
    match e
    case DeliverToHost =>
      if c.hostRead < |c.worker.sent| then
        c.(host := SyncHost.Step(c.host, broker, SyncHost.FromWorker(c.worker.sent[c.hostRead])),
           hostRead := c.hostRead + 1)
      else c
    case DeliverToWorker =>
      if c.host.alive && c.workerRead < |c.host.sent| then
        c.(worker := SyncWorker.Step(c.worker, SyncWorker.FromHost(c.host.sent[c.workerRead])),
           workerRead := c.workerRead + 1)
      else c
    case AtHost(he) =>
      if he.FromWorker? then c else c.(host := SyncHost.Step(c.host, broker, he))
    case AtWorker(we) =>
      if !c.host.alive || we.FromHost? then c else c.(worker := SyncWorker.Step(c.worker, we))
  }

  lemma StepPreservesInv(c: Channel, broker: Option<SyncHost.Broker>, e: Event)
    requires Inv(c)
    ensures Inv(Step(c, broker, e))
  {
    match e
    case DeliverToHost =>
      if c.hostRead < |c.worker.sent| {
        SyncHost.StepPreservesInv(c.host, broker, SyncHost.FromWorker(c.worker.sent[c.hostRead]));
      }
    case DeliverToWorker =>
      if c.host.alive && c.workerRead < |c.host.sent| {
        SyncWorker.StepPreservesInv(c.worker, SyncWorker.FromHost(c.host.sent[c.workerRead]));
      }
    case AtHost(he) =>
      if !he.FromWorker? {
        SyncHost.StepPreservesInv(c.host, broker, he);
      }
    case AtWorker(we) =>
      if c.host.alive && !we.FromHost? {
        SyncWorker.StepPreservesInv(c.worker, we);
      }
  }

  function Run(c: Channel, broker: Option<SyncHost.Broker>, events: seq<Event>): Channel
    decreases |events|
  {
    if |events| == 0 then c else Run(Step(c, broker, events[0]), broker, events[1..])
  }

  /** Nothing in flight in either direction. */
  predicate Quiet(c: Channel) {
    c.hostRead == |c.worker.sent| && c.workerRead == |c.host.sent|
  }

  /** Both sides up and the handshake done. */
  predicate Running(c: Channel) {
    Inv(c) && Quiet(c) && c.host.alive && c.host.init.Fulfilled? && !c.host.initListening
  }

  /** The handshake: the first delivery to the host resolves creation with the API. */
  lemma {:induction false} HandshakeResolves(uid: nat, defined: set<string>, broker: Option<SyncHost.Broker>)
    ensures var c := Step(Open(uid, defined), broker, DeliverToHost);
      && c.host.init == Fulfilled(SyncHost.ApiMembers)
      && c.host.brokerListening && c.host.alive && !c.host.initListening
      && Quiet(c) && Inv(c)
  {
    var c0 := Open(uid, defined);
    assert c0.worker.sent[0] == Ready;
    SyncHost.InitOutcomes(uid, broker, Ready);
    StepPreservesInv(c0, broker, DeliverToHost);
  }

  /** The host's call for `cmd` after it has reached the worker. */
  lemma {:induction false} CallReachesWorker(c: Channel, broker: Option<SyncHost.Broker>, cmd: SyncHost.Command)
    requires Running(c)
    ensures var id := c.host.nextId;
      var c2 := Step(Step(c, broker, AtHost(SyncHost.Invoke(cmd))), broker, DeliverToWorker);
      && Inv(c2)
      && c2.host.alive && c2.host.init.Fulfilled? && !c2.host.initListening
      && c2.workerRead == |c2.host.sent| && c2.hostRead == c.hostRead
      && id in c2.host.calls && c2.host.calls[id] == SyncHost.CallRecord(SyncHost.CommandName(cmd), true, true, Pending)
      && c2.worker == SyncWorker.Step(c.worker, SyncWorker.FromHost(Message(id, SyncHost.CommandName(cmd), SyncHost.CommandArgs(cmd))))
  {
    var id := c.host.nextId;
    var c1 := Step(c, broker, AtHost(SyncHost.Invoke(cmd)));
    SyncHost.InvokeTakesFreshId(c.host, broker, cmd);
    StepPreservesInv(c, broker, AtHost(SyncHost.Invoke(cmd)));
    assert c1.host.sent[c1.workerRead] == Message(id, SyncHost.CommandName(cmd), SyncHost.CommandArgs(cmd));
    StepPreservesInv(c1, broker, DeliverToWorker);
  }

  /** A call the plug-in does not define comes back `undefined` after one round trip. */
  lemma {:induction false} StubCallResolvesUndefined(c: Channel, broker: Option<SyncHost.Broker>, cmd: SyncHost.Command)
    requires Running(c)
    requires SyncHost.CommandName(cmd) !in c.worker.defined
    ensures var id := c.host.nextId;
      var r := Step(Step(Step(c, broker, AtHost(SyncHost.Invoke(cmd))), broker, DeliverToWorker), broker, DeliverToHost);
      && id in r.host.calls
      && r.host.calls[id].result == Fulfilled(Undefined)
      && Quiet(r)
  {
    var id := c.host.nextId;
    CallReachesWorker(c, broker, cmd);
    var c2 := Step(Step(c, broker, AtHost(SyncHost.Invoke(cmd))), broker, DeliverToWorker);
    SyncWorker.StubAnswersUndefined(c.worker, id, SyncHost.CommandName(cmd), SyncHost.CommandArgs(cmd));
    assert c2.worker.sent[c2.hostRead] == Reply(id, Undefined, Undefined);
    SyncHost.ReplyMatchedById(c2.host, broker, id, Undefined, Undefined);
  }

  /**
   * A plug-in route that throws a truthy error is answered twice; the caller
   * is rejected by the first reply, and the second reply leaves the host as it was.
   */
  lemma {:induction false} ThrowingCallSettlesOnFirstReply(
    c: Channel, broker: Option<SyncHost.Broker>, cmd: SyncHost.Command, e: Value)
    requires Running(c)
    requires SyncHost.CommandName(cmd) in c.worker.defined && Truthy(e)
    ensures var id := c.host.nextId;
      var c2 := Step(Step(c, broker, AtHost(SyncHost.Invoke(cmd))), broker, DeliverToWorker);
      var first := Step(Step(c2, broker, AtWorker(SyncWorker.RouteSettles(id, Threw(e)))), broker, DeliverToHost);
      var second := Step(first, broker, DeliverToHost);
      && id in first.host.calls
      && first.host.calls[id].result == Rejected(SyncHost.RunFailed(SyncHost.CommandName(cmd), e))
      && second.host == first.host
      && Quiet(second)
  {
    var id := c.host.nextId;
    CallReachesWorker(c, broker, cmd);
    var c2 := Step(Step(c, broker, AtHost(SyncHost.Invoke(cmd))), broker, DeliverToWorker);
    assert id in c2.worker.running;
    var c3 := Step(c2, broker, AtWorker(SyncWorker.RouteSettles(id, Threw(e))));
    SyncWorker.ThrowingRouteAnsweredTwice(c2.worker, id, e);
    assert c3.hostRead == c2.hostRead && c3.host == c2.host;
    assert c3.worker.sent[c3.hostRead] == Reply(id, e, Undefined);
    assert c3.worker.sent[c3.hostRead + 1] == Reply(id, Undefined, Undefined);
    StepPreservesInv(c2, broker, AtWorker(SyncWorker.RouteSettles(id, Threw(e))));
    var c4 := Step(c3, broker, DeliverToHost);
    SyncHost.ReplyMatchedById(c3.host, broker, id, e, Undefined);
    StepPreservesInv(c3, broker, DeliverToHost);
    SyncHost.StaleReplyIsInert(c4.host, broker, id, Undefined, Undefined);
  }

  /**
   * A brokered call from the script (its `fetch`): the broker's outcome comes
   * back to the script's `_post` promise, where a falsy rejection reason
   * resolves with `undefined`.
   */
  lemma {:induction false} BrokeredCallRoundTrip(c: Channel, broker: SyncHost.Broker, cmd: string, args: seq<Value>)
    requires Running(c) && c.host.brokerListening
    ensures var id := c.worker.uid;
      var b := Some(broker);
      var r := Step(Step(Step(c, b, AtWorker(SyncWorker.ScriptPost(cmd, args))), b, DeliverToHost), b, DeliverToWorker);
      && id in r.worker.posts
      && match broker(cmd, args)
         case Pending => r.worker.posts[id].result.Pending? && id in r.worker.routes
         case Fulfilled(v) => r.worker.posts[id].result == Fulfilled(v) && id !in r.worker.routes
         case Rejected(err) =>
           r.worker.posts[id].result == (if Truthy(err) then Rejected(err) else Fulfilled(Undefined))
           && id !in r.worker.routes
  {
    var id := c.worker.uid;
    var b := Some(broker);
    var c1 := Step(c, b, AtWorker(SyncWorker.ScriptPost(cmd, args)));
    SyncWorker.PostTakesFreshId(c.worker, cmd, args);
    StepPreservesInv(c, b, AtWorker(SyncWorker.ScriptPost(cmd, args)));
    assert c1.worker.sent[c1.hostRead] == Message(id, cmd, args);
    var c2 := Step(c1, b, DeliverToHost);
    var replies := SyncHost.BrokerReplies(b, Message(id, cmd, args));
    assert c2.host.sent == c.host.sent + replies;
    StepPreservesInv(c1, b, DeliverToHost);
    var c3 := Step(c2, b, DeliverToWorker);
    if |replies| == 1 {
      assert c2.host.sent[c2.workerRead] == replies[0];
      SyncWorker.ReplyFiresRouteOnce(c2.worker, id, replies[0].err, replies[0].res);
    }
  }

  /** After a call times out the worker is gone: no later delivery changes either side. */
  lemma TimedOutChannelIsSilent(c: Channel, broker: Option<SyncHost.Broker>, id: nat, e: Event)
    requires Inv(c) && id in c.host.calls && c.host.calls[id].listening
    ensures var t := Step(c, broker, AtHost(SyncHost.PostTimeout(id)));
      && t.host.calls[id].result == Rejected(SyncHost.TimedOut)
      && (e.DeliverToHost? || e.DeliverToWorker? || e.AtWorker? ==> Step(t, broker, e).host == t.host && Step(t, broker, e).worker == t.worker)
  {
    SyncHost.PostTimeoutRejects(c.host, broker, id);
    var t := Step(c, broker, AtHost(SyncHost.PostTimeout(id)));
    if e.DeliverToHost? && t.hostRead < |t.worker.sent| {
      SyncHost.DeadWorkerIsSilent(t.host, broker, t.worker.sent[t.hostRead]);
    }
  }
}
