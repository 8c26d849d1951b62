/**
 * The host side of the sync worker (src/utils/createSyncWorker.js, lines
 * 1-258 outside the worker's own script): the creation handshake with its
 * init timer, the `post` RPC client with one listener and one timer per call,
 * `destroy`, and the broker listener that answers the worker's own calls.
 *
 * Listeners and timers are flags; delivered messages, timer expiries, the
 * worker's `error` event and the API calls are explicit events of `Step`.
 */
module SyncHost {
  import opened Wrappers
  import opened JsValue
  import opened Promises
  import opened Envelopes

  /** Milliseconds the worker has to post its ready sentinel. */
  const InitTimeLimitMs: nat := 500

  /** Milliseconds a single `post` waits for its reply before destroying the worker. */
  const PostTimeLimitMs: nat := 10000

  /** The members of the object the creation promise resolves with. */
  const ApiMembers: seq<string> :=
    ["getId", "getName", "getProps", "insertTodo", "updateTodo", "deleteTodo", "destroy"]

  /** The six remote calls of the API; `destroy` is the event `Destroy`. */
  datatype Command =
    | GetId
    | GetName
    | GetProps
    | InsertTodo(props: Value, data: Value)
    | UpdateTodo(props: Value, id: Value, data: Value)
    | DeleteTodo(props: Value, id: Value)

  function CommandName(c: Command): string {
    match c
    case GetId => "getId"
    case GetName => "getName"
    case GetProps => "getProps"
    case InsertTodo(_, _) => "insertTodo"
    case UpdateTodo(_, _, _) => "updateTodo"
    case DeleteTodo(_, _) => "deleteTodo"
  }

  function CommandArgs(c: Command): seq<Value> {
    match c
    case GetId => []
    case GetName => []
    case GetProps => []
    case InsertTodo(props, data) => [props, data]
    case UpdateTodo(props, id, data) => [props, id, data]
    case DeleteTodo(props, id) => [props, id]
  }

  /** Why a host-side promise was rejected. */
  datatype HostError =
    | RunFailed(command: string, err: Value)
    | TimedOut
    | ReadyNotReceived
    | InitTimedOut
    | CreateFailed(message: string)

  /** The text each rejection carries. */
  function Describe(e: HostError): string {
    match e
    case RunFailed(cmd, err) => "Failed to run \"" + cmd + "\", " + Show(err)
    case TimedOut => "SyncWorker timed out"
    case ReadyNotReceived => "Failed to create SyncWorker, ready state not received"
    case InitTimedOut => "Failed to initialize SyncWorker within 500ms"
    case CreateFailed(m) => "Failed to create SyncWorker. " + m
  }

  /**
   * `onWorkerMessage`: maps a command from the worker and its arguments to
   * the eventual state of the promise it returns.
   */
  type Broker = (string, seq<Value>) -> Promise<Value, Value>

  /** One `post` call: its listener, its timer and its promise. */
  datatype CallRecord = CallRecord(
    command: string,
    listening: bool,
    timerArmed: bool,
    result: Promise<Value, HostError>)

  datatype Host = Host(
    nextId: nat,                                // the module-level `uid`
    alive: bool,                                // the worker has not been terminated
    init: Promise<seq<string>, HostError>,      // the creation promise
    initListening: bool,                        // the `once` ready listener is attached
    initTimerArmed: bool,                       // the init timer is set
    brokerListening: bool,                      // the broker listener is attached
    calls: map<nat, CallRecord>,                // every call ever posted, by id
    sent: seq<Envelope>)                        // everything posted to the worker, in order

  datatype Event =
    | FromWorker(env: Envelope)
    | WorkerError(message: string)
    | InitTimeout
    | PostTimeout(id: nat)
    | Invoke(command: Command)
    | Destroy

  predicate Consistent(rec: CallRecord) {
    rec.listening == rec.timerArmed && rec.listening == rec.result.Pending?
  }

  /** The call ids posted so far, in posting order. */
  predicate CallIdsIncrease(sent: seq<Envelope>) {
    forall i, j :: 0 <= i < j < |sent| && sent[i].Message? && sent[j].Message? ==> sent[i].id < sent[j].id
  }

  predicate Inv(h: Host) {
    && (forall id :: id in h.calls ==> id < h.nextId)
    && (forall id :: id in h.calls ==> Consistent(h.calls[id]))
    && (forall i :: 0 <= i < |h.sent| && h.sent[i].Message? ==>
          h.sent[i].id < h.nextId && h.sent[i].id in h.calls && h.calls[h.sent[i].id].command == h.sent[i].command)
    && CallIdsIncrease(h.sent)
    && (!h.alive ==> !h.brokerListening)
    && (h.initTimerArmed ==> h.initListening)
  }

  /** Creating a worker: listeners and init timer set, counter taken from the module. */
  function Create(uid: nat): (h: Host)
    ensures Inv(h)
    ensures h.alive && h.init.Pending? && h.initListening && h.initTimerArmed
    ensures !h.brokerListening && h.calls == map[] && h.sent == [] && h.nextId == uid
  {
    Host(uid, true, Pending, true, true, false, map[], [])
  }

  /** `destroy`: terminate the worker and detach the broker listener. */
  function Terminate(h: Host): Host {
    h.(alive := false, brokerListening := false)
  }

  /** The `once` listener on the first message from the worker. */
  function OnFirstMessage(h: Host, env: Envelope): (r: Host)
    ensures !r.initListening && !r.initTimerArmed
    ensures r.alive == h.alive && r.calls == h.calls && r.sent == h.sent && r.nextId == h.nextId
    ensures h.init.Pending? ==> (r.init.Fulfilled? <==> env == Ready)
    ensures h.init.Pending? && env == Ready ==> r.init == Fulfilled(ApiMembers) && r.brokerListening
    ensures h.init.Pending? && env != Ready ==> r.init == Rejected(ReadyNotReceived) && r.brokerListening == h.brokerListening
    ensures !h.init.Pending? ==> r.init == h.init
  {
    var r := h.(initListening := false, initTimerArmed := false);
    if env == Ready then r.(brokerListening := true, init := h.init.Resolve(ApiMembers))
    else r.(init := h.init.Reject(ReadyNotReceived))
  }

  /**
   * The broker listener: only a `'message'` envelope is answered, and only
   * when `onWorkerMessage` is present; the answer is one reply with the same
   * id once the broker's promise settles.
   */
  function BrokerReplies(broker: Option<Broker>, env: Envelope): (r: seq<Envelope>)
    ensures |r| <= 1
    ensures broker.None? || !env.Message? ==> r == []
    ensures |r| == 1 ==> r[0].Reply? && r[0].id == env.id
    ensures broker.Some? && env.Message? ==>
              match broker.value(env.command, env.args)
              case Pending => r == []
              case Fulfilled(res) => r == [Reply(env.id, Undefined, res)]
              case Rejected(err) => r == [Reply(env.id, err, Undefined)]
  {
    if broker.None? then []
    else
      match env
      case Message(id, command, args) =>
        (match broker.value(command, args)
         case Pending => []
         case Fulfilled(res) => [Reply(id, Undefined, res)]
         case Rejected(err) => [Reply(id, err, Undefined)])
      case _ => []
  }

  /** The listener of call `id`: it reacts only to a reply carrying its own id. */
  function OnCallMessage(id: nat, rec: CallRecord, env: Envelope): (r: CallRecord)
    ensures r.command == rec.command
    ensures !(rec.listening && env.Reply? && env.id == id) ==> r == rec
    ensures rec.listening && env.Reply? && env.id == id && rec.result.Pending? ==>
              !r.listening && !r.timerArmed &&
              r.result == (if Truthy(env.err) then Rejected(RunFailed(rec.command, env.err)) else Fulfilled(env.res))
  {
    if rec.listening && env.Reply? && env.id == id then
      rec.(listening := false, timerArmed := false,
           result := if Truthy(env.err) then rec.result.Reject(RunFailed(rec.command, env.err))
                     else rec.result.Resolve(env.res))
    else rec
  }

  /** `post(cmd, ...args)`: register a listener and a timer, then send with a fresh id. */
  function Post(h: Host, c: Command): Host {
    var id := h.nextId;
    h.(nextId := id + 1,
       calls := h.calls[id := CallRecord(CommandName(c), true, true, Pending)],
       sent := if h.alive then h.sent + [Message(id, CommandName(c), CommandArgs(c))] else h.sent)
  }

  function Step(h: Host, broker: Option<Broker>, e: Event): Host {
    match e
    case FromWorker(env) =>
      if !h.alive then h
      else
        var afterInit := if h.initListening then OnFirstMessage(h, env) else h;
        var replies := if h.brokerListening then BrokerReplies(broker, env) else [];
        afterInit.(calls := map id | id in h.calls :: OnCallMessage(id, h.calls[id], env),
                   sent := afterInit.sent + replies)
    case WorkerError(message) =>
      if h.alive then h.(init := h.init.Reject(CreateFailed(message))) else h
    case InitTimeout =>
      if h.initTimerArmed then Terminate(h).(initTimerArmed := false, init := h.init.Reject(InitTimedOut))
      else h
    case PostTimeout(id) =>
      if id in h.calls && h.calls[id].timerArmed then
        var rec := h.calls[id];
        Terminate(h).(calls := h.calls[id := rec.(listening := false, timerArmed := false,
                                                   result := rec.result.Reject(TimedOut))])
      else h
    case Invoke(c) =>
      if h.init.Fulfilled? then Post(h, c) else h
    case Destroy =>
      Terminate(h)
  }

  /** Every event keeps the host's bookkeeping consistent. */
  lemma StepPreservesInv(h: Host, broker: Option<Broker>, e: Event)
    requires Inv(h)
    ensures Inv(Step(h, broker, e))
  {
    match e
    case FromWorker(env) =>
      if h.alive {
        DeliveryPreservesInv(h, broker, env);
      }
    case Invoke(c) =>
      if h.init.Fulfilled? {
        PostPreservesInv(h, c);
      }
    case _ =>
  }

  lemma DeliveryPreservesInv(h: Host, broker: Option<Broker>, env: Envelope)
    requires Inv(h) && h.alive
    ensures Inv(Step(h, broker, FromWorker(env)))
  {
    var r := Step(h, broker, FromWorker(env));
    var afterInit := if h.initListening then OnFirstMessage(h, env) else h;
    var replies := if h.brokerListening then BrokerReplies(broker, env) else [];
    assert r.sent == h.sent + replies;
    assert r.nextId == h.nextId && r.calls.Keys == h.calls.Keys;
    forall i | 0 <= i < |r.sent| && r.sent[i].Message?
      ensures r.sent[i].id < r.nextId && r.sent[i].id in r.calls && r.calls[r.sent[i].id].command == r.sent[i].command
    {
      assert i < |h.sent|;
    }
  }

  lemma PostPreservesInv(h: Host, c: Command)
    requires Inv(h)
    ensures Inv(Post(h, c))
  {
    var r := Post(h, c);
    if h.alive {
      assert r.sent == h.sent + [Message(h.nextId, CommandName(c), CommandArgs(c))];
    }
  }

  /** Ids come from one counter: it never decreases, and a new call gets an id no earlier call had. */
  lemma InvokeTakesFreshId(h: Host, broker: Option<Broker>, c: Command)
    requires Inv(h) && h.init.Fulfilled?
    ensures var r := Step(h, broker, Invoke(c));
      && h.nextId !in h.calls
      && r.nextId == h.nextId + 1
      && r.calls == h.calls[h.nextId := CallRecord(CommandName(c), true, true, Pending)]
      && (h.alive ==> r.sent == h.sent + [Message(h.nextId, CommandName(c), CommandArgs(c))])
      && (forall i :: 0 <= i < |h.sent| && h.sent[i].Message? ==> h.sent[i].id < h.nextId)
  {
  }

  /** Only a reply with a call's own id reaches that call; it settles on the error flag. */
  lemma ReplyMatchedById(h: Host, broker: Option<Broker>, id: nat, err: Value, res: Value)
    requires Inv(h) && h.alive
    ensures var r := Step(h, broker, FromWorker(Reply(id, err, res)));
      && r.calls.Keys == h.calls.Keys
      && (forall other :: other in h.calls && other != id ==> r.calls[other] == h.calls[other])
      && (id in h.calls && h.calls[id].listening ==>
            && !r.calls[id].listening && !r.calls[id].timerArmed
            && r.calls[id].result == (if Truthy(err) then Rejected(RunFailed(h.calls[id].command, err))
                                      else Fulfilled(res)))
      && (id in h.calls && !h.calls[id].listening ==> r.calls[id] == h.calls[id])
  {
  }

  /** Messages that are not replies leave every call untouched. */
  lemma NonReplyLeavesCalls(h: Host, broker: Option<Broker>, env: Envelope)
    requires !env.Reply?
    ensures Step(h, broker, FromWorker(env)).calls == h.calls
  {
  }

  /** A reply for an unknown or already settled id changes nothing at all. */
  lemma StaleReplyIsInert(h: Host, broker: Option<Broker>, id: nat, err: Value, res: Value)
    requires Inv(h) && !h.initListening
    requires id !in h.calls || !h.calls[id].listening
    ensures Step(h, broker, FromWorker(Reply(id, err, res))) == h
  {
    var r := Step(h, broker, FromWorker(Reply(id, err, res)));
    if h.alive {
      assert r.calls == h.calls;
    }
  }

  /** With no reply in time a call is rejected and the worker destroyed; other calls stay as they were. */
  lemma PostTimeoutRejects(h: Host, broker: Option<Broker>, id: nat)
    requires Inv(h) && id in h.calls && h.calls[id].listening
    ensures var r := Step(h, broker, PostTimeout(id));
      && r.calls[id].result == Rejected(TimedOut)
      && !r.calls[id].listening && !r.calls[id].timerArmed
      && !r.alive && !r.brokerListening
      && (forall other :: other in h.calls && other != id ==> r.calls[other] == h.calls[other])
      && r.sent == h.sent
  {
  }

  /** The handshake: `'ready'` first resolves with the API, anything else rejects, silence times out. */
  lemma InitOutcomes(uid: nat, broker: Option<Broker>, env: Envelope)
    ensures var r := Step(Create(uid), broker, FromWorker(env));
      && (env == Ready ==> r.init == Fulfilled(ApiMembers) && r.brokerListening)
      && (env != Ready ==> r.init == Rejected(ReadyNotReceived) && r.alive && !r.brokerListening)
      && !r.initListening && !r.initTimerArmed && r.sent == []
    ensures var r := Step(Create(uid), broker, InitTimeout);
      r.init == Rejected(InitTimedOut) && !r.alive
  {
  }

  lemma DestroyIsIdempotent(h: Host, broker: Option<Broker>)
    ensures Step(Step(h, broker, Destroy), broker, Destroy) == Step(h, broker, Destroy)
    ensures !Step(h, broker, Destroy).alive
  {
  }

  /** Once the worker is gone, messages from it are ignored. */
  lemma DeadWorkerIsSilent(h: Host, broker: Option<Broker>, env: Envelope)
    requires !h.alive
    ensures Step(h, broker, FromWorker(env)) == h
  {
  }

  /** The host after a sequence of events. */
  function Run(h: Host, broker: Option<Broker>, events: seq<Event>): Host
    decreases |events|
  {
    if |events| == 0 then h else Run(Step(h, broker, events[0]), broker, events[1..])
  }

  lemma {:induction false} RunPreservesInv(h: Host, broker: Option<Broker>, events: seq<Event>)
    requires Inv(h)
    ensures Inv(Run(h, broker, events))
    decreases |events|
  {
    if |events| > 0 {
      StepPreservesInv(h, broker, events[0]);
      RunPreservesInv(Step(h, broker, events[0]), broker, events[1..]);
    }
  }

  /** One event never unsettles a call, never forgets one and never renames one. */
  lemma StepKeepsSettled(h: Host, broker: Option<Broker>, e: Event, id: nat)
    requires Inv(h) && id in h.calls
    ensures var r := Step(h, broker, e);
      && id in r.calls
      && r.calls[id].command == h.calls[id].command
      && (!h.calls[id].result.Pending? ==> r.calls[id].result == h.calls[id].result)
      && r.nextId >= h.nextId
  {
  }

  /** Exactly-once settlement: whatever happens next, a settled call keeps its outcome. */
  lemma {:induction false} SettlementIsFinal(h: Host, broker: Option<Broker>, events: seq<Event>, id: nat)
    requires Inv(h) && id in h.calls && !h.calls[id].result.Pending?
    ensures var r := Run(h, broker, events);
      id in r.calls && r.calls[id].result == h.calls[id].result && r.calls[id].command == h.calls[id].command
    decreases |events|
  {
    if |events| > 0 {
      StepKeepsSettled(h, broker, events[0], id);
      StepPreservesInv(h, broker, events[0]);
      SettlementIsFinal(Step(h, broker, events[0]), broker, events[1..], id);
    }
  }

  /** Ids are never reused: the counter only grows and every registered id stays below it. */
  lemma {:induction false} IdsNeverReused(h: Host, broker: Option<Broker>, events: seq<Event>)
    requires Inv(h)
    ensures var r := Run(h, broker, events);
      r.nextId >= h.nextId && h.calls.Keys <= r.calls.Keys
      && forall id :: id in r.calls && id !in h.calls ==> h.nextId <= id < r.nextId
    decreases |events|
  {
    if |events| > 0 {
      var h1 := Step(h, broker, events[0]);
      StepPreservesInv(h, broker, events[0]);
      StepTakesIdsInOrder(h, broker, events[0]);
      IdsNeverReused(h1, broker, events[1..]);
    }
  }

  /** One step keeps every call and registers new ones only under ids taken from the counter. */
  lemma StepTakesIdsInOrder(h: Host, broker: Option<Broker>, e: Event)
    requires Inv(h)
    ensures var r := Step(h, broker, e);
      r.nextId >= h.nextId && h.calls.Keys <= r.calls.Keys
      && forall id :: id in r.calls && id !in h.calls ==> h.nextId <= id < r.nextId
  {
    match e
    case FromWorker(env) =>
      if h.alive {
        assert Step(h, broker, e).calls.Keys == h.calls.Keys;
      }
    case _ =>
  }
}
