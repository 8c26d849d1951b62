/**
 * The worker side of the sync worker: the script wrapper that
 * src/utils/createSyncWorker.js (lines 16-98) builds around a plug-in. It
 * posts `'ready'` on start, dispatches host calls through a table of six
 * routes with `undefined`-returning stubs, numbers its own `_post` calls from
 * `_uid` and settles each through `_message_routes` on the matching reply.
 *
 * The plug-in's code is not evaluated: `defined` says which route names the
 * script declares, a running route finishes through the `RouteSettles` event,
 * and the script's own `_post` calls (its `fetch`) are `ScriptPost` events.
 */
module SyncWorker {
  import opened JsValue
  import opened Promises
  import opened Envelopes

  /** The keys of `_hotlist_routes`. */
  const RouteNames: set<string> :=
    {"getId", "getName", "getProps", "insertTodo", "updateTodo", "deleteTodo"}

  /** What `_hotlist_routes[command]` holds. */
  datatype Route = NoRoute | Stub | ScriptRoute

  function RouteOf(defined: set<string>, command: string): (r: Route)
    ensures r == NoRoute <==> command !in RouteNames
    ensures r == ScriptRoute <==> command in RouteNames && command in defined
  {
    if command !in RouteNames then NoRoute
    else if command in defined then ScriptRoute
    else Stub
  }

  /** One `_post` call of the script and the state of the promise it returned. */
  datatype PostRecord = PostRecord(command: string, args: seq<Value>, result: Promise<Value, Value>)

  datatype Worker = Worker(
    uid: nat,                       // `_uid`
    routes: set<nat>,               // the keys of `_message_routes`
    posts: map<nat, PostRecord>,    // every `_post` call, by id
    defined: set<string>,           // the route names the plug-in declares
    running: multiset<nat>,         // host call ids whose script route has not finished
    sent: seq<Envelope>)            // everything posted to the host, in order

  datatype Event =
    | FromHost(env: Envelope)
    | ScriptPost(command: string, args: seq<Value>)
    | RouteSettles(id: nat, outcome: Completion)

  /** A freshly started worker has posted the ready sentinel and nothing else. */
  function Start(defined: set<string>): (w: Worker)
    ensures Inv(w) && w.sent == [Ready] && w.routes == {} && w.running == multiset{}
  {
    Worker(1, {}, map[], defined, multiset{}, [Ready])
  }

  predicate Inv(w: Worker) {
    && w.uid >= 1
    && (forall id :: id in w.posts ==> 1 <= id < w.uid)
    && (forall id :: id in w.routes ==> id in w.posts && w.posts[id].result.Pending?)
    && (forall id :: id in w.posts && w.posts[id].result.Pending? ==> id in w.routes)
  }

  /**
   * What `_handleMessage` posts once the awaited route settles: the result,
   * or, when the route threw, an error reply followed by a second reply
   * without error or result.
   */
  function Replies(id: nat, outcome: Completion): (r: seq<Envelope>)
    ensures 1 <= |r| <= 2
    ensures forall i :: 0 <= i < |r| ==> r[i].Reply? && r[i].id == id
    ensures outcome.Returned? ==> r == [Reply(id, Undefined, outcome.value)]
    ensures outcome.Threw? ==> r == [Reply(id, outcome.error, Undefined), Reply(id, Undefined, Undefined)]
  {
    match outcome
    case Returned(v) => [Reply(id, Undefined, v)]
    case Threw(e) => [Reply(id, e, Undefined), Reply(id, Undefined, Undefined)]
  }

  /** `_handleMessage`: call the route for `command`; calling a missing route throws. */
  function Dispatch(w: Worker, id: nat, command: string): Worker {
    match RouteOf(w.defined, command)
    case NoRoute => w.(sent := w.sent + Replies(id, Threw(NotAFunction)))
    case Stub => w.(sent := w.sent + Replies(id, Returned(Undefined)))
    case ScriptRoute => w.(running := w.running + multiset{id})
  }

  /** `_handleReply`: run and delete the route of a known id; ignore any other id. */
  function HandleReply(w: Worker, id: nat, err: Value, res: Value): Worker {
    if id !in w.routes || id !in w.posts then w
    else
      var rec := w.posts[id];
      w.(routes := w.routes - {id},
         posts := w.posts[id := rec.(result := if Truthy(err) then rec.result.Reject(err)
                                               else rec.result.Resolve(res))])
  }

  /** `_post(cmd, ...args)`: register a route under a fresh id and send the call. */
  function Post(w: Worker, command: string, args: seq<Value>): Worker {
    var id := w.uid;
    w.(uid := id + 1,
       routes := w.routes + {id},
       posts := w.posts[id := PostRecord(command, args, Pending)],
       sent := w.sent + [Message(id, command, args)])
  }

  function Step(w: Worker, e: Event): Worker {
    match e
    case FromHost(Message(id, command, _)) => Dispatch(w, id, command)
    case FromHost(Reply(id, err, res)) => HandleReply(w, id, err, res)
    case FromHost(Ready) => w
    case ScriptPost(command, args) => Post(w, command, args)
    case RouteSettles(id, outcome) =>
      if id in w.running then w.(running := w.running - multiset{id}, sent := w.sent + Replies(id, outcome))
      else w
  }

  lemma StepPreservesInv(w: Worker, e: Event)
    requires Inv(w)
    ensures Inv(Step(w, e))
  {
  }

  /** `_post` ids are fresh and the call is sent with the id its route is stored under. */
  lemma PostTakesFreshId(w: Worker, command: string, args: seq<Value>)
    requires Inv(w)
    ensures var r := Step(w, ScriptPost(command, args));
      && w.uid !in w.posts && w.uid !in w.routes
      && r.uid == w.uid + 1
      && r.routes == w.routes + {w.uid}
      && r.posts[w.uid] == PostRecord(command, args, Pending)
      && r.sent == w.sent + [Message(w.uid, command, args)]
  {
  }

  /** A known reply fires its route once and deletes it; a repeat of it changes nothing. */
  lemma ReplyFiresRouteOnce(w: Worker, id: nat, err: Value, res: Value)
    requires Inv(w) && id in w.routes
    ensures var r := Step(w, FromHost(Reply(id, err, res)));
      && id !in r.routes
      && r.posts[id].result == (if Truthy(err) then Rejected(err) else Fulfilled(res))
      && (forall other :: other in w.posts && other != id ==> other in r.posts && r.posts[other] == w.posts[other])
      && r.sent == w.sent
      && Step(r, FromHost(Reply(id, err, res))) == r
  {
  }

  /** A reply whose id has no route is ignored. */
  lemma UnknownReplyIgnored(w: Worker, id: nat, err: Value, res: Value)
    requires id !in w.routes
    ensures Step(w, FromHost(Reply(id, err, res))) == w
  {
  }

  /** A route the plug-in leaves out answers with `undefined` right away. */
  lemma StubAnswersUndefined(w: Worker, id: nat, command: string, args: seq<Value>)
    requires command in RouteNames && command !in w.defined
    ensures Step(w, FromHost(Message(id, command, args))).sent == w.sent + [Reply(id, Undefined, Undefined)]
  {
  }

  /** A command outside the route table throws inside dispatch and so is answered twice. */
  lemma UnknownCommandAnsweredTwice(w: Worker, id: nat, command: string, args: seq<Value>)
    requires command !in RouteNames
    ensures Step(w, FromHost(Message(id, command, args))).sent
            == w.sent + [Reply(id, NotAFunction, Undefined), Reply(id, Undefined, Undefined)]
  {
  }

  /** A throwing plug-in route is answered with an error reply and then a second, empty reply. */
  lemma ThrowingRouteAnsweredTwice(w: Worker, id: nat, e: Value)
    requires id in w.running
    ensures var r := Step(w, RouteSettles(id, Threw(e)));
      r.sent == w.sent + [Reply(id, e, Undefined), Reply(id, Undefined, Undefined)]
      && r.running == w.running - multiset{id}
  {
  }
}
