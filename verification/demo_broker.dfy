/**
 * The demo page's side of the sync worker (demo.js lines 212-239): the
 * source transform that gives a plug-in a `fetch` forwarding to the host, and
 * the host's `onSyncMessage` broker that answers only `fetch`.
 *
 * The network and `JSON.parse` are not modelled: `Fetcher` says what a
 * request with the given arguments ends in and `JsonParser` what parsing a
 * text gives (`None` when it throws).
 */
module DemoBroker {
  import opened Wrappers
  import opened JsValue
  import opened Promises
  import opened Envelopes
  import Text
  import SyncHost
  import SyncWorker
  import SyncChannel

  /** The line the transform puts in front of a plug-in's source. */
  const FetchBinding: string := "const fetch = (url, options) => _post('fetch', url, options);"

  /** The whole text in front of the plug-in's source, whitespace included. */
  const FetchShim: string := ShimLead + FetchBinding + "\n            "

  const ShimLead: string := "\n            // fetch API replacement so we can fetch with Tauri\n            "

  /** `transformSyncSrc`: the plug-in source, unchanged, after a `fetch` binding. */
  function TransformSyncSrc(src: string): (r: string)
    ensures |r| == |FetchShim| + |src| && r[|FetchShim|..] == src
    ensures Text.Contains(r, FetchBinding)
  {
    var r := FetchShim + src;
    assert r[|ShimLead|..|ShimLead| + |FetchBinding|] == FetchBinding;
    Text.ContainsAt(r, |ShimLead|, FetchBinding);
    r
  }

  /** What `res.text()` ends in. */
  datatype Body = BodyText(text: string) | BodyFailure(reason: Value)

  /** What `fetch(...args)` ends in. */
  datatype FetchOutcome =
    | NetworkFailure(reason: Value)
    | Response(ok: bool, status: int, statusText: string, body: Body)

  type Fetcher = seq<Value> -> FetchOutcome
  type JsonParser = string -> Option<Value>

  /** The object the broker resolves a completed request with. */
  function ResponseObject(text: string, json: Option<Value>, ok: bool, status: int, statusText: string): (r: Value)
    ensures Get(r, "text") == Success(Str(text))
    ensures Get(r, "json") == Success(json.GetOr(Undefined))
    ensures Get(r, "ok") == Success(Bool(ok))
    ensures Get(r, "status") == Success(Num(status))
    ensures Get(r, "statusText") == Success(Str(statusText))
  {
    Obj(map["text" := Str(text), "json" := json.GetOr(Undefined), "ok" := Bool(ok),
            "status" := Num(status), "statusText" := Str(statusText)])
  }

  /**
   * `onSyncMessage(command, ...args)`. Another command rejects the promise at
   * once; the request is still issued, but its outcome cannot change a settled
   * promise. A body that fails to read leaves the promise pending, because
   * that rejection is not passed on.
   */
  function OnSyncMessage(fetch: Fetcher, parse: JsonParser, command: string, args: seq<Value>): (r: Promise<Value, Value>)
    ensures command != "fetch" ==> r == Rejected(Str("Invalid command"))
    ensures command == "fetch" && fetch(args).NetworkFailure? ==> r == Rejected(fetch(args).reason)
    ensures command == "fetch" && fetch(args).Response? && fetch(args).body.BodyFailure? ==> r.Pending?
    ensures command == "fetch" && fetch(args).Response? && fetch(args).body.BodyText? ==>
      var res := fetch(args);
      r == Fulfilled(ResponseObject(res.body.text, parse(res.body.text), res.ok, res.status, res.statusText))
    ensures r.Fulfilled? ==> command == "fetch" && fetch(args).Response? && fetch(args).body.BodyText?
  {
    var p: Promise<Value, Value> := if command != "fetch" then Pending.Reject(Str("Invalid command")) else Pending;
    match fetch(args)
    case NetworkFailure(e) => p.Reject(e)
    case Response(ok, status, statusText, BodyFailure(_)) => p
    case Response(ok, status, statusText, BodyText(text)) =>
      p.Resolve(ResponseObject(text, parse(text), ok, status, statusText))
  }

  /** The demo page's `onWorkerMessage`. */
  function Broker(fetch: Fetcher, parse: JsonParser): SyncHost.Broker {
    (command: string, args: seq<Value>) => OnSyncMessage(fetch, parse, command, args)
  }

  /** What the transformed plug-in's `fetch(url, options)` does: a `_post` of `'fetch'`. */
  function ScriptFetch(url: Value, options: Value): (e: SyncWorker.Event)
    ensures e.ScriptPost? && e.command == "fetch" && e.args == [url, options]
  {
    SyncWorker.ScriptPost("fetch", [url, options])
  }

  /**
   * A plug-in `fetch` whose request completes and whose body reads: after the
   * call and its reply have crossed the channel, the plug-in's promise holds
   * the response object, `json` included.
   */
  lemma FetchRoundTrip(c: SyncChannel.Channel, fetch: Fetcher, parse: JsonParser, url: Value, options: Value)
    requires SyncChannel.Running(c) && c.host.brokerListening
    requires fetch([url, options]).Response? && fetch([url, options]).body.BodyText?
    ensures var id := c.worker.uid;
      var b := Some(Broker(fetch, parse));
      var res := fetch([url, options]);
      var r := SyncChannel.Step(SyncChannel.Step(SyncChannel.Step(c, b,
                 SyncChannel.AtWorker(ScriptFetch(url, options))), b, SyncChannel.DeliverToHost), b, SyncChannel.DeliverToWorker);
      && id in r.worker.posts
      && r.worker.posts[id].result
         == Fulfilled(ResponseObject(res.body.text, parse(res.body.text), res.ok, res.status, res.statusText))
  {
    var broker := Broker(fetch, parse);
    SyncChannel.BrokeredCallRoundTrip(c, broker, "fetch", [url, options]);
  }

  /** A plug-in `fetch` that fails on the network rejects the plug-in's promise with the failure. */
  lemma FetchFailureRoundTrip(c: SyncChannel.Channel, fetch: Fetcher, parse: JsonParser, url: Value, options: Value)
    requires SyncChannel.Running(c) && c.host.brokerListening
    requires fetch([url, options]).NetworkFailure? && Truthy(fetch([url, options]).reason)
    ensures var id := c.worker.uid;
      var b := Some(Broker(fetch, parse));
      var r := SyncChannel.Step(SyncChannel.Step(SyncChannel.Step(c, b,
                 SyncChannel.AtWorker(ScriptFetch(url, options))), b, SyncChannel.DeliverToHost), b, SyncChannel.DeliverToWorker);
      && id in r.worker.posts
      && r.worker.posts[id].result == Rejected(fetch([url, options]).reason)
  {
    var broker := Broker(fetch, parse);
    SyncChannel.BrokeredCallRoundTrip(c, broker, "fetch", [url, options]);
  }

  /** Any other command a script posts is refused with `'Invalid command'`, whatever the network does. */
  lemma OtherCommandRefused(c: SyncChannel.Channel, fetch: Fetcher, parse: JsonParser, command: string, args: seq<Value>)
    requires SyncChannel.Running(c) && c.host.brokerListening && command != "fetch"
    ensures var id := c.worker.uid;
      var b := Some(Broker(fetch, parse));
      var r := SyncChannel.Step(SyncChannel.Step(SyncChannel.Step(c, b,
                 SyncChannel.AtWorker(SyncWorker.ScriptPost(command, args))), b, SyncChannel.DeliverToHost), b, SyncChannel.DeliverToWorker);
      && id in r.worker.posts
      && r.worker.posts[id].result == Rejected(Str("Invalid command"))
  {
    var broker := Broker(fetch, parse);
    SyncChannel.BrokeredCallRoundTrip(c, broker, command, args);
  }
}
