/**
 * The messages exchanged between the host page and the sync worker over
 * `postMessage`: the one-time `'ready'` sentinel, calls
 * `['message', id, command, ...args]` and replies `['reply', id, err, res]`.
 */
module Envelopes {
  import opened JsValue

  datatype Envelope =
    | Ready
    | Message(id: nat, command: string, args: seq<Value>)
    | Reply(id: nat, err: Value, res: Value)
}
