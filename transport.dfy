/**
 * The messages exchanged over the local socket between the editor extension
 * and the browser agent, as JSON objects (`OSManager.sendMessage` in
 * flowtabs/src/os/OSManager.ts and the `onmessage` handler in
 * extension-chrome/background.js), and the guard both sides put in front of a
 * send.
 */
module Transport {
  import opened JsValues

  /** A JSON field value. */
  datatype Field = Text(s: string) | Number(n: int)

  /** A parsed JSON object. */
  type WireObject = map<string, Field>

  /** `WebSocket.readyState`. */
  datatype ReadyState = Connecting | Open | Closing | Closed

  /** A value as `JSON.stringify` writes it: an undefined field is left out. */
  function FieldOf(v: Key): (r: Option<Field>)
    ensures r.None? <==> v.Undefined?
  {
    match v
    case Undefined => None
    case Num(n) => Some(Number(n))
    case Str(s) => Some(Text(s))
  }

  /** `{ action, ...payload }` for a payload with one field `name`: the field
      follows `action` and so overrides it if it has the same name. */
  function Encode(action: string, name: string, value: Key): (m: WireObject)
    ensures name != "action" ==> "action" in m && m["action"] == Text(action)
    ensures name in m <==> !value.Undefined?
    ensures name in m ==> Some(m[name]) == FieldOf(value)
    ensures forall k :: k in m ==> k == "action" || k == name
  {
    var base := map["action" := Text(action)];
    match FieldOf(value)
    case None => if name == "action" then map[] else base
    case Some(f) => base[name := f]
  }

  /** A send goes out only on a socket that exists and is open; otherwise it is
      dropped, with nothing queued. */
  predicate Transmits(socket: Option<ReadyState>) {
    socket == Some(Open)
  }
}
