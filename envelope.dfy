/**
 * The raw message envelope as the messaging protocol delivers it and as the
 * archiver stores it, and the content of an archived file.
 *
 * JSON text is not modelled character by character: a file holds either the
 * serialised form of one envelope, a serialised list of chats, a media blob,
 * or text that does not decode to an envelope. `Encode` stands for
 * `JSON.stringify(message, null, 2)` and `Decode` for `JSON.parse` followed by
 * the property reads that throw when the result is not envelope-shaped.
 */
module Envelopes {
  import opened JsValues

  /** `message.key`: identifier, conversation identifier and the "sent by self" flag. */
  datatype MessageKey = MessageKey(id: Option<string>, remoteJid: Option<string>, fromMe: Option<bool>)

  /**
   * One protocol message. `message` is the content payload, an object whose
   * first key names the content kind (`conversation`, `imageMessage`, ...);
   * None when the payload is absent or null. `messageTimestamp` is in seconds.
   */
  datatype Envelope = Envelope(key: MessageKey, message: Option<seq<Member>>, messageTimestamp: int)

  /** The content of one archived file. */
  datatype Content =
    | Serialized(envelope: Envelope)
    | ChatList(chats: seq<JsValue>)
    | Blob(bytes: seq<bv8>)
    | Malformed(text: string)

  /** `JSON.stringify(message)` */
  function Encode(e: Envelope): Content
  {
    Serialized(e)
  }

  /** `JSON.parse(content)` read as an envelope; None where parsing or the `key` read throws. */
  function Decode(c: Content): Option<Envelope>
  {
    if c.Serialized? then Some(c.envelope) else None
  }

  lemma DecodeEncode(e: Envelope)
    ensures Decode(Encode(e)) == Some(e)
  {
  }

  lemma EncodeInjective(e1: Envelope, e2: Envelope)
    ensures Encode(e1) == Encode(e2) ==> e1 == e2
  {
  }

  /** `message.message || {}`: the payload's own properties, empty when it is absent. */
  function Payload(e: Envelope): seq<Member>
  {
    if e.message.Some? then e.message.value else []
  }

  /** `message.message?.<kind>`: the payload property of that kind, `undefined` when absent. */
  function Field(e: Envelope, kind: string): JsValue
  {
    Lookup(Payload(e), kind)
  }

  /** `Object.keys(message.message || {})[0]` as a JavaScript value is truthy. */
  function ContentKind(e: Envelope): (k: Option<string>)
    ensures k.Some? ==> k.value != "" && |Payload(e)| > 0 && Payload(e)[0].key == k.value
    ensures k.None? ==> |Payload(e)| == 0 || Payload(e)[0].key == ""
  {
    match FirstKey(Payload(e))
    case None => None
    case Some(key) => if key == "" then None else Some(key)
  }

  /** The template-literal rendering `${message.key.id}` used in file names. */
  function IdText(e: Envelope): string
  {
    if e.key.id.Some? then e.key.id.value else "undefined"
  }
}
