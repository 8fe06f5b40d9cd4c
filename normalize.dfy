/**
 * Normalisation of one archived envelope into the canonical record that the
 * migration stores (`parseMessage` in src/migrate.ts).
 *
 * Two different rules read the payload: the record's type and its media flag
 * come from the FIRST key of the payload, while its text comes from a priority
 * chain of key-membership tests over ALL keys. When a payload holds several
 * keys the two may describe different kinds; the model keeps that.
 */
module Normalize {
  import opened JsValues
  import opened Envelopes

  /** The canonical record: one row of the structured store. */
  datatype Record = Record(
    messageId: string,
    timestamp: int,        // milliseconds since the epoch, already shifted by -3 hours
    chatId: string,
    fromMe: Option<bool>,  // copied verbatim from the envelope's key
    messageType: string,
    text: JsValue,         // `undefined` when the kind yields no text
    hasMedia: bool)

  /** The kinds whose presence as the first key marks a message as carrying media. */
  const MediaKinds: seq<string> :=
    ["imageMessage", "videoMessage", "audioMessage", "documentMessage", "stickerMessage"]

  /** `Object.keys(message)[0] || 'unknown'` */
  function KindOrUnknown(e: Envelope): (kind: string)
    ensures kind != ""
    ensures kind == "unknown" || (|Payload(e)| > 0 && Payload(e)[0].key == kind)
    ensures |Payload(e)| > 0 && Payload(e)[0].key != "" ==> kind == Payload(e)[0].key
  {
    match ContentKind(e)
    case None => "unknown"
    case Some(k) => k
  }

  /**
   * The `let text` chain: membership tests in a fixed priority order. The
   * labels it builds are never empty, so a falsy text can only be one copied
   * from a conversation or extended-text payload, or no text at all.
   */
  function DispatchText(m: seq<Member>): (text: JsValue)
    ensures text == Undefined || Truthy(text) || Has(m, "conversation") || Has(m, "extendedTextMessage")
  {
    if Has(m, "conversation") then Lookup(m, "conversation")
    else if Has(m, "extendedTextMessage") then Get(Lookup(m, "extendedTextMessage"), "text")
    else if Has(m, "imageMessage") then
      Str("[imagem] " + ToStr(Or(Get(Lookup(m, "imageMessage"), "caption"), Str(""))))
    else if Has(m, "videoMessage") then
      Str("[video] " + ToStr(Or(Get(Lookup(m, "videoMessage"), "caption"), Str(""))))
    else if Has(m, "audioMessage") then Str("[audio]")
    else if Has(m, "documentMessage") then
      Str("[document] " + ToStr(Get(Lookup(m, "documentMessage"), "fileName")))
    else Undefined
  }

  /** The `let caption` that the image and video branches set; `undefined` elsewhere. */
  function DispatchCaption(m: seq<Member>): (caption: JsValue)
    ensures caption != Undefined ==>
      !Has(m, "conversation") && !Has(m, "extendedTextMessage") &&
      (Has(m, "imageMessage") || Has(m, "videoMessage"))
  {
    if Has(m, "conversation") || Has(m, "extendedTextMessage") then Undefined
    else if Has(m, "imageMessage") then Get(Lookup(m, "imageMessage"), "caption")
    else if Has(m, "videoMessage") then Get(Lookup(m, "videoMessage"), "caption")
    else Undefined
  }

  /** `parseMessage(chatId, messageData)` */
  function ParseMessage(chatId: string, e: Envelope): (r: Record)
    ensures r.chatId == chatId && r.fromMe == e.key.fromMe
    ensures r.text == Undefined || Truthy(r.text)
    ensures r.hasMedia ==> KindOrUnknown(e) != "unknown"
  {
    var kind := KindOrUnknown(e);
    Record(
      messageId := if e.key.id.Some? then e.key.id.value else "",
      // seconds to milliseconds, then the fixed `setHours(getHours() - 3)` correction
      timestamp := e.messageTimestamp * 1000 - 10_800_000,
      chatId := chatId,
      fromMe := e.key.fromMe,
      messageType := ReplaceFirst(kind, "Message", ""),
      text := Or(DispatchText(Payload(e)), DispatchCaption(Payload(e))),
      hasMedia := kind in MediaKinds)
  }

  // ---------------------------------------------------------------------------
  // The type

  /** An envelope whose payload is empty or absent is of type "unknown", without media. */
  lemma TypeOfEmptyPayload(chatId: string, e: Envelope)
    requires Payload(e) == []
    ensures ParseMessage(chatId, e).messageType == "unknown"
    ensures !ParseMessage(chatId, e).hasMedia
    ensures ParseMessage(chatId, e).text == Undefined
  {
    NoCapitalM("unknown");
  }

  /**
   * A first key `k + "Message"` gives type `k` as long as `k` itself does not
   * contain "Message": `imageMessage` gives `image`, `stickerMessage` gives `sticker`.
   */
  lemma {:induction false} TypeStripsMessage(chatId: string, e: Envelope, k: string)
    requires |Payload(e)| > 0 && Payload(e)[0].key == k + "Message"
    requires !Contains(k, "Message")
    ensures ParseMessage(chatId, e).messageType == k
  {
    var s := k + "Message";
    assert OccursAt(s, "Message", |k|);
    forall j | 0 <= j < |k|
      ensures !OccursAt(s, "Message", j)
    {
      if j + 7 <= |k| {
        assert s[j..j + 7] == k[j..j + 7];
        assert !OccursAt(k, "Message", j);
      } else {
        assert s[|k|] == 'M';
        assert s[j..j + 7][|k| - j] == s[|k|];
        assert "Message"[|k| - j] != 'M';
      }
    }
    assert IndexOf(s, "Message") == |k|;
    assert s[..|k|] == k && s[|k| + 7..] == [];
  }

  /** A name without a capital M cannot contain "Message". */
  lemma NoCapitalM(k: string)
    requires 'M' !in k
    ensures !Contains(k, "Message")
  {
    forall j | 0 <= j
      ensures !OccursAt(k, "Message", j)
    {
      if j + 7 <= |k| {
        assert k[j..j + 7][0] == k[j];
      }
    }
  }

  /** A first key without "Message" in it is the type as it stands (`conversation`). */
  lemma TypeKeepsPlainKey(chatId: string, e: Envelope)
    requires |Payload(e)| > 0 && Payload(e)[0].key != ""
    requires !Contains(Payload(e)[0].key, "Message")
    ensures ParseMessage(chatId, e).messageType == Payload(e)[0].key
  {
  }

  /** Only the first "Message" is removed: `MessageMessage` gives `Message`. */
  lemma TypeRemovesFirstOccurrenceOnly(chatId: string, e: Envelope)
    requires |Payload(e)| > 0 && Payload(e)[0].key == "MessageMessage"
    ensures ParseMessage(chatId, e).messageType == "Message"
  {
    assert OccursAt("MessageMessage", "Message", 0);
  }

  // ---------------------------------------------------------------------------
  // The media flag

  /** hasMedia holds exactly when the first key is one of the five media kinds. */
  lemma HasMediaIffMediaKind(chatId: string, e: Envelope)
    ensures ParseMessage(chatId, e).hasMedia <==>
      |Payload(e)| > 0 && Payload(e)[0].key in MediaKinds
  {
  }

  /** A record that carries media is of type image, video, audio, document or sticker. */
  lemma MediaTypes(chatId: string, e: Envelope)
    ensures ParseMessage(chatId, e).hasMedia ==>
      ParseMessage(chatId, e).messageType in ["image", "video", "audio", "document", "sticker"]
  {
    if ParseMessage(chatId, e).hasMedia {
      HasMediaIffMediaKind(chatId, e);
      var key := Payload(e)[0].key;
      MediaKindName(key);
      StripsPlainKind(chatId, e, key[..|key| - 7]);
    }
  }

  /** Each media kind is a name without a capital M followed by "Message". */
  lemma MediaKindName(key: string)
    requires key in MediaKinds
    ensures |key| > 7 && key == key[..|key| - 7] + "Message" && 'M' !in key[..|key| - 7]
    ensures key[..|key| - 7] in ["image", "video", "audio", "document", "sticker"]
  {
    if key == "imageMessage" {
      assert key[..5] == "image";
    } else if key == "videoMessage" {
      assert key[..5] == "video";
    } else if key == "audioMessage" {
      assert key[..5] == "audio";
    } else if key == "documentMessage" {
      assert key[..8] == "document";
    } else {
      assert key[..7] == "sticker";
    }
    PlainKindName(key[..|key| - 7]);
  }

  /** None of the five plain kind names contains a capital M. */
  lemma PlainKindName(k: string)
    requires k in ["image", "video", "audio", "document", "sticker"]
    ensures 'M' !in k
  {
  }

  /** `TypeStripsMessage` for a kind name without a capital M. */
  lemma StripsPlainKind(chatId: string, e: Envelope, k: string)
    requires 'M' !in k && |Payload(e)| > 0 && Payload(e)[0].key == k + "Message"
    ensures ParseMessage(chatId, e).messageType == k
  {
    NoCapitalM(k);
    TypeStripsMessage(chatId, e, k);
  }

  /** The converse fails: a first key named just `image` has type image but no media. */
  lemma MediaTypeWithoutMedia(chatId: string, e: Envelope)
    requires |Payload(e)| > 0 && Payload(e)[0].key == "image"
    ensures ParseMessage(chatId, e).messageType == "image"
    ensures !ParseMessage(chatId, e).hasMedia
  {
    NoCapitalM("image");
  }

  // ---------------------------------------------------------------------------
  // The text

  /** A non-empty plain conversation text is the record's text. */
  lemma TextOfConversation(chatId: string, e: Envelope, s: string)
    requires Has(Payload(e), "conversation") && Field(e, "conversation") == Str(s) && s != ""
    ensures ParseMessage(chatId, e).text == Str(s)
  {
  }

  /** An empty conversation text comes out as `undefined` (`text || caption`). */
  lemma TextOfEmptyConversation(chatId: string, e: Envelope)
    requires Has(Payload(e), "conversation") && Field(e, "conversation") == Str("")
    ensures ParseMessage(chatId, e).text == Undefined
  {
  }

  /** Extended text: the `text` field of the `extendedTextMessage` object, when truthy. */
  lemma TextOfExtendedText(chatId: string, e: Envelope)
    requires !Has(Payload(e), "conversation") && Has(Payload(e), "extendedTextMessage")
    ensures ParseMessage(chatId, e).text ==
      if Truthy(Get(Field(e, "extendedTextMessage"), "text"))
      then Get(Field(e, "extendedTextMessage"), "text") else Undefined
  {
  }

  /** Image: "[imagem] " followed by the caption, or by nothing when the caption is falsy. */
  lemma TextOfImage(chatId: string, e: Envelope)
    requires !Has(Payload(e), "conversation") && !Has(Payload(e), "extendedTextMessage")
    requires Has(Payload(e), "imageMessage")
    ensures forall c :: Get(Field(e, "imageMessage"), "caption") == Str(c) ==>
      ParseMessage(chatId, e).text == Str("[imagem] " + c)
    ensures !Truthy(Get(Field(e, "imageMessage"), "caption")) ==>
      ParseMessage(chatId, e).text == Str("[imagem] ")
  {
  }

  /** Video: "[video] " followed by the caption, or by nothing when the caption is falsy. */
  lemma TextOfVideo(chatId: string, e: Envelope)
    requires !Has(Payload(e), "conversation") && !Has(Payload(e), "extendedTextMessage")
    requires !Has(Payload(e), "imageMessage") && Has(Payload(e), "videoMessage")
    ensures forall c :: Get(Field(e, "videoMessage"), "caption") == Str(c) ==>
      ParseMessage(chatId, e).text == Str("[video] " + c)
    ensures !Truthy(Get(Field(e, "videoMessage"), "caption")) ==>
      ParseMessage(chatId, e).text == Str("[video] ")
  {
  }

  /** Audio: the literal "[audio]", whatever the audio object holds. */
  lemma TextOfAudio(chatId: string, e: Envelope)
    requires !Has(Payload(e), "conversation") && !Has(Payload(e), "extendedTextMessage")
    requires !Has(Payload(e), "imageMessage") && !Has(Payload(e), "videoMessage")
    requires Has(Payload(e), "audioMessage")
    ensures ParseMessage(chatId, e).text == Str("[audio]")
  {
  }

  /** Document: "[document] " + fileName; a missing file name reads "[document] undefined". */
  lemma TextOfDocument(chatId: string, e: Envelope)
    requires !Has(Payload(e), "conversation") && !Has(Payload(e), "extendedTextMessage")
    requires !Has(Payload(e), "imageMessage") && !Has(Payload(e), "videoMessage")
    requires !Has(Payload(e), "audioMessage") && Has(Payload(e), "documentMessage")
    ensures Get(Field(e, "documentMessage"), "fileName") == Undefined ==>
      ParseMessage(chatId, e).text == Str("[document] undefined")
    ensures forall f :: Get(Field(e, "documentMessage"), "fileName") == Str(f) ==>
      ParseMessage(chatId, e).text == Str("[document] " + f)
  {
    DocumentShown(chatId, e);
    DocumentLabel(ParseMessage(chatId, e).text, Get(Field(e, "documentMessage"), "fileName"));
  }

  /** "[document] " + fileName reads "[document] undefined" without a name, the name itself with one. */
  lemma DocumentLabel(text: JsValue, fileName: JsValue)
    requires text == Str("[document] " + ToStr(fileName))
    ensures fileName == Undefined ==> text == Str("[document] undefined")
    ensures forall f :: fileName == Str(f) ==> text == Str("[document] " + f)
  {
  }

  /** The document branch's text, "[document] " followed by the file name as JavaScript prints it. */
  lemma DocumentShown(chatId: string, e: Envelope)
    requires !Has(Payload(e), "conversation") && !Has(Payload(e), "extendedTextMessage")
    requires !Has(Payload(e), "imageMessage") && !Has(Payload(e), "videoMessage")
    requires !Has(Payload(e), "audioMessage") && Has(Payload(e), "documentMessage")
    ensures ParseMessage(chatId, e).text ==
      Str("[document] " + ToStr(Get(Field(e, "documentMessage"), "fileName")))
  {
    var shown := "[document] " + ToStr(Get(Field(e, "documentMessage"), "fileName"));
    DispatchDocument(Payload(e));
    assert shown[0] == '[';
  }

  /** The dispatch chain on a payload whose first present kind is a document. */
  lemma DispatchDocument(m: seq<Member>)
    requires !Has(m, "conversation") && !Has(m, "extendedTextMessage")
    requires !Has(m, "imageMessage") && !Has(m, "videoMessage")
    requires !Has(m, "audioMessage") && Has(m, "documentMessage")
    ensures DispatchText(m) == Str("[document] " + ToStr(Get(Lookup(m, "documentMessage"), "fileName")))
    ensures DispatchCaption(m) == Undefined
  {
  }

  /** Any other kind (sticker, reaction, ...) has no text. */
  lemma TextOfOtherKinds(chatId: string, e: Envelope)
    requires forall k :: (k in ["conversation", "extendedTextMessage", "imageMessage",
      "videoMessage", "audioMessage", "documentMessage"]) ==> !Has(Payload(e), k)
    ensures ParseMessage(chatId, e).text == Undefined
  {
  }

  /**
   * Type and text can describe different kinds: an image first and a
   * conversation second give type "image", media, and the conversation's text.
   */
  lemma TypeAndTextDisagree(chatId: string, e: Envelope, image: JsValue, s: string)
    requires Payload(e) == [Member("imageMessage", image), Member("conversation", Str(s))]
    requires s != ""
    ensures ParseMessage(chatId, e).messageType == "image"
    ensures ParseMessage(chatId, e).hasMedia
    ensures ParseMessage(chatId, e).text == Str(s)
  {
    assert Payload(e)[1].key == "conversation";
    assert Lookup(Payload(e), "conversation") == Lookup(Payload(e)[1..], "conversation");
    NoCapitalM("image");
    TypeStripsMessage(chatId, e, "image");
  }

  /** The text of a payload holding only a document with a file name. */
  lemma SingleDocumentText(chatId: string, e: Envelope, doc: JsValue, name: string)
    requires Payload(e) == [Member("documentMessage", doc)]
    requires Get(doc, "fileName") == Str(name)
    ensures ParseMessage(chatId, e).text == Str("[document] " + name)
  {
    var p := Payload(e);
    assert p[0].key == "documentMessage";
    assert !Has(p, "conversation") && !Has(p, "extendedTextMessage");
    assert !Has(p, "imageMessage") && !Has(p, "videoMessage") && !Has(p, "audioMessage");
    TextOfDocument(chatId, e);
  }

  /**
   * A payload holding only a document, such as `{documentMessage: {fileName:
   * "report.pdf"}}`, gives type "document", media, and "[document] report.pdf".
   */
  lemma SingleDocument(chatId: string, e: Envelope, doc: JsValue, name: string)
    requires Payload(e) == [Member("documentMessage", doc)]
    requires Get(doc, "fileName") == Str(name)
    ensures ParseMessage(chatId, e).messageType == "document"
    ensures ParseMessage(chatId, e).text == Str("[document] " + name)
    ensures ParseMessage(chatId, e).hasMedia
  {
    SingleDocumentText(chatId, e, doc, name);
    SingleDocumentKind(chatId, e, doc);
  }

  /** The type and media flag of a payload holding only a document. */
  lemma SingleDocumentKind(chatId: string, e: Envelope, doc: JsValue)
    requires Payload(e) == [Member("documentMessage", doc)]
    ensures ParseMessage(chatId, e).messageType == "document"
    ensures ParseMessage(chatId, e).hasMedia
  {
    assert Payload(e)[0].key == "document" + "Message";
    NoCapitalM("document");
    TypeStripsMessage(chatId, e, "document");
    HasMediaIffMediaKind(chatId, e);
  }

  // ---------------------------------------------------------------------------
  // Identifier and timestamp

  /** messageId is `key.id`, or "" when the id is absent; chatId is the folder name. */
  lemma IdentityFields(chatId: string, e: Envelope)
    ensures e.key.id.Some? ==> ParseMessage(chatId, e).messageId == e.key.id.value
    ensures e.key.id.None? ==> ParseMessage(chatId, e).messageId == ""
    ensures ParseMessage(chatId, e).chatId == chatId
  {
  }

  /** The stored timestamp is exactly three hours before the envelope's epoch instant. */
  lemma TimestampThreeHoursEarlier(chatId: string, e: Envelope)
    ensures ParseMessage(chatId, e).timestamp + 10_800_000 == e.messageTimestamp * 1000
  {
  }

  /** The correction is the same for every message, so it keeps their order and distances. */
  lemma TimestampKeepsDistances(chatId1: string, e1: Envelope, chatId2: string, e2: Envelope)
    ensures ParseMessage(chatId2, e2).timestamp - ParseMessage(chatId1, e1).timestamp
      == (e2.messageTimestamp - e1.messageTimestamp) * 1000
  {
  }
}
