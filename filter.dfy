/**
 * The pure decisions of the ingestion side (src/extract.ts): which history
 * messages are kept, which media extension a message gets, and whether a
 * closed connection is re-opened.
 */
module Filter {
  import opened JsValues
  import opened Envelopes

  /**
   * The sync configuration. An optional boolean that is absent behaves as
   * `false`, so the two flags are plain booleans; the two lists keep the
   * difference between absent and present-but-empty, which the filter sees.
   */
  datatype SyncConfig = SyncConfig(
    includeMedia: bool,
    includeGroup: bool,
    messageTypes: Option<seq<string>>,
    includeList: Option<seq<string>>)

  /**
   * The configuration as written in the source. At start-up, a readable
   * `includeList.txt` replaces `includeList` with its lines
   * (src/extract.ts:201-206); the empty list below applies only without that file.
   */
  const SourceConfig: SyncConfig := SyncConfig(
    includeMedia := true,
    includeGroup := false,
    messageTypes := Some(["conversation", "imageMessage", "audioMessage", "documentMessage"]),
    includeList := Some([]))

  /** A configuration under which every rule of the filter is switched off. */
  const AllowAll: SyncConfig := SyncConfig(false, true, None, None)

  // ---------------------------------------------------------------------------
  // The history filter

  /** The type rule: with a non-empty `messageTypes`, the first content key must be listed. */
  predicate TypeAllowed(m: Envelope, cfg: SyncConfig)
  {
    cfg.messageTypes.None? || |cfg.messageTypes.value| == 0 ||
    (ContentKind(m).Some? && ContentKind(m).value in cfg.messageTypes.value)
  }

  /** `message.key.remoteJid` is truthy. */
  predicate HasRemoteJid(m: Envelope)
  {
    m.key.remoteJid.Some? && m.key.remoteJid.value != ""
  }

  /** `remoteJid.indexOf("@g") != -1`: a substring test anywhere in the identifier. */
  predicate IsGroupJid(jid: string)
  {
    Contains(jid, "@g")
  }

  /** `remoteJid.split('@')[0]`: the folder name of the chat. */
  function Phone(jid: string): string
  {
    BeforeFirst(jid, '@')
  }

  /** `phone.substring(2)`: the number without its two-character prefix. */
  function LocalNumber(phone: string): string
  {
    SubstringFrom(phone, 2)
  }

  /**
   * The contact rule. Any array is truthy in JavaScript, so a present list,
   * even an empty one, is consulted.
   */
  predicate ContactAllowed(jid: string, cfg: SyncConfig)
  {
    cfg.includeList.None? || LocalNumber(Phone(jid)) in cfg.includeList.value
  }

  /**
   * The chain of `continue`s in the history handler, as one decision: each
   * rule, stated on the envelope itself, must let the message through.
   */
  predicate ShouldKeep(m: Envelope, cfg: SyncConfig)
    ensures ShouldKeep(m, cfg) <==>
      && (cfg.messageTypes.Some? && |cfg.messageTypes.value| > 0 ==>
            |Payload(m)| > 0 && Payload(m)[0].key != "" && Payload(m)[0].key in cfg.messageTypes.value)
      && m.key.remoteJid.Some? && m.key.remoteJid.value != ""
      && (!cfg.includeGroup ==> IndexOf(m.key.remoteJid.value, "@g") == -1)
      && (cfg.includeList.Some? ==> SubstringFrom(BeforeFirst(m.key.remoteJid.value, '@'), 2) in cfg.includeList.value)
  {
    && TypeAllowed(m, cfg)
    && HasRemoteJid(m)
    && (cfg.includeGroup || !IsGroupJid(m.key.remoteJid.value))
    && ContactAllowed(m.key.remoteJid.value, cfg)
  }

  /** A message without a conversation identifier is never kept. */
  lemma NoRemoteJidNeverKept(m: Envelope, cfg: SyncConfig)
    requires m.key.remoteJid.None? || m.key.remoteJid == Some("")
    ensures !ShouldKeep(m, cfg)
  {
  }

  /** With a non-empty type list, a kept message's first content key is in the list. */
  lemma KeptTypeIsListed(m: Envelope, cfg: SyncConfig)
    requires cfg.messageTypes.Some? && |cfg.messageTypes.value| > 0
    requires ShouldKeep(m, cfg)
    ensures |Payload(m)| > 0 && Payload(m)[0].key in cfg.messageTypes.value
  {
  }

  /** Without groups, no kept message has "@g" anywhere in its identifier. */
  lemma KeptIsNotGroup(m: Envelope, cfg: SyncConfig, i: nat)
    requires !cfg.includeGroup && ShouldKeep(m, cfg)
    ensures !OccursAt(m.key.remoteJid.value, "@g", i)
  {
  }

  /**
   * With a contact list, a message that passed the earlier rules is kept
   * exactly when its number without the two-character prefix is listed.
   */
  lemma ContactRule(m: Envelope, cfg: SyncConfig)
    requires cfg.includeList.Some?
    requires TypeAllowed(m, cfg) && HasRemoteJid(m)
    requires cfg.includeGroup || !IsGroupJid(m.key.remoteJid.value)
    ensures ShouldKeep(m, cfg) <==> LocalNumber(Phone(m.key.remoteJid.value)) in cfg.includeList.value
  {
  }

  /** An empty contact list keeps nothing at all. */
  lemma EmptyContactListKeepsNothing(m: Envelope, cfg: SyncConfig)
    requires cfg.includeList == Some([])
    ensures !ShouldKeep(m, cfg)
  {
  }

  /**
   * So the configuration as written discards every history message, as long as
   * no contact file replaces the empty list at start-up.
   */
  lemma SourceConfigKeepsNothing(m: Envelope)
    ensures !ShouldKeep(m, SourceConfig)
  {
    EmptyContactListKeepsNothing(m, SourceConfig);
  }

  /**
   * A contact list holding "" (a blank line of the contact file) admits every
   * identifier whose number has at most two characters: `substring(2)` of it is "".
   */
  lemma BlankContactAdmitsShortNumbers(number: string, domain: string, cfg: SyncConfig)
    requires '@' !in number && |number| <= 2
    requires cfg.includeList.Some? && "" in cfg.includeList.value
    ensures ContactAllowed(number + "@" + domain, cfg)
  {
    PhoneOfJid(number, domain);
  }

  /** The folder of `number@domain` is `number` when the number has no '@'. */
  lemma {:induction false} PhoneOfJid(number: string, domain: string)
    requires '@' !in number
    ensures Phone(number + "@" + domain) == number
    decreases |number|
  {
    if number == [] {
      assert (number + "@" + domain)[0] == '@';
    } else {
      assert (number + "@" + domain)[1..] == number[1..] + "@" + domain;
      PhoneOfJid(number[1..], domain);
    }
  }

  /** `number@domain` is a group identifier only when the domain starts with 'g'. */
  lemma GroupMarkerOfJid(number: string, domain: string)
    requires '@' !in number && '@' !in domain
    ensures IsGroupJid(number + "@" + domain) <==> |domain| > 0 && domain[0] == 'g'
  {
    var jid := number + "@" + domain;
    forall j | 0 <= j && j != |number|
      ensures !OccursAt(jid, "@g", j)
    {
      if j + 2 <= |jid| {
        assert jid[j..j + 2][0] == jid[j];
        if j < |number| {
          assert jid[j] == number[j];
        } else {
          assert jid[j] == domain[j - |number| - 1];
        }
      }
    }
    if |domain| > 0 && domain[0] == 'g' {
      assert jid[|number|..|number| + 2] == "@g";
      ContainsAt(jid, "@g", |number|);
    } else if |domain| > 0 {
      assert jid[|number|..|number| + 2][1] == domain[0];
    }
  }

  /**
   * The allow-list example: `5511999998765@s.whatsapp.net` is kept by a list
   * holding `11999998765` and dropped by a list that does not hold it.
   */
  lemma ContactExample(m: Envelope, cfg: SyncConfig, list: seq<string>)
    requires m.key.remoteJid == Some("5511999998765" + "@" + "s.whatsapp.net")
    requires TypeAllowed(m, cfg) && cfg.includeList == Some(list)
    ensures ShouldKeep(m, cfg) <==> "11999998765" in list
  {
    var jid := m.key.remoteJid.value;
    assert Phone(jid) == "5511999998765" by {
      PhoneOfJid("5511999998765", "s.whatsapp.net");
    }
    assert !IsGroupJid(jid) by {
      GroupMarkerOfJid("5511999998765", "s.whatsapp.net");
    }
    assert LocalNumber("5511999998765") == "11999998765";
  }

  // ---------------------------------------------------------------------------
  // Media

  /**
   * The guard of `downloadAndSaveMedia`: a truthy document, image, video or
   * audio payload. It holds exactly when the extension ternary picks an
   * extension, so the ternary's empty fallback is never used for a download.
   */
  predicate WantsMedia(m: Envelope)
    ensures WantsMedia(m) <==> MediaExtension(m) != ""
  {
    Truthy(Field(m, "documentMessage")) || Truthy(Field(m, "imageMessage")) ||
    Truthy(Field(m, "videoMessage")) || Truthy(Field(m, "audioMessage"))
  }

  /** The extension ternary, in its priority order. */
  function MediaExtension(m: Envelope): (ext: string)
    ensures ext in [".doc", ".jpg", ".mp4", ".ogg", ""]
  {
    if Truthy(Field(m, "documentMessage")) then ".doc"
    else if Truthy(Field(m, "imageMessage")) then ".jpg"
    else if Truthy(Field(m, "videoMessage")) then ".mp4"
    else if Truthy(Field(m, "audioMessage")) then ".ogg"
    else ""
  }

  /**
   * The priority: a document wins over everything, an image over video and
   * audio, a video over audio.
   */
  lemma MediaExtensionPriority(m: Envelope)
    ensures Truthy(Field(m, "documentMessage")) ==> MediaExtension(m) == ".doc"
    ensures MediaExtension(m) == ".jpg" <==>
      !Truthy(Field(m, "documentMessage")) && Truthy(Field(m, "imageMessage"))
    ensures MediaExtension(m) == ".mp4" <==>
      !Truthy(Field(m, "documentMessage")) && !Truthy(Field(m, "imageMessage")) && Truthy(Field(m, "videoMessage"))
    ensures MediaExtension(m) == ".ogg" <==>
      !Truthy(Field(m, "documentMessage")) && !Truthy(Field(m, "imageMessage"))
      && !Truthy(Field(m, "videoMessage")) && Truthy(Field(m, "audioMessage"))
  {
  }

  /** A media file name never collides with the message's own `.json` file. */
  lemma MediaNameIsNotJsonName(m: Envelope)
    requires WantsMedia(m)
    ensures IdText(m) + MediaExtension(m) != IdText(m) + ".json"
  {
  }

  // ---------------------------------------------------------------------------
  // Reconnection

  /** `DisconnectReason.loggedOut` */
  const LoggedOut := 401

  datatype BoomOutput = BoomOutput(statusCode: Option<int>)
  datatype DisconnectError = DisconnectError(output: Option<BoomOutput>)
  datatype LastDisconnect = LastDisconnect(error: Option<DisconnectError>)

  /** `(lastDisconnect?.error as Boom)?.output?.statusCode`, `undefined` when any link is missing. */
  function StatusCode(last: Option<LastDisconnect>): (code: Option<int>)
    ensures code.Some? ==> last.Some? && last.value.error.Some? && last.value.error.value.output.Some?
    ensures last.None? || last.value.error.None? ==> code.None?
  {
    if last.Some? && last.value.error.Some? && last.value.error.value.output.Some?
    then last.value.error.value.output.value.statusCode
    else None
  }

  /**
   * `statusCode !== DisconnectReason.loggedOut`: only an explicit logged-out
   * status stops reconnection; a close without any status reconnects.
   */
  predicate ShouldReconnect(last: Option<LastDisconnect>)
    ensures !ShouldReconnect(last) <==>
      last.Some? && last.value.error.Some? && last.value.error.value.output.Some?
      && last.value.error.value.output.value.statusCode == Some(401)
    ensures last.None? ==> ShouldReconnect(last)
  {
    StatusCode(last) != Some(LoggedOut)
  }
}
