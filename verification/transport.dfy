/** The Mandrill transport: maps a sent message to the request body of
    `messages/send.json` and turns the HTTP exchange into one event plus a
    return or an exception. */
module MandrillTransport {
  import opened PhpValues
  import opened Mime
  import opened Payload
  import opened Events

  const PriorityHighest: int := 1
  const PriorityHigh: int := 2
  const PriorityNormal: int := 3
  const PriorityLow: int := 4
  const PriorityLowest: int := 5

  /** The sender name used when MAIL_FROM_NAME is null. */
  const DefaultFromName: string := "Mandrill Mailer."

  /** Every flattened recipient carries this type, whichever header it came from. */
  const RecipientTypeTo: string := "to"

  /** A transport instance; only its stored API key takes part in a send. The
      key is the configured secret, and is Null when no secret is configured. */
  datatype Transport = Transport(key: Nullable<string>)

  /** The environment values read during a send: MAIL_FROM_ADDRESS and MAIL_FROM_NAME. */
  datatype Env = Env(mailFromAddress: Nullable<string>, mailFromName: Nullable<string>)

  /** What the HTTP client reports: the error number (0 when there was none),
      the HTTP status of the response and the response text. */
  datatype Exchange = Exchange(errno: int, httpStatus: int, response: string)

  /** The events published by one send (`D`: decoded response), and what the
      send returns (`R`) or throws. */
  datatype Outcome<D, R> = Outcome(events: seq<Event<D>>, result: Returned<R>)

  // ---------------------------------------------------------------------------
  // Recipients

  /** One `{email, name, type: "to"}` entry per address, in iteration order. */
  function AddressEntries(list: AddressList): (r: seq<Recipient>)
    ensures |r| == |list|
    ensures forall i :: 0 <= i < |list| ==>
      r[i].email == list[i].addr.address && r[i].name == list[i].addr.name && r[i].kind == RecipientTypeTo
  {
    if list == [] then []
    else [Recipient(list[0].addr.address, list[0].addr.name, RecipientTypeTo)] + AddressEntries(list[1..])
  }

  /** fetchTo: To, then Cc, then Bcc, each entry tagged "to". */
  function FetchTo(sent: SentMessage): (r: seq<Recipient>)
    ensures var m := sent.original;
      |r| == |m.to| + |m.cc| + |m.bcc|
    ensures forall i :: 0 <= i < |r| ==> r[i].kind == RecipientTypeTo
    ensures var m := sent.original;
      forall i :: 0 <= i < |m.to| ==>
        r[i].email == m.to[i].addr.address && r[i].name == m.to[i].addr.name
    ensures var m := sent.original;
      forall i :: 0 <= i < |m.cc| ==>
        r[|m.to| + i].email == m.cc[i].addr.address && r[|m.to| + i].name == m.cc[i].addr.name
    ensures var m := sent.original;
      forall i :: 0 <= i < |m.bcc| ==>
        r[|m.to| + |m.cc| + i].email == m.bcc[i].addr.address && r[|m.to| + |m.cc| + i].name == m.bcc[i].addr.name
  {
    var m := sent.original;
    (if |m.to| > 0 then AddressEntries(m.to) else [])
      + (if |m.cc| > 0 then AddressEntries(m.cc) else [])
      + (if |m.bcc| > 0 then AddressEntries(m.bcc) else [])
  }

  /** The keys of an address array, in iteration order (PHP's array_keys). */
  function KeysOf(list: AddressList): (r: seq<Key>)
    ensures |r| == |list|
    ensures forall i :: 0 <= i < |list| ==> r[i] == list[i].key
  {
    if list == [] then [] else [list[0].key] + KeysOf(list[1..])
  }

  /** getTo: the keys (not the addresses) of To, Cc and Bcc, merged in that order. */
  function GetTo(sent: SentMessage): (r: seq<Key>)
    ensures var m := sent.original;
      |r| == |m.to| + |m.cc| + |m.bcc|
    ensures var m := sent.original;
      forall i :: 0 <= i < |m.to| ==> r[i] == m.to[i].key
    ensures var m := sent.original;
      forall i :: 0 <= i < |m.cc| ==> r[|m.to| + i] == m.cc[i].key
    ensures var m := sent.original;
      forall i :: 0 <= i < |m.bcc| ==> r[|m.to| + |m.cc| + i] == m.bcc[i].key
  {
    var m := sent.original;
    (if |m.to| > 0 then KeysOf(m.to) else [])
      + (if |m.cc| > 0 then KeysOf(m.cc) else [])
      + (if |m.bcc| > 0 then KeysOf(m.bcc) else [])
  }

  // ---------------------------------------------------------------------------
  // Attachments

  /** What fetchAttachments produces for one part: `content`, `filename`, `type`. */
  datatype RawAttachment = RawAttachment(content: Base64, filename: Nullable<string>, contentType: string)

  function Raw(p: Part): (r: RawAttachment)
    ensures r.content.bytes == p.body
    ensures r.filename == p.filename && r.contentType == p.contentType
  {
    RawAttachment(Base64Of(p.body), p.filename, p.contentType)
  }

  /** The raw attachments of the parts whose class is exactly DataPart, in order. */
  function CollectDataParts(parts: seq<Part>): (r: seq<RawAttachment>)
    ensures |r| <= |parts|
    ensures r == [] <==> forall i :: 0 <= i < |parts| ==> !IsDataPart(parts[i])
  {
    if parts == [] then []
    else (if IsDataPart(parts[0]) then [Raw(parts[0])] else []) + CollectDataParts(parts[1..])
  }

  /** fetchAttachments. */
  function FetchAttachments(sent: SentMessage): (r: seq<RawAttachment>)
    ensures |r| <= |sent.original.attachments|
    ensures r == [] <==> forall p :: p in sent.original.attachments ==> !IsDataPart(p)
  {
    CollectDataParts(sent.original.attachments)
  }

  /** The `{type, name, content}` entries built from the raw attachments. */
  function AttachmentEntries(raw: seq<RawAttachment>): (r: seq<Attachment>)
    ensures |r| == |raw|
    ensures forall i :: 0 <= i < |raw| ==>
      r[i].contentType == raw[i].contentType && r[i].name == raw[i].filename && r[i].content == raw[i].content
  {
    if raw == [] then []
    else [Attachment(raw[0].contentType, raw[0].filename, raw[0].content)] + AttachmentEntries(raw[1..])
  }

  // ---------------------------------------------------------------------------
  // The request body

  /** The `important` flag: set (to true) only for the two highest priorities. */
  function Important(priority: Nullable<int>): (r: Nullable<bool>)
    ensures r.Value? <==> priority == Value(PriorityHighest) || priority == Value(PriorityHigh)
    ensures r != Value(false)
  {
    if priority == Value(PriorityHighest) || priority == Value(PriorityHigh) then Value(true) else Null
  }

  /** The `headers` field: the FIRST KEY of the reply-to array, when it has one. */
  function ReplyToHeaders(replyTo: AddressList): (r: Nullable<Headers>)
    ensures r.Value? <==> |replyTo| > 0
    ensures r.Value? ==> r.value.replyTo == replyTo[0].key
  {
    if |replyTo| > 0 then Value(Headers(replyTo[0].key)) else Null
  }

  /** The arguments sendMandrillRequest posts for a message. */
  function BuildArguments(t: Transport, env: Env, sent: SentMessage): (r: Arguments)
    ensures r.key == t.key && r.async
    ensures r.message.html == sent.original.htmlBody
    ensures r.message.subject == sent.original.subject
    ensures r.message.fromEmail == env.mailFromAddress
    ensures env.mailFromName.Value? ==> r.message.fromName == env.mailFromName.value
    ensures env.mailFromName.Null? ==> r.message.fromName == DefaultFromName
    ensures r.message.to == FetchTo(sent)
    ensures r.message.headers.Value? <==> |sent.original.replyTo| > 0
    ensures r.message.headers.Value? ==> r.message.headers.value.replyTo == sent.original.replyTo[0].key
    ensures r.message.important.Value? <==> sent.original.priority in {Value(PriorityHighest), Value(PriorityHigh)}
    ensures r.message.important != Value(false)
    ensures r.message.attachments.Value? <==> exists p :: p in sent.original.attachments && IsDataPart(p)
    ensures r.message.attachments.Value? ==> r.message.attachments.value != []
    ensures r.message.attachments.Value? ==>
      var raw := FetchAttachments(sent);
      && |r.message.attachments.value| == |raw|
      && forall i :: 0 <= i < |raw| ==>
           r.message.attachments.value[i] == Attachment(raw[i].contentType, raw[i].filename, raw[i].content)
  {
    var m := sent.original;
    var attachments := AttachmentEntries(FetchAttachments(sent));
    var message := Message(
      m.htmlBody,
      m.subject,
      env.mailFromAddress,
      env.mailFromName.Coalesce(DefaultFromName),
      FetchTo(sent),
      ReplyToHeaders(m.replyTo),
      Important(m.priority),
      if attachments != [] then Value(attachments) else Null);
    Arguments(t.key, message, true)
  }

  // ---------------------------------------------------------------------------
  // Sending

  /** sendMandrillRequest, given what the HTTP client reported. `strerror` stands
      for curl_strerror and `decode` for json_decode. */
  function SendMandrillRequest<D>(t: Transport, env: Env, sent: SentMessage, exchange: Exchange,
                                  strerror: int -> string, decode: string -> D): (o: Outcome<D, D>)
    ensures |o.events| == 1
    ensures o.events[0].sentMessage == sent
    ensures o.events[0].arguments == BuildArguments(t, env, sent)
    ensures o.result.Throws? <==> exchange.errno != 0
    ensures o.events[0].MandrillError? <==> o.result.Throws?
    ensures o.result.Throws? ==> o.result.message == strerror(exchange.errno) == o.events[0].strerror
    ensures o.result.Returns? ==> o.result.value == decode(exchange.response) == o.events[0].response
  {
    var arguments := BuildArguments(t, env, sent);
    if exchange.errno != 0 then
      var message := strerror(exchange.errno);
      Outcome([MandrillError(sent, arguments, message)], Throws(message))
    else
      Outcome([MandrillMessageSent(sent, arguments, decode(exchange.response))], Returns(decode(exchange.response)))
  }

  /** doSend: delegates to sendMandrillRequest and discards its return value;
      an exception still propagates. */
  function DoSend<D>(t: Transport, env: Env, sent: SentMessage, exchange: Exchange,
                     strerror: int -> string, decode: string -> D): (o: Outcome<D, ()>)
    ensures |o.events| == 1
    ensures o.result.Throws? <==> exchange.errno != 0
    ensures o.result.Throws? ==> o.result.message == strerror(exchange.errno)
    ensures o.events == SendMandrillRequest(t, env, sent, exchange, strerror, decode).events
  {
    var inner := SendMandrillRequest(t, env, sent, exchange, strerror, decode);
    match inner.result
    case Throws(e) => Outcome(inner.events, Throws(e))
    case Returns(_) => Outcome(inner.events, Returns(()))
  }
}
