/** The body of a Mandrill `messages/send.json` request, as a structured value
    rather than JSON text. Optional fields (`headers`, `important`, `attachments`) are Null when the
    key is not set; the other Nullable fields are Null when the source value is
    PHP `null`. */
module Payload {
  import opened PhpValues
  import opened Mime

  /** The base64 text of some bytes. The encoding itself is not modelled; the
      constructor only records which bytes were encoded. */
  datatype Base64 = Base64Of(bytes: seq<byte>)

  /** One entry of `message.to`; `kind` is the JSON field `type`. */
  datatype Recipient = Recipient(email: string, name: string, kind: string)

  /** One entry of `message.attachments`: `type`, `name` and `content`. */
  datatype Attachment = Attachment(contentType: string, name: Nullable<string>, content: Base64)

  /** `message.headers`; the transport only ever sets `Reply-To`. */
  datatype Headers = Headers(replyTo: Key)

  /** The `message` object. */
  datatype Message = Message(
    html: Nullable<string>,
    subject: Nullable<string>,
    fromEmail: Nullable<string>,
    fromName: string,
    to: seq<Recipient>,
    headers: Nullable<Headers>,
    important: Nullable<bool>,
    attachments: Nullable<seq<Attachment>>)

  /** The whole request body: `key`, `message` and `async`. */
  datatype Arguments = Arguments(key: Nullable<string>, message: Message, async: bool)
}
