/** The parts of the mail library's composed message that the transport reads. */
module Mime {
  import opened PhpValues

  type byte = x: int | 0 <= x < 256

  /** A PHP array key: either an integer or a string. */
  datatype Key = IntKey(n: int) | StringKey(s: string)

  /** A mailbox: an e-mail address and a display name (empty when not given). */
  datatype Address = Address(address: string, name: string)

  /** One slot of a PHP array of addresses: its key and the address stored there. */
  datatype Entry = Entry(key: Key, addr: Address)

  /** An address header as a PHP array, in iteration order. */
  type AddressList = seq<Entry>

  /** The shape the mail library produces: keys 0, 1, 2, ... in order. */
  predicate ListShaped(list: AddressList)
  {
    forall i :: 0 <= i < |list| ==> list[i].key == IntKey(i)
  }

  /** The fully qualified name of the generic data-part class. */
  const DataPartClass: string := "Symfony\\Component\\Mime\\Part\\DataPart"

  /** An attached MIME part; `className` is the part object's runtime class. */
  datatype Part = Part(className: string, body: seq<byte>, filename: Nullable<string>, contentType: string)

  /** A part qualifies as an attachment only when its class is exactly DataPart:
      subclasses and every other part kind are not DataParts here. */
  predicate IsDataPart(p: Part)
  {
    p.className == DataPartClass
  }

  /** The composed message (the library's Email). `priority` is Null when unset. */
  datatype Email = Email(
    subject: Nullable<string>,
    htmlBody: Nullable<string>,
    from: AddressList,
    to: AddressList,
    cc: AddressList,
    bcc: AddressList,
    replyTo: AddressList,
    priority: Nullable<int>,
    attachments: seq<Part>)

  /** The message handed to the transport; only its original message is read. */
  datatype SentMessage = SentMessage(original: Email)
}
