# Mandrill mail transport — Dafny model

This project models the request-building core of a Laravel mail transport for the
Mandrill transactional-email API. Given a composed message (`SentMessage` wrapping the
mail library's `Email`), the transport builds the body of a `messages/send.json` request
and posts it. Then it publishes exactly one event. A transport error gives a
`MandrillError` event and an exception. Anything else gives a `MandrillMessageSent` event
and returns the decoded response.

Modules:

- `PhpValues`: `Nullable` for PHP `null` and `??`, and `Returned` for a call that returns or throws.
- `Mime`: the message as the transport sees it. Each address header is a PHP array,
  written as a sequence of `(key, address)` entries, so the keys the source reads
  (`array_keys`, `array_key_first`) stay visible. Attached parts carry their runtime class
  name. `IsDataPart` is exact class equality, the same as the source's `get_class(...) === DataPart::class`.
- `Payload`: the request body as a structured value. Every optional or nullable field is `Nullable`.
- `Events`: the two event records.
- `MandrillTransport`: `fetchTo`, `getTo`, `fetchAttachments`, the argument building and
  outcome branch of `sendMandrillRequest`, and `doSend`.
- `TransportProperties`: lemmas that relate several calls or several inputs.

Inputs the source reads from its surroundings are parameters:

- `Env`: the `MAIL_FROM_ADDRESS` and `MAIL_FROM_NAME` environment values.
- `Exchange`: the cURL error number, the HTTP status and the response text.
- `strerror`: stands for `curl_strerror`.
- `decode`: stands for `json_decode`. The decoded value has an abstract type `D`.

Two behaviours are modelled as the code is written:

- The Reply-To header is the first **key** of the reply-to array, not an address.
  The mail library builds these arrays with keys 0, 1, 2, …. So for any non-empty
  reply-to the header is the integer 0 (`ReplyToOfListShapedIsZero`), and the addresses
  never reach the request (`ReplyToOnlyFirstKeyMatters`).
- `getTo` returns the keys of To, Cc and Bcc, not the addresses. For the library's arrays
  these are positions (`GetToOfListShapedHeaders`).

The sender also comes from the environment, never from the message's From header
(`SenderIgnored`). The HTTP status is never inspected (`HttpStatusIgnored`).

## Model

| member | source | states |
|---|---|---|
| `MandrillTransport.AddressEntries` | src/MandrillTransport.php:82-88 | one entry per address, same count and order; entry i has that address's email and name and type "to" |
| `MandrillTransport.FetchTo` | src/MandrillTransport.php:73-120 | exactly \|To\|+\|Cc\|+\|Bcc\| entries, all typed "to"; To entries first, then Cc, then Bcc, each at its offset, with email and name of the source address |
| `MandrillTransport.KeysOf` | src/MandrillTransport.php:133 | array_keys: one key per entry, in iteration order |
| `MandrillTransport.GetTo` | src/MandrillTransport.php:128-145 | length is the sum of the three header sizes; the keys of To, then Cc, then Bcc, each at its offset |
| `MandrillTransport.CollectDataParts` | src/MandrillTransport.php:243-251 | never more entries than parts; empty exactly when no part is of class DataPart |
| `MandrillTransport.FetchAttachments` | src/MandrillTransport.php:239-254 | at most one raw attachment per part; empty iff no attached part is exactly a DataPart |
| `MandrillTransport.Raw` | src/MandrillTransport.php:245-249 | one raw attachment of a part: its content encodes exactly the part's body bytes, with the part's filename and content type |
| `MandrillTransport.AttachmentEntries` | src/MandrillTransport.php:190-198 | same count and order as the raw attachments; entry i has type = content type, name = filename, content = the base64 content |
| `MandrillTransport.Important` | src/MandrillTransport.php:179-184 | `important` is present iff priority is 1 (highest) or 2 (high), and it is never false |
| `MandrillTransport.ReplyToHeaders` | src/MandrillTransport.php:170-175 | `headers` is present iff the reply-to array is non-empty, and then Reply-To is that array's first key |
| `MandrillTransport.BuildArguments` | src/MandrillTransport.php:158-202 | key is the stored key (Null when no secret is configured); async is true; html and subject come from the message; from_email is MAIL_FROM_ADDRESS; from_name is MAIL_FROM_NAME, or "Mandrill Mailer." when that is null; to is fetchTo; the Reply-To and important rules hold; attachments is present iff some part is exactly a DataPart, is then non-empty, and matches fetchAttachments one to one |
| `MandrillTransport.SendMandrillRequest` | src/MandrillTransport.php:217-231 | exactly one event, carrying the message and the built arguments; throws iff errno is non-zero; the event is MandrillError exactly when it throws; the thrown message, the event's strerror and curl_strerror(errno) agree; otherwise the returned value and the event's response are both the decoded response |
| `MandrillTransport.DoSend` | src/MandrillTransport.php:63-66 | publishes the same single event as sendMandrillRequest; throws iff errno is non-zero, with curl_strerror(errno) |
| `TransportProperties.AddressEntriesAppend` | src/MandrillTransport.php:82-88 | flattening distributes over concatenation of address arrays |
| `TransportProperties.FetchToFlattensAllHeaders` | src/MandrillTransport.php:73-120 | fetchTo equals the flattening of To ++ Cc ++ Bcc: nothing dropped, duplicated or reordered |
| `TransportProperties.GetToPairsWithFetchTo` | src/MandrillTransport.php:128-145 | getTo and fetchTo have equal length; position i of getTo is the key of the entry whose address is position i of fetchTo |
| `TransportProperties.GetToOfListShapedHeaders` | src/MandrillTransport.php:128-145 | for 0-indexed arrays getTo is 0..\|To\|-1, then 0..\|Cc\|-1, then 0..\|Bcc\|-1 |
| `TransportProperties.ReplyToOfListShapedIsZero` | src/MandrillTransport.php:170-175 | for a non-empty 0-indexed reply-to array the Reply-To header is the integer key 0 |
| `TransportProperties.ReplyToOnlyFirstKeyMatters` | src/MandrillTransport.php:170-175 | any reply-to array with the same first key (or any empty one) gives the identical request, whatever its addresses or length |
| `TransportProperties.SenderIgnored` | src/MandrillTransport.php:163-164 | changing the message's From header leaves the whole request unchanged |
| `TransportProperties.CollectDataPartsAppend` | src/MandrillTransport.php:243-251 | collecting distributes over concatenation of part lists, so order is kept |
| `TransportProperties.CollectDataPartsMembers` | src/MandrillTransport.php:243-251 | every collected attachment is built from some DataPart of the list, and every DataPart of the list yields one |
| `TransportProperties.FetchAttachmentsFiltersInOrder` | src/MandrillTransport.php:239-254 | fetchAttachments is the filter-and-map of the parts: every entry is Raw of a DataPart, every DataPart yields an entry, and strictly increasing positions of exactly the DataParts build the entries one to one, in order |
| `TransportProperties.CollectAllDataParts` | src/MandrillTransport.php:243-251 | when every part is a DataPart, attachment i is built from part i and the counts agree |
| `TransportProperties.AttachmentsOfDataParts` | src/MandrillTransport.php:188-202 | with only DataParts attached, message.attachments is present and lists each part in order as {type, name, base64(body)} |
| `TransportProperties.CollectSkipsNonDataPart` | src/MandrillTransport.php:244 | inserting a part not exactly of class DataPart anywhere leaves the collected attachments unchanged |
| `TransportProperties.NonDataPartSkipped` | src/MandrillTransport.php:188-202 | inserting such a part anywhere leaves the whole request unchanged |
| `TransportProperties.HttpStatusIgnored` | src/MandrillTransport.php:217-231 | the outcome does not depend on the HTTP status |
| `TransportProperties.TimeoutScenario` | src/MandrillTransport.php:219-225 | a timed-out request (curl error 28) publishes only MandrillError with the client's message and throws that message |
| `TransportProperties.SingleRecipientScenario` | src/MandrillTransport.php:158-202 | one To recipient, normal priority, no reply-to or attachments: exactly key, html, subject, from fields, one "to" recipient and async; no headers, important or attachments |

## Left out

- The cURL calls, the endpoint URL built from `mandrill.url`, the 30-second timeout, the TLS options and the Content-Type header (src/MandrillTransport.php:156, 206-216). They are network I/O; the result of the call is the `Exchange` input.
- `json_encode` and `json_decode`. The request is a structured `Arguments` value, not JSON text. The decoded response is produced by the `decode` parameter.
- `base64_encode`. The `Base64Of(bytes)` constructor only records which bytes were encoded.
- `env()` lookups. Their values are the `Env` parameter.
- Event dispatch through the framework bus. Published events are the returned `events` sequence.
- `__toString` (returns the transport name "mandrill") and the constructor, which only store values. The model keeps the stored key as `Transport.key`.
- src/MandrillServiceProvider.php. It only registers the transport with the framework and publishes a config file, and has no logic of its own.
- The event classes in src/app/Events. They are plain records, modelled as the two constructors of `Events.Event`.
- Header values the mail library would give as something other than an array (the source's `is_array` guard). Every header in the model is an array. An empty array contributes nothing, the same as a missing header.
- `MandrillTransport.CollectDataParts`: its contract gives count and emptiness only. Order and membership are stated in the lemmas `CollectDataPartsAppend`, `CollectDataPartsMembers` and `CollectAllDataParts`.
- `MandrillTransport.FetchAttachments`: its contract gives count and emptiness only; putting membership in the contract makes the solver loop. Membership in both directions and order are stated by the lemma `FetchAttachmentsFiltersInOrder`, and also by `CollectDataPartsAppend` and `CollectSkipsNonDataPart`.
