/** The two notifications a send publishes. `D` is the type of a decoded JSON response. */
module Events {
  import opened Mime
  import opened Payload

  datatype Event<D> =
    | MandrillError(sentMessage: SentMessage, arguments: Arguments, strerror: string)
    | MandrillMessageSent(sentMessage: SentMessage, arguments: Arguments, response: D)
}
