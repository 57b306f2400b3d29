/** What both revisions' bots exchange with the chat: the messages they receive, what
    they send back, and the texts the two bots share. */
module Chat {

  /** A chat message as the bot library presents it: Command() (the command name without
      the slash, "" for plain text), CommandArguments() and the full Text. */
  datatype Message = Message(command: string, arguments: string, text: string)

  /** What the bot sends back: a text reply to the message, or the "typing" chat action. */
  datatype Outgoing = Reply(text: string) | Typing

  /** Something sent in answer to the update with the given position in the channel. */
  datatype Sent = Sent(update: nat, what: Outgoing)

  const WaitMessage := "Wait a moment, downloading the content for you"

  /** The refusal for an identifier whose download is under way. */
  function BusyMessage(id: string): string {
    "Other request is downloading video " + id + " now, please try later"
  }

  /** Tags the messages sent for one update with its position. */
  function Tagged(k: nat, out: seq<Outgoing>): (r: seq<Sent>)
    ensures |r| == |out| && forall i :: 0 <= i < |r| ==> r[i] == Sent(k, out[i])
  {
    seq(|out|, i requires 0 <= i < |out| => Sent(k, out[i]))
  }
}
