/** Shared vocabulary of the chat server's actors: the events every mailbox
    carries, the actions a connection's writer consumes, the results written to
    a client, and the fixed constants of the server. */
module Prelude {

  type Nick = string

  /** A channel or hub mailbox sender (`Sender<Event>`), kept only as an identity. */
  datatype ChannelHandle = ChannelHandle(id: nat)

  /** A connection writer's mailbox sender (`Sender<Action>`), kept only as an identity. */
  datatype ClientHandle = ClientHandle(id: nat)

  /** An accepted TCP stream; the core never looks inside it. */
  datatype Stream = Stream(id: nat)

  /** A local wall-clock reading, supplied by the caller of a handler. */
  type Time = int

  datatype Option<T> = None | Some(value: T)

  /** Rust's `Result<T, ()>`: the error carries nothing. */
  datatype Result<T> = Ok(value: T) | Err

  /** The fields a channel serialises into the `data` of a `CommandSuccess`.
      The user list comes from a hash map's keys, so it has no defined order. */
  datatype Snapshot = Snapshot(name: string, topic: string, admin: string, capacity: nat, users: set<Nick>)

  datatype Command = Join(nick: Nick, channel: string, sender: ClientHandle)

  datatype Event =
    | Command(command: Command)
    | Connection(stream: Stream)
    | Client(nick: Nick, sender: ClientHandle)
    | Message(nick: Nick, msg: string)

  datatype ClientResult =
    | Message(time: Time, nick: Nick, message: string)
    | CommandSuccess(data: Snapshot)
    | CommandFailure(error: string, hint: string)

  /** What a connection's writer task is asked to do: write a result, or make
      its reader forward to another channel from now on. */
  datatype Action = Send(result: ClientResult) | Join(channel: ChannelHandle)

  const HALL: string := "HALL"
  const HALL_ADMIN: string := "SERVER"
  const DEFAULT_TOPIC: string := "Default Topic of the Channel."
  const MAX_CLIENTS: nat := 5

  const KICK: string := "KICK"
  const JOIN: string := "JOIN"
  const COMMANDS: seq<string> := [JOIN, KICK]

  const INVALID_CHANNEL_NAME_ERROR: string := "INVALID_CHANNEL_NAME_ERROR"
  const INVALID_CHANNEL_NAME_HINT: string :=
    "Channels names are strings (beginning with a '&' or '#' character) of\n"
    + "length up to 200 characters.  Apart from the the requirement that the\n"
    + "first character being either '&' or '#'; the only restriction on a\n"
    + "channel name is that it may not contain any spaces (' '), a control G\n"
    + "(^G or ASCII 7), or a comma (',' which is used as a list item\n"
    + "separator by the protocol)."

  /** The reply a channel sends for a malformed JOIN argument. */
  function InvalidChannelName(): ClientResult
  {
    ClientResult.CommandFailure(INVALID_CHANNEL_NAME_ERROR, INVALID_CHANNEL_NAME_HINT)
  }

  /** The command table lists JOIN before KICK, both keywords are four
      characters long (the fixed-width strip of the argument relies on it),
      and they differ, so at most one of them prefixes a line. */
  lemma CommandKeywords()
    ensures COMMANDS == [JOIN, KICK] && COMMANDS[0] == "JOIN" && COMMANDS[1] == "KICK"
    ensures forall c :: c in COMMANDS ==> |c| == 4
    ensures JOIN != KICK
  {
    assert JOIN[0] == 'J' && KICK[0] == 'K';
  }
}
