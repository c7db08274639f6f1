# chat-rs server core, modelled in Dafny

chat-rs is a small IRC-like chat server built from actors. A hub (`IRC`) owns
the registry that maps channel names to channel mailboxes. It hands every new
TCP connection to the lobby channel `HALL`. On a `JOIN` request it looks the
channel up, or creates it. Each channel actor (`Channel`) keeps a member map
from nickname to that connection's writer mailbox. It does three things:

- broadcasts chat lines to every other member;
- answers a newcomer with a JSON snapshot of itself;
- handles the `JOIN` and `KICK` commands.

Each connection runs two tasks (`Client`). The reader trims lines and
forwards them to whichever channel a shared cell names. The writer writes
results to the socket and retargets that cell when a `Join` action arrives.
`channels.rs` holds an older container for members and channels, with a
capacity check and a duplicate check.

The model has one module per source file: `Prelude`, `Channel`, `Irc`,
`Channels` and `Client`. Two helper modules support them:

- `Text` is Rust's `str::trim` on the Unicode White_Space set.
- `Multicast` states what "each target exactly once, in any order" means.

The model works as follows:

- Every actor is a class, and each of its handlers is a method, with a
  `modifies` clause where it changes state.
- Every mailbox send the actor makes is appended to its `outbox` log.
- Mailbox senders, client senders and TCP streams are opaque identities.
  These are `ChannelHandle`, `ClientHandle` and `Stream`.
- The clock is a parameter of the handler that uses it.
- Loops over hash maps pick the next member with `:|`, so no order is
  assumed. They are specified per recipient: every other member exactly
  once, and nobody else.

The hub is also given as a pure step function `Irc.JoinStep` on a
`Registry` value, and the `IRC` class is proved to follow it. The registry
invariant `Consistent` and the lemmas about sequences of joins are stated
on that value.

The model follows the code as written, including these points:

- Attaching a member to a channel (`channel.rs:94-103`) checks neither the
  capacity nor duplicate nicknames. A repeated nickname overwrites the old
  entry.
- The snapshot sent to a newcomer lists the members before insertion. The
  newcomer is listed only if its nickname was already present.
- `KICK` (`channel.rs:146-152`) looks the target up and does nothing else.
- A line is a command when `JOIN` or `KICK` is a prefix of it. No separator
  is needed, so `JOINED the party` counts as a `JOIN`.
- A channel name has no length limit, even though the invalid-name hint
  mentions 200 characters.
- `irc.rs:36` names a constant `ADMIN` that `prelude.rs` does not define.
  The lobby's admin is modelled as `HALL_ADMIN` (`"SERVER"`).

## Model

| member | source | states |
|---|---|---|
| Prelude.CommandKeywords | server/src/prelude.rs:58-60 | The command table is `[JOIN, KICK]` in that order. Both keywords are four characters long, and they differ. |
| Text.Trim | server/src/client.rs:39 | The trimmed line has no whitespace at either end. It is empty exactly when the line is all whitespace. |
| Text.TrimIdempotent | server/src/client.rs:39 | Trimming an already trimmed line changes nothing. |
| Text.TrimClean | server/src/channel.rs:155 | A string with no whitespace at either end is its own trim. |
| Text.TrimPadded | server/src/channel.rs:155 | Leading whitespace before a clean argument is all that trimming removes. |
| Text.TrimStartSkips | server/src/channel.rs:155 | A whitespace prefix does not change the result of stripping leading whitespace. |
| Multicast.OncePerTargetCount | server/src/channel.rs:120-124 | A recipient list with no repeats that covers exactly a target set gives each target one copy and others none. Its length is the number of targets. |
| Multicast.Extend | server/src/channel.rs:120-124 | One loop step that sends to a member not yet visited keeps the exactly-once property, with the visited set grown by that member. |
| Channel.IsCommand | server/src/channel.rs:105-109 | A line is a command exactly when it is at least four characters long and starts with `JOIN` or `KICK`. |
| Channel.Find | server/src/channel.rs:129-131 | The table search returns a table entry that prefixes the line, or None when no entry does. The first entry wins when it matches. |
| Channel.FindCommand | server/src/channel.rs:128-144 | The dispatch key is `JOIN` exactly when the line starts with `JOIN`, and `KICK` exactly when it starts with `KICK`. It is absent exactly when the line is not a command. |
| Channel.ParseChannelName | server/src/channel.rs:154-167 | The trimmed argument is accepted exactly when it starts with `#` or `&` and has no space. An accepted name is the argument without its sigil, and it has no space. |
| Channel.ParseAcceptsEitherSigil | server/src/channel.rs:154-167 | `JOIN`, then any whitespace, then `#n` or `&n` parses to `n`, for every space-free `n` of any length that does not end in whitespace. |
| Channel.NewInfo | server/src/channel.rs:49-54 | A new channel's info carries the given name, admin and capacity, and always the default topic. |
| Channel.SnapshotOf | server/src/channel.rs:26-39 | The serialised channel carries the info's name, topic, admin and capacity, and lists exactly the nicknames in the member map. |
| Channel.FirstJoinerSnapshot | server/src/channel.rs:94-103 | The first member of a channel the hub has just created is told the name, the default topic, that it is the admin, the capacity `MAX_CLIENTS`, and an empty user list. |
| Channel.BroadcastExactlyOnce | server/src/channel.rs:111-126 | A broadcast gives each member other than the speaker exactly one copy and the speaker none. The number of sends is the number of other members. |
| Channel.Channel.constructor | server/src/channel.rs:43-68 | A new channel has the given name, admin and capacity and the default topic. Its member map is empty and it has sent nothing. |
| Channel.Channel.Handle | server/src/channel.rs:70-92 | A connection starts a connection task bound to this channel's own mailbox, which is the reader's first target and where the task reports the newcomer back; the members stay as they were. A chat line is handled as `SendMsg` and an attach as `Attach`. A hub command is ignored. |
| Channel.Channel.Attach | server/src/channel.rs:94-103 | The newcomer is first told to forward to this channel. It is then sent a snapshot of the channel, whose member list is the members before insertion. The nickname is stored last and overwrites any old entry. |
| Channel.Channel.SendMsg | server/src/channel.rs:111-126 | A command line is dispatched as `RunCommand`. Any other line is broadcast, stamped with the given time and the speaker's nickname. The member map is left as it was. |
| Channel.Channel.Broadcast | server/src/channel.rs:120-124 | Each send carries the result to the handle the member map holds for its recipient. The recipients are every member other than the sender, once each, and the log before the loop is kept. |
| Channel.Channel.RunCommand | server/src/channel.rs:128-144 | A `JOIN` line behaves as `Join`. A `KICK` line changes neither the members nor the log. |
| Channel.Channel.Kick | server/src/channel.rs:146-152 | The members and the log are unchanged whatever the target. |
| Channel.Channel.Join | server/src/channel.rs:169-188 | With a valid name, the member is removed and exactly one join request carrying its handle goes to the hub. With an invalid name, the member stays and alone receives the invalid-name failure. |
| Irc.Start | server/src/irc.rs:16-39 | The hub starts with an empty registry that satisfies the invariant. It spawns exactly the lobby, named `HALL`, administered by the server, with capacity `MAX_CLIENTS` and the default topic. |
| Irc.JoinStep | server/src/irc.rs:67-83 | An existing name forwards the attach request to its channel and leaves the registry unchanged. An absent name spawns a channel with the joiner as admin, forwards the request to it and registers it. No other entry changes and the registry grows by at most one. |
| Irc.JoinPreservesConsistency | server/src/irc.rs:67-83 | A join keeps every registered name bound to a spawned channel of that name, other than the lobby. A new channel's mailbox differs from the hub's, the lobby's and every earlier one. |
| Irc.NamesAddressDistinctChannels | server/src/irc.rs:76-81 | In a consistent registry, two different names never share a channel mailbox. |
| Irc.LobbyNotAddressable | server/src/irc.rs:34-39 | The lobby is never registered by name, so a join for any name, `HALL` included, is forwarded to a channel other than the lobby. |
| Irc.TwoJoinsCreateOne | server/src/irc.rs:72-81 | Two successive joins to the same new name create one channel, administered by the first joiner. The second join only forwards to that channel. |
| Irc.JoinsOnlyAdd | server/src/irc.rs:67-83 | Over any sequence of joins, registry entries are never overwritten or removed. The registered names are the old ones plus the requested ones, and each join adds at most one entry. |
| Irc.IRC.constructor | server/src/irc.rs:16-39 | The hub's state and its log are those of `Start`. |
| Irc.IRC.Handle | server/src/irc.rs:41-51 | A connection is forwarded unchanged to the lobby. A command is one `JoinStep`. Chat lines and attach events change nothing. The registry invariant is kept. |
| Irc.IRC.RunCommand | server/src/irc.rs:54-65 | A `Join` command changes the state and the log exactly as `JoinStep` does and keeps the invariant. |
| Irc.IRC.Join | server/src/irc.rs:67-83 | Lookup-or-create changes the state and the log exactly as `JoinStep` does and keeps the invariant. |
| Channels.Channel.constructor | server/src/channels.rs:19-26 | A new room is empty, within capacity, with the given name and capacity and an empty topic. |
| Channels.Channel.Insert | server/src/channels.rs:29-47 | Insertion fails exactly when the room is full or the nickname is taken, and then leaves the room as it was. On success the nickname is added with its writer, the size grows by one, and the capacity bound holds. |
| Channels.Channel.Send | server/src/channels.rs:49-60 | When the sender is a member, every other member gets the line once, through its own writer. When it is not a member, nothing is sent. Members are unchanged. |
| Channels.Channel.Remove | server/src/channels.rs:62-64 | The writer of the removed nickname is returned when there was one, and only that nickname leaves the room. |
| Channels.Channel.Nicks | server/src/channels.rs:66-68 | The nicknames listed are exactly the members. |
| Channels.Channels.constructor | server/src/channels.rs:91-95 | The list of rooms starts empty. |
| Channels.Channels.Insert | server/src/channels.rs:97-99 | A fresh room with the given name and size, an empty topic, no members and an empty log is appended, even when the name is already used. Earlier rooms stay in place. |
| Channels.Channels.Join | server/src/channels.rs:101-111 | Always returns None. |
| Client.Messages | server/src/client.rs:33-52 | The reader sends at most one event per line read. |
| Client.MessagesWellFormed | server/src/client.rs:38-50 | Every event the reader sends is a chat line from the connection's nickname. Its text is non-empty and already trimmed. |
| Client.MessagesAppend | server/src/client.rs:38-50 | Reading a stream in two parts gives the events of each part, in input order. |
| Client.Chat | server/src/client.rs:39-48 | A line yields nothing exactly when it is all whitespace. Otherwise it yields one chat event from the nickname whose text is the trimmed, non-empty line. |
| Client.MessagesOfLine | server/src/client.rs:39-43 | A blank line yields nothing. Any other line yields exactly one event carrying the trimmed line. |
| Client.Outputs | server/src/client.rs:58-67 | The writer writes at most one result per action. For a run of `Send`s it writes their payloads in order. For a run of `Join`s it writes nothing. |
| Client.Retarget | server/src/client.rs:63-66 | The reader's target after a run of actions is either the starting target or the channel of one of the run's `Join`s. |
| Client.OutputsAppend | server/src/client.rs:58-67 | Writing two runs of actions writes the output of the first run, then that of the second. |
| Client.RetargetAppend | server/src/client.rs:63-66 | The reader's target after two runs of actions is the target of the second run started from the target after the first. |
| Client.RetargetLastJoin | server/src/client.rs:63-66 | After a `Join(h)` followed by any number of `Send`s, the reader forwards to `h`. |
| Client.SendsKeepTarget | server/src/client.rs:60-62 | `Send` actions never move the reader's target. |
| Client.Client.constructor | server/src/client.rs:14-31 | The nickname is the first line, or the empty string for an empty stream. The reader starts on the remaining lines, forwarding to the given channel, with nothing sent or written yet. |
| Client.Client.ReadLine | server/src/client.rs:38-51 | One line is consumed. It is forwarded, trimmed, to the current target unless it is blank. The writer side is untouched. |
| Client.Client.Reader | server/src/client.rs:33-52 | Until the stream ends, the events sent are `Messages` of every line read, all addressed to the current target. |
| Client.Client.WriteAction | server/src/client.rs:58-67 | A `Send` writes its result. A `Join` changes only the reader's target. |
| Client.Client.Writer | server/src/client.rs:53-69 | After a run of actions, the stream holds exactly their `Outputs` and the target is their `Retarget`. The reader side is untouched. |

## Left out

- Concurrency. Every actor's mailbox loop (`while let Some(event)`) is modelled as one handler call per event. Task spawning, mailbox delivery and the interleaving of actors are not modelled. Each actor's sends are kept in its own log rather than delivered.
- The `Mutex` and `Arc` shared by a connection's reader and writer. The shared cell is a field that `WriteAction` sets and `ReadLine` reads.
- Client.Client.Reader: runs the reader to the end of the stream with no writer turn in between. Interleavings are expressed by calling `ReadLine` and `WriteAction` in any order.
- Network I/O. Streams are opaque identities, and an input stream is a sequence of lines. Read errors, which panic through `unwrap`, are not modelled.
- Writes. A written result is kept as a `ClientResult` value, not as bytes. A channel's JSON snapshot is kept as the structured `Snapshot` value, so serialisation is not modelled. The snapshot's users are a set, because hash-map order is unspecified.
- `Local::now()`. It is a parameter (`now`) of the handler that uses it.
- Failed sends. Every `unwrap` on a mailbox send assumes the send succeeds.
- Panics on JOIN. The `unwrap`s in `channel.rs` `join` panic when the member is missing (`channel.rs:172`, `:181`) or the argument is blank after trimming (`channel.rs:157`). They are preconditions (`Channel.Channel.Admissible`), not modelled panics.
- Strings as text. Strings are `seq<char>`, so byte-offset slicing and its panic on a split UTF-8 character are not modelled. Rust's `len()` counts bytes while the model counts characters; for the ASCII keywords and sigils these agree.
- `IRC::connection` (`irc.rs:29-31`). It only sends a `Connection` event to the hub; `Irc.IRC.Handle` covers what the hub does with it.
- The writer task that `channels.rs:38-43` spawns per member. The member map holds the writer stream itself, and a line sent is appended to the room's log.
- The commented-out `Channel::join` in `channels.rs:70-83`. It is not compiled.
- Fresh mailboxes. A new mailbox from `mpsc::unbounded()` is modelled by a counter of identities. `SpawnChannel` does not record the hub mailbox it passes, which is always the hub's own.
- Other programs. `server/src/main.rs`, `server/src/main.old.rs` and `client/src/main.rs` are not part of this model.
- Cross-actor properties. Nickname uniqueness across channels and a JOIN's full round trip through the hub back to a channel are not modelled.
