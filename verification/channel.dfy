/** One chat room actor (server/src/channel.rs). The actor drains its own
    mailbox one event at a time; here each handler is a method on the
    actor's state, and every mailbox send it makes is appended to `outbox`. */
module Channel {
  import opened Prelude
  import opened Text
  import Multicast

  datatype ChannelInfo = ChannelInfo(name: string, topic: string, admin: string, capacity: nat)

  /** The info `Channel::new` builds: the given fields and the default topic,
      whatever the caller passes. */
  function NewInfo(name: string, admin: string, capacity: nat): (i: ChannelInfo)
    ensures i.name == name && i.admin == admin && i.capacity == capacity
    ensures i.topic == DEFAULT_TOPIC
  {
    ChannelInfo(name, DEFAULT_TOPIC, admin, capacity)
  }

  /** The fields the channel serialises for a newcomer: its info and the
      nicknames currently in its member map. */
  function SnapshotOf(info: ChannelInfo, clients: map<Nick, ClientHandle>): (s: Snapshot)
    ensures s.name == info.name && s.topic == info.topic && s.admin == info.admin && s.capacity == info.capacity
    ensures forall n :: n in s.users <==> n in clients
  {
    Snapshot(info.name, info.topic, info.admin, info.capacity, clients.Keys)
  }

  /** The first member of a channel the hub has just created is told the
      channel's name, the default topic, that it is the admin, the
      system-wide capacity, and that nobody else is in it. */
  lemma FirstJoinerSnapshot(name: string, nick: Nick)
    ensures SnapshotOf(NewInfo(name, nick, MAX_CLIENTS), map[]) == Snapshot(name, DEFAULT_TOPIC, nick, MAX_CLIENTS, {})
  {
  }

  /** A send made by a channel actor. `ToClient` records the member-map key
      the handle was taken under; `ToHub` goes to the hub's mailbox;
      `SpawnConnection` starts the connection task pair for a new stream,
      with `channel` as the reader's first target and as the mailbox the task
      reports back to with an `Event.Client`. */
  datatype Outgoing =
    | ToClient(nick: Nick, client: ClientHandle, action: Action)
    | ToHub(event: Event)
    | SpawnConnection(stream: Stream, channel: ChannelHandle)

  /** The nicknames addressed by a list of sends, in order. A send that is
      not `ToClient` addresses nobody and stands as `""` here, a placeholder
      that can clash with a real empty nickname; every use below is on sends
      that are all `ToClient`. */
  function Recipients(sent: seq<Outgoing>): (rs: seq<Nick>)
    ensures |rs| == |sent|
  {
    seq(|sent|, i requires 0 <= i < |sent| => if sent[i].ToClient? then sent[i].nick else "")
  }

  /** A line is a command when one of the keywords is a prefix of it; no
      separator after the keyword is needed. */
  function IsCommand(msg: string): (b: bool)
    ensures b <==> |msg| >= 4 && (msg[..4] == JOIN || msg[..4] == KICK)
  {
    exists c | c in COMMANDS :: |msg| >= |c| && msg[..|c|] == c
  }

  /** The first keyword of `cmds` that is a prefix of `cmd`, trying them in
      table order. Slicing `cmd` to a keyword's length fails when `cmd` is
      shorter, hence the precondition. */
  function Find(cmds: seq<string>, cmd: string): (op: Option<string>)
    requires forall c :: c in cmds ==> |c| <= |cmd|
    ensures op.Some? ==> op.value in cmds && cmd[..|op.value|] == op.value
    ensures op.None? ==> forall c :: c in cmds ==> cmd[..|c|] != c
    ensures cmds != [] && cmd[..|cmds[0]|] == cmds[0] ==> op == Some(cmds[0])
  {
    if cmds == [] then None
    else if cmd[..|cmds[0]|] == cmds[0] then Some(cmds[0])
    else Find(cmds[1..], cmd)
  }

  /** The keyword `run_command` dispatches on. */
  function FindCommand(cmd: string): (op: Option<string>)
    requires |cmd| >= 4
    ensures op == Some(JOIN) <==> cmd[..4] == JOIN
    ensures op == Some(KICK) <==> cmd[..4] == KICK
    ensures op.None? <==> !IsCommand(cmd)
  {
    Find(COMMANDS, cmd)
  }

  /** Drops the four keyword characters, trims, and accepts the rest when it
      starts with `#` or `&` and holds no space; the accepted name is the rest
      without its sigil. There is no length limit. An argument that is empty
      after trimming makes `parse_channel_name` panic, hence the precondition. */
  function ParseChannelName(name: string): (r: Result<string>)
    requires |name| >= 4 && Trim(name[4..]) != []
    ensures r.Ok? <==> Trim(name[4..])[0] in {'#', '&'} && ' ' !in Trim(name[4..])
    ensures r.Ok? ==> [Trim(name[4..])[0]] + r.value == Trim(name[4..]) && ' ' !in r.value
  {
    var channel := Trim(name[4..]);
    if channel[0] == '#' || channel[0] == '&' then
      if ' ' in channel then Err else Ok(channel[1..])
    else
      Err
  }

  /** Whatever whitespace follows the keyword, `#n` and `&n` both parse to
      `n` for every `n` without spaces that does not end in whitespace, of
      any length. */
  lemma ParseAcceptsEitherSigil(pad: string, sigil: char, n: string)
    requires AllWhitespace(pad) && sigil in {'#', '&'}
    requires ' ' !in n && (n == [] || !IsWhitespace(n[|n| - 1]))
    ensures |JOIN + pad + [sigil] + n| >= 4
    ensures Trim((JOIN + pad + [sigil] + n)[4..]) != []
    ensures ParseChannelName(JOIN + pad + [sigil] + n) == Ok(n)
  {
    var msg := JOIN + pad + [sigil] + n;
    assert msg[4..] == pad + ([sigil] + n);
    SigilArgumentIsClean(pad, sigil, n);
  }

  lemma SigilArgumentIsClean(pad: string, sigil: char, n: string)
    requires AllWhitespace(pad) && sigil in {'#', '&'}
    requires n == [] || !IsWhitespace(n[|n| - 1])
    ensures Trim(pad + ([sigil] + n)) == [sigil] + n
  {
    var arg := [sigil] + n;
    assert arg[0] == sigil && !IsWhitespace(sigil);
    assert arg[|arg| - 1] == if n == [] then sigil else n[|n| - 1];
    TrimPadded(pad, arg);
  }

  /** The sends of a broadcast of `r` from `sender`: each is `Send(r)` to the
      handle the member map holds for its recipient, and the recipients are
      every member but the sender, once each, in some order. */
  ghost predicate Broadcasted(sent: seq<Outgoing>, members: map<Nick, ClientHandle>, sender: Nick, r: ClientResult)
  {
    && (forall i :: 0 <= i < |sent| ==>
          sent[i].ToClient? && sent[i].nick in members
          && sent[i].client == members[sent[i].nick] && sent[i].action == Action.Send(r))
    && Multicast.OncePerTarget(Recipients(sent), members.Keys - {sender})
  }

  /** A broadcast gives every member other than the sender exactly one copy
      and the sender none; the sender need not be a member. */
  lemma BroadcastExactlyOnce(sent: seq<Outgoing>, members: map<Nick, ClientHandle>, sender: Nick, r: ClientResult)
    requires Broadcasted(sent, members, sender, r)
    ensures forall n :: Multicast.Occurrences(Recipients(sent), n) == if n in members && n != sender then 1 else 0
    ensures Multicast.Occurrences(Recipients(sent), sender) == 0
    ensures |sent| == |members.Keys - {sender}|
  {
    Multicast.OncePerTargetCount(Recipients(sent), members.Keys - {sender});
  }

  class Channel {
    /** Never reassigned by any handler. */
    const info: ChannelInfo
    /** This channel's own mailbox sender, handed to newcomers. */
    const mailbox: ChannelHandle
    /** The hub's mailbox sender. */
    const hub: ChannelHandle
    /** The member map: nickname to that connection's writer mailbox. */
    var clients: map<Nick, ClientHandle>
    /** Every send this actor has made, oldest first. */
    var outbox: seq<Outgoing>

    constructor (name: string, admin: string, capacity: nat, mailbox: ChannelHandle, hub: ChannelHandle)
      ensures info == NewInfo(name, admin, capacity) && info.topic == DEFAULT_TOPIC
      ensures this.mailbox == mailbox && this.hub == hub
      ensures clients == map[] && outbox == []
    {
      info := NewInfo(name, admin, capacity);
      this.mailbox := mailbox;
      this.hub := hub;
      clients := map[];
      outbox := [];
    }

    /** A JOIN line from `nick` is handled without reaching a failed unwrap:
        `nick` is a member and the argument is not blank. */
    predicate Admissible(nick: Nick, msg: string)
      reads this
    {
      IsCommand(msg) && msg[..4] == JOIN ==> nick in clients && !AllWhitespace(msg[4..])
    }

    /** State after attaching `nick` from map `c0` and log `o0`: the newcomer
        is told to forward to this channel, then sent a snapshot listing the
        members before insertion, then stored (overwriting any old entry). */
    ghost predicate Attached(c0: map<Nick, ClientHandle>, o0: seq<Outgoing>, nick: Nick, sender: ClientHandle)
      reads this
    {
      && clients == c0[nick := sender]
      && outbox == o0 + [ToClient(nick, sender, Action.Join(mailbox)),
                         ToClient(nick, sender, Action.Send(ClientResult.CommandSuccess(SnapshotOf(info, c0))))]
    }

    /** State after a JOIN line from `nick`: with a valid name the member
        leaves and one request goes to the hub; otherwise the member stays
        and alone receives the invalid-name failure. */
    ghost predicate Joined(c0: map<Nick, ClientHandle>, o0: seq<Outgoing>, nick: Nick, msg: string)
      requires |msg| >= 4 && !AllWhitespace(msg[4..]) && nick in c0
      reads this
    {
      match ParseChannelName(msg)
      case Ok(name) =>
        && clients == c0 - {nick}
        && outbox == o0 + [ToHub(Event.Command(Command.Join(nick, name, c0[nick])))]
      case Err =>
        && clients == c0
        && outbox == o0 + [ToClient(nick, c0[nick], Action.Send(InvalidChannelName()))]
    }

    /** State after a line `msg` from `nick`: plain text is broadcast and the
        map is unchanged; JOIN behaves as `Joined`; KICK changes nothing. */
    ghost predicate MessageHandled(c0: map<Nick, ClientHandle>, o0: seq<Outgoing>, nick: Nick, msg: string, now: Time)
      requires IsCommand(msg) && msg[..4] == JOIN ==> nick in c0 && !AllWhitespace(msg[4..])
      reads this
    {
      if !IsCommand(msg) then
        && clients == c0
        && |o0| <= |outbox| && outbox[..|o0|] == o0
        && Broadcasted(outbox[|o0|..], c0, nick, ClientResult.Message(now, nick, msg))
      else if msg[..4] == JOIN then
        Joined(c0, o0, nick, msg)
      else
        clients == c0 && outbox == o0
    }

    /** One turn of the actor's event loop. */
    method Handle(e: Event, now: Time)
      requires e.Message? ==> Admissible(e.nick, e.msg)
      modifies this
      ensures e.Connection? ==> clients == old(clients) && outbox == old(outbox) + [SpawnConnection(e.stream, mailbox)]
      ensures e.Message? ==> MessageHandled(old(clients), old(outbox), e.nick, e.msg, now)
      ensures e.Client? ==> Attached(old(clients), old(outbox), e.nick, e.sender)
      ensures e.Command? ==> clients == old(clients) && outbox == old(outbox)
    {
      match e {
        case Connection(stream) =>
          outbox := outbox + [SpawnConnection(stream, mailbox)];
        case Message(nick, msg) =>
          SendMsg(nick, msg, now);
        case Client(nick, sender) =>
          Attach(nick, sender);
        case Command(_) =>
      }
    }

    /** Registers a connection under `nick`, with no capacity or duplicate check. */
    method Attach(nick: Nick, sender: ClientHandle)
      modifies this
      ensures Attached(old(clients), old(outbox), nick, sender)
    {
      outbox := outbox + [ToClient(nick, sender, Action.Join(mailbox))];
      var data := SnapshotOf(info, clients);
      outbox := outbox + [ToClient(nick, sender, Action.Send(ClientResult.CommandSuccess(data)))];
      clients := clients[nick := sender];
    }

    /** Handles a line from `nick`: a command goes to `RunCommand`; anything
        else goes, stamped with `now`, to every member but `nick`. */
    method SendMsg(nick: Nick, msg: string, now: Time)
      requires Admissible(nick, msg)
      modifies this
      ensures MessageHandled(old(clients), old(outbox), nick, msg, now)
    {
      if IsCommand(msg) {
        RunCommand(nick, msg);
      } else {
        Broadcast(nick, ClientResult.Message(now, nick, msg));
      }
    }

    /** The loop over the member map: `r` goes to every member whose key is
        not `sender`, in the map's (unspecified) order. */
    method Broadcast(sender: Nick, r: ClientResult)
      modifies this
      ensures clients == old(clients)
      ensures |old(outbox)| <= |outbox| && outbox[..|old(outbox)|] == old(outbox)
      ensures Broadcasted(outbox[|old(outbox)|..], clients, sender, r)
    {
      var todo := clients.Keys;
      ghost var done: set<Nick> := {};
      ghost var start := |outbox|;
      while todo != {}
        invariant todo !! done && todo + done == clients.Keys
        invariant clients == old(clients)
        invariant start == |old(outbox)| <= |outbox| && outbox[..start] == old(outbox)
        invariant forall i :: start <= i < |outbox| ==>
                    outbox[i].ToClient? && outbox[i].nick in clients
                    && outbox[i].client == clients[outbox[i].nick] && outbox[i].action == Action.Send(r)
        invariant Multicast.OncePerTarget(Recipients(outbox[start..]), done - {sender})
        decreases todo
      {
        var n :| n in todo;
        if n != sender {
          ghost var before := outbox[start..];
          outbox := outbox + [ToClient(n, clients[n], Action.Send(r))];
          assert outbox[start..] == before + [ToClient(n, clients[n], Action.Send(r))];
          assert Recipients(outbox[start..]) == Recipients(before) + [n];
          Multicast.Extend(Recipients(before), done - {sender}, n);
        }
        todo := todo - {n};
        done := done + {n};
      }
      assert done - {sender} == clients.Keys - {sender};
    }

    /** Dispatches a command line to its handler by its keyword. */
    method RunCommand(nick: Nick, cmd: string)
      requires IsCommand(cmd) && Admissible(nick, cmd)
      modifies this
      ensures cmd[..4] == JOIN ==> Joined(old(clients), old(outbox), nick, cmd)
      ensures cmd[..4] != JOIN ==> clients == old(clients) && outbox == old(outbox)
    {
      var op := FindCommand(cmd);
      match op {
        case Some(keyword) =>
          if keyword == JOIN {
            Join(nick, cmd);
          } else if keyword == KICK {
            Kick(nick, cmd);
          }
        case None =>
      }
    }

    /** KICK looks the target up and then does nothing in either case. */
    method Kick(nick: Nick, msg: string)
      requires |msg| >= 4
      ensures clients == old(clients) && outbox == old(outbox)
    {
      var kicked := Trim(msg[4..]);
      if kicked in clients {
      } else {
      }
    }

    /** Moves `nick` to the channel named in `msg`, or reports a bad name. */
    method Join(nick: Nick, msg: string)
      requires |msg| >= 4 && !AllWhitespace(msg[4..]) && nick in clients
      modifies this
      ensures Joined(old(clients), old(outbox), nick, msg)
    {
      match ParseChannelName(msg) {
        case Ok(channel) =>
          var client := clients[nick];
          clients := clients - {nick};
          outbox := outbox + [ToHub(Event.Command(Command.Join(nick, channel, client)))];
        case Err =>
          var client := clients[nick];
          outbox := outbox + [ToClient(nick, client, Action.Send(InvalidChannelName()))];
      }
    }
  }
}
