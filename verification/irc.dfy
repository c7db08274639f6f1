/** The hub actor (server/src/irc.rs): the registry from channel name to
    channel mailbox, lookup-or-create on JOIN, and forwarding of new
    connections to the lobby. Sends are appended to an outbox log. */
module Irc {
  import opened Prelude
  import Channel

  /** A send made by the hub. `SpawnChannel` is `Channel::new`: a channel task
      started with the given info, reachable through the given handle. */
  datatype HubOp =
    | SpawnChannel(handle: ChannelHandle, info: Channel.ChannelInfo)
    | Forward(to: ChannelHandle, event: Event)

  /** The hub's state as a value. `spawned` records the info every channel
      task was started with, the lobby's included; `next` is the first
      mailbox id not yet handed out, standing for the allocation of a fresh
      mailbox. */
  datatype Registry = Registry(
    hub: ChannelHandle,
    hall: ChannelHandle,
    channels: map<string, ChannelHandle>,
    spawned: map<ChannelHandle, Channel.ChannelInfo>,
    next: nat)

  /** The registry invariant: every registered handle belongs to a spawned
      channel whose name is its key; the lobby is spawned but registered
      under no name; every id in use is below `next`. */
  ghost predicate Consistent(r: Registry)
  {
    && r.hub.id < r.next && r.hub !in r.spawned
    && r.hall in r.spawned && r.spawned[r.hall] == Channel.NewInfo(HALL, HALL_ADMIN, MAX_CLIENTS)
    && (forall h :: h in r.spawned ==> h.id < r.next)
    && (forall k :: k in r.channels ==>
          r.channels[k] in r.spawned && r.channels[k] != r.hall && r.spawned[r.channels[k]].name == k)
  }

  /** The hub as started: an empty registry and the lobby, administered by
      the server, spawned with the system-wide capacity. */
  function Start(): (s: (Registry, seq<HubOp>))
    ensures Consistent(s.0) && s.0.channels == map[]
    ensures s.1 == [SpawnChannel(s.0.hall, Channel.NewInfo(HALL, HALL_ADMIN, MAX_CLIENTS))]
  {
    var hall := ChannelHandle(1);
    var info := Channel.NewInfo(HALL, HALL_ADMIN, MAX_CLIENTS);
    (Registry(ChannelHandle(0), hall, map[], map[hall := info], 2), [SpawnChannel(hall, info)])
  }

  /** Lookup-or-create for `Command::Join`. An existing entry is kept and
      receives the attach request; an absent name gets a fresh channel with
      the joiner as admin, which is spawned, sent the attach request and then
      registered. Nothing else in the registry changes. */
  function JoinStep(r: Registry, nick: Nick, name: string, sender: ClientHandle): (out: (Registry, seq<HubOp>))
    ensures out.0.hub == r.hub && out.0.hall == r.hall
    ensures out.0.channels.Keys == r.channels.Keys + {name}
    ensures forall k :: k in r.channels ==> out.0.channels[k] == r.channels[k]
    ensures |out.0.channels| == |r.channels| + (if name in r.channels then 0 else 1)
    ensures name in r.channels ==> out.0 == r && out.1 == [Forward(r.channels[name], Event.Client(nick, sender))]
    ensures name !in r.channels ==>
              out.1 == [SpawnChannel(out.0.channels[name], Channel.NewInfo(name, nick, MAX_CLIENTS)),
                        Forward(out.0.channels[name], Event.Client(nick, sender))]
  {
    var event := Event.Client(nick, sender);
    if name in r.channels then
      (r, [Forward(r.channels[name], event)])
    else
      var h := ChannelHandle(r.next);
      var info := Channel.NewInfo(name, nick, MAX_CLIENTS);
      assert r.channels[name := h].Keys == r.channels.Keys + {name};
      (r.(channels := r.channels[name := h], spawned := r.spawned[h := info], next := r.next + 1),
       [SpawnChannel(h, info), Forward(h, event)])
  }

  /** The registry and sends of a join for a name not yet registered. */
  lemma JoinStepNew(r: Registry, nick: Nick, name: string, sender: ClientHandle)
    requires name !in r.channels
    ensures var h := ChannelHandle(r.next);
            var info := Channel.NewInfo(name, nick, MAX_CLIENTS);
            JoinStep(r, nick, name, sender)
            == (r.(channels := r.channels[name := h], spawned := r.spawned[h := info], next := r.next + 1),
                [SpawnChannel(h, info), Forward(h, Event.Client(nick, sender))])
  {
  }

  /** A join keeps the registry consistent; a channel it creates has a
      mailbox distinct from every one spawned before and from the hub's. */
  lemma JoinPreservesConsistency(r: Registry, nick: Nick, name: string, sender: ClientHandle)
    requires Consistent(r)
    ensures Consistent(JoinStep(r, nick, name, sender).0)
    ensures name !in r.channels ==>
              var h := JoinStep(r, nick, name, sender).0.channels[name];
              h !in r.spawned && h != r.hub && h != r.hall
  {
    if name !in r.channels {
      var r' := JoinStep(r, nick, name, sender).0;
      var h := ChannelHandle(r.next);
      assert r'.channels[name] == h && r'.spawned == r.spawned[h := Channel.NewInfo(name, nick, MAX_CLIENTS)];
      assert h !in r.spawned;
    }
  }

  /** In a consistent registry distinct names address distinct channels. */
  lemma NamesAddressDistinctChannels(r: Registry, a: string, b: string)
    requires Consistent(r) && a in r.channels && b in r.channels && a != b
    ensures r.channels[a] != r.channels[b]
  {
    assert r.spawned[r.channels[a]].name == a && r.spawned[r.channels[b]].name == b;
  }

  /** No name reaches the lobby: a join for any name, "HALL" included, is
      forwarded to a channel other than the lobby. */
  lemma LobbyNotAddressable(r: Registry, nick: Nick, name: string, sender: ClientHandle)
    requires Consistent(r)
    ensures var out := JoinStep(r, nick, name, sender);
            out.1[|out.1| - 1] == Forward(out.0.channels[name], Event.Client(nick, sender))
            && out.0.channels[name] != r.hall
  {
    JoinPreservesConsistency(r, nick, name, sender);
  }

  /** Two joins to the same new name, one after the other, create one
      channel, administered by the first joiner; the second join only
      forwards its attach request to that channel. */
  lemma TwoJoinsCreateOne(r: Registry, first: Nick, second: Nick, name: string, s1: ClientHandle, s2: ClientHandle)
    requires name !in r.channels
    ensures var (r1, o1) := JoinStep(r, first, name, s1);
            var (r2, o2) := JoinStep(r1, second, name, s2);
            && r2 == r1
            && |r2.channels| == |r.channels| + 1
            && o1[0] == SpawnChannel(r1.channels[name], Channel.NewInfo(name, first, MAX_CLIENTS))
            && o2 == [Forward(r1.channels[name], Event.Client(second, s2))]
  {
  }

  /** A request sequence handled one join at a time. */
  function JoinAll(r: Registry, reqs: seq<Command>): Registry
    decreases |reqs|
  {
    if reqs == [] then r
    else JoinAll(JoinStep(r, reqs[0].nick, reqs[0].channel, reqs[0].sender).0, reqs[1..])
  }

  /** Over any sequence of joins, entries are never overwritten or removed,
      the names registered are the old ones plus the requested ones, and the
      registry grows by at most one entry per join. */
  lemma {:induction false} JoinsOnlyAdd(r: Registry, reqs: seq<Command>)
    ensures var r' := JoinAll(r, reqs);
            && (forall k :: k in r.channels ==> k in r'.channels && r'.channels[k] == r.channels[k])
            && (forall k :: k in r'.channels <==> k in r.channels || exists i :: 0 <= i < |reqs| && reqs[i].channel == k)
            && |r'.channels| <= |r.channels| + |reqs|
    decreases |reqs|
  {
    if reqs != [] {
      var r1 := JoinStep(r, reqs[0].nick, reqs[0].channel, reqs[0].sender).0;
      JoinsOnlyAdd(r1, reqs[1..]);
      var r' := JoinAll(r, reqs);
      assert r' == JoinAll(r1, reqs[1..]);
      forall k ensures k in r'.channels <==> k in r.channels || exists i :: 0 <= i < |reqs| && reqs[i].channel == k {
        if exists j :: 0 <= j < |reqs[1..]| && reqs[1..][j].channel == k {
          var j :| 0 <= j < |reqs[1..]| && reqs[1..][j].channel == k;
          assert reqs[j + 1].channel == k;
        }
        if exists i :: 0 <= i < |reqs| && reqs[i].channel == k {
          var i :| 0 <= i < |reqs| && reqs[i].channel == k;
          if i > 0 { assert reqs[1..][i - 1].channel == k; }
        }
      }
    }
  }

  class IRC {
    /** The hub's own mailbox sender, given to every channel it spawns. */
    const mailbox: ChannelHandle
    /** The lobby's mailbox sender; kept apart from the registry. */
    const hall: ChannelHandle
    var channels: map<string, ChannelHandle>
    ghost var spawned: map<ChannelHandle, Channel.ChannelInfo>
    var next: nat
    /** Every send the hub has made, oldest first. */
    var outbox: seq<HubOp>

    ghost function State(): Registry
      reads this
    {
      Registry(mailbox, hall, channels, spawned, next)
    }

    ghost predicate Valid()
      reads this
    {
      Consistent(State())
    }

    /** `IRC::start` together with the start of the hub's loop, which
        spawns the lobby. */
    constructor ()
      ensures Valid() && State() == Start().0 && outbox == Start().1
    {
      mailbox := ChannelHandle(0);
      hall := ChannelHandle(1);
      var info := Channel.NewInfo(HALL, HALL_ADMIN, MAX_CLIENTS);
      channels := map[];
      spawned := map[ChannelHandle(1) := info];
      next := 2;
      outbox := [SpawnChannel(ChannelHandle(1), info)];
    }

    /** One turn of the hub's loop: a connection goes to the lobby as it
        is, a command is run, chat lines and attach events are ignored. */
    method Handle(e: Event)
      requires Valid()
      modifies this
      ensures Valid()
      ensures e.Connection? ==> State() == old(State()) && outbox == old(outbox) + [Forward(hall, e)]
      ensures e.Command? ==>
                var (r, sent) := JoinStep(old(State()), e.command.nick, e.command.channel, e.command.sender);
                State() == r && outbox == old(outbox) + sent
      ensures e.Message? || e.Client? ==> State() == old(State()) && outbox == old(outbox)
    {
      match e {
        case Connection(stream) =>
          outbox := outbox + [Forward(hall, Event.Connection(stream))];
        case Command(command) =>
          RunCommand(command);
        case _ =>
      }
    }

    method RunCommand(command: Command)
      requires Valid()
      modifies this
      ensures Valid()
      ensures var (r, sent) := JoinStep(old(State()), command.nick, command.channel, command.sender);
              State() == r && outbox == old(outbox) + sent
    {
      match command {
        case Join(nick, channel, sender) =>
          Join(nick, channel, sender);
      }
    }

    /** Lookup-or-create of `channelName` for `nick`. */
    method Join(nick: Nick, channelName: string, sender: ClientHandle)
      requires Valid()
      modifies this
      ensures Valid()
      ensures var (r, sent) := JoinStep(old(State()), nick, channelName, sender);
              State() == r && outbox == old(outbox) + sent
    {
      JoinPreservesConsistency(State(), nick, channelName, sender);
      var event := Event.Client(nick, sender);
      if channelName in channels {
        outbox := outbox + [Forward(channels[channelName], event)];
      } else {
        JoinStepNew(State(), nick, channelName, sender);
        var channel := ChannelHandle(next);
        var info := Channel.NewInfo(channelName, nick, MAX_CLIENTS);
        next := next + 1;
        spawned := spawned[channel := info];
        outbox := outbox + [SpawnChannel(channel, info)];
        outbox := outbox + [Forward(channel, event)];
        channels := channels[channelName := channel];
      }
    }
  }
}
