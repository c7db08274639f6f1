/** The older membership container (server/src/channels.rs): a room that
    enforces its capacity and rejects duplicate nicknames, and a list of such
    rooms. Each member is reached through the writer half of its stream; a
    line sent to a member is appended to the room's outbox. */
module Channels {
  import opened Prelude
  import Multicast

  /** A text line queued for one member's writer. */
  datatype Line = Line(nick: Nick, writer: Stream, text: string)

  function Recipients(sent: seq<Line>): (rs: seq<Nick>)
    ensures |rs| == |sent|
  {
    seq(|sent|, i requires 0 <= i < |sent| => sent[i].nick)
  }

  class Channel {
    const name: string
    const topic: string
    const capacity: nat
    var clients: map<Nick, Stream>
    /** Every line this room has queued, oldest first. */
    var outbox: seq<Line>

    /** Starting from `new`, the room never holds more members than its capacity. */
    ghost predicate Valid()
      reads this
    {
      |clients| <= capacity
    }

    /** An empty room with an empty topic. */
    constructor (name: string, capacity: nat)
      ensures Valid()
      ensures this.name == name && this.capacity == capacity && topic == ""
      ensures clients == map[] && outbox == []
    {
      this.name := name;
      topic := "";
      this.capacity := capacity;
      clients := map[];
      outbox := [];
    }

    /** Adds `nick` unless the room is full or the nickname is taken; a
        refusal leaves the room as it was. */
    method Insert(nick: Nick, writer: Stream) returns (r: Result<()>)
      requires Valid()
      modifies this
      ensures Valid() && outbox == old(outbox)
      ensures r.Err? <==> |old(clients)| == capacity || nick in old(clients)
      ensures r.Err? ==> clients == old(clients)
      ensures r.Ok? ==> clients == old(clients)[nick := writer] && |clients| == |old(clients)| + 1
    {
      if capacity == |clients| {
        return Err;
      }
      if nick in clients {
        return Err;
      }
      clients := clients[nick := writer];
      return Ok(());
    }

    /** Queues `msg` for every member but `nick`, only when `nick` is a
        member; the member map is left as it was. */
    method Send(nick: Nick, msg: string)
      modifies this
      ensures clients == old(clients)
      ensures |old(outbox)| <= |outbox| && outbox[..|old(outbox)|] == old(outbox)
      ensures forall i :: |old(outbox)| <= i < |outbox| ==>
                outbox[i].nick in clients && outbox[i].writer == clients[outbox[i].nick] && outbox[i].text == msg
      ensures Multicast.OncePerTarget(Recipients(outbox[|old(outbox)|..]), if nick in clients then clients.Keys - {nick} else {})
    {
      if nick in clients {
        var todo := clients.Keys;
        ghost var done: set<Nick> := {};
        ghost var start := |outbox|;
        while todo != {}
          invariant todo !! done && todo + done == clients.Keys
          invariant clients == old(clients)
          invariant start == |old(outbox)| <= |outbox| && outbox[..start] == old(outbox)
          invariant forall i :: start <= i < |outbox| ==>
                      outbox[i].nick in clients && outbox[i].writer == clients[outbox[i].nick] && outbox[i].text == msg
          invariant Multicast.OncePerTarget(Recipients(outbox[start..]), done - {nick})
          decreases todo
        {
          var n :| n in todo;
          if n != nick {
            ghost var before := outbox[start..];
            outbox := outbox + [Line(n, clients[n], msg)];
            assert outbox[start..] == before + [Line(n, clients[n], msg)];
            assert Recipients(outbox[start..]) == Recipients(before) + [n];
            Multicast.Extend(Recipients(before), done - {nick}, n);
          }
          todo := todo - {n};
          done := done + {n};
        }
        assert done - {nick} == clients.Keys - {nick};
      } else {
        assert outbox[|old(outbox)|..] == [];
      }
    }

    /** Takes `nick` out, returning its writer if it was there; every other
        entry stays. */
    method Remove(nick: Nick) returns (r: Option<Stream>)
      requires Valid()
      modifies this
      ensures Valid() && outbox == old(outbox)
      ensures r == (if nick in old(clients) then Some(old(clients)[nick]) else None)
      ensures clients == old(clients) - {nick}
    {
      r := if nick in clients then Some(clients[nick]) else None;
      clients := clients - {nick};
    }

    /** The member nicknames. */
    function Nicks(): (r: set<Nick>)
      reads this
      ensures forall n :: n in r <==> n in clients
    {
      clients.Keys
    }
  }

  /** A list of rooms, with no uniqueness of names. */
  class Channels {
    var channels: seq<Channel>

    constructor ()
      ensures channels == []
    {
      channels := [];
    }

    /** Appends a new empty room, whether or not the name is already used. */
    method Insert(name: string, size: nat)
      modifies this
      ensures |channels| == |old(channels)| + 1 && channels[..|old(channels)|] == old(channels)
      ensures var c := channels[|channels| - 1];
              fresh(c) && c.name == name && c.capacity == size && c.topic == ""
              && c.clients == map[] && c.outbox == [] && c.Valid()
    {
      var c := new Channel(name, size);
      channels := channels + [c];
    }

    /** A stub: no room is looked up and nothing is joined. */
    method Join(name: string, nick: Nick, stream: Stream) returns (r: Option<string>)
      ensures r == None
    {
      r := None;
    }
  }
}
