/** A connection's task pair (server/src/client.rs). The stream is a
    sequence of lines in and a sequence of results out. The reader turns
    lines into chat events for whichever channel the shared cell names; the
    writer carries out the actions it is sent, which either write a result or
    change that cell. */
module Client {
  import opened Prelude
  import opened Text

  /** An event the reader has sent, with the channel mailbox it went to. */
  datatype Forward = Forward(to: ChannelHandle, event: Event)

  /** The events the reader makes of `lines`: each line trimmed, blank ones
      dropped, the rest tagged with `nick`, in input order. */
  function Messages(nick: Nick, lines: seq<string>): (es: seq<Event>)
    ensures |es| <= |lines|
    decreases |lines|
  {
    if lines == [] then [] else Chat(nick, lines[0]) + Messages(nick, lines[1..])
  }

  /** What one line becomes: nothing when it is blank after trimming, else
      one chat event with the trimmed text. */
  function Chat(nick: Nick, line: string): (es: seq<Event>)
    ensures es == [] <==> AllWhitespace(line)
    ensures |es| <= 1 && (es != [] ==> es[0] == Event.Message(nick, Trim(line)) && es[0].msg != [])
  {
    var msg := Trim(line);
    if msg == [] then [] else [Event.Message(nick, msg)]
  }

  /** Every event the reader makes is a chat line from `nick` whose text is
      non-empty and already trimmed. */
  lemma {:induction false} MessagesWellFormed(nick: Nick, lines: seq<string>)
    ensures forall e :: e in Messages(nick, lines) ==>
              e.Message? && e.nick == nick && e.msg != [] && Trim(e.msg) == e.msg
    decreases |lines|
  {
    if lines != [] {
      MessagesWellFormed(nick, lines[1..]);
      TrimIdempotent(lines[0]);
      assert Messages(nick, lines) == Chat(nick, lines[0]) + Messages(nick, lines[1..]);
    }
  }

  /** Reading a stream in two parts yields the events of each part, in order. */
  lemma {:induction false} MessagesAppend(nick: Nick, a: seq<string>, b: seq<string>)
    ensures Messages(nick, a + b) == Messages(nick, a) + Messages(nick, b)
    decreases |a|
  {
    if a != [] {
      var head := Chat(nick, a[0]);
      assert (a + b)[0] == a[0] && (a + b)[1..] == a[1..] + b;
      assert Messages(nick, a + b) == head + Messages(nick, a[1..] + b);
      MessagesAppend(nick, a[1..], b);
      assert Messages(nick, a) == head + Messages(nick, a[1..]);
    } else {
      assert a + b == b;
    }
  }

  /** One line yields nothing when it is all whitespace, and otherwise
      exactly one chat event carrying the trimmed line. */
  lemma MessagesOfLine(nick: Nick, line: string)
    ensures Messages(nick, [line]) == if AllWhitespace(line) then [] else [Event.Message(nick, Trim(line))]
  {
    assert [line][1..] == [];
  }

  /** `events`, each sent to `to`. */
  function SentTo(to: ChannelHandle, events: seq<Event>): seq<Forward>
  {
    seq(|events|, i requires 0 <= i < |events| => Forward(to, events[i]))
  }

  lemma SentToAppend(to: ChannelHandle, a: seq<Event>, b: seq<Event>)
    ensures SentTo(to, a + b) == SentTo(to, a) + SentTo(to, b)
  {
  }

  lemma Associative(a: seq<Forward>, b: seq<Forward>, c: seq<Forward>)
    ensures (a + b) + c == a + (b + c)
  {
  }

  /** The events of a non-empty stream are those of its first line, then
      those of the rest. */
  lemma ReadFirst(nick: Nick, to: ChannelHandle, lines: seq<string>)
    requires lines != []
    ensures SentTo(to, Messages(nick, lines))
            == SentTo(to, Messages(nick, [lines[0]])) + SentTo(to, Messages(nick, lines[1..]))
  {
    assert [lines[0]] + lines[1..] == lines;
    MessagesAppend(nick, [lines[0]], lines[1..]);
    SentToAppend(to, Messages(nick, [lines[0]]), Messages(nick, lines[1..]));
  }

  /** The results a writer writes for `actions`, in order: the payload of each
      `Send`; a `Join` writes nothing. */
  function Outputs(actions: seq<Action>): (out: seq<ClientResult>)
    ensures |out| <= |actions|
    ensures (forall i :: 0 <= i < |actions| ==> actions[i].Send?) ==>
              |out| == |actions| && forall i :: 0 <= i < |out| ==> out[i] == actions[i].result
    ensures (forall i :: 0 <= i < |actions| ==> actions[i].Join?) ==> out == []
    decreases |actions|
  {
    if actions == [] then []
    else
      match actions[0]
      case Send(r) => [r] + Outputs(actions[1..])
      case Join(_) => Outputs(actions[1..])
  }

  /** The channel the reader forwards to after `actions`, starting from `t`:
      the target of the last `Join`, or `t` when there is none. */
  function Retarget(t: ChannelHandle, actions: seq<Action>): (r: ChannelHandle)
    ensures r == t || exists i :: 0 <= i < |actions| && actions[i] == Action.Join(r)
    decreases |actions|
  {
    if actions == [] then t
    else
      match actions[0]
      case Send(_) => Retarget(t, actions[1..])
      case Join(h) => Retarget(h, actions[1..])
  }

  lemma {:induction false} OutputsAppend(a: seq<Action>, b: seq<Action>)
    ensures Outputs(a + b) == Outputs(a) + Outputs(b)
    decreases |a|
  {
    if a != [] {
      assert (a + b)[0] == a[0] && (a + b)[1..] == a[1..] + b;
      OutputsAppend(a[1..], b);
    } else {
      assert a + b == b;
    }
  }

  lemma {:induction false} RetargetAppend(t: ChannelHandle, a: seq<Action>, b: seq<Action>)
    ensures Retarget(t, a + b) == Retarget(Retarget(t, a), b)
    decreases |a|
  {
    if a != [] {
      assert (a + b)[0] == a[0] && (a + b)[1..] == a[1..] + b;
      match a[0]
      case Send(_) => RetargetAppend(t, a[1..], b);
      case Join(h) => RetargetAppend(h, a[1..], b);
    } else {
      assert a + b == b;
    }
  }

  /** Only `Join` moves the target: after `Join(h)` and any number of
      `Send`s the reader forwards to `h`. */
  lemma {:induction false} RetargetLastJoin(t: ChannelHandle, before: seq<Action>, h: ChannelHandle, after: seq<Action>)
    requires forall i :: 0 <= i < |after| ==> after[i].Send?
    ensures Retarget(t, before + [Action.Join(h)] + after) == h
  {
    RetargetAppend(t, before + [Action.Join(h)], after);
    RetargetAppend(t, before, [Action.Join(h)]);
    SendsKeepTarget(h, after);
  }

  lemma {:induction false} SendsKeepTarget(t: ChannelHandle, actions: seq<Action>)
    requires forall i :: 0 <= i < |actions| ==> actions[i].Send?
    ensures Retarget(t, actions) == t
    decreases |actions|
  {
    if actions != [] {
      assert actions[0].Send?;
      SendsKeepTarget(t, actions[1..]);
    }
  }

  class Client {
    /** The first line of the stream. */
    const nick: Nick
    /** The writer's mailbox sender, handed back to the channel. */
    const sender: ClientHandle
    /** Lines not read yet. */
    var lines: seq<string>
    /** The channel mailbox the reader forwards to; only the writer changes it. */
    var target: ChannelHandle
    /** Every event the reader has sent, oldest first. */
    var forwarded: seq<Forward>
    /** Every result the writer has written to the stream, oldest first. */
    var written: seq<ClientResult>

    /** The nickname handshake: the first line, or the empty string when the
        stream has none; the reader starts out forwarding to `channel`. */
    constructor (input: seq<string>, channel: ChannelHandle, sender: ClientHandle)
      ensures nick == (if input == [] then "" else input[0])
      ensures lines == (if input == [] then [] else input[1..])
      ensures target == channel && this.sender == sender
      ensures forwarded == [] && written == []
    {
      nick := if input == [] then "" else input[0];
      lines := if input == [] then [] else input[1..];
      target := channel;
      this.sender := sender;
      forwarded := [];
      written := [];
    }

    /** One turn of the reader loop, forwarding to the current target. */
    method ReadLine()
      requires lines != []
      modifies this
      ensures lines == old(lines)[1..]
      ensures forwarded == old(forwarded) + SentTo(target, Messages(nick, [old(lines)[0]]))
      ensures target == old(target) && written == old(written)
    {
      var line := lines[0];
      var msg := Trim(line);
      assert Messages(nick, [line]) == Chat(nick, line) by {
        assert [line][1..] == [];
      }
      lines := lines[1..];
      if msg != [] {
        forwarded := forwarded + [Forward(target, Event.Message(nick, msg))];
        assert SentTo(target, [Event.Message(nick, msg)]) == [Forward(target, Event.Message(nick, msg))];
      } else {
        assert SentTo(target, []) == [];
      }
    }

    /** The reader loop, run to the end of the stream with no writer turn in
        between. */
    method Reader()
      modifies this
      ensures lines == []
      ensures forwarded == old(forwarded) + SentTo(target, Messages(nick, old(lines)))
      ensures target == old(target) && written == old(written)
    {
      while lines != []
        invariant forwarded + SentTo(target, Messages(nick, lines))
                  == old(forwarded) + SentTo(target, Messages(nick, old(lines)))
        invariant target == old(target) && written == old(written)
        decreases |lines|
      {
        ghost var f0 := forwarded;
        ghost var first := SentTo(target, Messages(nick, [lines[0]]));
        ghost var rest := SentTo(target, Messages(nick, lines[1..]));
        ReadFirst(nick, target, lines);
        ReadLine();
        assert forwarded == f0 + first;
        assert rest == SentTo(target, Messages(nick, lines));
        Associative(f0, first, rest);
      }
    }

    /** One turn of the writer loop. */
    method WriteAction(a: Action)
      modifies this
      ensures written == old(written) + Outputs([a])
      ensures target == Retarget(old(target), [a])
      ensures lines == old(lines) && forwarded == old(forwarded)
    {
      match a {
        case Send(r) =>
          written := written + [r];
        case Join(channel) =>
          target := channel;
      }
    }

    /** The writer loop over the actions received, in order. */
    method Writer(actions: seq<Action>)
      modifies this
      ensures written == old(written) + Outputs(actions)
      ensures target == Retarget(old(target), actions)
      ensures lines == old(lines) && forwarded == old(forwarded)
    {
      var i := 0;
      while i < |actions|
        invariant 0 <= i <= |actions|
        invariant written == old(written) + Outputs(actions[..i])
        invariant target == Retarget(old(target), actions[..i])
        invariant lines == old(lines) && forwarded == old(forwarded)
      {
        WriteAction(actions[i]);
        OutputsAppend(actions[..i], [actions[i]]);
        RetargetAppend(old(target), actions[..i], [actions[i]]);
        assert actions[..i + 1] == actions[..i] + [actions[i]];
        i := i + 1;
      }
      assert actions[..i] == actions;
    }
  }
}
