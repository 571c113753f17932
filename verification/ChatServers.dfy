/** The chat server and its sessions as the objects the coroutines update, each method against the value-level stretch
    that the step machine is built from. */
module ChatServers {
  import opened Framing
  import opened Protocol
  import Sessions
  import opened SessionInvariants

  /** The messages the writer sends before it returns: all of them, or up to and including the first closing one. */
  function Through(queue: seq<Message>): (r: seq<Message>)
    ensures r <= queue
    ensures forall k :: 0 <= k < |r| - 1 ==> !r[k].close
    ensures r == queue || (r != [] && r[|r| - 1].close)
  {
    if queue == [] then [] else if queue[0].close then [queue[0]] else [queue[0]] + Through(queue[1..])
  }

  /** One round of the writer: it takes the oldest message and the connection takes every byte. */
  function WriteOne(s: Sessions.Session): (r: Sessions.Session)
    requires s.writer.Ready? && !s.stopped && s.outbox != []
    ensures |r.outbox| < |s.outbox|
    ensures if s.outbox[0].close then r.writer.Returned? && r.stopped else r.writer.Ready? && !r.stopped
  {
    var t := Sessions.StartReceive(s);
    Sessions.WriteDone(Sessions.Send(t, |t.writer.message.Wire()|))
  }

  /** The writer's rounds until it waits or returns. */
  function Drain(s: Sessions.Session): Sessions.Session
    requires s.writer.Ready? && !s.stopped
    decreases |s.outbox|
  {
    if s.outbox == [] then Sessions.StartReceive(s)
    else if s.outbox[0].close then WriteOne(s)
    else Drain(WriteOne(s))
  }

  lemma WriteOneIs(s: Sessions.Session)
    requires s.writer.Ready? && !s.stopped && s.outbox != []
    ensures var m := s.outbox[0];
            var t := s.(outbox := s.outbox[1..], written := s.written + [m], wire := s.wire + m.Wire());
            var r := WriteOne(s);
            && (if m.close then r == Sessions.Stop(t.(writer := Sessions.Returned)) else r == t)
            && r.outbox == t.outbox && r.written == t.written && r.wire == t.wire
            && r.offered == s.offered && r.uid == s.uid && r.authenticated == s.authenticated
  {
    hide Encode;
    var wire := s.outbox[0].Wire();
    assert wire[0..|wire|] == wire;
  }

  /** `t` is `s` with `sent` taken from its outbox and written to the wire. */
  ghost predicate Wrote(s: Sessions.Session, sent: seq<Message>, t: Sessions.Session) {
    && t.wire == s.wire + WireOf(sent) && t.written == s.written + sent && sent + t.outbox == s.outbox
    && t.offered == s.offered && t.uid == s.uid && t.authenticated == s.authenticated
  }

  lemma WriteOneWrites(s: Sessions.Session)
    requires s.writer.Ready? && !s.stopped && s.outbox != []
    ensures Wrote(s, [s.outbox[0]], WriteOne(s))
  {
    hide Encode;
    WriteOneIs(s);
    WireOfOne(s.outbox[0]);
  }

  lemma WroteMore(s: Sessions.Session, one: seq<Message>, t: Sessions.Session, more: seq<Message>, u: Sessions.Session)
    requires Wrote(s, one, t) && Wrote(t, more, u)
    ensures Wrote(s, one + more, u)
  {
    hide WireOf;
    WireOfConcat(one, more);
    assert s.wire + WireOf(one) + WireOf(more) == s.wire + (WireOf(one) + WireOf(more));
    assert s.written + one + more == s.written + (one + more);
    assert one + more + u.outbox == one + (more + u.outbox);
  }

  predicate Closes(queue: seq<Message>) {
    exists k :: 0 <= k < |queue| && queue[k].close
  }

  lemma ClosesTail(queue: seq<Message>)
    requires queue != []
    ensures Closes(queue) <==> queue[0].close || Closes(queue[1..])
  {
    assert queue == [queue[0]] + queue[1..];
  }

  /** Drained, the wire has gained exactly the queued frames in order, up to and including the first closing one, after
      which the session is stopped and what was queued behind stays unsent; without one the writer waits for more. */
  lemma {:induction false} DrainWrites(s: Sessions.Session)
    requires s.writer.Ready? && !s.stopped
    ensures Wrote(s, Through(s.outbox), Drain(s))
    ensures if Closes(s.outbox) then Drain(s).stopped && Drain(s).writer.Returned?
            else !Drain(s).stopped && Drain(s).writer.Waiting? && Drain(s).outbox == []
    decreases |s.outbox|
  {
    hide Encode;
    if s.outbox == [] {
      assert s.wire + WireOf([]) == s.wire && s.written + [] == s.written;
    } else if s.outbox[0].close {
      hide WriteOne, Wrote, WireOf, Closes;
      WriteOneWrites(s);
      ClosesTail(s.outbox);
    } else {
      hide WriteOne, Wrote, WireOf, Closes;
      var t, rest := WriteOne(s), s.outbox[1..];
      WriteOneIs(s);
      WriteOneWrites(s);
      DrainWrites(t);
      WroteMore(s, [s.outbox[0]], t, Through(rest), Drain(t));
      ClosesTail(s.outbox);
    }
  }

  class ChatServer {
    const name: string
    var participants: set<ChatSession>

    constructor (name: string)
      ensures this.name == name && participants == {}
    {
      this.name, participants := name, {};
    }

    method Join(participant: ChatSession)
      modifies this
      ensures participants == old(participants) + {participant}
    {
      participants := participants + {participant};
    }

    method Leave(participant: ChatSession)
      modifies this
      ensures participants == old(participants) - {participant}
    {
      participants := participants - {participant};
    }

    /** The number itself as long as it fits in 32 bits; otherwise off by a multiple of 2^32. */
    method ParticipantCount() returns (count: nat)
      ensures count < 0x1_0000_0000
      ensures |participants| < 0x1_0000_0000 ==> count == |participants|
      ensures (|participants| - count) % 0x1_0000_0000 == 0
    {
      count := Sessions.AsUint32(|participants|);
    }

    /** The participants are ordered by address, so the first match is any match. */
    method GetParticipant(uid: int) returns (found: ChatSession?)
      ensures found != null ==> found in participants && found.uid == uid
      ensures found == null ==> forall p :: p in participants ==> p.uid != uid
    {
      var left := participants;
      while left != {}
        invariant left <= participants
        invariant forall p :: p in participants && p !in left ==> p.uid != uid
        decreases |left|
      {
        var participant :| participant in left;
        if participant.uid == uid {
          return participant;
        }
        left := left - {participant};
      }
      found := null;
    }
  }

  class ChatSession {
    const server: ChatServer?       // a weak pointer: null once the server is gone
    var uid: int
    var isAuthenticated: bool
    var socketClosed: bool
    var loginDeadline: Sessions.Timer
    var channel: seq<Message>
    var writer: Sessions.Writer
    var wire: Bytes
    ghost var record: Sessions.Session  // the reader's position and what was handled, offered and written

    /** The session as a value. */
    ghost function View(): Sessions.Session
      reads this
    {
      record.(uid := uid, authenticated := isAuthenticated, stopped := socketClosed, timer := loginDeadline,
              outbox := channel, writer := writer, wire := wire)
    }

    constructor (server: ChatServer?, home: ServerId, memory: int)
      ensures View() == Sessions.NewSession(home, memory) && this.server == server
    {
      this.server, uid, isAuthenticated, socketClosed := server, memory, false, false;
      loginDeadline, channel, writer, wire := Sessions.Armed, [], Sessions.Ready, [];
      record := Sessions.NewSession(home, memory);
    }

    /** start, before its three coroutines are spawned. */
    method Start()
      modifies server
      ensures server != null ==> server.participants == old(server.participants) + {this}
    {
      if server != null {
        server.Join(this);
      }
    }

    method Deliver(m: Message, ghost cause: Sessions.Cause)
      modifies this
      ensures View() == Sessions.Deliver(old(View()), m, cause)
      ensures channel == if |old(channel)| < 64 && !old(writer).Waiting? then old(channel) + [m] else old(channel)
    {
      record := record.(offered := record.offered + [Sessions.Offer(m, cause, uid, Sessions.HasRoom(View()))]);
      if writer.Waiting? {
        writer := Sessions.Writing(m, 0);
      } else if |channel| < Sessions.CAPACITY {
        channel := channel + [m];
      }
    }

    method CancelDeadline()
      modifies this`loginDeadline
      ensures loginDeadline == Sessions.Cancel(old(loginDeadline))
      ensures loginDeadline == if old(loginDeadline).Armed? then Sessions.Cancelled else old(loginDeadline)
    {
      if loginDeadline.Armed? {
        loginDeadline := Sessions.Cancelled;
      }
    }

    method SetUid(uid: int)
      modifies this`uid
      ensures this.uid == uid
    {
      this.uid := uid;
    }

    method MarkAuthenticated()
      modifies this`isAuthenticated, this`loginDeadline
      ensures isAuthenticated && loginDeadline == Sessions.Cancel(old(loginDeadline))
    {
      isAuthenticated := true;
      CancelDeadline();
    }

    /** What login does to the session once the login count is written. */
    method LogIn(uid: int)
      modifies this
      ensures View() == Sessions.Authenticate(old(View()), uid)
    {
      SetUid(uid);
      MarkAuthenticated();
      record := record.(logins := record.logins[Sessions.Current(record) := LoggedIn]);
    }

    method Stop()
      modifies this, server
      ensures View() == Sessions.Stop(old(View()))
      ensures server != null ==> server.participants == old(server.participants) - {this}
    {
      CancelDeadline();
      if server != null {
        server.Leave(this);
      }
      socketClosed := true;
    }

    /** check_login_deadline after its wait: `aborted` when the wait was cancelled. */
    method CheckLoginDeadline(aborted: bool)
      requires if aborted then loginDeadline.Cancelled? else loginDeadline.Fired?
      modifies this, server
      ensures View() == Sessions.DeadlineResume(old(View()))
      ensures old(isAuthenticated) ==> socketClosed == old(socketClosed)
      ensures server != null ==>
                server.participants == old(server.participants) - if aborted || isAuthenticated then {} else {this}
    {
      loginDeadline := Sessions.Over;
      if aborted {
        return;
      }
      if !isAuthenticated {
        Stop();
      }
    }

    /** The writer loop on a connection that takes every byte, up to its suspension on the empty channel or its end. */
    method Writer()
      requires writer.Ready? && !socketClosed
      modifies this, server
      ensures View() == Drain(old(View()))
      ensures wire == old(wire) + WireOf(Through(old(channel)))
      ensures server != null ==>
                server.participants == old(server.participants) - if socketClosed then {this} else {}
    {
      hide Encode, WriteOne, Through, WireOf;
      DrainWrites(View());
      ghost var start := View();
      while channel != []
        invariant writer.Ready? && !socketClosed
        invariant Drain(View()) == Drain(start)
        invariant server != null ==> server.participants == old(server.participants)
        decreases |channel|
      {
        ghost var before := View();
        WriteOneIs(before);
        var out := channel[0];
        channel := channel[1..];
        wire := wire + out.Wire();
        record := record.(written := record.written + [out]);
        if out.close {
          writer := Sessions.Returned;
          Stop();
          return;
        }
      }
      writer := Sessions.Waiting;
    }
  }
}
