/** Routing, delivery, and when the two servers can go on. */
module ClusterProgress {
  import opened Wrappers
  import opened Framing
  import opened Protocol
  import opened Sessions
  import opened SessionInvariants
  import opened Cluster
  import opened ClusterInvariants
  import opened ClusterSteps
  import opened ClusterShapes
  import opened ClusterTheorems
  import FriendTables

  // ---------- Continuing from a state ----------

  ghost predicate Runs(c: Codec, st: State, acts: seq<Action>)
    decreases |acts|
  {
    acts == [] || (Enabled(c, st, acts[0]) && Runs(c, Apply(c, st, acts[0]), acts[1..]))
  }

  ghost function Final(c: Codec, st: State, acts: seq<Action>): State
    requires Runs(c, st, acts)
    decreases |acts|
  {
    if acts == [] then st else Final(c, Apply(c, st, acts[0]), acts[1..])
  }

  lemma OneMore(c: Codec, st: State, acts: seq<Action>, a: Action)
    requires Runs(c, st, acts) && Enabled(c, Final(c, st, acts), a)
    ensures Runs(c, st, acts + [a]) && Final(c, st, acts + [a]) == Apply(c, Final(c, st, acts), a)
    decreases |acts|
  {
    hide Apply, Enabled;
    if acts == [] {
      assert (acts + [a])[1..] == [];
    } else {
      assert (acts + [a])[1..] == acts[1..] + [a];
      OneMore(c, Apply(c, st, acts[0]), acts[1..], a);
    }
  }

  lemma {:induction false} RunsConcat(c: Codec, st: State, a: seq<Action>, b: seq<Action>)
    requires Runs(c, st, a) && Runs(c, Final(c, st, a), b)
    ensures Runs(c, st, a + b) && Final(c, st, a + b) == Final(c, Final(c, st, a), b)
    decreases |a|
  {
    hide Apply, Enabled;
    if a == [] {
      assert a + b == b;
    } else {
      assert (a + b)[1..] == a[1..] + b;
      RunsConcat(c, Apply(c, st, a[0]), a[1..], b);
    }
  }

  lemma {:induction false} RunsAreLegal(c: Codec, run: seq<Action>, acts: seq<Action>)
    requires Legal(c, run) && Runs(c, After(c, run), acts)
    ensures Legal(c, run + acts) && After(c, run + acts) == Final(c, After(c, run), acts)
    decreases |acts|
  {
    hide Apply, Enabled;
    if acts == [] {
      assert run + acts == run;
    } else {
      var more := run + [acts[0]];
      assert more[..|run|] == run;
      assert Legal(c, more) && After(c, more) == Apply(c, After(c, run), acts[0]);
      RunsAreLegal(c, more, acts[1..]);
      assert more + acts[1..] == run + acts;
    }
  }

  lemma OnePrefixMore(c: Codec, st: State, acts: seq<Action>, k: nat)
    requires k < |acts| && Runs(c, st, acts[..k]) && Enabled(c, Final(c, st, acts[..k]), acts[k])
    ensures Runs(c, st, acts[..k + 1]) && Final(c, st, acts[..k + 1]) == Apply(c, Final(c, st, acts[..k]), acts[k])
  {
    hide Apply, Enabled;
    OneMore(c, st, acts[..k], acts[k]);
    assert acts[..k] + [acts[k]] == acts[..k + 1];
  }

  // ---------- Routing ----------

  /** The route write that this step completes: the uid of the login, and the server of its session. */
  function NewLogin(st: State, a: Action): seq<(int, ServerId)> {
    match a
    case Exec(i, false) =>
      if i < |st.sessions| && st.sessions[i].pc.RouteSet? then [(st.sessions[i].pc.uid, st.sessions[i].home)] else []
    case _ => []
  }

  /** The route writes of a run, in order. */
  ghost function LoginWrites(c: Codec, run: seq<Action>): seq<(int, ServerId)>
    requires Legal(c, run)
  {
    if run == [] then []
    else
      var earlier := run[..|run| - 1];
      LoginWrites(c, earlier) + NewLogin(After(c, earlier), run[|run| - 1])
  }

  lemma LoginsStep(c: Codec, st: State, a: Action)
    requires Enabled(c, st, a)
    ensures Apply(c, st, a).logins == st.logins + NewLogin(st, a)
  {
    hide Finish, Continue, Deliver, StartReceive, Send, WriteDone, WriteFail, DeadlineResume, ReadFail, MayFind, ErrorReply,
         FriendTables.Execute;
    if IsMove(a) {
      MoveShape(c, st, a);
      hide Apply, Enabled;
    }
  }

  lemma {:induction false} LoginsAreWrites(c: Codec, run: seq<Action>)
    requires Legal(c, run)
    ensures After(c, run).logins == LoginWrites(c, run)
  {
    hide Apply, Enabled, NewLogin;
    if run != [] {
      LoginsAreWrites(c, run[..|run| - 1]);
      LoginsStep(c, After(c, run[..|run| - 1]), run[|run| - 1]);
    }
  }

  /** Every routing entry names the server of the last completed login of its uid, and the uid's token matched there. */
  lemma RouteIsTheLastLogin(c: Codec, run: seq<Action>, uid: int)
    requires Legal(c, run)
    ensures var st, last := After(c, run), LastLogin(LoginWrites(c, run), uid);
            && (uid in st.routes <==> last.Some?)
            && (uid in st.routes ==>
                  && st.routes[uid] == (if last.value == Server1 then "chat_server1" else "chat_server2")
                  && MatchedAt(st.sessions, uid, last.value)
                  && IsInt32(uid))
  {
    hide SessionsInv, PushesInv, OrderInv, UniqueInv, ParticipantsInv, BlockedInv, MatchedAt, Apply, Enabled, Legal, After;
    RunKeepsInv(c, run);
    LoginsAreWrites(c, run);
    var st := After(c, run);
    if uid in st.routes {
      LastLoginOccurs(st.logins, uid);
      var k :| 0 <= k < |st.logins| && st.logins[k] == (uid, LastLogin(st.logins, uid).value);
      LoginServerOfRoute(c, st, uid);
    }
  }

  // ---------- Delivery ----------

  /** p is the only open participant of the server under this uid. */
  ghost predicate Sole(st: State, server: ServerId, uid: int, p: nat) {
    && p < |st.sessions|
    && p in st.participants.Of(server)
    && st.sessions[p].uid == uid
    && forall q: nat :: q < |st.sessions| && q in st.participants.Of(server) && st.sessions[q].uid == uid ==> q == p
  }

  lemma SoleIsFound(st: State, server: ServerId, uid: int, p: nat, target: Option<nat>)
    requires Sole(st, server, uid, p)
    ensures MayFind(st, server, uid, target) <==> target == Some(p)
  {
  }

  /** A text request that is about to ask Redis for its route, with both servers running. */
  ghost predicate Asking(c: Codec, st: State, i: nat, n: Notice) {
    && i < |st.sessions|
    && st.sessions[i].pc == RouteGet(n) && n.TextNotice?
    && st.blocked == PerServer(None, None)
    && n.to in st.routes
  }

  function DeliverySteps(st: State, i: nat, n: Notice, p: nat): seq<Action>
    requires i < |st.sessions| && n.to in st.routes
  {
    if st.routes[n.to] == st.sessions[i].home.Name() then [Exec(i, false), Resume(i, NotFound, Some(p))]
    else [Exec(i, false), Resume(i, NotFound, None), RpcExec(i, Some(p)), RpcReturn(i)]
  }

  lemma TwoSteps(c: Codec, st: State, a: Action, b: Action)
    requires Enabled(c, st, a) && Enabled(c, Apply(c, st, a), b)
    ensures Runs(c, st, [a, b]) && Final(c, st, [a, b]) == Apply(c, Apply(c, st, a), b)
  {
    hide Apply, Enabled;
    OneMore(c, st, [], a);
    OneMore(c, st, [a], b);
    assert [] + [a] == [a] && [a] + [b] == [a, b];
  }

  function Asked(st: State, i: nat, n: Notice): State
    requires i < |st.sessions| && n.to in st.routes
  {
    Put(st, i, st.sessions[i].(pc := RouteGot(n, Some(st.routes[n.to]))))
  }

  lemma AskForRoute(c: Codec, st: State, i: nat, n: Notice)
    requires Asking(c, st, i, n)
    ensures Enabled(c, st, Exec(i, false)) && Apply(c, st, Exec(i, false)) == Asked(st, i, n)
    ensures ResumeOf(c, Asked(st, i, n), i, NotFound) == NotifyVia(st.sessions[i], n, st.routes[n.to])
  {
  }

  /** What a delivered request leaves behind: one accepted frame more at p, one reply more at i, everything else alone. */
  ghost predicate DeliveredOnce(c: Codec, st: State, r: State, i: nat, n: Notice, p: nat, route: Route) {
    && |r.sessions| == |st.sessions| && i < |st.sessions| && p < |st.sessions| && i != p
    && (forall k :: 0 <= k < |st.sessions| && k != i && k != p ==> r.sessions[k] == st.sessions[k])
    && r.sessions[p].offered == st.sessions[p].offered +
         [Offer(PushMessage(c, route, n), Push(i, Current(st.sessions[i]), route, n), n.to, true)]
    && r.sessions[i].pc == Idle
    && r.sessions[i].offered == st.sessions[i].offered +
         [Offer(ErrorReply(c, Code(TextChatMsgRsp), Success), Reply(Current(st.sessions[i])), st.sessions[i].uid,
                HasRoom(st.sessions[i]))]
    && r.blocked == PerServer(None, None)
  }

  lemma FinishOffers(s: Session, reply: Message)
    ensures var t := Finish(s, reply);
            && t.pc == Idle
            && t.offered == s.offered + [Offer(reply, Reply(Current(s)), s.uid, HasRoom(s))]
  {
  }

  lemma DeliverOffers(s: Session, m: Message, cause: Cause)
    ensures Deliver(s, m, cause).offered == s.offered + [Offer(m, cause, s.uid, HasRoom(s))]
  {
  }

  /** The two changes a delivery makes, in whatever order of steps. */
  function Delivered(c: Codec, st: State, i: nat, n: Notice, p: nat, route: Route): State
    requires i < |st.sessions| && p < |st.sessions|
  {
    var cause := Push(i, Current(st.sessions[i]), route, n);
    Put(Put(st, p, Deliver(st.sessions[p], PushMessage(c, route, n), cause)),
        i, Finish(st.sessions[i], ErrorReply(c, Code(TextChatMsgRsp), Success)))
  }

  lemma DeliveredIsOnce(c: Codec, st: State, i: nat, n: Notice, p: nat, route: Route)
    requires i < |st.sessions| && p < |st.sessions| && i != p
    requires st.sessions[p].uid == n.to && HasRoom(st.sessions[p])
    requires st.blocked == PerServer(None, None)
    ensures DeliveredOnce(c, st, Delivered(c, st, i, n, p, route), i, n, p, route)
  {
    hide PushMessage, ErrorReply, Deliver, Finish;
    FinishOffers(st.sessions[i], ErrorReply(c, Code(TextChatMsgRsp), Success));
    DeliverOffers(st.sessions[p], PushMessage(c, route, n), Push(i, Current(st.sessions[i]), route, n));
  }

  lemma LocalResume(c: Codec, st: State, i: nat, n: Notice, p: nat)
    requires Asking(c, st, i, n)
    requires st.routes[n.to] == st.sessions[i].home.Name()
    requires Sole(st, st.sessions[i].home, n.to, p) && i != p
    ensures Enabled(c, Asked(st, i, n), Resume(i, NotFound, Some(p)))
    ensures Apply(c, Asked(st, i, n), Resume(i, NotFound, Some(p))) == Delivered(c, st, i, n, p, Local)
  {
    hide PushMessage, ErrorReply, Continue;
    AskForRoute(c, st, i, n);
    var asked := Asked(st, i, n);
    assert MayFind(asked, st.sessions[i].home, n.to, Some(p));
    FinishForgetsPc(st.sessions[i], RouteGot(n, Some(st.routes[n.to])), ErrorReply(c, Code(TextChatMsgRsp), Success));
    hide Finish, Deliver;
    var r := ApplyResume(c, asked, i, NotFound, Some(p));
    assert r.sessions == Delivered(c, st, i, n, p, Local).sessions;
  }

  lemma FinishForgetsPc(s: Session, pc: Pc, reply: Message)
    ensures Finish(s.(pc := pc), reply) == Finish(s, reply)
  {
  }

  lemma LocalDelivery(c: Codec, st: State, i: nat, n: Notice, p: nat)
    requires Asking(c, st, i, n)
    requires st.routes[n.to] == st.sessions[i].home.Name()
    requires Sole(st, st.sessions[i].home, n.to, p) && i != p && HasRoom(st.sessions[p])
    ensures var acts := [Exec(i, false), Resume(i, NotFound, Some(p))];
            Runs(c, st, acts) && DeliveredOnce(c, st, Final(c, st, acts), i, n, p, Local)
  {
    hide Apply, Enabled, Delivered, DeliveredOnce, HasRoom;
    AskForRoute(c, st, i, n);
    LocalResume(c, st, i, n, p);
    TwoSteps(c, st, Exec(i, false), Resume(i, NotFound, Some(p)));
    DeliveredIsOnce(c, st, i, n, p, Local);
  }

  // The same through the peer: call, execution, return.

  function CallingState(st: State, i: nat, n: Notice): State
    requires i < |st.sessions|
  {
    Put(st, i, st.sessions[i].(pc := Calling(n))).(blocked := st.blocked.With(st.sessions[i].home, Some(i)))
  }

  lemma RemoteResume(c: Codec, st: State, i: nat, n: Notice)
    requires Asking(c, st, i, n)
    requires st.routes[n.to] != st.sessions[i].home.Name()
    ensures Enabled(c, Asked(st, i, n), Resume(i, NotFound, None))
    ensures Apply(c, Asked(st, i, n), Resume(i, NotFound, None)) == CallingState(st, i, n)
  {
    hide Continue;
    AskForRoute(c, st, i, n);
  }

  lemma RemoteExec(c: Codec, st: State, i: nat, n: Notice, p: nat)
    requires Asking(c, st, i, n) && i != p && IsInt32(n.to)
    requires Sole(st, st.sessions[i].home.Peer(), n.to, p)
    ensures var cause := Push(i, Current(st.sessions[i]), Remote, n);
            var called := CallingState(st, i, n);
            var r := Put(Put(called, p, Deliver(st.sessions[p], PushMessage(c, Remote, n), cause)),
                         i, st.sessions[i].(pc := Called(n, true)));
            Enabled(c, called, RpcExec(i, Some(p))) && Apply(c, called, RpcExec(i, Some(p))) == r
  {
    hide PushMessage, Deliver;
  }

  lemma RemoteReturn(c: Codec, st: State, i: nat, n: Notice, p: nat, d: Session)
    requires Asking(c, st, i, n) && p < |st.sessions| && i != p
    ensures var called := Put(Put(CallingState(st, i, n), p, d), i, st.sessions[i].(pc := Called(n, true)));
            && Enabled(c, called, RpcReturn(i))
            && Apply(c, called, RpcReturn(i)) ==
                 Put(Put(st, p, d), i, Finish(st.sessions[i], ErrorReply(c, Code(TextChatMsgRsp), Success)))
  {
    hide ErrorReply;
    FinishForgetsPc(st.sessions[i], Called(n, true), ErrorReply(c, Code(TextChatMsgRsp), Success));
    hide Finish;
    var called := Put(Put(CallingState(st, i, n), p, d), i, st.sessions[i].(pc := Called(n, true)));
    var r := Apply(c, called, RpcReturn(i));
    assert r.sessions == Put(Put(st, p, d), i, Finish(st.sessions[i], ErrorReply(c, Code(TextChatMsgRsp), Success))).sessions;
    assert r.blocked == st.blocked;
  }

  lemma RemoteDelivery(c: Codec, st: State, i: nat, n: Notice, p: nat)
    requires Asking(c, st, i, n) && IsInt32(n.to)
    requires st.routes[n.to] != st.sessions[i].home.Name()
    requires Sole(st, st.sessions[i].home.Peer(), n.to, p) && i != p && HasRoom(st.sessions[p])
    ensures var acts := [Exec(i, false), Resume(i, NotFound, None), RpcExec(i, Some(p)), RpcReturn(i)];
            Runs(c, st, acts) && DeliveredOnce(c, st, Final(c, st, acts), i, n, p, Remote)
  {
    hide Apply, Enabled, DeliveredOnce, HasRoom, Deliver, PushMessage, CallingState;
    AskForRoute(c, st, i, n);
    RemoteResume(c, st, i, n);
    RemoteExec(c, st, i, n, p);
    var d := Deliver(st.sessions[p], PushMessage(c, Remote, n), Push(i, Current(st.sessions[i]), Remote, n));
    RemoteReturn(c, st, i, n, p, d);
    var a, b, e, f := Exec(i, false), Resume(i, NotFound, None), RpcExec(i, Some(p)), RpcReturn(i);
    TwoSteps(c, st, a, b);
    OneMore(c, st, [a, b], e);
    OneMore(c, st, [a, b] + [e], f);
    assert [a, b] + [e] + [f] == [a, b, e, f];
    DeliveredIsOnce(c, st, i, n, p, Remote);
  }

  /** Delivery is possible: in a reachable state with both servers running, a fault-free text request to a uid under which exactly one
      open participant with room is held by the server its routing entry names can be carried out, and then has put
      exactly one frame of that request into exactly that participant's outbox. */
  lemma TextCanBeDelivered(c: Codec, run: seq<Action>, i: nat, n: Notice, x: ServerId, p: nat)
    requires Legal(c, run)
    requires var st := After(c, run);
             && Asking(c, st, i, n)
             && st.routes[n.to] == x.Name()
             && Sole(st, x, n.to, p) && HasRoom(st.sessions[p])
    ensures var st := After(c, run);
            var acts := DeliverySteps(st, i, n, p);
            Runs(c, st, acts) &&
            DeliveredOnce(c, st, Final(c, st, acts), i, n, p, if x == st.sessions[i].home then Local else Remote)
  {
    hide Apply, Enabled, DeliveredOnce, HasRoom, Inv, SessionInv, Legal, After;
    RunKeepsInv(c, run);
    var st := After(c, run);
    SessionOfInv(c, st, i);
    ReaderOfSession(c, st.sessions[i]);
    LoginServerOfRoute(c, st, n.to);
    assert n.from == st.sessions[i].uid && n.from != n.to by { hide AskedBy; }
    assert i != p;
    if x == st.sessions[i].home {
      LocalDelivery(c, st, i, n, p);
    } else {
      assert x == st.sessions[i].home.Peer();
      RemoteDelivery(c, st, i, n, p);
    }
  }

  // ---------- Blocked servers ----------

  /** Each server waits for the other's answer. */
  ghost predicate MutualWait(st: State) {
    && st.blocked.first.Some? && st.blocked.second.Some?
    && st.blocked.first.value < |st.sessions| && st.blocked.second.value < |st.sessions|
    && st.sessions[st.blocked.first.value].pc.Calling?
    && st.sessions[st.blocked.second.value].pc.Calling?
  }

  /** The steps by which an RPC that does not fail goes on. */
  predicate IsRpcStep(a: Action) { a.RpcExec? || a.RpcReturn? }

  lemma SomeoneIsFound(st: State, server: ServerId, uid: int) returns (target: Option<nat>)
    ensures MayFind(st, server, uid, target)
  {
    if j: nat :| j < |st.sessions| && j in st.participants.Of(server) && st.sessions[j].uid == uid {
      target := Some(j);
    } else {
      target := None;
    }
  }

  /** A server's RPC can always go on unless it waits for a peer that itself waits. */
  lemma RpcCanGoOn(c: Codec, st: State, x: ServerId) returns (a: Action)
    requires BlockedInv(st.sessions, st.blocked)
    requires st.blocked.Of(x).Some? && !MutualWait(st)
    ensures Enabled(c, st, a) && IsRpcStep(a)
  {
    var i := st.blocked.Of(x).value;
    assert st.blocked.Of(x) == Some(i);
    if st.sessions[i].pc.Called? {
      return RpcReturn(i);
    }
    var y := x.Peer();
    if st.blocked.Of(y).None? {
      var target := SomeoneIsFound(st, y, AcrossRpc(st.sessions[i].pc.notice).to);
      return RpcExec(i, target);
    }
    var j := st.blocked.Of(y).value;
    assert st.blocked.Of(y) == Some(j);
    return RpcReturn(j);
  }

  lemma NoRpcStepInMutualWait(c: Codec, st: State, a: Action)
    requires BlockedInv(st.sessions, st.blocked) && MutualWait(st) && Enabled(c, st, a)
    ensures !IsRpcStep(a)
  {
    assert forall i: nat :: i < |st.sessions| && InRpc(st.sessions[i].pc) ==> st.blocked.Of(st.sessions[i].home) == Some(i);
  }

  /** Progress: with a server blocked in a peer RPC, no RPC can go on exactly when the two servers wait for each other. */
  lemma StuckIffMutualWait(c: Codec, run: seq<Action>, x: ServerId)
    requires Legal(c, run) && After(c, run).blocked.Of(x).Some?
    ensures (forall a: Action :: IsRpcStep(a) ==> !Enabled(c, After(c, run), a)) <==> MutualWait(After(c, run))
  {
    hide Enabled, Apply, SessionsInv, PushesInv, OrderInv, UniqueInv, Legal, After, MutualWait, BlockedInv;
    RunKeepsInv(c, run);
    var st := After(c, run);
    if MutualWait(st) {
      forall a: Action | IsRpcStep(a) ensures !Enabled(c, st, a) {
        if Enabled(c, st, a) {
          NoRpcStepInMutualWait(c, st, a);
        }
      }
    } else {
      var a := RpcCanGoOn(c, st, x);
    }
  }

  /** A command of the session's handler takes effect, or its reader resumes. */
  predicate IsHandlerStep(a: Action, i: nat) {
    a == Exec(i, false) || (a.Resume? && a.session == i)
  }

  lemma ResumeCanGoOn(c: Codec, st: State, i: nat) returns (a: Action)
    requires i < |st.sessions| && Free(st, i) && Resumable(st.sessions[i].pc)
    ensures Enabled(c, st, a) && IsHandlerStep(a, i)
  {
    hide Continue, MayFind;
    var target := None;
    if ResumeOf(c, st, i, Throws).NotifyHere? {
      target := SomeoneIsFound(st, st.sessions[i].home, ResumeOf(c, st, i, Throws).notice.to);
    }
    a := Resume(i, Throws, target);
  }

  /** While its server is not blocked, a session that has taken a frame in and not yet answered it can always go on. */
  lemma HandlerCanGoOn(c: Codec, run: seq<Action>, i: nat)
    requires Legal(c, run) && i < |After(c, run).sessions| && After(c, run).blocked.Of(After(c, run).sessions[i].home).None?
    requires var pc := After(c, run).sessions[i].pc; !pc.Idle? && !pc.Ended?
    ensures exists a: Action :: IsHandlerStep(a, i) && Enabled(c, After(c, run), a)
  {
    hide Apply, SessionsInv, PushesInv, OrderInv, UniqueInv, Legal, After, ResumeOf, MayFind;
    RunKeepsInv(c, run);
    var st := After(c, run);
    var s := st.sessions[i];
    assert InRpc(s.pc) <==> st.blocked.Of(s.home) == Some(i);
    if Resumable(s.pc) {
      var a := ResumeCanGoOn(c, st, i);
    } else {
      assert IsHandlerStep(Exec(i, false), i) && Enabled(c, st, Exec(i, false));
    }
  }

  predicate IsSending(a: Action, i: nat) {
    a == WriterReceives(i) || a == WriterSends(i, 1) || a == WriterDone(i)
  }

  lemma OutboxCanGoOn(s: Session)
    requires OutboxInv(s) && !s.stopped && (s.outbox != [] || s.writer.Writing?)
    ensures s.writer.Ready? || CanSend(s, 1) || WriteComplete(s)
  {
    hide Encode, Accepted, WireOf;
  }

  /** While its server is not blocked, an open session with a message in hand or queued can always send on. */
  lemma WriterCanGoOn(c: Codec, run: seq<Action>, i: nat)
    requires Legal(c, run) && i < |After(c, run).sessions| && After(c, run).blocked.Of(After(c, run).sessions[i].home).None?
    requires var s := After(c, run).sessions[i]; !s.stopped && (s.outbox != [] || s.writer.Writing?)
    ensures exists a: Action :: IsSending(a, i) && Enabled(c, After(c, run), a)
  {
    hide Inv, SessionInv, OutboxInv, Legal, After, CanSend, WriteComplete, MayFind, ResumeOf;
    RunKeepsInv(c, run);
    var st := After(c, run);
    SessionOfInv(c, st, i);
    OutboxOfSession(c, st.sessions[i]);
    OutboxCanGoOn(st.sessions[i]);
    assert IsSending(WriterReceives(i), i) && IsSending(WriterSends(i, 1), i) && IsSending(WriterDone(i), i);
    assert Enabled(c, st, WriterReceives(i)) || Enabled(c, st, WriterSends(i, 1)) || Enabled(c, st, WriterDone(i));
  }

  /** How many RPC steps the servers still have to take. */
  ghost function StepsOwed(st: State, x: ServerId): nat {
    match st.blocked.Of(x)
    case None => 0
    case Some(i) => if i < |st.sessions| && st.sessions[i].pc.Calling? then 2 else 1
  }

  lemma RpcStepPaysOff(c: Codec, st: State, a: Action)
    requires BlockedInv(st.sessions, st.blocked) && Enabled(c, st, a) && IsRpcStep(a)
    ensures var r := Apply(c, st, a);
            StepsOwed(r, Server1) + StepsOwed(r, Server2) < StepsOwed(st, Server1) + StepsOwed(st, Server2)
            && !MutualWait(r)
  {
    hide Finish, ErrorReply, PushMessage, Deliver;
    var i := a.session;
    var s := st.sessions[i];
    assert st.blocked.Of(s.home) == Some(i);
    assert st.blocked.Of(s.home.Peer()) != Some(i);
    if a.RpcExec? && a.target.Some? {
      DeliverKeepsPc(st.sessions[a.target.value], PushMessage(c, Remote, s.pc.notice), Push(i, Current(s), Remote, s.pc.notice));
    }
  }

  lemma DeliverKeepsPc(s: Session, m: Message, cause: Cause)
    ensures Deliver(s, m, cause).pc == s.pc && Deliver(s, m, cause).home == s.home
  {
  }

  /** Unless the servers wait for each other, at most four RPC steps free both of them. */
  lemma {:induction false} RpcsReturn(c: Codec, st: State) returns (acts: seq<Action>)
    requires Inv(c, st) && !MutualWait(st)
    ensures |acts| <= StepsOwed(st, Server1) + StepsOwed(st, Server2) <= 4
    ensures forall i :: 0 <= i < |acts| ==> IsRpcStep(acts[i])
    ensures Runs(c, st, acts) && Final(c, st, acts).blocked == PerServer(None, None)
    decreases StepsOwed(st, Server1) + StepsOwed(st, Server2)
  {
    hide SessionsInv, PushesInv, OrderInv, UniqueInv, ParticipantsInv, RoutesInv, FriendTables.Inv, Apply, Enabled,
         MutualWait, BlockedInv;
    if st.blocked == PerServer(None, None) {
      return [];
    }
    var x := if st.blocked.first.Some? then Server1 else Server2;
    var a := RpcCanGoOn(c, st, x);
    RpcStepPaysOff(c, st, a);
    StepKeepsInv(c, st, a);
    var rest := RpcsReturn(c, Apply(c, st, a));
    acts := [a] + rest;
    assert acts[1..] == rest;
  }

  /** `r` differs from `st` only in that the RPC of server x, if any, has returned. */
  ghost predicate Freed(st: State, r: State, x: ServerId) {
    && r.blocked == st.blocked.With(x, None) && r.routes == st.routes && r.tokens == st.tokens
    && r.participants == st.participants && |r.sessions| == |st.sessions|
    && forall k :: 0 <= k < |st.sessions| && !InRpc(st.sessions[k].pc) ==> r.sessions[k] == st.sessions[k]
  }

  lemma ReturnFrees(c: Codec, st: State, x: ServerId, i: nat)
    requires BlockedInv(st.sessions, st.blocked) && st.blocked.Of(x) == Some(i)
    requires i < |st.sessions| && st.sessions[i].pc.Called?
    ensures Enabled(c, st, RpcReturn(i)) && Freed(st, Apply(c, st, RpcReturn(i)), x)
  {
    hide Finish, ErrorReply;
  }

  lemma FailureDecides(c: Codec, st: State, x: ServerId, i: nat)
    requires BlockedInv(st.sessions, st.blocked) && st.blocked.Of(x) == Some(i)
    requires i < |st.sessions| && st.sessions[i].pc.Calling?
    ensures Enabled(c, st, RpcFail(i))
    ensures var r := Apply(c, st, RpcFail(i));
            && r == Put(st, i, st.sessions[i].(pc := Called(st.sessions[i].pc.notice, false)))
            && BlockedInv(r.sessions, r.blocked)
  {
    ReplaceKeepsBlocked(st.sessions, st.blocked, i, st.sessions[i].(pc := Called(st.sessions[i].pc.notice, false)));
  }

  /** A failing network can free a server at any time. */
  lemma FreeServer(c: Codec, st: State, x: ServerId) returns (acts: seq<Action>)
    requires BlockedInv(st.sessions, st.blocked)
    ensures Runs(c, st, acts) && Freed(st, Final(c, st, acts), x)
    ensures forall k :: 0 <= k < |acts| ==> acts[k].RpcFail? || acts[k].RpcReturn?
  {
    hide Apply, Enabled, BlockedInv;
    match st.blocked.Of(x)
    case None => acts := [];
    case Some(i) =>
      assert i < |st.sessions| && InRpc(st.sessions[i].pc) by { BlockerIsInRpc(st, x, i); }
      if st.sessions[i].pc.Called? {
        ReturnFrees(c, st, x, i);
        acts := [] + [RpcReturn(i)];
        OneMore(c, st, [], RpcReturn(i));
      } else {
        FailureDecides(c, st, x, i);
        var failed := Apply(c, st, RpcFail(i));
        ReturnFrees(c, failed, x, i);
        TwoSteps(c, st, RpcFail(i), RpcReturn(i));
        acts := [RpcFail(i), RpcReturn(i)];
      }
  }

  lemma BlockedOfInv(c: Codec, st: State)
    requires Inv(c, st)
    ensures BlockedInv(st.sessions, st.blocked) && ParticipantsInv(st.sessions, st.participants)
  {
    hide SessionsInv, BlockedInv, ParticipantsInv;
  }

  lemma BlockerIsInRpc(st: State, x: ServerId, i: nat)
    requires BlockedInv(st.sessions, st.blocked) && st.blocked.Of(x) == Some(i)
    ensures i < |st.sessions| && InRpc(st.sessions[i].pc)
  {
  }

  lemma OnlyTheWorldMoves(c: Codec, st: State, a: Action)
    requires BlockedInv(st.sessions, st.blocked) && MutualWait(st) && Enabled(c, st, a) && !a.RpcFail?
    ensures a.IssueToken? || a.Receive? || a.Expire? || a.Exec?
  {
    hide BlockedInv, MayFind;
    NoRpcStepInMutualWait(c, st, a);
  }

  /** In a mutual wait only the world around the servers can move. */
  lemma MutualWaitStep(c: Codec, st: State, a: Action)
    requires BlockedInv(st.sessions, st.blocked) && MutualWait(st) && Enabled(c, st, a) && !a.RpcFail?
    ensures a.IssueToken? || a.Receive? || a.Expire? || a.Exec?
    ensures var r := Apply(c, st, a);
            && MutualWait(r) && |r.sessions| == |st.sessions|
            && forall i :: 0 <= i < |st.sessions| ==>
                 r.sessions[i].offered == st.sessions[i].offered && r.sessions[i].wire == st.sessions[i].wire
  {
    hide BlockedInv, Execute, MayFind;
    OnlyTheWorldMoves(c, st, a);
    if a.Exec? {
      ExecShape(st, a.session, a.fault);
    } else if a.Receive? || a.Expire? {
      MoveShape(c, st, a);
      hide Apply, Enabled;
    }
  }

  /** Two servers waiting for each other stay so, and no session is offered or sent anything again, until an RPC fails. */
  lemma {:induction false} MutualWaitIsForever(c: Codec, st: State, acts: seq<Action>)
    requires Inv(c, st) && MutualWait(st) && Runs(c, st, acts)
    requires forall i :: 0 <= i < |acts| ==> !acts[i].RpcFail?
    ensures var r := Final(c, st, acts);
            && MutualWait(r) && |r.sessions| == |st.sessions|
            && forall i :: 0 <= i < |st.sessions| ==>
                 r.sessions[i].offered == st.sessions[i].offered && r.sessions[i].wire == st.sessions[i].wire
    decreases |acts|
  {
    hide Inv, MutualWait, Apply, Enabled;
    if acts != [] {
      BlockedOfInv(c, st);
      MutualWaitStep(c, st, acts[0]);
      StepKeepsInv(c, st, acts[0]);
      MutualWaitIsForever(c, Apply(c, st, acts[0]), acts[1..]);
    }
  }
}
