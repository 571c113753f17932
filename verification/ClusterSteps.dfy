/** Every step of the cluster keeps the invariant. */
module ClusterSteps {
  import opened Wrappers
  import opened Framing
  import opened Protocol
  import opened Sessions
  import opened SessionInvariants
  import opened Cluster
  import opened ClusterInvariants
  import FriendTables

  // ---------- One session changes ----------

  ghost predicate StepOk(c: Codec, s: Session, t: Session) {
    SessionInv(c, t) && Grows(s, t) && NoNewPush(s, t)
  }

  lemma ReplaceOne(c: Codec, sessions: seq<Session>, i: nat, t: Session)
    requires i < |sessions| && SessionsInv(c, sessions) && StepOk(c, sessions[i], t)
    ensures SessionsInv(c, sessions[i := t])
    ensures Quiet(sessions, sessions[i := t])
  {
    hide SessionInv, Bound;
    forall k | 0 <= k < |sessions| ensures Grows(sessions[k], sessions[i := t][k]) && NoNewPush(sessions[k], sessions[i := t][k]) {
      if k != i {
        assert sessions[i := t][k] == sessions[k];
      }
    }
  }

  lemma ReplaceKeepsParticipants(sessions: seq<Session>, participants: PerServer<set<nat>>, i: nat, t: Session)
    requires i < |sessions| && ParticipantsInv(sessions, participants)
    requires t.home == sessions[i].home
    ensures t.stopped == sessions[i].stopped ==> ParticipantsInv(sessions[i := t], participants)
    ensures t.stopped ==> ParticipantsInv(sessions[i := t], participants.With(t.home, participants.Of(t.home) - {i}))
  {
  }

  lemma ReplaceKeepsBlocked(sessions: seq<Session>, blocked: PerServer<Option<nat>>, i: nat, t: Session)
    requires i < |sessions| && BlockedInv(sessions, blocked)
    requires t.home == sessions[i].home
    ensures InRpc(t.pc) == InRpc(sessions[i].pc) ==> BlockedInv(sessions[i := t], blocked)
    ensures InRpc(t.pc) && blocked.Of(t.home).None? ==> BlockedInv(sessions[i := t], blocked.With(t.home, Some(i)))
    ensures !InRpc(t.pc) && InRpc(sessions[i].pc) ==> BlockedInv(sessions[i := t], blocked.With(t.home, None))
  {
    var news := sessions[i := t];
    assert InRpc(sessions[i].pc) ==> blocked.Of(t.home) == Some(i);
    forall x: ServerId, k: nat
      ensures InRpc(t.pc) == InRpc(sessions[i].pc) ==>
                (blocked.Of(x) == Some(k) <==> k < |news| && news[k].home == x && InRpc(news[k].pc))
      ensures InRpc(t.pc) && blocked.Of(t.home).None? ==>
                (blocked.With(t.home, Some(i)).Of(x) == Some(k) <==> k < |news| && news[k].home == x && InRpc(news[k].pc))
      ensures !InRpc(t.pc) && InRpc(sessions[i].pc) ==>
                (blocked.With(t.home, None).Of(x) == Some(k) <==> k < |news| && news[k].home == x && InRpc(news[k].pc))
    {
      assert blocked.Of(x) == Some(k) <==> k < |sessions| && sessions[k].home == x && InRpc(sessions[k].pc);
    }
  }

  lemma GrowingKeepsRoutes(olds: seq<Session>, news: seq<Session>, routes: map<int, string>, logins: seq<(int, ServerId)>)
    requires RoutesInv(olds, routes, logins)
    requires |olds| <= |news| && forall i :: 0 <= i < |olds| ==> Grows(olds[i], news[i])
    ensures RoutesInv(news, routes, logins)
  {
    hide Bound;
    forall k | 0 <= k < |logins| ensures MatchedAt(news, logins[k].0, logins[k].1) {
      assert MatchedAt(olds, logins[k].0, logins[k].1);
      var i :| 0 <= i < |olds| && olds[i].home == logins[k].1 && logins[k].0 in olds[i].matched;
      assert Grows(olds[i], news[i]);
    }
  }

  /** A quiet step of one session that changes neither a store nor the RPC state nor the participants. */
  lemma QuietStep(c: Codec, st: State, i: nat, t: Session)
    requires Inv(c, st) && i < |st.sessions|
    requires StepOk(c, st.sessions[i], t)
    requires t.stopped == st.sessions[i].stopped && InRpc(t.pc) == InRpc(st.sessions[i].pc)
    ensures Inv(c, Put(st, i, t)) && Quiet(st.sessions, Put(st, i, t).sessions)
  {
    hide SessionsInv, ParticipantsInv, BlockedInv, RoutesInv, PushesInv, OrderInv, UniqueInv, SessionInv, Bound;
    ReplaceOne(c, st.sessions, i, t);
    ReplaceKeepsParticipants(st.sessions, st.participants, i, t);
    ReplaceKeepsBlocked(st.sessions, st.blocked, i, t);
    GrowingKeepsRoutes(st.sessions, st.sessions[i := t], st.routes, st.logins);
    QuietKeepsPushes(c, st.sessions, st.sessions[i := t]);
  }

  /** The same for a step that stops the session. */
  lemma StoppingStep(c: Codec, st: State, i: nat, t: Session)
    requires Inv(c, st) && i < |st.sessions|
    requires StepOk(c, st.sessions[i], t)
    requires t.stopped && InRpc(t.pc) == InRpc(st.sessions[i].pc)
    ensures Inv(c, PutStopped(st, i, t)) && Quiet(st.sessions, PutStopped(st, i, t).sessions)
  {
    hide SessionsInv, ParticipantsInv, BlockedInv, RoutesInv, PushesInv, OrderInv, UniqueInv, SessionInv, Bound;
    ReplaceOne(c, st.sessions, i, t);
    ReplaceKeepsParticipants(st.sessions, st.participants, i, t);
    ReplaceKeepsBlocked(st.sessions, st.blocked, i, t);
    GrowingKeepsRoutes(st.sessions, st.sessions[i := t], st.routes, st.logins);
    QuietKeepsPushes(c, st.sessions, st.sessions[i := t]);
  }

  // ---------- Coroutines other than the reader ----------

  lemma WriterStepOk(c: Codec, s: Session, n: nat)
    requires SessionInv(c, s)
    ensures s.writer.Ready? ==> StepOk(c, s, StartReceive(s))
    ensures CanSend(s, n) ==> StepOk(c, s, Send(s, n))
    ensures WriteComplete(s) ==> StepOk(c, s, WriteDone(s))
    ensures s.writer.Writing? ==> StepOk(c, s, WriteFail(s))
  {
    hide RepliesOk, ReaderOk, OutboxOk, GateOk, Encode;
    if s.writer.Ready? {
      StartReceiveKeepsOutbox(s);
    }
    if CanSend(s, n) {
      SendKeepsOutbox(s, n);
    }
    if WriteComplete(s) {
      WriteDoneKeepsOutbox(s);
    }
    if s.writer.Writing? {
      WriteFailKeepsOutbox(s);
    }
  }

  lemma StopStepOk(c: Codec, s: Session)
    requires SessionInv(c, s)
    ensures s.pc.Idle? ==> StepOk(c, s, ReadFail(s))
    ensures s.timer.Fired? || s.timer.Cancelled? ==> StepOk(c, s, DeadlineResume(s))
  {
    hide RepliesOk, OutboxOk, GateOk, Encode;
    StopKeepsOutbox(s);
  }

  lemma EventStepOk(c: Codec, s: Session, f: Frame)
    requires SessionInv(c, s)
    ensures s.pc.Idle? ==> StepOk(c, s, s.(pc := Arrived(f)))
    ensures s.timer.Armed? ==> StepOk(c, s, s.(timer := Fired))
  {
    hide RepliesOk, OutboxOk, GateOk, Encode;
  }

  // ---------- The reader ----------

  /** What a resumption leaves alone. */
  ghost predicate SameButReader(s: Session, t: Session) {
    && t.home == s.home && t.firstUid == s.firstUid && t.stopped == s.stopped
    && s.requests <= t.requests && (s.pc.Arrived? ==> |t.requests| == |s.requests| + 1)
    && s.matched <= t.matched && s.logins.Keys <= t.logins.Keys && (s.authenticated ==> t.authenticated)
    && t.offered == s.offered && t.written == s.written && t.wire == s.wire
  }

  lemma DispatchShape(c: Codec, s: Session, f: Frame)
    requires s.pc == Arrived(f)
    ensures match Dispatch(c, s, f)
            case Await(t) => SameButReader(s, t) && Handling(t.pc) && !InRpc(t.pc)
            case Answer(t, reply) => SameButReader(s, t)
            case _ => false
  {
    DispatchReader(c, s, f);
    DispatchCallsNobody(c, s, f);
    hide Dispatch, ReaderOk, ProperReply;
  }

  lemma DispatchCallsNobody(c: Codec, s: Session, f: Frame)
    ensures Dispatch(c, s, f).Await? ==> !InRpc(Dispatch(c, s, f).session.pc)
  {
    hide CString, ConstructedBody, EnumCast, ErrorAndClose, ErrorReply, EmptyReply;
  }

  lemma ContinueShape(c: Codec, s: Session, count: nat, choice: Choice)
    requires Resumable(s.pc)
    ensures match Continue(c, s, count, choice)
            case Await(t) => SameButReader(s, t) && Handling(t.pc) && !InRpc(t.pc)
            case Answer(t, reply) => SameButReader(s, t)
            case _ => true
  {
    hide CString, ConstructedBody, Dispatch, ErrorAndClose, ErrorReply, TextReply, SameButReader;
    if s.pc.Arrived? {
      DispatchShape(c, s, s.pc.frame);
    } else {
      HandlerShape(c, s, count, choice);
    }
  }

  lemma HandlerShape(c: Codec, s: Session, count: nat, choice: Choice)
    requires Resumable(s.pc) && !s.pc.Arrived?
    ensures match Continue(c, s, count, choice)
            case Await(t) => SameButReader(s, t) && Handling(t.pc) && !InRpc(t.pc)
            case Answer(t, reply) => SameButReader(s, t)
            case _ => true
  {
    hide CString, ConstructedBody, Dispatch, ErrorAndClose, ErrorReply, TextReply;
  }

  lemma AwaitStepOk(c: Codec, s: Session, count: nat, choice: Choice)
    requires SessionInv(c, s) && Resumable(s.pc)
    requires Continue(c, s, count, choice).Await?
    ensures var t := Continue(c, s, count, choice).session;
            StepOk(c, s, t) && t.stopped == s.stopped && !InRpc(t.pc) && !InRpc(s.pc)
  {
    hide SessionInv, Continue;
    ContinueKeepsSession(c, s, count, choice);
    ContinueShape(c, s, count, choice);
  }

  lemma AnswerStepOk(c: Codec, s: Session, count: nat, choice: Choice)
    requires SessionInv(c, s) && Resumable(s.pc)
    requires Continue(c, s, count, choice).Answer?
    ensures var next := Continue(c, s, count, choice);
            var t := Finish(next.session, next.reply);
            StepOk(c, s, t) && t.stopped == s.stopped && !InRpc(t.pc) && !InRpc(s.pc)
  {
    hide SessionInv, Continue, Answering;
    ContinueKeepsSession(c, s, count, choice);
    ContinueShape(c, s, count, choice);
    var next := Continue(c, s, count, choice);
    FinishKeepsSession(c, next.session, next.reply);
    var o := Offer(next.reply, Reply(Current(next.session)), next.session.uid, HasRoom(next.session.(pc := Idle)));
    assert Finish(next.session, next.reply).offered == s.offered + [o];
  }

  // ---------- The stores ----------

  lemma LoginServerOfRoute(c: Codec, st: State, uid: int)
    requires Inv(c, st) && uid in st.routes
    ensures IsInt32(uid) && IsServerName(st.routes[uid])
  {
    hide SessionInv, OutboxOk, RepliesOk, ReaderOk, PushesInv, OrderInv, UniqueInv, ParticipantsInv, BlockedInv;
    LastLoginOccurs(st.logins, uid);
    var k :| 0 <= k < |st.logins| && st.logins[k] == (uid, LastLogin(st.logins, uid).value);
    assert MatchedAt(st.sessions, st.logins[k].0, st.logins[k].1);
    var i :| 0 <= i < |st.sessions| && st.sessions[i].home == st.logins[k].1 && uid in st.sessions[i].matched;
    assert SessionInv(c, st.sessions[i]);
    MatchedAreInt32(c, st.sessions[i]);
  }

  lemma MatchedAreInt32(c: Codec, s: Session)
    requires SessionInv(c, s)
    ensures forall u :: u in s.matched ==> IsInt32(u)
  {
    hide OutboxOk, RepliesOk, ReaderOk, GateOk;
  }

  lemma {:induction false} LastLoginOccurs(logins: seq<(int, ServerId)>, uid: int)
    requires LastLogin(logins, uid).Some?
    ensures exists k :: 0 <= k < |logins| && logins[k] == (uid, LastLogin(logins, uid).value)
  {
    var last := |logins| - 1;
    if logins[last].0 == uid {
      assert logins[last] == (uid, LastLogin(logins, uid).value);
    } else {
      LastLoginOccurs(logins[..last], uid);
      var k :| 0 <= k < last && logins[..last][k] == (uid, LastLogin(logins, uid).value);
      assert logins[k] == (uid, LastLogin(logins, uid).value);
    }
  }

  lemma LoginKeepsRoutes(sessions: seq<Session>, routes: map<int, string>, logins: seq<(int, ServerId)>, i: nat, uid: int)
    requires RoutesInv(sessions, routes, logins)
    requires i < |sessions| && uid in sessions[i].matched
    ensures RoutesInv(sessions, routes[uid := sessions[i].home.Name()], logins + [(uid, sessions[i].home)])
  {
    var more := logins + [(uid, sessions[i].home)];
    assert more[..|logins|] == logins;
    assert MatchedAt(sessions, uid, sessions[i].home);
    forall u ensures LastLogin(more, u) == if u == uid then Some(sessions[i].home) else LastLogin(logins, u) {
    }
  }

  lemma PcStepOk(c: Codec, s: Session, pc: Pc)
    requires SessionInv(c, s) && Handling(s.pc) && !InRpc(s.pc)
    requires Handling(pc) && !InRpc(pc)
    requires ReaderOk(c, pc, s.requests, s.uid, s.authenticated, s.matched)
    requires LoginsOk(pc, |s.requests|, s.authenticated, s.logins)
    ensures StepOk(c, s, s.(pc := pc))
  {
    hide OutboxOk, RepliesOk, AuthOk, ReaderOk, GateOk, LoginsOk;
  }

  function PcAfterExec(st: State, s: Session, fault: bool): Pc
    requires NeedsStore(s.pc)
  {
    match s.pc
    case TokenGet(uid, token) => TokenGot(uid, token, if fault || uid !in st.tokens then None else Some(st.tokens[uid]))
    case CountSet(uid, _) => CountDone(uid)
    case RouteSet(uid) => Lists(uid)
    case TableWrite(n) => TableDone(n, fault)
    case RouteGet(n) => RouteGot(n, if fault || n.to !in st.routes then None else Some(st.routes[n.to]))
  }

  /** The answer a session gets fits what the stores hold. */
  lemma ExecReaderOk(c: Codec, st: State, s: Session, fault: bool)
    requires ReaderInv(c, s) && NeedsStore(s.pc)
    requires TokensInv(st.tokens)
    requires s.pc.RouteGet? && s.pc.notice.to in st.routes ==>
               IsInt32(s.pc.notice.to) && IsServerName(st.routes[s.pc.notice.to])
    ensures ReaderOk(c, PcAfterExec(st, s, fault), s.requests, s.uid, s.authenticated, s.matched)
  {
    hide LoginPc, NoticePc;
  }

  lemma ExecLoginsOk(c: Codec, st: State, s: Session, fault: bool)
    requires SessionInv(c, s) && NeedsStore(s.pc)
    ensures LoginsOk(PcAfterExec(st, s, fault), |s.requests|, s.authenticated, s.logins)
  {
    hide OutboxOk, RepliesOk, AuthOk, ReaderOk, GateOk;
  }

  lemma ExecStepOk(c: Codec, st: State, i: nat, fault: bool)
    requires Inv(c, st) && i < |st.sessions| && NeedsStore(st.sessions[i].pc)
    ensures var s := st.sessions[i];
            var t := s.(pc := PcAfterExec(st, s, fault));
            && StepOk(c, s, t) && t.stopped == s.stopped && !InRpc(t.pc) && !InRpc(s.pc)
            && Execute(st, i, fault).sessions == st.sessions[i := t]
  {
    hide SessionInv, StepOk, FriendTables.Execute;
    var s := st.sessions[i];
    SessionOfInv(c, st, i);
    if s.pc.RouteGet? && s.pc.notice.to in st.routes {
      LoginServerOfRoute(c, st, s.pc.notice.to);
    }
    ReaderOfSession(c, s);
    ExecReaderOk(c, st, s, fault);
    ExecLoginsOk(c, st, s, fault);
    PcStepOk(c, s, PcAfterExec(st, s, fault));
  }

  lemma ReaderOfSession(c: Codec, s: Session)
    requires SessionInv(c, s)
    ensures ReaderInv(c, s)
  {
    hide OutboxOk, RepliesOk, AuthOk, ReaderOk, GateOk;
  }

  lemma ExecKeepsInv(c: Codec, st: State, i: nat, fault: bool)
    requires Inv(c, st) && i < |st.sessions| && NeedsStore(st.sessions[i].pc)
    ensures Inv(c, Execute(st, i, fault)) && Quiet(st.sessions, Execute(st, i, fault).sessions)
  {
    hide SessionInv, StepOk, SessionsInv, ParticipantsInv, BlockedInv, RoutesInv, PushesInv, OrderInv, UniqueInv,
         FriendTables.Inv, FriendTables.Execute, Quiet, AskedBy;
    var s := st.sessions[i];
    SessionOfInv(c, st, i);
    var t := s.(pc := PcAfterExec(st, s, fault));
    ExecStepOk(c, st, i, fault);
    QuietStep(c, st, i, t);
    ReaderOfSession(c, s);
    if s.pc.RouteSet? && !fault {
      LoginKeepsRoutes(st.sessions[i := t], st.routes, st.logins, i, s.pc.uid);
    }
    if s.pc.TableWrite? && !fault {
      FriendTables.ExecuteKeepsInv(st.tables, StatementOf(s.pc.notice));
    }
  }

  lemma SessionOfInv(c: Codec, st: State, i: nat)
    requires Inv(c, st) && i < |st.sessions|
    ensures SessionInv(c, st.sessions[i])
  {
    hide SessionInv;
  }

  // ---------- Notifications ----------

  lemma CallStepOk(c: Codec, s: Session, pc: Pc)
    requires SessionInv(c, s) && Handling(s.pc) && InRpc(pc)
    requires s.pc.Called? ==> pc.Called?
    requires ReaderOk(c, pc, s.requests, s.uid, s.authenticated, s.matched)
    ensures StepOk(c, s, s.(pc := pc))
    ensures !s.pc.Called? && pc.Called? ==> Bound(s) <= Current(s) < Bound(s.(pc := pc))
  {
    hide OutboxOk, AuthOk, ReaderOk, GateOk;
  }

  lemma DeliveryGrows(c: Codec, s: Session, m: Message, cause: Cause)
    requires AuthInv(s) && !s.stopped
    ensures Grows(s, Deliver(s, m, cause))
    ensures Deliver(s, m, cause).offered == s.offered + [Offer(m, cause, s.uid, HasRoom(s))]
  {
  }

  lemma SuccessIsProper(c: Codec, s: Session, n: Notice, reply: Message)
    requires ReaderOk(c, Calling(n), s.requests, s.uid, s.authenticated, s.matched)
    requires reply == ErrorReply(c, Code(ResponseId(RequestId(n))), Success) || reply == ErrorReply(c, CurrentId(s), RPCFailed)
    ensures s.requests != [] && ProperReply(c, s.requests[|s.requests| - 1], reply, StageOf(s.logins, |s.requests| - 1))
  {
    hide CString, ConstructedBody;
  }

  /** The session answers the request whose notification it has just sent out. */
  lemma SuccessStepOk(c: Codec, s: Session, n: Notice, reply: Message)
    requires SessionInv(c, s) && Handling(s.pc)
    requires ReaderOk(c, Calling(n), s.requests, s.uid, s.authenticated, s.matched)
    requires reply == ErrorReply(c, Code(ResponseId(RequestId(n))), Success) || reply == ErrorReply(c, CurrentId(s), RPCFailed)
    ensures StepOk(c, s, Finish(s, reply)) && Current(s) < Bound(Finish(s, reply))
  {
    hide OutboxOk, AuthOk, GateOk, RepliesOk, CString, ConstructedBody, ReaderOk, ProperReply, ErrorReply;
    SuccessIsProper(c, s, n, reply);
    assert Answering(c, s, reply);
    FinishKeepsSession(c, s, reply);
    hide SessionInv;
    var o := Offer(reply, Reply(Current(s)), s.uid, HasRoom(s.(pc := Idle)));
    assert Finish(s, reply).offered == s.offered + [o];
  }

  function NotifiedSessions(c: Codec, sessions: seq<Session>, i: nat, j: nat, route: Route, n: Notice, t: Session): seq<Session>
    requires i < |sessions| && j < |sessions|
  {
    sessions[j := Deliver(sessions[j], PushMessage(c, route, n), Push(i, Current(sessions[i]), route, n))][i := t]
  }

  /** Session i asks for `n` and continues as `t`; session j, found under the addressed uid, is notified. */
  ghost predicate Notification(c: Codec, sessions: seq<Session>, i: nat, j: nat, route: Route, n: Notice, t: Session) {
    && i < |sessions| && j < |sessions|
    && ReaderOk(c, Calling(n), sessions[i].requests, sessions[i].uid, sessions[i].authenticated, sessions[i].matched)
    && sessions[j].uid == n.to && !sessions[j].stopped
    && (route == Local <==> sessions[j].home == sessions[i].home)
    && StepOk(c, sessions[i], t) && t.stopped == sessions[i].stopped
    && Bound(sessions[i]) <= Current(sessions[i]) < Bound(t)
  }

  lemma AddresseeIsAnother(c: Codec, s: Session, t: Session, n: Notice)
    requires ReaderOk(c, Calling(n), s.requests, s.uid, s.authenticated, s.matched) && t.uid == n.to
    ensures s.uid != t.uid
  {
    hide AskedBy;
  }

  lemma NotificationGrows(c: Codec, sessions: seq<Session>, i: nat, j: nat, route: Route, n: Notice, t: Session)
    requires Notification(c, sessions, i, j, route, n, t) && i != j && AuthInv(sessions[j])
    ensures var news := NotifiedSessions(c, sessions, i, j, route, n, t);
            && (forall k :: 0 <= k < |sessions| ==> Grows(sessions[k], news[k]))
            && (forall k :: 0 <= k < |sessions| && k != j ==> NoNewPush(sessions[k], news[k]))
  {
    hide SessionInv, PushMessage, Bound, ReaderOk, HasRoom, Deliver, NoNewPush, Grows, AuthOk;
    var news := NotifiedSessions(c, sessions, i, j, route, n, t);
    DeliveryGrows(c, sessions[j], PushMessage(c, route, n), Push(i, Current(sessions[i]), route, n));
    forall k | 0 <= k < |sessions|
      ensures Grows(sessions[k], news[k]) && (k != j ==> NoNewPush(sessions[k], news[k]))
    {
      if k != i && k != j {
        assert news[k] == sessions[k];
        UnchangedGrows(sessions[k]);
      }
    }
  }

  lemma UnchangedGrows(s: Session)
    ensures Grows(s, s) && NoNewPush(s, s)
  {
  }

  lemma NotificationNotifies(c: Codec, sessions: seq<Session>, i: nat, j: nat, route: Route, n: Notice, t: Session)
    requires SessionsInv(c, sessions) && Notification(c, sessions, i, j, route, n, t)
    ensures i != j
    ensures Notifies(c, sessions, NotifiedSessions(c, sessions, i, j, route, n, t), i, j, route, n)
  {
    hide SessionInv, PushMessage, Bound, ReaderOk, HasRoom, AuthOk, Grows, NoNewPush, Deliver;
    AddresseeIsAnother(c, sessions[i], sessions[j], n);
    AuthOfSession(c, sessions[i]);
    AuthOfSession(c, sessions[j]);
    DeliveryGrows(c, sessions[j], PushMessage(c, route, n), Push(i, Current(sessions[i]), route, n));
    NotificationGrows(c, sessions, i, j, route, n, t);
  }

  lemma NotificationKeepsSessions(c: Codec, sessions: seq<Session>, i: nat, j: nat, route: Route, n: Notice, t: Session)
    requires SessionsInv(c, sessions) && Notification(c, sessions, i, j, route, n, t)
    ensures SessionsInv(c, NotifiedSessions(c, sessions, i, j, route, n, t))
  {
    hide SessionInv, PushMessage, Bound, ReaderOk, Grows, Deliver;
    PushKeepsSession(c, sessions[j], PushMessage(c, route, n), Push(i, Current(sessions[i]), route, n));
  }

  lemma NotificationKeepsNodes(c: Codec, sessions: seq<Session>, participants: PerServer<set<nat>>,
                               blocked: PerServer<Option<nat>>, i: nat, j: nat, route: Route, n: Notice, t: Session)
    requires ParticipantsInv(sessions, participants) && BlockedInv(sessions, blocked)
    requires Notification(c, sessions, i, j, route, n, t) && i != j
    ensures ParticipantsInv(NotifiedSessions(c, sessions, i, j, route, n, t), participants)
    ensures InRpc(t.pc) == InRpc(sessions[i].pc) ==>
              BlockedInv(NotifiedSessions(c, sessions, i, j, route, n, t), blocked)
  {
    hide ParticipantsInv, BlockedInv, SessionInv, PushMessage, Bound, ReaderOk;
    var d := Deliver(sessions[j], PushMessage(c, route, n), Push(i, Current(sessions[i]), route, n));
    ReplaceKeepsParticipants(sessions, participants, j, d);
    ReplaceKeepsParticipants(sessions[j := d], participants, i, t);
    ReplaceKeepsBlocked(sessions, blocked, j, d);
    ReplaceKeepsBlocked(sessions[j := d], blocked, i, t);
  }

  lemma NotifyStep(c: Codec, st: State, i: nat, j: nat, route: Route, n: Notice, t: Session)
    requires Inv(c, st) && Notification(c, st.sessions, i, j, route, n, t)
    requires InRpc(t.pc) == InRpc(st.sessions[i].pc)
    ensures var news := NotifiedSessions(c, st.sessions, i, j, route, n, t);
            Inv(c, st.(sessions := news)) && Notifies(c, st.sessions, news, i, j, route, n)
  {
    hide SessionsInv, ParticipantsInv, BlockedInv, RoutesInv, PushesInv, OrderInv, UniqueInv, StepOk, ReaderOk, Bound, Deliver, PushMessage;
    var news := NotifiedSessions(c, st.sessions, i, j, route, n, t);
    NotificationNotifies(c, st.sessions, i, j, route, n, t);
    NotificationKeepsSessions(c, st.sessions, i, j, route, n, t);
    NotificationKeepsNodes(c, st.sessions, st.participants, st.blocked, i, j, route, n, t);
    GrowingKeepsRoutes(st.sessions, news, st.routes, st.logins);
    NotifyKeepsPushes(c, st.sessions, news, i, j, route, n);
    NotifyKeepsOrder(c, st.sessions, news, i, j, route, n);
    NotifyKeepsUnique(c, st.sessions, news, i, j, route, n);
  }

  lemma AuthOfSession(c: Codec, s: Session)
    requires SessionInv(c, s)
    ensures AuthInv(s)
  {
    hide OutboxOk, RepliesOk, AuthOk, ReaderOk, GateOk;
  }

  // ---------- Every step ----------

  /** Sessions are never removed, and each of them only grows. */
  ghost predicate Extends(olds: seq<Session>, news: seq<Session>) {
    |olds| <= |news| && forall i :: 0 <= i < |olds| ==> Grows(olds[i], news[i])
  }

  lemma ConnectKeepsInv(c: Codec, st: State, server: ServerId, memory: int)
    requires Inv(c, st)
    ensures var r := Apply(c, st, Connect(server, memory)); Inv(c, r) && Quiet(st.sessions, r.sessions)
    requires Enabled(c, st, Connect(server, memory))
  {
    hide PushesInv, OrderInv, UniqueInv, RoutesInv, Grows, SessionInv, NoNewPush;
    var s := NewSession(server, memory);
    var r := Apply(c, st, Connect(server, memory));
    NewSessionOk(c, server, memory);
    forall i | 0 <= i < |st.sessions| ensures Grows(st.sessions[i], r.sessions[i]) && NoNewPush(st.sessions[i], r.sessions[i]) {
      UnchangedGrows(st.sessions[i]);
    }
    GrowingKeepsRoutes(st.sessions, r.sessions, st.routes, st.logins);
    QuietKeepsPushes(c, st.sessions, r.sessions);
    forall x: ServerId, k: nat
      ensures st.blocked.Of(x) == Some(k) <==> k < |r.sessions| && r.sessions[k].home == x && InRpc(r.sessions[k].pc)
    {
      assert st.blocked.Of(x) == Some(k) <==> k < |st.sessions| && st.sessions[k].home == x && InRpc(st.sessions[k].pc);
    }
  }

  lemma NewSessionOk(c: Codec, server: ServerId, memory: int)
    ensures SessionInv(c, NewSession(server, memory)) && NewSession(server, memory).offered == []
  {
  }

  lemma ResumeKeepsInv(c: Codec, st: State, i: nat, choice: Choice, target: Option<nat>)
    requires Inv(c, st) && Enabled(c, st, Resume(i, choice, target))
    ensures var r := ApplyResume(c, st, i, choice, target); Inv(c, r) && Extends(st.sessions, r.sessions)
  {
    hide SessionsInv, SessionInv, ParticipantsInv, BlockedInv, RoutesInv, PushesInv, OrderInv, UniqueInv, Grows, NoNewPush,
         Continue, ReaderOk, Bound, FriendTables.Inv, Finish, PushMessage;
    var s := st.sessions[i];
    SessionOfInv(c, st, i);
    var count := AsUint32(|st.participants.Of(s.home)|);
    match ResumeOf(c, st, i, choice)
    case Await(t) =>
      AwaitStepOk(c, s, count, choice);
      QuietStep(c, st, i, t);
    case Answer(t, reply) =>
      AnswerStepOk(c, s, count, choice);
      QuietStep(c, st, i, Finish(t, reply));
    case NotifyPeer(n) =>
      ContinueKeepsSession(c, s, count, choice);
      CallStepOk(c, s, Calling(n));
      CallingKeepsInv(c, st, i, n);
    case NotifyHere(n) =>
      ContinueKeepsSession(c, s, count, choice);
      NotifyHereKeepsInv(c, st, i, n, target);
  }

  lemma CallingKeepsInv(c: Codec, st: State, i: nat, n: Notice)
    requires Inv(c, st) && i < |st.sessions| && Free(st, i) && Resumable(st.sessions[i].pc)
    requires StepOk(c, st.sessions[i], st.sessions[i].(pc := Calling(n)))
    ensures var s := st.sessions[i];
            var r := Put(st, i, s.(pc := Calling(n))).(blocked := st.blocked.With(s.home, Some(i)));
            Inv(c, r) && Extends(st.sessions, r.sessions)
  {
    hide SessionsInv, SessionInv, ParticipantsInv, BlockedInv, RoutesInv, PushesInv, OrderInv, UniqueInv, Grows, NoNewPush,
         Bound, FriendTables.Inv;
    var t := st.sessions[i].(pc := Calling(n));
    ReplaceOne(c, st.sessions, i, t);
    ReplaceKeepsParticipants(st.sessions, st.participants, i, t);
    ReplaceKeepsBlocked(st.sessions, st.blocked, i, t);
    GrowingKeepsRoutes(st.sessions, st.sessions[i := t], st.routes, st.logins);
    QuietKeepsPushes(c, st.sessions, st.sessions[i := t]);
  }

  lemma NotifyHereKeepsInv(c: Codec, st: State, i: nat, n: Notice, target: Option<nat>)
    requires Inv(c, st) && i < |st.sessions| && Resumable(st.sessions[i].pc) && Handling(st.sessions[i].pc)
    requires ReaderOk(c, Calling(n), st.sessions[i].requests, st.sessions[i].uid, st.sessions[i].authenticated,
                      st.sessions[i].matched)
    requires MayFind(st, st.sessions[i].home, n.to, target)
    ensures var told := Notify(c, st, i, Local, n, target);
            var r := Put(told, i, Finish(told.sessions[i], ErrorReply(c, Code(ResponseId(RequestId(n))), Success)));
            Inv(c, r) && Extends(st.sessions, r.sessions)
  {
    hide SessionsInv, SessionInv, BlockedInv, RoutesInv, PushesInv, OrderInv, UniqueInv, Grows, NoNewPush,
         ReaderOk, FriendTables.Inv, Finish, PushMessage;
    var s := st.sessions[i];
    var reply := ErrorReply(c, Code(ResponseId(RequestId(n))), Success);
    SessionOfInv(c, st, i);
    SuccessStepOk(c, s, n, reply);
    FinishShape(s, reply);
    match target
    case None => QuietStep(c, st, i, Finish(s, reply));
    case Some(j) =>
      AddresseeIsAnother(c, s, st.sessions[j], n);
      NotifyStep(c, st, i, j, Local, n, Finish(s, reply));
      assert NotifiedSessions(c, st.sessions, i, j, Local, n, Finish(s, reply)) ==
             Put(Notify(c, st, i, Local, n, target), i, Finish(s, reply)).sessions;
  }

  lemma FinishShape(s: Session, reply: Message)
    ensures var t := Finish(s, reply); t.stopped == s.stopped && t.pc == Idle && t.home == s.home
  {
  }

  lemma RpcExecKeepsInv(c: Codec, st: State, i: nat, target: Option<nat>)
    requires Inv(c, st) && Enabled(c, st, RpcExec(i, target))
    ensures var r := Apply(c, st, RpcExec(i, target)); Inv(c, r) && Extends(st.sessions, r.sessions)
  {
    hide SessionsInv, SessionInv, BlockedInv, RoutesInv, PushesInv, OrderInv, UniqueInv, Grows, NoNewPush,
         FriendTables.Inv, Finish, PushMessage, Bound, AskedBy;
    var s := st.sessions[i];
    var n := s.pc.notice;
    SessionOfInv(c, st, i);
    ReaderOfSession(c, s);
    CallStepOk(c, s, Called(n, true));
    var t := s.(pc := Called(n, true));
    match target
    case None => QuietStep(c, st, i, t);
    case Some(j) =>
      AddresseeIsAnother(c, s, st.sessions[j], n);
      NotifyStep(c, st, i, j, Remote, n, t);
      assert NotifiedSessions(c, st.sessions, i, j, Remote, n, t) ==
             Put(Notify(c, st, i, Remote, n, target), i, t).sessions;
  }

  lemma RpcReturnKeepsInv(c: Codec, st: State, i: nat)
    requires Inv(c, st) && Enabled(c, st, RpcReturn(i))
    ensures var r := Apply(c, st, RpcReturn(i)); Inv(c, r) && Extends(st.sessions, r.sessions)
  {
    hide SessionsInv, SessionInv, ParticipantsInv, BlockedInv, RoutesInv, PushesInv, OrderInv, UniqueInv, Grows, NoNewPush,
         Bound, FriendTables.Inv, Finish, AskedBy;
    var s := st.sessions[i];
    var Called(n, ok) := s.pc;
    var reply := if ok then ErrorReply(c, Code(ResponseId(RequestId(n))), Success) else ErrorReply(c, CurrentId(s), RPCFailed);
    var t := Finish(s, reply);
    SessionOfInv(c, st, i);
    ReaderOfSession(c, s);
    SuccessStepOk(c, s, n, reply);
    FinishShape(s, reply);
    ReplaceOne(c, st.sessions, i, t);
    ReplaceKeepsParticipants(st.sessions, st.participants, i, t);
    ReplaceKeepsBlocked(st.sessions, st.blocked, i, t);
    GrowingKeepsRoutes(st.sessions, st.sessions[i := t], st.routes, st.logins);
    QuietKeepsPushes(c, st.sessions, st.sessions[i := t]);
  }

  lemma RpcFailKeepsInv(c: Codec, st: State, i: nat)
    requires Inv(c, st) && Enabled(c, st, RpcFail(i))
    ensures var r := Apply(c, st, RpcFail(i)); Inv(c, r) && Extends(st.sessions, r.sessions)
  {
    hide SessionsInv, SessionInv, ParticipantsInv, BlockedInv, RoutesInv, PushesInv, OrderInv, UniqueInv, Grows, NoNewPush,
         Bound, FriendTables.Inv, AskedBy;
    var s := st.sessions[i];
    SessionOfInv(c, st, i);
    ReaderOfSession(c, s);
    CallStepOk(c, s, Called(s.pc.notice, false));
    QuietStep(c, st, i, s.(pc := Called(s.pc.notice, false)));
  }

  lemma OtherStepsKeepInv(c: Codec, st: State, a: Action)
    requires Inv(c, st) && Enabled(c, st, a)
    requires a.Receive? || a.Expire? || a.ReaderFails? || a.DeadlineResumes? || a.WriterReceives? || a.WriterSends?
             || a.WriterDone? || a.WriterFails?
    ensures Inv(c, Apply(c, st, a)) && Extends(st.sessions, Apply(c, st, a).sessions)
  {
    hide SessionsInv, SessionInv, ParticipantsInv, BlockedInv, RoutesInv, PushesInv, OrderInv, UniqueInv, NoNewPush,
         Bound, FriendTables.Inv, Encode;
    var i := a.session;
    var s := st.sessions[i];
    SessionOfInv(c, st, i);
    match a {
      case Receive(_, f) => EventStepOk(c, s, f); QuietStep(c, st, i, s.(pc := Arrived(f)));
      case Expire(_) => EventStepOk(c, s, Frame(0, [])); QuietStep(c, st, i, s.(timer := Fired));
      case ReaderFails(_) => StopStepOk(c, s); StoppingStep(c, st, i, ReadFail(s));
      case DeadlineResumes(_) =>
        StopStepOk(c, s);
        var t := DeadlineResume(s);
        if t.stopped { StoppingStep(c, st, i, t); } else { QuietStep(c, st, i, t); }
      case WriterReceives(_) => WriterStepOk(c, s, 0); QuietStep(c, st, i, StartReceive(s));
      case WriterSends(_, n) => WriterStepOk(c, s, n); QuietStep(c, st, i, Send(s, n));
      case WriterDone(_) =>
        WriterStepOk(c, s, 0);
        var t := WriteDone(s);
        if t.stopped { StoppingStep(c, st, i, t); } else { QuietStep(c, st, i, t); }
      case WriterFails(_) => WriterStepOk(c, s, 0); StoppingStep(c, st, i, WriteFail(s));
    }
  }

  /** The invariant is inductive, and a step takes nothing away from any session's record. */
  lemma StepKeepsInv(c: Codec, st: State, a: Action)
    requires Inv(c, st) && Enabled(c, st, a)
    ensures Inv(c, Apply(c, st, a)) && Extends(st.sessions, Apply(c, st, a).sessions)
  {
    hide SessionsInv, ParticipantsInv, BlockedInv, RoutesInv, PushesInv, OrderInv, UniqueInv, Grows, NoNewPush,
         FriendTables.Inv, ApplyResume, Execute;
    match a
    case IssueToken(uid, token) =>
      assert TokensInv(st.tokens[uid := token]);
      forall i | 0 <= i < |st.sessions| ensures Grows(st.sessions[i], st.sessions[i]) { UnchangedGrows(st.sessions[i]); }
    case Connect(server, memory) => ConnectKeepsInv(c, st, server, memory);
    case Exec(i, fault) => ExecKeepsInv(c, st, i, fault);
    case RpcExec(i, target) => RpcExecKeepsInv(c, st, i, target);
    case RpcFail(i) => RpcFailKeepsInv(c, st, i);
    case Resume(i, choice, target) => ResumeKeepsInv(c, st, i, choice, target);
    case RpcReturn(i) => RpcReturnKeepsInv(c, st, i);
    case _ => OtherStepsKeepInv(c, st, a);
  }

  lemma InitInv(c: Codec)
    ensures Inv(c, INIT)
  {
  }

  /** The invariant holds after every run. */
  lemma {:induction false} RunKeepsInv(c: Codec, run: seq<Action>)
    requires Legal(c, run)
    ensures Inv(c, After(c, run))
  {
    hide Inv;
    if run == [] {
      InitInv(c);
    } else {
      RunKeepsInv(c, run[..|run| - 1]);
      StepKeepsInv(c, After(c, run[..|run| - 1]), run[|run| - 1]);
    }
  }

  lemma ExtendsTransitive(a: seq<Session>, b: seq<Session>, d: seq<Session>)
    requires Extends(a, b) && Extends(b, d)
    ensures Extends(a, d)
  {
    hide Bound;
    forall i | 0 <= i < |a| ensures Grows(a[i], d[i]) {
      assert Grows(a[i], b[i]) && Grows(b[i], d[i]);
    }
  }

  /** From any moment of a run to its end, every session's record only grows. */
  lemma {:induction false} RunOnlyGrows(c: Codec, run: seq<Action>, earlier: nat)
    requires Legal(c, run) && earlier <= |run|
    ensures Legal(c, run[..earlier])
    ensures Extends(After(c, run[..earlier]).sessions, After(c, run).sessions)
  {
    hide Inv, Grows, Apply, Enabled;
    if earlier == |run| {
      assert run[..earlier] == run;
      forall s: Session ensures Grows(s, s) { UnchangedGrows(s); }
    } else {
      var init := run[..|run| - 1];
      assert init[..earlier] == run[..earlier];
      RunOnlyGrows(c, init, earlier);
      RunKeepsInv(c, init);
      StepKeepsInv(c, After(c, init), run[|run| - 1]);
      ExtendsTransitive(After(c, run[..earlier]).sessions, After(c, init).sessions, After(c, run).sessions);
    }
  }
}
