/** What one step of the cluster can do to one session. */
module ClusterShapes {
  import opened Wrappers
  import opened Framing
  import opened Protocol
  import opened Sessions
  import opened SessionInvariants
  import opened Cluster
  import opened ClusterInvariants
  import opened ClusterSteps
  import FriendTables

  // ---------- Steps of a session by itself ----------

  /** The steps that involve neither a store nor the peer nor a handler. */
  predicate IsMove(a: Action) {
    IsWriterStep(a) || a.Receive? || a.Expire? || a.ReaderFails? || a.DeadlineResumes?
  }

  predicate CanMove(s: Session, a: Action) {
    match a
    case Receive(_, f) => s.pc.Idle? && !s.stopped
    case Expire(_) => s.timer.Armed?
    case ReaderFails(_) => s.pc.Idle?
    case DeadlineResumes(_) => s.timer.Fired? || s.timer.Cancelled?
    case WriterReceives(_) => s.writer.Ready?
    case WriterSends(_, n) => CanSend(s, n)
    case WriterDone(_) => WriteComplete(s)
    case WriterFails(_) => s.writer.Writing?
    case _ => false
  }

  function Moved(s: Session, a: Action): Session
    requires CanMove(s, a)
  {
    match a
    case Receive(_, f) => s.(pc := Arrived(f))
    case Expire(_) => s.(timer := Fired)
    case ReaderFails(_) => ReadFail(s)
    case DeadlineResumes(_) => DeadlineResume(s)
    case WriterReceives(_) => StartReceive(s)
    case WriterSends(_, n) => Send(s, n)
    case WriterDone(_) => WriteDone(s)
    case WriterFails(_) => WriteFail(s)
  }

  lemma MoveShape(c: Codec, st: State, a: Action)
    requires Enabled(c, st, a) && IsMove(a)
    ensures a.session < |st.sessions| && CanMove(st.sessions[a.session], a)
    ensures Apply(c, st, a).sessions == st.sessions[a.session := Moved(st.sessions[a.session], a)]
    ensures Apply(c, st, a) == st.(sessions := Apply(c, st, a).sessions, participants := Apply(c, st, a).participants)
  {
    hide StartReceive, Send, WriteDone, WriteFail, ReadFail, DeadlineResume, CanSend, WriteComplete;
  }

  // ---------- Steps that leave a session's authentication alone ----------

  ghost predicate Kept(s: Session, t: Session) {
    && t.stopped == s.stopped && t.authenticated == s.authenticated && t.uid == s.uid
    && t.matched == s.matched && t.logins == s.logins && t.requests == s.requests
    && (t.pc.TokenGot? ==> t.pc == s.pc)
  }

  lemma FinishKept(s: Session, reply: Message)
    ensures Kept(s, Finish(s, reply))
  {
  }

  lemma DeliverKept(s: Session, m: Message, cause: Cause)
    ensures Kept(s, Deliver(s, m, cause)) && Deliver(s, m, cause).pc == s.pc
  {
  }

  lemma NotifyKept(c: Codec, st: State, j: nat, route: Route, n: Notice, target: Option<nat>, i: nat)
    requires j < |st.sessions| && i < |st.sessions| && (target.Some? ==> target.value < |st.sessions|)
    ensures Kept(st.sessions[i], Notify(c, st, j, route, n, target).sessions[i])
    ensures Notify(c, st, j, route, n, target).sessions[i].pc == st.sessions[i].pc
  {
    hide PushMessage, Deliver;
    if target == Some(i) {
      DeliverKept(st.sessions[i], PushMessage(c, route, n), Push(j, Current(st.sessions[j]), route, n));
    }
  }

  lemma KeptThenFinish(s: Session, t: Session, reply: Message)
    requires Kept(s, t)
    ensures Kept(s, Finish(t, reply))
  {
  }

  lemma RpcKept(c: Codec, st: State, a: Action, i: nat)
    requires Enabled(c, st, a) && (a.RpcExec? || a.RpcFail? || a.RpcReturn?) && i < |st.sessions|
    ensures i < |Apply(c, st, a).sessions| && Kept(st.sessions[i], Apply(c, st, a).sessions[i])
  {
    hide Finish, ErrorReply, PushMessage, Notify, MayFind;
    match a {
      case RpcExec(j, target) =>
        assert target.Some? ==> target.value < |st.sessions| by { FoundIsSession(st, st.sessions[j].home.Peer(), AcrossRpc(st.sessions[j].pc.notice).to, target); }
        NotifyKept(c, st, j, Remote, st.sessions[j].pc.notice, target, i);
        NotifyKept(c, st, j, Remote, st.sessions[j].pc.notice, target, j);
      case RpcReturn(j) =>
        FinishKept(st.sessions[j], ErrorReply(c, CurrentId(st.sessions[j]), RPCFailed));
        FinishKept(st.sessions[j], ErrorReply(c, Code(ResponseId(RequestId(st.sessions[j].pc.notice))), Success));
      case RpcFail(j) =>
    }
  }

  lemma FoundIsSession(st: State, server: ServerId, uid: int, target: Option<nat>)
    requires MayFind(st, server, uid, target)
    ensures target.Some? ==> target.value < |st.sessions|
  {
  }

  // ---------- Resumptions ----------

  /** The current request's login got further: its token was the stored one, or it had been before. */
  ghost predicate LoginWentOn(s: Session, t: Session) {
    && t.requests == s.requests
    && ((s.pc.TokenGot? && s.pc.stored == Some(s.pc.token) && t.matched == s.matched + {s.pc.uid}) || s.pc.UserLookup? || s.pc.CountDone?)
  }

  /** What a resumption of the reader may change of the session's authentication. */
  ghost predicate Resumed(s: Session, t: Session) {
    && t.stopped == s.stopped && !t.pc.TokenGot?
    && (t.requests == s.requests
        || (s.pc.Arrived? && t.requests == s.requests + [Request(s.pc.frame, s.authenticated, s.uid)]))
    && (t.matched == s.matched || LoginWentOn(s, t))
    && (forall k :: k in t.logins ==> k in s.logins || (k == Current(s) && LoginWentOn(s, t)))
    && (t.authenticated && !s.authenticated ==> s.pc.CountDone?)
  }

  lemma DispatchResumes(c: Codec, s: Session, f: Frame)
    requires s.pc == Arrived(f)
    ensures match Dispatch(c, s, f)
            case Await(t) => Resumed(s, t)
            case Answer(t, reply) => Resumed(s, t.(pc := Idle))
            case _ => false
  {
    hide CString, ConstructedBody, EnumCast, ErrorAndClose, ErrorReply, EmptyReply;
  }

  lemma ContinueResumes(c: Codec, s: Session, count: nat, choice: Choice)
    requires Resumable(s.pc)
    ensures match Continue(c, s, count, choice)
            case Await(t) => Resumed(s, t)
            case Answer(t, reply) => Resumed(s, t.(pc := Idle))
            case _ => !s.pc.TokenGot?
  {
    hide CString, ConstructedBody, ErrorAndClose, ErrorReply, TextReply, EnumCast, Dispatch;
    if s.pc.Arrived? {
      DispatchResumes(c, s, s.pc.frame);
    }
  }

  lemma FinishResumes(s: Session, t: Session, reply: Message)
    requires Resumed(s, t.(pc := Idle))
    ensures Resumed(s, Finish(t, reply))
  {
  }

  lemma ResumeShape(c: Codec, st: State, j: nat, choice: Choice, target: Option<nat>, i: nat)
    requires Enabled(c, st, Resume(j, choice, target)) && i < |st.sessions|
    ensures var r := ApplyResume(c, st, j, choice, target);
            && i < |r.sessions|
            && (Kept(st.sessions[i], r.sessions[i]) || (i == j && Resumed(st.sessions[i], r.sessions[i])))
  {
    hide Continue, Finish, ErrorReply, Notify, Resumed, MayFind;
    var s := st.sessions[j];
    ContinueResumes(c, s, AsUint32(|st.participants.Of(s.home)|), choice);
    match ResumeOf(c, st, j, choice)
    case Await(t) =>
    case Answer(t, reply) => FinishResumes(s, t, reply);
    case NotifyPeer(n) =>
    case NotifyHere(n) =>
      FoundIsSession(st, s.home, n.to, target);
      NotifyKept(c, st, j, Local, n, target, i);
      NotifyKept(c, st, j, Local, n, target, j);
      KeptThenFinish(s, Notify(c, st, j, Local, n, target).sessions[j], ErrorReply(c, Code(ResponseId(RequestId(n))), Success));
  }

  // ---------- Every step ----------

  lemma ExecShape(st: State, j: nat, fault: bool)
    requires j < |st.sessions| && NeedsStore(st.sessions[j].pc)
    ensures Execute(st, j, fault).sessions == st.sessions[j := st.sessions[j].(pc := PcAfterExec(st, st.sessions[j], fault))]
    ensures Execute(st, j, fault).tokens == st.tokens && Execute(st, j, fault).participants == st.participants
    ensures Execute(st, j, fault).blocked == st.blocked
  {
    hide FriendTables.Execute;
  }

  lemma StepShape(c: Codec, st: State, a: Action, i: nat)
    requires Enabled(c, st, a) && i < |st.sessions|
    ensures i < |Apply(c, st, a).sessions|
    ensures var s, t := st.sessions[i], Apply(c, st, a).sessions[i];
            || Kept(s, t)
            || (a.Exec? && a.session == i && NeedsStore(s.pc) && t == s.(pc := PcAfterExec(st, s, a.fault)))
            || (IsMove(a) && a.session == i && CanMove(s, a) && t == Moved(s, a))
            || (a.Resume? && a.session == i && Resumed(s, t))
  {
    hide Execute, ApplyResume, Moved, CanMove, Resumed, PcAfterExec;
    if a.Exec? {
      ExecShape(st, a.session, a.fault);
    } else if a.Resume? {
      ResumeShape(c, st, a.session, a.choice, a.target, i);
    } else if IsMove(a) {
      MoveShape(c, st, a);
      hide Apply, Enabled;
    } else if a.RpcExec? || a.RpcFail? || a.RpcReturn? {
      RpcKept(c, st, a, i);
      hide Apply, Enabled;
    }
  }

  /** A session moving by itself keeps its logins, and stops in one of four ways. */
  lemma MovedMeans(s: Session, a: Action)
    requires IsMove(a) && CanMove(s, a)
    ensures var t := Moved(s, a);
            && t.matched == s.matched && t.logins == s.logins && t.requests == s.requests
            && t.authenticated == s.authenticated && t.uid == s.uid
            && (t.pc.TokenGot? ==> t.pc == s.pc)
            && (!s.stopped && t.stopped ==>
                  || a.ReaderFails? || a.WriterFails?
                  || (a.WriterDone? && s.writer.message.close)
                  || (a.DeadlineResumes? && s.timer.Fired? && !s.authenticated))
  {
    hide Encode;
  }
}
