/** The friend tables under the two servers: they hold exactly what the authenticated requests asked for. */
module ClusterTables {
  import opened Wrappers
  import opened Framing
  import opened Protocol
  import opened Sessions
  import opened SessionInvariants
  import opened Cluster
  import opened ClusterInvariants
  import opened ClusterSteps
  import opened ClusterShapes
  import opened ClusterTokens
  import opened ClusterTheorems
  import opened ClusterProgress
  import opened ClusterDelivery
  import opened ClusterWitnesses
  import FriendTables

  // ---------- The statements of a run ----------

  /** The statement that a request has the handler run: about its `uid` and `touid`, in this order, for an application and
      for an acceptance alike. */
  function StatementAsked(c: Codec, r: Request): Option<FriendTables.Statement> {
    var body := CString(r.frame.body);
    match EnumCast(r.frame.id)
    case Some(AddFriendRequest) => (
      match c.parseAddFriend(body)
      case None => None
      case Some(b) => Some(FriendTables.AddApply(b.uid, b.touid)))
    case Some(AuthFriendRequest) => (
      match c.parseAuthFriend(body)
      case None => None
      case Some(b) => Some(FriendTables.AuthApply(b.uid, b.touid)))
    case _ => None
  }

  /** The statement that this step executes: that of the request which its session is handling. */
  function NewOp(c: Codec, st: State, a: Action): seq<FriendTables.Statement> {
    match a
    case Exec(i, false) =>
      if i < |st.sessions| && st.sessions[i].pc.TableWrite? && st.sessions[i].requests != [] then
        match StatementAsked(c, st.sessions[i].requests[|st.sessions[i].requests| - 1])
        case Some(op) => [op]
        case None => []
      else []
    case _ => []
  }

  ghost function Ops(c: Codec, run: seq<Action>): seq<FriendTables.Statement>
    requires Legal(c, run)
  {
    if run == [] then []
    else
      var earlier := run[..|run| - 1];
      Ops(c, earlier) + NewOp(c, After(c, earlier), run[|run| - 1])
  }

  lemma OpsMore(c: Codec, run: seq<Action>, a: Action)
    requires Legal(c, run) && Enabled(c, After(c, run), a)
    ensures Legal(c, run + [a]) && After(c, run + [a]) == Apply(c, After(c, run), a)
    ensures Ops(c, run + [a]) == Ops(c, run) + NewOp(c, After(c, run), a)
  {
    hide Apply, Enabled, NewOp;
    assert (run + [a])[..|run|] == run;
  }

  lemma TableWriteAsks(c: Codec, s: Session, n: Notice)
    requires ReaderInv(c, s) && s.pc == TableWrite(n)
    ensures s.requests != []
    ensures var r := s.requests[|s.requests| - 1];
            && r.authenticated && r.uid == n.from && n.from != n.to && !n.TextNotice?
            && StatementAsked(c, r) == Some(StatementOf(n))
  {
    hide CString;
  }

  lemma TablesStep(c: Codec, st: State, a: Action)
    requires Enabled(c, st, a)
    ensures Apply(c, st, a).tables ==
            if a.Exec? && !a.fault && st.sessions[a.session].pc.TableWrite?
            then FriendTables.Execute(st.tables, StatementOf(st.sessions[a.session].pc.notice)) else st.tables
  {
    hide Finish, Continue, Deliver, StartReceive, Send, WriteDone, WriteFail, DeadlineResume, ReadFail, MayFind,
         FriendTables.Execute;
    if IsMove(a) {
      MoveShape(c, st, a);
      hide Apply, Enabled;
    }
  }

  /** After every run the tables are what the executed statements of the requests make of empty ones. */
  lemma {:induction false} TablesAreOps(c: Codec, run: seq<Action>)
    requires Legal(c, run)
    ensures After(c, run).tables == FriendTables.Run(Ops(c, run))
  {
    hide Apply, Inv, SessionInv, ReaderInv, StatementAsked, FriendTables.Execute, StatementOf, MayFind, ResumeOf;
    if run != [] {
      var init, a := run[..|run| - 1], run[|run| - 1];
      var st := After(c, init);
      TablesAreOps(c, init);
      TablesStep(c, st, a);
      if a.Exec? && !a.fault && st.sessions[a.session].pc.TableWrite? {
        RunKeepsInv(c, init);
        SessionOfInv(c, st, a.session);
        ReaderOfSession(c, st.sessions[a.session]);
        TableWriteAsks(c, st.sessions[a.session], st.sessions[a.session].pc.notice);
        RunMore(Ops(c, init), StatementOf(st.sessions[a.session].pc.notice));
      } else {
        assert NewOp(c, st, a) == [];
        assert Ops(c, init) + [] == Ops(c, init);
      }
    }
  }

  lemma RunMore(ops: seq<FriendTables.Statement>, op: FriendTables.Statement)
    ensures FriendTables.Run(ops + [op]) == FriendTables.Execute(FriendTables.Run(ops), op)
  {
    assert (ops + [op])[..|ops|] == ops;
  }

  /** Session i's request number k was taken while the session was authenticated as the statement's first uid, and asks for
      the statement. */
  ghost predicate AskedFor(c: Codec, st: State, op: FriendTables.Statement, i: nat, k: nat) {
    && i < |st.sessions| && k < |st.sessions[i].requests|
    && var r := st.sessions[i].requests[k];
       r.authenticated && r.uid == op.fromUid && op.Proper() && StatementAsked(c, r) == Some(op)
  }

  ghost predicate SomeoneAskedFor(c: Codec, st: State, op: FriendTables.Statement) {
    exists i: nat, k: nat :: AskedFor(c, st, op, i, k)
  }

  lemma AskedStays(c: Codec, st: State, later: State, op: FriendTables.Statement)
    requires SomeoneAskedFor(c, st, op) && Extends(st.sessions, later.sessions)
    ensures SomeoneAskedFor(c, later, op)
  {
    hide StatementAsked, Bound, NewPushesFit;
    var i: nat, k: nat :| AskedFor(c, st, op, i, k);
    assert Grows(st.sessions[i], later.sessions[i]);
    assert AskedFor(c, later, op, i, k);
  }

  lemma NewOpIsAsked(c: Codec, st: State, a: Action)
    requires Inv(c, st) && Enabled(c, st, a) && NewOp(c, st, a) != []
    ensures |NewOp(c, st, a)| == 1 && SomeoneAskedFor(c, st, NewOp(c, st, a)[0])
  {
    hide Inv, SessionInv, ReaderInv, StatementAsked, Enabled, Apply;
    var i := a.session;
    var s := st.sessions[i];
    SessionOfInv(c, st, i);
    ReaderOfSession(c, s);
    TableWriteAsks(c, s, s.pc.notice);
    assert AskedFor(c, st, NewOp(c, st, a)[0], i, |s.requests| - 1);
  }

  lemma {:induction false} OpsAreAskedFor(c: Codec, run: seq<Action>, m: nat)
    requires Legal(c, run) && m < |Ops(c, run)|
    ensures SomeoneAskedFor(c, After(c, run), Ops(c, run)[m])
  {
    hide Apply, Enabled, Inv, SomeoneAskedFor, NewOp, Extends;
    var init, a := run[..|run| - 1], run[|run| - 1];
    RunKeepsInv(c, init);
    StepKeepsInv(c, After(c, init), a);
    if m < |Ops(c, init)| {
      OpsAreAskedFor(c, init, m);
    } else {
      NewOpIsAsked(c, After(c, init), a);
    }
    AskedStays(c, After(c, init), After(c, run), Ops(c, run)[m]);
  }

  /** Every statement executed in a run was asked for by a request of a session that was then authenticated as the uid the
      statement comes from, after a login of that uid with the issued token. */
  lemma EveryStatementWasAskedFor(c: Codec, run: seq<Action>, m: nat)
    requires Legal(c, run) && m < |Ops(c, run)|
    ensures exists i: nat, k: nat :: AskedFor(c, After(c, run), Ops(c, run)[m], i, k)
                                     && TokenProven(c, run, i, Ops(c, run)[m].fromUid, k)
  {
    hide Legal, After, Ops, StatementAsked, TokenProven, Gated;
    OpsAreAskedFor(c, run, m);
    var i: nat, k: nat :| AskedFor(c, After(c, run), Ops(c, run)[m], i, k);
    AuthenticationGate(c, run, i);
    GatedRequest(c, run, i, k);
  }

  /** In every run an application has status 1 exactly when the applicant itself accepted the user it had applied to, after
      applying; the user who was asked cannot set it. */
  lemma AcceptedIffByTheApplicant(c: Codec, run: seq<Action>, applicant: int, asked: int)
    requires Legal(c, run)
    ensures FriendTables.IsAccepted(After(c, run).tables, applicant, asked) <==>
            FriendTables.AppliedThenAuthorised(Ops(c, run), applicant, asked)
    ensures FriendTables.HasApply(After(c, run).tables, applicant, asked) <==>
            FriendTables.AddApply(applicant, asked) in Ops(c, run)
    ensures FriendTables.HasFriend(After(c, run).tables.friends, applicant, asked) <==>
            FriendTables.AuthApply(applicant, asked) in Ops(c, run) || FriendTables.AuthApply(asked, applicant) in Ops(c, run)
  {
    hide Legal, After, Ops, FriendTables.IsAccepted, FriendTables.AppliedThenAuthorised, FriendTables.HasApply, FriendTables.HasFriend;
    TablesAreOps(c, run);
    FriendTables.RowsTellTheRun(Ops(c, run), applicant, asked);
  }

  // ---------- A notification follows its statement ----------

  predicate IsStated(ops: seq<FriendTables.Statement>, n: Notice) {
    n.TextNotice? || StatementOf(n) in ops
  }

  /** Past its statement, a request's statement has been executed. */
  predicate PcIsStated(ops: seq<FriendTables.Statement>, pc: Pc) {
    match pc
    case TableDone(n, failed) => failed || IsStated(ops, n)
    case RouteGet(n) => IsStated(ops, n)
    case RouteGot(n, _) => IsStated(ops, n)
    case NameGet(n, _) => IsStated(ops, n)
    case Calling(n) => IsStated(ops, n)
    case Called(n, _) => IsStated(ops, n)
    case _ => true
  }

  ghost predicate OffersAreStated(ops: seq<FriendTables.Statement>, offered: seq<Offer>) {
    forall k :: 0 <= k < |offered| && offered[k].cause.Push? ==> IsStated(ops, offered[k].cause.notice)
  }

  ghost predicate AllStated(ops: seq<FriendTables.Statement>, sessions: seq<Session>) {
    forall i :: 0 <= i < |sessions| ==> PcIsStated(ops, sessions[i].pc) && OffersAreStated(ops, sessions[i].offered)
  }

  lemma ContinueIsStated(c: Codec, s: Session, count: nat, choice: Choice, ops: seq<FriendTables.Statement>)
    requires Resumable(s.pc) && PcIsStated(ops, s.pc)
    ensures match Continue(c, s, count, choice)
            case Await(t) => PcIsStated(ops, t.pc) && t.offered == s.offered
            case Answer(t, _) => t.offered == s.offered
            case NotifyHere(n) => IsStated(ops, n)
            case NotifyPeer(n) => IsStated(ops, n)
  {
    hide CString, ErrorReply, ErrorAndClose, EmptyReply, TextReply, EnumCast;
  }

  /** Every new notification is that of the session whose step it is. */
  ghost predicate NewPushesAre(offered: seq<Offer>, later: seq<Offer>, n: Notice) {
    offered <= later && forall k :: |offered| <= k < |later| && later[k].cause.Push? ==> later[k].cause.notice == n
  }

  lemma NewPushesAreStated(offered: seq<Offer>, later: seq<Offer>, n: Notice, ops: seq<FriendTables.Statement>)
    requires NewPushesAre(offered, later, n) && OffersAreStated(ops, offered) && IsStated(ops, n)
    ensures OffersAreStated(ops, later)
  {
    hide IsStated;
  }

  lemma NotifyPushes(c: Codec, st: State, j: nat, route: Route, n: Notice, target: Option<nat>, r: nat)
    requires j < |st.sessions| && r < |st.sessions| && (target.Some? ==> target.value < |st.sessions|)
    ensures var t := Notify(c, st, j, route, n, target).sessions[r];
            NewPushesAre(st.sessions[r].offered, t.offered, n) && t.pc == st.sessions[r].pc
  {
    hide PushMessage;
  }

  lemma FinishPushes(s: Session, offered: seq<Offer>, reply: Message, n: Notice)
    requires NewPushesAre(offered, s.offered, n)
    ensures NewPushesAre(offered, Finish(s, reply).offered, n) && Finish(s, reply).pc == Idle
  {
  }

  lemma OpsOnlyAdd(ops: seq<FriendTables.Statement>, more: seq<FriendTables.Statement>, sessions: seq<Session>)
    requires AllStated(ops, sessions) && ops <= more
    ensures AllStated(more, sessions)
  {
    hide StatementOf;
    assert forall op :: op in ops ==> op in more;
  }

  lemma ResumeIsStated(c: Codec, st: State, i: nat, choice: Choice, target: Option<nat>, ops: seq<FriendTables.Statement>)
    requires Enabled(c, st, Resume(i, choice, target)) && AllStated(ops, st.sessions)
    ensures AllStated(ops, ApplyResume(c, st, i, choice, target).sessions)
  {
    hide Continue, Finish, Notify, ErrorReply, MayFind, PcIsStated, IsStated, OffersAreStated;
    var s := st.sessions[i];
    ContinueIsStated(c, s, AsUint32(|st.participants.Of(s.home)|), choice, ops);
    var r := ApplyResume(c, st, i, choice, target);
    match ResumeOf(c, st, i, choice)
    case Await(t) =>
    case Answer(t, reply) =>
      AnswerIsStated(t, reply, ops);
    case NotifyPeer(n) => assert PcIsStated(ops, Calling(n)) by { CallingIsStated(ops, n); }
    case NotifyHere(n) =>
      FoundIsSession(st, s.home, n.to, target);
      forall k | 0 <= k < |r.sessions| ensures PcIsStated(ops, r.sessions[k].pc) && OffersAreStated(ops, r.sessions[k].offered) {
        NotifyPushes(c, st, i, Local, n, target, k);
        FinishPushes(Notify(c, st, i, Local, n, target).sessions[k], st.sessions[k].offered,
                     ErrorReply(c, Code(ResponseId(RequestId(n))), Success), n);
        NewPushesAreStated(st.sessions[k].offered, r.sessions[k].offered, n, ops);
        IdleIsStated(ops);
      }
  }

  lemma IdleIsStated(ops: seq<FriendTables.Statement>)
    ensures PcIsStated(ops, Idle)
  {
  }

  lemma CallingIsStated(ops: seq<FriendTables.Statement>, n: Notice)
    ensures PcIsStated(ops, Calling(n)) == IsStated(ops, n)
    ensures forall ok :: PcIsStated(ops, Called(n, ok)) == IsStated(ops, n)
  {
  }

  lemma AnswerIsStated(t: Session, reply: Message, ops: seq<FriendTables.Statement>)
    requires OffersAreStated(ops, t.offered)
    ensures PcIsStated(ops, Finish(t, reply).pc) && OffersAreStated(ops, Finish(t, reply).offered)
  {
    hide IsStated;
  }

  lemma RpcIsStated(c: Codec, st: State, a: Action, ops: seq<FriendTables.Statement>)
    requires Enabled(c, st, a) && (a.RpcExec? || a.RpcFail? || a.RpcReturn?) && AllStated(ops, st.sessions)
    ensures AllStated(ops, Apply(c, st, a).sessions)
  {
    hide Finish, Notify, ErrorReply, MayFind, PcIsStated, IsStated, OffersAreStated;
    var i := a.session;
    var n, r := st.sessions[i].pc.notice, Apply(c, st, a);
    CallingIsStated(ops, n);
    if a.RpcReturn? {
      AnswerIsStated(st.sessions[i], ErrorReply(c, Code(ResponseId(RequestId(n))), Success), ops);
      AnswerIsStated(st.sessions[i], ErrorReply(c, CurrentId(st.sessions[i]), RPCFailed), ops);
    } else if a.RpcExec? {
      FoundIsSession(st, st.sessions[i].home.Peer(), AcrossRpc(n).to, a.target);
      forall k | 0 <= k < |r.sessions| ensures PcIsStated(ops, r.sessions[k].pc) && OffersAreStated(ops, r.sessions[k].offered) {
        NotifyPushes(c, st, i, Remote, n, a.target, k);
        NewPushesAreStated(st.sessions[k].offered, r.sessions[k].offered, n, ops);
      }
    }
  }

  lemma ExecIsStated(c: Codec, st: State, i: nat, fault: bool, ops: seq<FriendTables.Statement>)
    requires Inv(c, st) && Enabled(c, st, Exec(i, fault)) && AllStated(ops, st.sessions)
    ensures AllStated(ops + NewOp(c, st, Exec(i, fault)), Apply(c, st, Exec(i, fault)).sessions)
  {
    hide Inv, SessionInv, ReaderInv, Execute, StatementAsked, StatementOf, OffersAreStated;
    var s := st.sessions[i];
    var more := ops + NewOp(c, st, Exec(i, fault));
    ExecShape(st, i, fault);
    OpsOnlyAdd(ops, more, st.sessions);
    if s.pc.TableWrite? {
      SessionOfInv(c, st, i);
      ReaderOfSession(c, s);
      TableWriteAsks(c, s, s.pc.notice);
      if !fault {
        assert StatementOf(s.pc.notice) == more[|ops|];
      }
    }
  }

  lemma MoveIsStated(c: Codec, st: State, a: Action, ops: seq<FriendTables.Statement>)
    requires Enabled(c, st, a) && IsMove(a) && AllStated(ops, st.sessions)
    ensures AllStated(ops, Apply(c, st, a).sessions)
  {
    MoveShape(c, st, a);
    MovedPc(st.sessions[a.session], a);
    hide Apply, Enabled, Moved, CanMove, IsStated, OffersAreStated;
  }

  lemma MovedPc(s: Session, a: Action)
    requires IsMove(a) && CanMove(s, a)
    ensures var t := Moved(s, a); t.offered == s.offered && (t.pc == s.pc || t.pc.Arrived? || t.pc.Ended?)
  {
    hide Encode;
  }

  lemma StepIsStated(c: Codec, st: State, a: Action, ops: seq<FriendTables.Statement>)
    requires Inv(c, st) && Enabled(c, st, a) && AllStated(ops, st.sessions)
    ensures AllStated(ops + NewOp(c, st, a), Apply(c, st, a).sessions)
  {
    hide Inv, IsStated, OffersAreStated, ApplyResume, Execute, StatementAsked, MayFind, ResumeOf;
    if a.Exec? {
      ExecIsStated(c, st, a.session, a.fault, ops);
    } else {
      assert ops + NewOp(c, st, a) == ops;
      if a.Resume? {
        ResumeIsEnabled(c, st, a);
        ResumeIsStated(c, st, a.session, a.choice, a.target, ops);
      } else if IsMove(a) {
        MoveIsStated(c, st, a, ops);
      } else if a.RpcExec? || a.RpcFail? || a.RpcReturn? {
        RpcIsStated(c, st, a, ops);
      } else {
        WorldIsStated(c, st, a, ops);
      }
    }
  }

  lemma WorldIsStated(c: Codec, st: State, a: Action, ops: seq<FriendTables.Statement>)
    requires Enabled(c, st, a) && (a.Connect? || a.IssueToken?) && AllStated(ops, st.sessions)
    ensures AllStated(ops, Apply(c, st, a).sessions)
  {
  }

  lemma {:induction false} RunIsStated(c: Codec, run: seq<Action>)
    requires Legal(c, run)
    ensures AllStated(Ops(c, run), After(c, run).sessions)
  {
    hide Apply, Enabled, Inv, AllStated, NewOp;
    if run == [] {
      assert AllStated([], []) by { NobodyIsStated(); }
    } else {
      var init, a := run[..|run| - 1], run[|run| - 1];
      RunIsStated(c, init);
      RunKeepsInv(c, init);
      StepIsStated(c, After(c, init), a, Ops(c, init));
    }
  }

  lemma NobodyIsStated()
    ensures AllStated([], [])
  {
  }

  /** In every run, who was told of an application has its row in the table, and who was told of an acceptance has both
      friend rows. */
  lemma PushesAreRecorded(c: Codec, run: seq<Action>, r: nat, k: nat)
    requires Legal(c, run) && IsPush(c, run, r, k)
    ensures var n, db := SessionAfter(c, run, r).offered[k].cause.notice, After(c, run).tables;
            && (n.AddNotice? ==> FriendTables.HasApply(db, n.from, n.to))
            && (n.AuthNotice? ==> FriendTables.HasFriend(db.friends, n.from, n.to) && FriendTables.HasFriend(db.friends, n.to, n.from))
  {
    hide Legal, After, Ops, FriendTables.HasApply, FriendTables.HasFriend, FriendTables.IsAccepted,
         FriendTables.AppliedThenAuthorised, PcIsStated;
    RunIsStated(c, run);
    var n := SessionAfter(c, run, r).offered[k].cause.notice;
    assert IsStated(Ops(c, run), n);
    AcceptedIffByTheApplicant(c, run, n.from, n.to);
    AcceptedIffByTheApplicant(c, run, n.to, n.from);
  }

  // ---------- The shortest such run ----------

  function AddFrame(from: Byte, to: Byte): Frame { Frame(1009, [from, to]) }

  function AuthFrame(from: Byte, to: Byte): Frame { Frame(1013, [from, to]) }

  /** Session i receives a friend request, is dispatched, and its statement is executed. */
  function StatementSteps(i: nat, f: Frame): seq<Action> {
    [Receive(i, f), Resume(i, NotFound, None), Exec(i, false)]
  }

  /** The friend request that `n` stands for. */
  ghost predicate AsksFor(c: Codec, f: Frame, n: Notice) {
    f.Fits() && f.id == Code(RequestId(n)) && n.from != n.to &&
    match n
    case AddNotice(from, to, name) => name == [] && c.parseAddFriend(CString(f.body)) == Some(PairBody(from, to))
    case AuthNotice(from, to) => c.parseAuthFriend(CString(f.body)) == Some(PairBody(from, to))
    case _ => false
  }

  lemma DispatchOfStatement(c: Codec, s: Session, f: Frame, n: Notice)
    requires AsksFor(c, f, n) && s.authenticated && s.uid == n.from
    ensures Dispatch(c, s, f) == Await(s.(requests := s.requests + [Request(f, true, s.uid)], pc := TableWrite(n)))
  {
    hide CString;
  }

  lemma StatementRuns(c: Codec, st: State, i: nat, f: Frame, n: Notice)
    requires i < |st.sessions| && AsksFor(c, f, n) && st.blocked.Of(st.sessions[i].home).None?
    requires var s := st.sessions[i]; s.pc == Idle && !s.stopped && s.authenticated && s.uid == n.from
    ensures Runs(c, st, StatementSteps(i, f))
    ensures var r := Final(c, st, StatementSteps(i, f));
            && |r.sessions| == |st.sessions| && r.blocked == st.blocked
            && (forall k :: 0 <= k < |st.sessions| && k != i ==> r.sessions[k] == st.sessions[k])
            && r.tables == FriendTables.Execute(st.tables, StatementOf(n))
  {
    hide CString, Dispatch, FriendTables.Execute;
    var a, b, e := Receive(i, f), Resume(i, NotFound, None), Exec(i, false);
    var one := Apply(c, st, a);
    DispatchOfStatement(c, one.sessions[i], f, n);
    TwoSteps(c, st, a, b);
    OneMore(c, st, [a, b], e);
    assert [a, b] + [e] == [a, b, e];
  }

  /** Users 1 and 2 log in; 1 applies to 2, and 2 accepts 1: both are friends, and the application still has status 0. */
  lemma AcceptedApplicationStaysPendingInARun()
    ensures exists run :: Legal(CODEC, run) &&
              var db := After(CODEC, run).tables;
              && FriendTables.HasApply(db, 1, 2) && !FriendTables.IsAccepted(db, 1, 2)
              && FriendTables.HasFriend(db.friends, 1, 2) && FriendTables.HasFriend(db.friends, 2, 1)
  {
    hide Apply, Enabled, CString, Runs, Final, Legal, After, FriendTables.HasApply, FriendTables.IsAccepted, FriendTables.HasFriend;
    BothLogIn();
    var first := Meeting() + LoginSteps(0) + LoginSteps(1);
    var st := Final(CODEC, INIT, first);
    CStringOfNulFree([1 as Byte, 2]);
    CStringOfNulFree([2 as Byte, 1]);
    StatementRuns(CODEC, st, 0, AddFrame(1, 2), AddNotice(1, 2, []));
    var one := Final(CODEC, st, StatementSteps(0, AddFrame(1, 2)));
    StatementRuns(CODEC, one, 1, AuthFrame(2, 1), AuthNotice(2, 1));
    RunsConcat(CODEC, INIT, first, StatementSteps(0, AddFrame(1, 2)));
    RunsConcat(CODEC, INIT, first + StatementSteps(0, AddFrame(1, 2)), StatementSteps(1, AuthFrame(2, 1)));
    var run := first + StatementSteps(0, AddFrame(1, 2)) + StatementSteps(1, AuthFrame(2, 1));
    NothingYet();
    RunsAreLegal(CODEC, [], run);
    assert [] + run == run;
    RunMore([], FriendTables.AddApply(1, 2));
    RunMore([] + [FriendTables.AddApply(1, 2)], FriendTables.AuthApply(2, 1));
    assert [] + [FriendTables.AddApply(1, 2)] + [FriendTables.AuthApply(2, 1)] == [FriendTables.AddApply(1, 2), FriendTables.AuthApply(2, 1)];
    FriendTables.AcceptedApplicationStaysPending();
  }
}
