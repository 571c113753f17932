/** Exactly when a session that was stopped before it logged in can still become authenticated. */
module ClusterDeadline {
  import opened Wrappers
  import opened Framing
  import opened Protocol
  import opened Sessions
  import opened SessionInvariants
  import opened Cluster
  import opened ClusterInvariants
  import opened ClusterSteps
  import opened ClusterShapes
  import opened ClusterTokens
  import opened ClusterProgress
  import FriendTables

  /** The reader holds a login that may still succeed: its token is the one in Redis, or was when Redis was asked. */
  predicate LoginPending(c: Codec, tokens: map<int, Text>, s: Session) {
    match s.pc
    case Arrived(f) =>
      f.id == Code(LoginRequest) && c.parseLogin(CString(f.body)).Some?
      && Holds(tokens, c.parseLogin(CString(f.body)).value.uid, c.parseLogin(CString(f.body)).value.token)
    case TokenGet(uid, token) => Holds(tokens, uid, token)
    case TokenGot(_, token, stored) => stored == Some(token)
    case UserLookup(_) => true
    case CountSet(_, _) => true
    case CountDone(_) => true
    case _ => false
  }

  predicate Holds(tokens: map<int, Text>, uid: int, token: Text) { uid in tokens && tokens[uid] == token }

  /** The token of a login whose GET is still to be executed. */
  function Presented(c: Codec, s: Session): Option<Text> {
    match s.pc
    case Arrived(f) => (
      match c.parseLogin(CString(f.body))
      case Some(b) => if f.id == Code(LoginRequest) then Some(b.token) else None
      case None => None)
    case TokenGet(_, token) => Some(token)
    case _ => None
  }

  /** Tokens are random: none that is issued from now on is the one already presented. */
  ghost predicate IssuesOthers(acts: seq<Action>, presented: Option<Text>) {
    forall k :: 0 <= k < |acts| && acts[k].IssueToken? ==> presented != Some(acts[k].token)
  }

  ghost predicate IssuesNone(acts: seq<Action>) {
    forall k :: 0 <= k < |acts| ==> !acts[k].IssueToken?
  }

  function StepsLeft(pc: Pc): nat {
    match pc
    case Arrived(_) => 6
    case TokenGet(_, _) => 5
    case TokenGot(_, _, _) => 4
    case UserLookup(_) => 3
    case CountSet(_, _) => 2
    case _ => 1
  }

  ghost predicate CanLogIn(c: Codec, st: State, i: nat) {
    i < |st.sessions| && LoginPending(c, st.tokens, st.sessions[i]) && st.blocked.Of(st.sessions[i].home).None?
  }

  lemma ArrivedGoesOn(c: Codec, st: State, i: nat)
    requires CanLogIn(c, st, i) && st.sessions[i].pc.Arrived?
    ensures Enabled(c, st, Resume(i, NotFound, None))
    ensures var r := Apply(c, st, Resume(i, NotFound, None)); CanLogIn(c, r, i) && r.sessions[i].pc.TokenGet?
  {
    hide CString;
  }

  lemma TokenGoesOn(c: Codec, st: State, i: nat)
    requires CanLogIn(c, st, i) && st.sessions[i].pc.TokenGet?
    ensures Enabled(c, st, Exec(i, false))
    ensures var r := Apply(c, st, Exec(i, false)); CanLogIn(c, r, i) && r.sessions[i].pc.TokenGot?
  {
  }

  lemma LookupsGoOn(c: Codec, st: State, i: nat)
    requires CanLogIn(c, st, i) && (st.sessions[i].pc.TokenGot? || st.sessions[i].pc.UserLookup? || st.sessions[i].pc.CountDone?)
    ensures Enabled(c, st, Resume(i, Found([]), None))
    ensures var s, r := st.sessions[i], Apply(c, st, Resume(i, Found([]), None));
            if s.pc.CountDone? then i < |r.sessions| && r.sessions[i].authenticated
            else CanLogIn(c, r, i) && StepsLeft(r.sessions[i].pc) < StepsLeft(s.pc)
  {
    hide Dispatch;
  }

  lemma CountGoesOn(c: Codec, st: State, i: nat)
    requires CanLogIn(c, st, i) && st.sessions[i].pc.CountSet?
    ensures Enabled(c, st, Exec(i, false))
    ensures var r := Apply(c, st, Exec(i, false)); CanLogIn(c, r, i) && r.sessions[i].pc.CountDone?
  {
  }

  lemma Prefixed(c: Codec, st: State, a: Action, rest: seq<Action>)
    requires Enabled(c, st, a) && Runs(c, Apply(c, st, a), rest)
    ensures Runs(c, st, [a] + rest) && Final(c, st, [a] + rest) == Final(c, Apply(c, st, a), rest)
  {
    hide Apply, Enabled;
    assert ([a] + rest)[1..] == rest;
  }

  lemma {:induction false} FreeLoginSucceeds(c: Codec, st: State, i: nat) returns (acts: seq<Action>)
    requires CanLogIn(c, st, i)
    ensures Runs(c, st, acts) && IssuesNone(acts)
    ensures i < |Final(c, st, acts).sessions| && Final(c, st, acts).sessions[i].authenticated
    decreases StepsLeft(st.sessions[i].pc)
  {
    hide Apply, Enabled, CString;
    var pc := st.sessions[i].pc;
    if pc.Arrived? {
      ArrivedGoesOn(c, st, i);
      var a := Resume(i, NotFound, None);
      var rest := FreeLoginSucceeds(c, Apply(c, st, a), i);
      Prefixed(c, st, a, rest);
      acts := [a] + rest;
    } else if pc.TokenGet? {
      TokenGoesOn(c, st, i);
      var a := Exec(i, false);
      var rest := FreeLoginSucceeds(c, Apply(c, st, a), i);
      Prefixed(c, st, a, rest);
      acts := [a] + rest;
    } else if pc.CountSet? {
      CountGoesOn(c, st, i);
      var a := Exec(i, false);
      var rest := FreeLoginSucceeds(c, Apply(c, st, a), i);
      Prefixed(c, st, a, rest);
      acts := [a] + rest;
    } else {
      LookupsGoOn(c, st, i);
      var a := Resume(i, Found([]), None);
      var rest := [];
      if !pc.CountDone? {
        rest := FreeLoginSucceeds(c, Apply(c, st, a), i);
      }
      Prefixed(c, st, a, rest);
      acts := [a] + rest;
    }
  }

  /** In every reachable state a pending login can be carried out, with no token issued meanwhile. */
  lemma PendingLoginSucceeds(c: Codec, st: State, i: nat) returns (acts: seq<Action>)
    requires Inv(c, st) && i < |st.sessions| && LoginPending(c, st.tokens, st.sessions[i])
    ensures Runs(c, st, acts) && IssuesNone(acts)
    ensures i < |Final(c, st, acts).sessions| && Final(c, st, acts).sessions[i].authenticated
  {
    hide Apply, Enabled, Runs, Final, BlockedInv, SessionsInv, PushesInv, OrderInv, UniqueInv, ParticipantsInv, RoutesInv;
    var freeing := FreeServer(c, st, st.sessions[i].home);
    var free := Final(c, st, freeing);
    assert CanLogIn(c, free, i);
    var rest := FreeLoginSucceeds(c, free, i);
    RunsConcat(c, st, freeing, rest);
    acts := freeing + rest;
  }

  // ---------- Otherwise never ----------

  /** Stopped, not logged in, and with no login that may still succeed. */
  ghost predicate HopelessSession(c: Codec, tokens: map<int, Text>, presented: Option<Text>, s: Session) {
    && s.stopped && !s.authenticated && !LoginPending(c, tokens, s)
    && (Presented(c, s).Some? ==> Presented(c, s) == presented)
  }

  lemma DispatchHopeless(c: Codec, tokens: map<int, Text>, presented: Option<Text>, s: Session, f: Frame)
    requires HopelessSession(c, tokens, presented, s) && s.pc == Arrived(f)
    ensures match Dispatch(c, s, f)
            case Await(t) => HopelessSession(c, tokens, presented, t)
            case Answer(t, reply) => t.stopped && !t.authenticated
            case _ => false
  {
    hide CString, ConstructedBody;
  }

  lemma ContinueHopeless(c: Codec, tokens: map<int, Text>, presented: Option<Text>, s: Session, count: nat, choice: Choice)
    requires HopelessSession(c, tokens, presented, s) && Resumable(s.pc) && SessionInv(c, s)
    ensures match Continue(c, s, count, choice)
            case Await(t) => HopelessSession(c, tokens, presented, t)
            case Answer(t, reply) => t.stopped && !t.authenticated
            case _ => false
  {
    ReaderOfSession(c, s);
    hide SessionInv, Dispatch, CString, ConstructedBody, AskedBy;
    if s.pc.Arrived? {
      DispatchHopeless(c, tokens, presented, s, s.pc.frame);
    }
  }

  lemma FinishHopeless(c: Codec, tokens: map<int, Text>, presented: Option<Text>, s: Session, reply: Message)
    requires s.stopped && !s.authenticated
    ensures HopelessSession(c, tokens, presented, Finish(s, reply))
  {
  }

  lemma DeliverHopeless(c: Codec, tokens: map<int, Text>, presented: Option<Text>, s: Session, m: Message, cause: Cause)
    requires HopelessSession(c, tokens, presented, s)
    ensures HopelessSession(c, tokens, presented, Deliver(s, m, cause))
  {
  }

  lemma AnswerHopeless(c: Codec, st: State, presented: Option<Text>, s: Session, fault: bool)
    requires TokensInv(st.tokens) && NeedsStore(s.pc) && HopelessSession(c, st.tokens, presented, s)
    ensures HopelessSession(c, st.tokens, presented, s.(pc := PcAfterExec(st, s, fault)))
  {
    hide CString;
  }

  lemma ExecHopeless(c: Codec, st: State, presented: Option<Text>, j: nat, fault: bool, i: nat)
    requires Inv(c, st) && j < |st.sessions| && NeedsStore(st.sessions[j].pc)
    requires i < |st.sessions| && HopelessSession(c, st.tokens, presented, st.sessions[i])
    ensures i < |Execute(st, j, fault).sessions| && HopelessSession(c, st.tokens, presented, Execute(st, j, fault).sessions[i])
  {
    ExecStepOk(c, st, j, fault);
    hide SessionsInv, PushesInv, OrderInv, UniqueInv, ParticipantsInv, BlockedInv, RoutesInv, FriendTables.Inv, StepOk,
         Execute, PcAfterExec, HopelessSession;
    if i == j {
      AnswerHopeless(c, st, presented, st.sessions[j], fault);
    }
  }

  lemma NotifyHopeless(c: Codec, st: State, presented: Option<Text>, j: nat, route: Route, n: Notice, target: Option<nat>, i: nat)
    requires j < |st.sessions| && i < |st.sessions| && (target.Some? ==> target.value < |st.sessions|)
    requires HopelessSession(c, st.tokens, presented, st.sessions[i])
    ensures HopelessSession(c, st.tokens, presented, Notify(c, st, j, route, n, target).sessions[i])
  {
    hide PushMessage, HopelessSession, Deliver;
    if target.Some? && target.value == i {
      DeliverHopeless(c, st.tokens, presented, st.sessions[i], PushMessage(c, route, n), Push(j, Current(st.sessions[j]), route, n));
    }
  }

  lemma ResumeHopeless(c: Codec, st: State, presented: Option<Text>, j: nat, choice: Choice, target: Option<nat>, i: nat)
    requires Inv(c, st) && Enabled(c, st, Resume(j, choice, target))
    requires i < |st.sessions| && HopelessSession(c, st.tokens, presented, st.sessions[i])
    ensures var r := ApplyResume(c, st, j, choice, target); i < |r.sessions| && HopelessSession(c, st.tokens, presented, r.sessions[i])
  {
    hide Inv, Continue, HopelessSession, Finish, Notify, SessionInv, ErrorReply;
    var s := st.sessions[j];
    if i == j {
      SessionOfInv(c, st, i);
      StoppedUnauthenticated(c, st.tokens, presented, s);
      ContinueHopeless(c, st.tokens, presented, s, AsUint32(|st.participants.Of(s.home)|), choice);
      match ResumeOf(c, st, j, choice)
      case Await(t) =>
      case Answer(t, reply) => FinishHopeless(c, st.tokens, presented, t, reply);
    } else {
      match ResumeOf(c, st, j, choice)
      case Await(t) =>
      case Answer(t, reply) =>
      case NotifyPeer(n) =>
      case NotifyHere(n) => NotifyHopeless(c, st, presented, j, Local, n, target, i);
    }
  }

  lemma StoppedUnauthenticated(c: Codec, tokens: map<int, Text>, presented: Option<Text>, s: Session)
    requires HopelessSession(c, tokens, presented, s)
    ensures s.stopped && !s.authenticated
  {
  }

  lemma CallersAreAuthenticated(c: Codec, s: Session)
    requires ReaderInv(c, s) && InRpc(s.pc)
    ensures s.authenticated
  {
    hide AskedBy;
  }

  lemma RpcHopeless(c: Codec, st: State, presented: Option<Text>, a: Action, i: nat)
    requires Inv(c, st) && Enabled(c, st, a) && (a.RpcExec? || a.RpcFail? || a.RpcReturn?)
    requires i < |st.sessions| && HopelessSession(c, st.tokens, presented, st.sessions[i])
    ensures i < |Apply(c, st, a).sessions| && HopelessSession(c, st.tokens, presented, Apply(c, st, a).sessions[i])
  {
    hide Inv, HopelessSession, Finish, Notify, SessionInv, ErrorReply, ReaderInv;
    SessionOfInv(c, st, a.session);
    ReaderOfSession(c, st.sessions[a.session]);
    CallersAreAuthenticated(c, st.sessions[a.session]);
    StoppedUnauthenticated(c, st.tokens, presented, st.sessions[i]);
    if a.RpcExec? {
      NotifyHopeless(c, st, presented, a.session, Remote, st.sessions[a.session].pc.notice, a.target, i);
    }
  }

  lemma MovedHopeless(c: Codec, tokens: map<int, Text>, presented: Option<Text>, s: Session, a: Action)
    requires HopelessSession(c, tokens, presented, s) && IsMove(a) && CanMove(s, a)
    ensures HopelessSession(c, tokens, presented, Moved(s, a))
  {
    hide Encode, CString;
  }

  lemma MoveHopeless(c: Codec, st: State, presented: Option<Text>, a: Action, i: nat)
    requires Enabled(c, st, a) && IsMove(a)
    requires i < |st.sessions| && HopelessSession(c, st.tokens, presented, st.sessions[i])
    ensures i < |Apply(c, st, a).sessions| && HopelessSession(c, st.tokens, presented, Apply(c, st, a).sessions[i])
  {
    hide Apply, Enabled, HopelessSession, Moved, CanMove;
    MoveShape(c, st, a);
    if a.session == i {
      MovedHopeless(c, st.tokens, presented, st.sessions[i], a);
    }
  }

  lemma IssueHopeless(c: Codec, tokens: map<int, Text>, presented: Option<Text>, s: Session, uid: int, token: Text)
    requires HopelessSession(c, tokens, presented, s) && presented != Some(token)
    ensures HopelessSession(c, tokens[uid := token], presented, s)
  {
    hide CString;
  }

  lemma StepHopeless(c: Codec, st: State, presented: Option<Text>, a: Action, i: nat)
    requires Inv(c, st) && Enabled(c, st, a) && (a.IssueToken? ==> presented != Some(a.token))
    requires i < |st.sessions| && HopelessSession(c, st.tokens, presented, st.sessions[i])
    ensures var r := Apply(c, st, a); i < |r.sessions| && HopelessSession(c, r.tokens, presented, r.sessions[i])
  {
    hide Inv, HopelessSession, Execute, ApplyResume, Finish, Notify, Encode, Deliver, StartReceive, Send, WriteDone, WriteFail, MayFind;
    TokensStep(c, st, a);
    if a.Exec? {
      ExecHopeless(c, st, presented, a.session, a.fault, i);
    } else if a.Resume? {
      ResumeHopeless(c, st, presented, a.session, a.choice, a.target, i);
    } else if a.RpcExec? || a.RpcFail? || a.RpcReturn? {
      RpcHopeless(c, st, presented, a, i);
    } else if IsMove(a) {
      MoveHopeless(c, st, presented, a, i);
    } else if a.IssueToken? {
      IssueHopeless(c, st.tokens, presented, st.sessions[i], a.uid, a.token);
    }
  }

  /** Whatever happens, unless the very token it presented is issued yet. */
  lemma {:induction false} HopelessForever(c: Codec, st: State, presented: Option<Text>, acts: seq<Action>, i: nat)
    requires Inv(c, st) && Runs(c, st, acts) && IssuesOthers(acts, presented)
    requires i < |st.sessions| && HopelessSession(c, st.tokens, presented, st.sessions[i])
    ensures var r := Final(c, st, acts); i < |r.sessions| && HopelessSession(c, r.tokens, presented, r.sessions[i])
    decreases |acts|
  {
    hide Inv, HopelessSession, Apply, Enabled;
    if acts != [] {
      StepKeepsInv(c, st, acts[0]);
      StepHopeless(c, st, presented, acts[0], i);
      HopelessForever(c, Apply(c, st, acts[0]), presented, acts[1..], i);
    }
  }

  /** Some continuation, in which the token that the session has presented is not issued by chance, authenticates it. */
  ghost predicate CanStillLogIn(c: Codec, st: State, i: nat)
    requires i < |st.sessions|
  {
    exists acts :: Runs(c, st, acts) && IssuesOthers(acts, Presented(c, st.sessions[i]))
                   && i < |Final(c, st, acts).sessions| && Final(c, st, acts).sessions[i].authenticated
  }

  /** A session stopped before it logged in, by its deadline or otherwise, can still become authenticated exactly when its
      reader holds a login with the token that Redis holds, or held when it was asked: stop does not interrupt the
      handler. */
  lemma LoginAfterStop(c: Codec, run: seq<Action>, i: nat)
    requires Legal(c, run)
    requires var st := After(c, run);
             i < |st.sessions| && st.sessions[i].stopped && !st.sessions[i].authenticated
    ensures CanStillLogIn(c, After(c, run), i) <==> LoginPending(c, After(c, run).tokens, After(c, run).sessions[i])
  {
    hide Inv, Apply, Enabled, LoginPending, Legal, After, Presented;
    RunKeepsInv(c, run);
    var st := After(c, run);
    var s := st.sessions[i];
    if LoginPending(c, st.tokens, s) {
      var acts := PendingLoginSucceeds(c, st, i);
    } else if CanStillLogIn(c, st, i) {
      var acts :| Runs(c, st, acts) && IssuesOthers(acts, Presented(c, s))
                  && i < |Final(c, st, acts).sessions| && Final(c, st, acts).sessions[i].authenticated;
      HopelessForever(c, st, Presented(c, s), acts, i);
      assert false;
    }
  }
}
