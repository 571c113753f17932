/** The two chat servers over one Redis and one database, as a step machine.

    All coroutines of a server run on one thread, so a step is one uninterrupted stretch of one coroutine, or one command
    executed by a store, or one event of the network, a timer or the peer.  A coroutine blocked in a peer RPC blocks its
    whole server. */
module Cluster {
  import opened Wrappers
  import opened Framing
  import opened Protocol
  import opened Sessions
  import FriendTables

  datatype PerServer<T> = PerServer(first: T, second: T) {
    function Of(server: ServerId): T { if server == Server1 then first else second }

    function With(server: ServerId, value: T): PerServer<T> {
      if server == Server1 then this.(first := value) else this.(second := value)
    }
  }

  datatype State = State(
    sessions: seq<Session>,
    participants: PerServer<set<nat>>,
    blocked: PerServer<Option<nat>>,           // the session whose RPC blocks the server
    tokens: map<int, Text>,                    // user_token_*
    routes: map<int, string>,                  // user_login_server_*
    loginCount: map<string, nat>,              // login_count
    logins: seq<(int, ServerId)>,              // record of the completed route writes
    tables: FriendTables.Db)

  const INIT := State([], PerServer({}, {}), PerServer(None, None), map[], map[], map[], [], FriendTables.EMPTY)

  datatype Action =
    // The world around the servers
    | IssueToken(uid: int, token: Text)        // the status server's token write
    | Connect(server: ServerId, memory: int)
    | Receive(session: nat, frame: Frame)
    | Expire(session: nat)
    | Exec(session: nat, fault: bool)          // the store executes the command in flight, or fails
    | RpcExec(session: nat, target: Option<nat>)
    | RpcFail(session: nat)
    // Coroutines of the session's server
    | Resume(session: nat, choice: Choice, target: Option<nat>)
    | RpcReturn(session: nat)
    | ReaderFails(session: nat)
    | DeadlineResumes(session: nat)
    | WriterReceives(session: nat)
    | WriterSends(session: nat, bytes: nat)
    | WriterDone(session: nat)
    | WriterFails(session: nat)

  predicate IsWriterStep(a: Action) { a.WriterReceives? || a.WriterSends? || a.WriterDone? || a.WriterFails? }

  // ---------- Building blocks ----------

  function Put(st: State, i: nat, s: Session): (r: State)
    requires i < |st.sessions|
    ensures |r.sessions| == |st.sessions|
  {
    st.(sessions := st.sessions[i := s])
  }

  /** stop also takes the session out of the server's participants. */
  function PutStopped(st: State, i: nat, s: Session): State
    requires i < |st.sessions|
  {
    Put(st, i, s).(participants := st.participants.With(s.home, st.participants.Of(s.home) - {i}))
  }

  function PutMaybeStopped(st: State, i: nat, s: Session): State
    requires i < |st.sessions|
  {
    if s.stopped then PutStopped(st, i, s) else Put(st, i, s)
  }

  /** What get_participant(uid) may return: the participants are ordered by address, so any match, and none only if there
      is no match. */
  ghost predicate MayFind(st: State, server: ServerId, uid: int, target: Option<nat>)
  {
    match target
    case Some(j) => j < |st.sessions| && j in st.participants.Of(server) && st.sessions[j].uid == uid
    case None => forall j :: j < |st.sessions| && j in st.participants.Of(server) ==> st.sessions[j].uid != uid
  }

  predicate NeedsStore(pc: Pc) {
    pc.TokenGet? || pc.CountSet? || pc.RouteSet? || pc.TableWrite? || pc.RouteGet?
  }

  /** A Redis or SQL command takes effect. */
  function Execute(st: State, i: nat, fault: bool): State
    requires i < |st.sessions| && NeedsStore(st.sessions[i].pc)
  {
    var s := st.sessions[i];
    match s.pc
    case TokenGet(uid, token) =>
      var stored := if fault || uid !in st.tokens then None else Some(st.tokens[uid]);
      Put(st, i, s.(pc := TokenGot(uid, token, stored)))
    case CountSet(uid, count) =>
      var t := Put(st, i, s.(pc := CountDone(uid)));
      if fault then t else t.(loginCount := st.loginCount[s.home.Name() := count])
    case RouteSet(uid) =>
      var t := Put(st, i, s.(pc := Lists(uid)));
      if fault then t
      else t.(routes := st.routes[uid := s.home.Name()], logins := st.logins + [(uid, s.home)])
    case TableWrite(n) =>
      var t := Put(st, i, s.(pc := TableDone(n, fault)));
      if fault then t else t.(tables := FriendTables.Execute(st.tables, StatementOf(n)))
    case RouteGet(n) =>
      var server := if fault || n.to !in st.routes then None else Some(st.routes[n.to]);
      Put(st, i, s.(pc := RouteGot(n, server)))
  }

  function StatementOf(n: Notice): FriendTables.Statement {
    if n.AddNotice? then FriendTables.AddApply(n.from, n.to) else FriendTables.AuthApply(n.from, n.to)
  }

  /** A notification reaches the session that get_participant returned, if any. */
  function Notify(c: Codec, st: State, sender: nat, route: Route, n: Notice, target: Option<nat>): (r: State)
    requires sender < |st.sessions|
    requires target.Some? ==> target.value < |st.sessions|
    ensures |r.sessions| == |st.sessions|
  {
    match target
    case None => st
    case Some(j) =>
      var cause := Push(sender, Current(st.sessions[sender]), route, n);
      Put(st, j, Deliver(st.sessions[j], PushMessage(c, route, n), cause))
  }

  function ResumeOf(c: Codec, st: State, i: nat, choice: Choice): Next
    requires i < |st.sessions| && Resumable(st.sessions[i].pc)
  {
    Continue(c, st.sessions[i], AsUint32(|st.participants.Of(st.sessions[i].home)|), choice)
  }

  // ---------- Steps ----------

  ghost predicate Free(st: State, i: nat)
    requires i < |st.sessions|
  {
    st.blocked.Of(st.sessions[i].home).None?
  }

  ghost predicate Enabled(c: Codec, st: State, a: Action)
  {
    match a
    case IssueToken(uid, _) => IsInt32(uid)
    case Connect(server, _) => st.blocked.Of(server).None?
    case Receive(i, f) => i < |st.sessions| && st.sessions[i].pc.Idle? && !st.sessions[i].stopped && f.Fits()
    case Expire(i) => i < |st.sessions| && st.sessions[i].timer.Armed?
    case Exec(i, _) => i < |st.sessions| && NeedsStore(st.sessions[i].pc)
    case RpcExec(i, target) =>
      && i < |st.sessions| && st.sessions[i].pc.Calling?
      && st.blocked.Of(st.sessions[i].home.Peer()).None?
      && MayFind(st, st.sessions[i].home.Peer(), AcrossRpc(st.sessions[i].pc.notice).to, target)
    case RpcFail(i) => i < |st.sessions| && (st.sessions[i].pc.Calling? || st.sessions[i].pc.Called?)
    case Resume(i, choice, target) =>
      && i < |st.sessions| && Free(st, i) && Resumable(st.sessions[i].pc)
      && var next := ResumeOf(c, st, i, choice);
         next.NotifyHere? ==> MayFind(st, st.sessions[i].home, next.notice.to, target)
    case RpcReturn(i) => i < |st.sessions| && st.sessions[i].pc.Called?
    case ReaderFails(i) => i < |st.sessions| && Free(st, i) && st.sessions[i].pc.Idle?
    case DeadlineResumes(i) =>
      i < |st.sessions| && Free(st, i) && (st.sessions[i].timer.Fired? || st.sessions[i].timer.Cancelled?)
    case WriterReceives(i) => i < |st.sessions| && Free(st, i) && st.sessions[i].writer.Ready?
    case WriterSends(i, n) => i < |st.sessions| && Free(st, i) && CanSend(st.sessions[i], n)
    case WriterDone(i) => i < |st.sessions| && Free(st, i) && WriteComplete(st.sessions[i])
    case WriterFails(i) => i < |st.sessions| && Free(st, i) && st.sessions[i].writer.Writing?
  }

  /** A stretch of a session's reader. */
  function ApplyResume(c: Codec, st: State, i: nat, choice: Choice, target: Option<nat>): State
    requires Enabled(c, st, Resume(i, choice, target))
  {
    var s := st.sessions[i];
    match ResumeOf(c, st, i, choice)
    case Await(t) => Put(st, i, t)
    case Answer(t, reply) => Put(st, i, Finish(t, reply))
    case NotifyHere(n) =>
      var told := Notify(c, st, i, Local, n, target);
      Put(told, i, Finish(told.sessions[i], ErrorReply(c, Code(ResponseId(RequestId(n))), Success)))
    case NotifyPeer(n) => Put(st, i, s.(pc := Calling(n))).(blocked := st.blocked.With(s.home, Some(i)))
  }

  function Apply(c: Codec, st: State, a: Action): State
    requires Enabled(c, st, a)
  {
    match a
    case IssueToken(uid, token) => st.(tokens := st.tokens[uid := token])
    case Connect(server, memory) =>
      st.(sessions := st.sessions + [NewSession(server, memory)],
          participants := st.participants.With(server, st.participants.Of(server) + {|st.sessions|}))
    case Receive(i, f) => Put(st, i, st.sessions[i].(pc := Arrived(f)))
    case Expire(i) => Put(st, i, st.sessions[i].(timer := Fired))
    case Exec(i, fault) => Execute(st, i, fault)
    case RpcExec(i, target) =>
      var n := st.sessions[i].pc.notice;
      var told := Notify(c, st, i, Remote, n, target);
      Put(told, i, told.sessions[i].(pc := Called(n, true)))
    case RpcFail(i) => Put(st, i, st.sessions[i].(pc := Called(st.sessions[i].pc.notice, false)))
    case Resume(i, choice, target) => ApplyResume(c, st, i, choice, target)
    case RpcReturn(i) =>
      var s := st.sessions[i];
      var Called(n, ok) := s.pc;
      var reply := if ok then ErrorReply(c, Code(ResponseId(RequestId(n))), Success)
                   else ErrorReply(c, CurrentId(s), RPCFailed);
      Put(st, i, Finish(s, reply)).(blocked := st.blocked.With(s.home, None))
    case ReaderFails(i) => PutStopped(st, i, ReadFail(st.sessions[i]))
    case DeadlineResumes(i) => PutMaybeStopped(st, i, DeadlineResume(st.sessions[i]))
    case WriterReceives(i) => Put(st, i, StartReceive(st.sessions[i]))
    case WriterSends(i, n) => Put(st, i, Send(st.sessions[i], n))
    case WriterDone(i) => PutMaybeStopped(st, i, WriteDone(st.sessions[i]))
    case WriterFails(i) => PutStopped(st, i, WriteFail(st.sessions[i]))
  }

  // ---------- Runs ----------

  /** Every action of the run is enabled when its turn comes. */
  ghost predicate Legal(c: Codec, run: seq<Action>)
    decreases |run|, 0
  {
    run == [] ||
    var earlier := run[..|run| - 1];
    Legal(c, earlier) && Enabled(c, After(c, earlier), run[|run| - 1])
  }

  ghost function After(c: Codec, run: seq<Action>): (st: State)
    requires Legal(c, run)
    decreases |run|, 1
  {
    if run == [] then INIT
    else
      var earlier := run[..|run| - 1];
      Apply(c, After(c, earlier), run[|run| - 1])
  }
}
