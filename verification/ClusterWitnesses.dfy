/** Runs that show what the servers' code does not exclude: a login that completes after the deadline closed its
    connection, and two servers that wait for each other. */
module ClusterWitnesses {
  import opened Wrappers
  import opened Framing
  import opened Protocol
  import opened Sessions
  import opened SessionInvariants
  import opened Cluster
  import opened ClusterInvariants
  import opened ClusterSteps
  import opened ClusterProgress
  import FriendTables

  // ---------- A login and a text request, whatever else goes on ----------

  /** A login whose token is the issued one has been received. */
  ghost predicate LoginArrived(c: Codec, st: State, i: nat, uid: int, token: Text) {
    && i < |st.sessions|
    && st.sessions[i].pc.Arrived?
    && st.sessions[i].pc.frame.id == Code(LoginRequest)
    && c.parseLogin(CString(st.sessions[i].pc.frame.body)) == Some(LoginBody(uid, token))
    && uid in st.tokens && st.tokens[uid] == token
    && st.blocked.Of(st.sessions[i].home).None?
  }

  function LoginSteps(i: nat): seq<Action> {
    [Resume(i, NotFound, None), Exec(i, false), Resume(i, NotFound, None), Resume(i, Found([]), None), Exec(i, false),
     Resume(i, NotFound, None), Exec(i, false), Resume(i, Found([]), None)]
  }

  /** The session is logged in and reads on; nothing happened to the other sessions or to the participants. */
  ghost predicate LoggedIn(st: State, r: State, i: nat, uid: int) {
    && |r.sessions| == |st.sessions| && i < |st.sessions|
    && (forall k :: 0 <= k < |st.sessions| && k != i ==> r.sessions[k] == st.sessions[k])
    && r.sessions[i].home == st.sessions[i].home && r.sessions[i].stopped == st.sessions[i].stopped
    && r.sessions[i].uid == uid && r.sessions[i].authenticated && r.sessions[i].pc == Idle
    && r.participants == st.participants && r.blocked == st.blocked && r.tokens == st.tokens && r.tables == st.tables
    && r.routes == st.routes[uid := st.sessions[i].home.Name()]
    && r.loginCount == st.loginCount[st.sessions[i].home.Name() := AsUint32(|st.participants.Of(st.sessions[i].home)|)]
  }

  /** The same with the reader at `pc` along the way. */
  ghost predicate Along(st: State, r: State, i: nat, pc: Pc) {
    && |r.sessions| == |st.sessions| && i < |st.sessions|
    && (forall k :: 0 <= k < |st.sessions| && k != i ==> r.sessions[k] == st.sessions[k])
    && r.sessions[i].home == st.sessions[i].home && r.sessions[i].stopped == st.sessions[i].stopped
    && r.sessions[i].pc == pc
    && r.participants == st.participants && r.blocked == st.blocked && r.tokens == st.tokens && r.tables == st.tables
  }

  lemma DispatchOfLogin(c: Codec, s: Session, f: Frame, uid: int, token: Text)
    requires f.id == Code(LoginRequest) && c.parseLogin(CString(f.body)) == Some(LoginBody(uid, token))
    ensures Dispatch(c, s, f) ==
            Await(s.(requests := s.requests + [Request(f, s.authenticated, s.uid)], pc := TokenGet(uid, token)))
  {
    hide CString;
  }

  lemma LoginToToken(c: Codec, st: State, i: nat, uid: int, token: Text)
    requires LoginArrived(c, st, i, uid, token)
    ensures Enabled(c, st, Resume(i, NotFound, None))
    ensures var r := Apply(c, st, Resume(i, NotFound, None));
            Along(st, r, i, TokenGet(uid, token)) && r.routes == st.routes && r.loginCount == st.loginCount
  {
    hide CString, Dispatch;
    DispatchOfLogin(c, st.sessions[i], st.sessions[i].pc.frame, uid, token);
  }

  lemma ExecAlong(c: Codec, st: State, r: State, i: nat)
    requires i < |st.sessions| == |r.sessions| && Along(st, r, i, r.sessions[i].pc) && NeedsStore(r.sessions[i].pc)
    requires !r.sessions[i].pc.TableWrite?
    ensures Enabled(c, r, Exec(i, false))
    ensures Along(st, Apply(c, r, Exec(i, false)), i, PcAfterExec(r, r.sessions[i], false))
    ensures Apply(c, r, Exec(i, false)).sessions[i] == r.sessions[i].(pc := PcAfterExec(r, r.sessions[i], false))
    ensures Apply(c, r, Exec(i, false)).routes ==
              if r.sessions[i].pc.RouteSet? then r.routes[r.sessions[i].pc.uid := r.sessions[i].home.Name()] else r.routes
    ensures Apply(c, r, Exec(i, false)).loginCount ==
              if r.sessions[i].pc.CountSet? then r.loginCount[r.sessions[i].home.Name() := r.sessions[i].pc.count] else r.loginCount
  {
  }

  lemma LookupAlong(c: Codec, st: State, r: State, i: nat, uid: int, token: Text, choice: Choice)
    requires i < |st.sessions| == |r.sessions| && Along(st, r, i, r.sessions[i].pc)
    requires st.blocked.Of(st.sessions[i].home).None?
    requires r.sessions[i].pc == TokenGot(uid, token, Some(token)) || (r.sessions[i].pc == UserLookup(uid) && choice == Found([]))
             || r.sessions[i].pc == CountDone(uid)
    ensures Enabled(c, r, Resume(i, choice, None))
    ensures var q := Apply(c, r, Resume(i, choice, None));
            && q.routes == r.routes && q.loginCount == r.loginCount
            && (r.sessions[i].pc.TokenGot? ==> Along(st, q, i, UserLookup(uid)))
            && (r.sessions[i].pc.UserLookup? ==> Along(st, q, i, CountSet(uid, AsUint32(|st.participants.Of(st.sessions[i].home)|))))
            && (r.sessions[i].pc.CountDone? ==>
                  Along(st, q, i, RouteSet(uid)) && q.sessions[i].uid == uid && q.sessions[i].authenticated)
  {
    hide Dispatch;
  }

  lemma LoginAnswers(c: Codec, st: State, r: State, i: nat, uid: int)
    requires i < |st.sessions| && Along(st, r, i, Lists(uid))
    requires st.blocked.Of(st.sessions[i].home).None?
    requires r.sessions[i].uid == uid && r.sessions[i].authenticated
    requires r.routes == st.routes[uid := st.sessions[i].home.Name()]
    requires r.loginCount == st.loginCount[st.sessions[i].home.Name() := AsUint32(|st.participants.Of(st.sessions[i].home)|)]
    ensures Enabled(c, r, Resume(i, Found([]), None))
    ensures LoggedIn(st, Apply(c, r, Resume(i, Found([]), None)), i, uid)
  {
    hide Dispatch, TextReply;
  }

  /** A received login with the issued token can always be carried out, even on a connection that was closed meanwhile. */
  lemma LoginCompletes(c: Codec, st: State, i: nat, uid: int, token: Text)
    requires LoginArrived(c, st, i, uid, token)
    ensures Runs(c, st, LoginSteps(i)) && LoggedIn(st, Final(c, st, LoginSteps(i)), i, uid)
  {
    hide Apply, Enabled, Along, LoggedIn, CString, Runs, Final;
    var a := LoginSteps(i);
    assert Runs(c, st, a[..0]) && Final(c, st, a[..0]) == st by { NoSteps(c, st); assert a[..0] == []; }
    LoginToToken(c, st, i, uid, token);
    OnePrefixMore(c, st, a, 0);
    var s1 := Final(c, st, a[..1]);
    AlongMeans(st, s1, i, TokenGet(uid, token));
    ExecAlong(c, st, s1, i);
    OnePrefixMore(c, st, a, 1);
    var s2 := Final(c, st, a[..2]);
    AlongMeans(st, s2, i, TokenGot(uid, token, Some(token)));
    LookupAlong(c, st, s2, i, uid, token, NotFound);
    OnePrefixMore(c, st, a, 2);
    LoginCompletesFromLookup(c, st, i, uid, a);
  }

  lemma LoginCompletesFromLookup(c: Codec, st: State, i: nat, uid: int, a: seq<Action>)
    requires i < |st.sessions| && a == LoginSteps(i)
    requires st.blocked.Of(st.sessions[i].home).None?
    requires Runs(c, st, a[..3])
    requires Along(st, Final(c, st, a[..3]), i, UserLookup(uid))
    requires Final(c, st, a[..3]).routes == st.routes && Final(c, st, a[..3]).loginCount == st.loginCount
    ensures Runs(c, st, a) && LoggedIn(st, Final(c, st, a), i, uid)
  {
    hide Apply, Enabled, Along, LoggedIn, Runs, Final;
    var s3 := Final(c, st, a[..3]);
    AlongMeans(st, s3, i, UserLookup(uid));
    LookupAlong(c, st, s3, i, uid, [], Found([]));
    OnePrefixMore(c, st, a, 3);
    var s4 := Final(c, st, a[..4]);
    AlongMeans(st, s4, i, CountSet(uid, AsUint32(|st.participants.Of(st.sessions[i].home)|)));
    ExecAlong(c, st, s4, i);
    OnePrefixMore(c, st, a, 4);
    LoginCompletesFromCount(c, st, i, uid, a);
  }

  lemma LoginCompletesFromCount(c: Codec, st: State, i: nat, uid: int, a: seq<Action>)
    requires i < |st.sessions| && a == LoginSteps(i)
    requires st.blocked.Of(st.sessions[i].home).None?
    requires Runs(c, st, a[..5])
    requires Along(st, Final(c, st, a[..5]), i, CountDone(uid)) && Final(c, st, a[..5]).routes == st.routes
    requires Final(c, st, a[..5]).loginCount ==
             st.loginCount[st.sessions[i].home.Name() := AsUint32(|st.participants.Of(st.sessions[i].home)|)]
    ensures Runs(c, st, a) && LoggedIn(st, Final(c, st, a), i, uid)
  {
    hide Apply, Enabled, Along, LoggedIn, Runs, Final;
    var s5 := Final(c, st, a[..5]);
    AlongMeans(st, s5, i, CountDone(uid));
    LookupAlong(c, st, s5, i, uid, [], NotFound);
    OnePrefixMore(c, st, a, 5);
    var s6 := Final(c, st, a[..6]);
    AlongMeans(st, s6, i, RouteSet(uid));
    ExecAlong(c, st, s6, i);
    OnePrefixMore(c, st, a, 6);
    var s7 := Final(c, st, a[..7]);
    AlongMeans(st, s7, i, Lists(uid));
    LoginAnswers(c, st, s7, i, uid);
    OnePrefixMore(c, st, a, 7);
    assert a[..8] == a;
  }

  lemma NoSteps(c: Codec, st: State)
    ensures Runs(c, st, []) && Final(c, st, []) == st
  {
  }

  lemma AlongMeans(st: State, r: State, i: nat, pc: Pc)
    requires Along(st, r, i, pc)
    ensures |r.sessions| == |st.sessions| && i < |st.sessions|
    ensures r.sessions[i].pc == pc && r.tokens == st.tokens && r.sessions[i].home == st.sessions[i].home
  {
  }

  /** A well-formed text request of an authenticated session has been received. */
  ghost predicate TextArrived(c: Codec, st: State, i: nat, n: Notice) {
    && i < |st.sessions|
    && st.sessions[i].pc.Arrived? && n.TextNotice?
    && st.sessions[i].pc.frame.id == Code(TextChatMsgReq)
    && c.parseText(CString(st.sessions[i].pc.frame.body)) == Some(TextBody(n.from, n.to, n.items))
    && st.sessions[i].authenticated && n.from == st.sessions[i].uid && n.from != n.to
    && st.blocked.Of(st.sessions[i].home).None?
  }

  lemma DispatchOfText(c: Codec, s: Session, f: Frame, n: Notice)
    requires f.id == Code(TextChatMsgReq) && n.TextNotice? && s.authenticated && n.from == s.uid && n.from != n.to
    requires c.parseText(CString(f.body)) == Some(TextBody(n.from, n.to, n.items))
    ensures Dispatch(c, s, f) == Await(s.(requests := s.requests + [Request(f, s.authenticated, s.uid)], pc := RouteGet(n)))
  {
    hide CString;
  }

  lemma TextAsks(c: Codec, st: State, i: nat, n: Notice)
    requires TextArrived(c, st, i, n)
    ensures Enabled(c, st, Resume(i, NotFound, None))
    ensures var r := Apply(c, st, Resume(i, NotFound, None)); Along(st, r, i, RouteGet(n)) && r.routes == st.routes
  {
    hide CString, Dispatch;
    DispatchOfText(c, st.sessions[i], st.sessions[i].pc.frame, n);
  }

  lemma TextCalls(c: Codec, st: State, r: State, i: nat, n: Notice)
    requires i < |st.sessions| && n.TextNotice?
    requires Along(st, r, i, RouteGot(n, Some(st.sessions[i].home.Peer().Name())))
    requires st.blocked.Of(st.sessions[i].home).None? && r.routes == st.routes
    ensures Enabled(c, r, Resume(i, NotFound, None))
    ensures InCall(st, Apply(c, r, Resume(i, NotFound, None)), i, n)
  {
    hide Dispatch;
  }

  /** The session's request is in the peer RPC, and its server blocked. */
  ghost predicate InCall(st: State, r: State, i: nat, n: Notice) {
    && |r.sessions| == |st.sessions| && i < |st.sessions|
    && (forall k :: 0 <= k < |st.sessions| && k != i ==> r.sessions[k] == st.sessions[k])
    && r.sessions[i].pc == Calling(n)
    && r.blocked == st.blocked.With(st.sessions[i].home, Some(i))
    && r.routes == st.routes
  }

  function CallSteps(i: nat): seq<Action> {
    [Resume(i, NotFound, None), Exec(i, false), Resume(i, NotFound, None)]
  }

  lemma TextReachesTheCall(c: Codec, st: State, i: nat, n: Notice)
    requires TextArrived(c, st, i, n)
    requires n.to in st.routes && st.routes[n.to] == st.sessions[i].home.Peer().Name()
    ensures Runs(c, st, CallSteps(i)) && InCall(st, Final(c, st, CallSteps(i)), i, n)
  {
    hide Apply, Enabled, Along, InCall, CString, Runs, Final;
    var a := CallSteps(i);
    assert Runs(c, st, a[..0]) && Final(c, st, a[..0]) == st by { NoSteps(c, st); assert a[..0] == []; }
    TextAsks(c, st, i, n);
    OnePrefixMore(c, st, a, 0);
    var s1 := Final(c, st, a[..1]);
    AlongMeans(st, s1, i, RouteGet(n));
    ExecAlong(c, st, s1, i);
    OnePrefixMore(c, st, a, 1);
    var s2 := Final(c, st, a[..2]);
    AlongMeans(st, s2, i, RouteGot(n, Some(st.sessions[i].home.Peer().Name())));
    TextCalls(c, st, s2, i, n);
    OnePrefixMore(c, st, a, 2);
    assert a[..3] == a;
  }

  // ---------- A connection and a request ----------

  ghost predicate SaysLogin(c: Codec, f: Frame, uid: int, token: Text) {
    f.Fits() && f.id == Code(LoginRequest) && c.parseLogin(CString(f.body)) == Some(LoginBody(uid, token))
  }

  function Joining(st: State, x: ServerId, uid: int, token: Text, f: Frame): seq<Action> {
    [IssueToken(uid, token), Connect(x, 0), Receive(|st.sessions|, f)]
  }

  /** One more session is connected to x, as `s`; the other sessions, the RPCs and the stores stay as they are. */
  ghost predicate Joined(st: State, r: State, x: ServerId, s: Session) {
    && r.sessions == st.sessions + [s] && r.blocked == st.blocked && r.routes == st.routes
    && r.tables == st.tables && r.loginCount == st.loginCount
    && r.participants == st.participants.With(x, st.participants.Of(x) + {|st.sessions|})
    && s.home == x && !s.stopped
  }

  lemma Joins(c: Codec, st: State, x: ServerId, uid: int, token: Text, f: Frame)
    requires st.blocked.Of(x).None? && IsInt32(uid) && SaysLogin(c, f, uid, token)
    ensures Runs(c, st, Joining(st, x, uid, token, f))
    ensures var r := Final(c, st, Joining(st, x, uid, token, f));
            && |r.sessions| == |st.sessions| + 1 && Joined(st, r, x, r.sessions[|st.sessions|])
            && LoginArrived(c, r, |st.sessions|, uid, token) && r.tokens == st.tokens[uid := token]
  {
    hide CString;
    var i := |st.sessions|;
    var a, b, d := IssueToken(uid, token), Connect(x, 0), Receive(i, f);
    TwoSteps(c, st, a, b);
    OneMore(c, st, [a, b], d);
    assert [a, b] + [d] == [a, b, d];
    var r := Final(c, st, [a, b, d]);
    assert r.sessions == st.sessions + [NewSession(x, 0).(pc := Arrived(f))];
  }

  lemma SaysText(c: Codec, st: State, b: nat, x: ServerId, n: Notice, f: Frame)
    requires b < |st.sessions| && st.sessions[b].home == x && st.blocked.Of(x).None? && n.TextNotice? && n.from != n.to
    requires st.sessions[b].pc == Idle && !st.sessions[b].stopped && st.sessions[b].authenticated && st.sessions[b].uid == n.from
    requires f.Fits() && f.id == Code(TextChatMsgReq) && c.parseText(CString(f.body)) == Some(TextBody(n.from, n.to, n.items))
    ensures Enabled(c, st, Receive(b, f))
    ensures var r := Apply(c, st, Receive(b, f));
            && TextArrived(c, r, b, n) && |r.sessions| == |st.sessions|
            && (forall k :: 0 <= k < |st.sessions| && k != b ==> r.sessions[k] == st.sessions[k])
            && r.sessions[b].home == x && r.routes == st.routes && r.participants == st.participants
            && r.blocked == st.blocked
  {
    hide CString;
  }

  // ---------- The witnesses ----------

  /** A codec under which one byte is a login of that uid and two bytes are a request from the first to the second. */
  const CODEC := Codec(
    (b: Text) => if |b| == 1 then Some(LoginBody(b[0], b)) else None,
    (b: Text) => false,
    (b: Text) => if |b| == 2 then Some(PairBody(b[0], b[1])) else None,
    (b: Text) => if |b| == 2 then Some(PairBody(b[0], b[1])) else None,
    (b: Text) => if |b| == 2 then Some(TextBody(b[0], b[1], [])) else None,
    (u: int, b: Text) => [],
    (u: int, v: int) => [],
    (u: int, v: int, items: seq<TextItem>) => [],
    (e: ServerError) => [])

  function LoginFrame(uid: Byte): Frame { Frame(1005, [uid]) }

  function TextFrame(from: Byte, to: Byte): Frame { Frame(1017, [from, to]) }

  lemma ParsesAsLogin(uid: Byte)
    requires uid != 0
    ensures CODEC.parseLogin(CString(LoginFrame(uid).body)) == Some(LoginBody(uid, [uid]))
  {
    CStringOfNulFree([uid]);
  }

  lemma ParsesAsText(from: Byte, to: Byte)
    requires from != 0 && to != 0
    ensures CODEC.parseText(CString(TextFrame(from, to).body)) == Some(TextBody(from, to, []))
  {
    CStringOfNulFree([from, to]);
  }

  function Opening(): seq<Action> {
    [IssueToken(1, [1]), Connect(Server1, 0), Receive(0, LoginFrame(1)), Expire(0), DeadlineResumes(0)]
  }

  /** The connection of session 0 was closed by its deadline while its login request had just been read. */
  lemma DeadlineWithLoginPending()
    ensures Runs(CODEC, INIT, Opening())
    ensures var st := Final(CODEC, INIT, Opening());
            && LoginArrived(CODEC, st, 0, 1, [1])
            && |st.sessions| == 1 && st.sessions[0].stopped && !st.sessions[0].authenticated
            && st.participants.Of(Server1) == {} && st.sessions[0].home == Server1
  {
    ParsesAsLogin(1);
    hide CString;
    var a := Opening();
    NoSteps(CODEC, INIT);
    assert a[..0] == [];
    OnePrefixMore(CODEC, INIT, a, 0);
    OnePrefixMore(CODEC, INIT, a, 1);
    OnePrefixMore(CODEC, INIT, a, 2);
    OnePrefixMore(CODEC, INIT, a, 3);
    OnePrefixMore(CODEC, INIT, a, 4);
    assert a[..5] == a;
  }

  /** The deadline does not undo a login that is under way: the closed session becomes authenticated, and its uid is
      routed to a server where it has no participant. */
  lemma LoginAfterDeadline()
    ensures var run := Opening() + LoginSteps(0);
            Legal(CODEC, run) &&
            var st := After(CODEC, run);
            && |st.sessions| == 1 && st.sessions[0].stopped && st.sessions[0].authenticated
            && 1 in st.routes && st.routes[1] == Server1.Name() && st.participants.Of(Server1) == {}
  {
    hide Apply, Enabled, CString;
    DeadlineWithLoginPending();
    var st := Final(CODEC, INIT, Opening());
    LoginCompletes(CODEC, st, 0, 1, [1]);
    RunsConcat(CODEC, INIT, Opening(), LoginSteps(0));
    RunsAreLegal(CODEC, [], Opening() + LoginSteps(0));
    assert [] + (Opening() + LoginSteps(0)) == Opening() + LoginSteps(0);
  }

  // Two servers that wait for each other.

  function Meeting(): seq<Action> {
    [IssueToken(1, [1]), Connect(Server1, 0), Receive(0, LoginFrame(1))] +
    [IssueToken(2, [2]), Connect(Server2, 0), Receive(1, LoginFrame(2))]
  }

  ghost predicate Met(st: State) {
    && |st.sessions| == 2
    && st.sessions[0].home == Server1 && st.sessions[1].home == Server2
    && !st.sessions[0].stopped && !st.sessions[1].stopped
    && st.blocked == PerServer(None, None) && st.tables == FriendTables.EMPTY
  }

  lemma BothConnect()
    ensures Runs(CODEC, INIT, Meeting())
    ensures var st := Final(CODEC, INIT, Meeting());
            Met(st) && LoginArrived(CODEC, st, 0, 1, [1]) && LoginArrived(CODEC, st, 1, 2, [2])
  {
    ParsesAsLogin(1);
    ParsesAsLogin(2);
    hide CString, Apply, Enabled, Runs, Final;
    Joins(CODEC, INIT, Server1, 1, [1], LoginFrame(1));
    var one := Final(CODEC, INIT, Joining(INIT, Server1, 1, [1], LoginFrame(1)));
    Joins(CODEC, one, Server2, 2, [2], LoginFrame(2));
    RunsConcat(CODEC, INIT, Joining(INIT, Server1, 1, [1], LoginFrame(1)), Joining(one, Server2, 2, [2], LoginFrame(2)));
  }

  ghost predicate BothIn(st: State) {
    && Met(st)
    && st.sessions[0].pc == Idle && st.sessions[0].authenticated && st.sessions[0].uid == 1
    && st.sessions[1].pc == Idle && st.sessions[1].authenticated && st.sessions[1].uid == 2
    && 1 in st.routes && st.routes[1] == Server1.Name()
    && 2 in st.routes && st.routes[2] == Server2.Name()
    && st.tables == FriendTables.EMPTY
  }

  lemma BothLogIn()
    ensures var a := Meeting() + LoginSteps(0) + LoginSteps(1);
            Runs(CODEC, INIT, a) && BothIn(Final(CODEC, INIT, a))
  {
    hide Apply, Enabled, CString, Runs, Final;
    BothConnect();
    var st := Final(CODEC, INIT, Meeting());
    LoginCompletes(CODEC, st, 0, 1, [1]);
    RunsConcat(CODEC, INIT, Meeting(), LoginSteps(0));
    var st2 := Final(CODEC, INIT, Meeting() + LoginSteps(0));
    LoginCompletes(CODEC, st2, 1, 2, [2]);
    RunsConcat(CODEC, INIT, Meeting() + LoginSteps(0), LoginSteps(1));
  }

  function Texting(): seq<Action> { [Receive(0, TextFrame(1, 2)), Receive(1, TextFrame(2, 1))] }

  lemma BothText(st: State)
    requires BothIn(st)
    ensures Runs(CODEC, st, Texting())
    ensures var r := Final(CODEC, st, Texting());
            && |r.sessions| == 2 && r.blocked == st.blocked && r.routes == st.routes
            && r.sessions[0].home == Server1 && r.sessions[1].home == Server2
            && TextArrived(CODEC, r, 0, TextNotice(1, 2, [])) && TextArrived(CODEC, r, 1, TextNotice(2, 1, []))
  {
    ParsesAsText(1, 2);
    ParsesAsText(2, 1);
    hide CString, Apply, Enabled;
    SaysText(CODEC, st, 0, Server1, TextNotice(1, 2, []), TextFrame(1, 2));
    var one := Apply(CODEC, st, Receive(0, TextFrame(1, 2)));
    SaysText(CODEC, one, 1, Server2, TextNotice(2, 1, []), TextFrame(2, 1));
    TwoSteps(CODEC, st, Receive(0, TextFrame(1, 2)), Receive(1, TextFrame(2, 1)));
  }

  /** The mutual wait is reachable without any fault: two users on different servers text each other at the same time. */
  lemma MutualWaitIsReachable()
    ensures var run := Meeting() + LoginSteps(0) + LoginSteps(1) + Texting() + CallSteps(0) + CallSteps(1);
            Legal(CODEC, run) && MutualWait(After(CODEC, run)) && forall i :: 0 <= i < |run| ==> !run[i].RpcFail?
  {
    hide Apply, Enabled, CString, Runs, Final;
    BothLogIn();
    var a1 := Meeting() + LoginSteps(0) + LoginSteps(1);
    var s1 := Final(CODEC, INIT, a1);
    BothText(s1);
    RunsConcat(CODEC, INIT, a1, Texting());
    var s2 := Final(CODEC, INIT, a1 + Texting());
    TextReachesTheCall(CODEC, s2, 0, TextNotice(1, 2, []));
    RunsConcat(CODEC, INIT, a1 + Texting(), CallSteps(0));
    var s3 := Final(CODEC, INIT, a1 + Texting() + CallSteps(0));
    TextReachesTheCall(CODEC, s3, 1, TextNotice(2, 1, []));
    var all := a1 + Texting() + CallSteps(0) + CallSteps(1);
    RunsConcat(CODEC, INIT, a1 + Texting() + CallSteps(0), CallSteps(1));
    NothingYet();
    RunsAreLegal(CODEC, [], all);
    assert [] + all == all;
  }

  lemma NothingYet()
    ensures Legal(CODEC, []) && After(CODEC, []) == INIT
  {
  }
}
