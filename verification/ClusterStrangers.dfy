/** When a session that never logged in can be told what was meant for a user: its uid has no initial value. */
module ClusterStrangers {
  import opened Wrappers
  import opened Framing
  import opened Protocol
  import opened Sessions
  import opened SessionInvariants
  import opened Cluster
  import opened ClusterInvariants
  import opened ClusterSteps
  import opened ClusterShapes
  import opened ClusterProgress
  import opened ClusterWitnesses
  import ClusterDeadline

  /** An open session that has not logged in, and whose memory held a uid that never matched on it. */
  predicate Stranger(s: Session) {
    !s.stopped && !s.authenticated && s.firstUid !in s.matched && IsInt32(s.firstUid)
  }

  /** Between `st` and `r` session j was offered a notification for a uid that has not matched on it. */
  ghost predicate ToldInError(st: State, r: State, j: nat) {
    && j < |st.sessions| && j < |r.sessions|
    && exists k :: |st.sessions[j].offered| <= k < |r.sessions[j].offered| && r.sessions[j].offered[k].cause.Push?
                   && r.sessions[j].offered[k].owner !in r.sessions[j].matched
  }

  ghost predicate CanBeToldInError(c: Codec, st: State, j: nat) {
    exists acts :: Runs(c, st, acts) && ToldInError(st, Final(c, st, acts), j)
  }

  // ---------- Only a stranger ----------

  lemma ErrorMeansStranger(c: Codec, st: State, r: State, j: nat)
    requires Inv(c, r) && Extends(st.sessions, r.sessions) && ToldInError(st, r, j)
    ensures Stranger(st.sessions[j])
  {
    hide SessionsInv, AskedBy, PushMessage, Bound;
    var s, t := st.sessions[j], r.sessions[j];
    var k :| |s.offered| <= k < |t.offered| && t.offered[k].cause.Push? && t.offered[k].owner !in t.matched;
    assert Grows(s, t);
    assert PushOk(c, r.sessions, t, t.offered[k]);
  }

  lemma {:induction false} FinalExtends(c: Codec, st: State, acts: seq<Action>)
    requires Inv(c, st) && Runs(c, st, acts)
    ensures Inv(c, Final(c, st, acts)) && Extends(st.sessions, Final(c, st, acts).sessions)
    decreases |acts|
  {
    hide Inv, Apply, Enabled, Grows;
    if acts == [] {
      forall s: Session ensures Grows(s, s) { UnchangedGrows(s); }
    } else {
      var r := Apply(c, st, acts[0]);
      StepKeepsInv(c, st, acts[0]);
      FinalExtends(c, r, acts[1..]);
      ExtendsTransitive(st.sessions, r.sessions, Final(c, r, acts[1..]).sessions);
    }
  }

  // ---------- Every stranger ----------

  /** What two users could send: a login of the stranger's uid, and a login and a text to that uid of another one. */
  datatype Speech = Speech(login: Frame, token: Text, other: int, otherLogin: Frame, otherToken: Text, text: Frame,
                           items: seq<TextItem>)

  ghost predicate Says(c: Codec, uid: int, sp: Speech) {
    && SaysLogin(c, sp.login, uid, sp.token) && SaysLogin(c, sp.otherLogin, sp.other, sp.otherToken)
    && sp.other != uid && IsInt32(sp.other)
    && sp.text.Fits() && sp.text.id == Code(TextChatMsgReq)
    && c.parseText(CString(sp.text.body)) == Some(TextBody(sp.other, uid, sp.items))
  }

  /** The JSON layer can express such messages for every uid. */
  ghost predicate Expressive(c: Codec) {
    forall uid :: IsInt32(uid) ==> exists sp :: Says(c, uid, sp)
  }

  /** A session has logged in as `uid`, number |st.sessions|; everything else stays as it is. */
  ghost predicate InAs(st: State, r: State, x: ServerId, uid: int) {
    && |r.sessions| == |st.sessions| + 1 && Joined(st, r.(routes := st.routes, loginCount := st.loginCount), x, r.sessions[|st.sessions|])
    && r.routes == st.routes[uid := x.Name()]
    && r.loginCount == st.loginCount[x.Name() := AsUint32(|st.participants.Of(x) + {|st.sessions|}|)]
    && r.sessions[|st.sessions|].authenticated && r.sessions[|st.sessions|].uid == uid && r.sessions[|st.sessions|].pc == Idle
  }

  lemma LogsIn(c: Codec, st: State, x: ServerId, uid: int, token: Text, f: Frame) returns (acts: seq<Action>)
    requires st.blocked.Of(x).None? && IsInt32(uid) && SaysLogin(c, f, uid, token)
    ensures Runs(c, st, acts) && InAs(st, Final(c, st, acts), x, uid)
  {
    hide Apply, Enabled, Runs, Final, CString, LoginArrived;
    var i := |st.sessions|;
    Joins(c, st, x, uid, token, f);
    var joined := Final(c, st, Joining(st, x, uid, token, f));
    LoginCompletes(c, joined, i, uid, token);
    RunsConcat(c, st, Joining(st, x, uid, token, f), LoginSteps(i));
    acts := Joining(st, x, uid, token, f) + LoginSteps(i);
    var r := Final(c, st, acts);
    assert r.sessions == st.sessions + [r.sessions[i]];
  }

  /** Session b's text notice finds session j under the addressed uid. */
  lemma TextReaches(c: Codec, st: State, b: nat, n: Notice, j: nat) returns (acts: seq<Action>)
    requires TextArrived(c, st, b, n) && j < |st.sessions| && j != b
    requires n.to in st.routes && st.routes[n.to] == st.sessions[b].home.Name()
    requires j in st.participants.Of(st.sessions[b].home) && st.sessions[j].uid == n.to
    ensures Runs(c, st, acts) && j < |Final(c, st, acts).sessions|
    ensures IsMisled(st.sessions[j], Final(c, st, acts).sessions[j], n)
  {
    hide Apply, Enabled, Along, CString, Runs, Final, TextArrived;
    var a, e, f := Resume(b, NotFound, None), Exec(b, false), Resume(b, NotFound, Some(j));
    TextAsks(c, st, b, n);
    var s1 := Apply(c, st, a);
    AlongMeans(st, s1, b, RouteGet(n));
    ExecAlong(c, st, s1, b);
    var s2 := Apply(c, s1, e);
    TwoSteps(c, st, a, e);
    AlongMeans(st, s2, b, RouteGot(n, Some(st.sessions[b].home.Name())));
    TextIsTold(c, st, s2, b, n, j);
    OneMore(c, st, [a, e], f);
    acts := [a, e] + [f];
  }

  /** One more offer, the notification of `n` under the uid it is addressed to, and nothing else that matters here. */
  ghost predicate IsMisled(s: Session, t: Session, n: Notice) {
    && |t.offered| == |s.offered| + 1 && t.offered[|s.offered|].cause.Push? && t.offered[|s.offered|].cause.notice == n
    && t.offered[|s.offered|].owner == n.to
    && t.matched == s.matched && t.authenticated == s.authenticated && t.requests == s.requests
  }

  lemma TextIsTold(c: Codec, st: State, r: State, b: nat, n: Notice, j: nat)
    requires TextArrived(c, st, b, n) && j < |st.sessions| && j != b
    requires Along(st, r, b, RouteGot(n, Some(st.sessions[b].home.Name())))
    requires j in st.participants.Of(st.sessions[b].home) && st.sessions[j].uid == n.to
    ensures Enabled(c, r, Resume(b, NotFound, Some(j)))
    ensures var q := Apply(c, r, Resume(b, NotFound, Some(j)));
            j < |q.sessions| && IsMisled(st.sessions[j], q.sessions[j], n)
  {
    hide Dispatch, PushMessage, ErrorReply, Finish, CString;
    assert ResumeOf(c, r, b, NotFound) == NotifyHere(n);
    assert MayFind(r, r.sessions[b].home, n.to, Some(j));
  }

  /** However the cluster stands, two users can have a stranger told. */
  lemma StrangerCanBeTold(c: Codec, st: State, j: nat, sp: Speech) returns (acts: seq<Action>)
    requires Inv(c, st) && j < |st.sessions| && Stranger(st.sessions[j]) && Says(c, st.sessions[j].firstUid, sp)
    ensures Runs(c, st, acts) && j < |Final(c, st, acts).sessions|
    ensures IsMisled(st.sessions[j], Final(c, st, acts).sessions[j], TextNotice(sp.other, st.sessions[j].firstUid, sp.items))
  {
    hide Inv, Apply, Enabled, Runs, Final, CString, TextArrived;
    var s, x, uid := st.sessions[j], st.sessions[j].home, st.sessions[j].firstUid;
    StrangerStands(c, st, j);
    var freeing := FreeServer(c, st, x) by { BlockedOfInv(c, st); }
    var free := Final(c, st, freeing);
    var first := LogsIn(c, free, x, uid, sp.token, sp.login);
    var one := Final(c, free, first);
    var second := LogsIn(c, one, x, sp.other, sp.otherToken, sp.otherLogin);
    var two := Final(c, one, second);
    var b, n := |one.sessions|, TextNotice(sp.other, uid, sp.items);
    SaysText(c, two, b, x, n, sp.text);
    var said := Apply(c, two, Receive(b, sp.text));
    var last := TextReaches(c, said, b, n, j);
    assert said.sessions[j] == s;
    OneStep(c, two, Receive(b, sp.text));
    RunsConcat(c, two, [Receive(b, sp.text)], last);
    RunsConcat(c, one, second, [Receive(b, sp.text)] + last);
    RunsConcat(c, free, first, second + ([Receive(b, sp.text)] + last));
    RunsConcat(c, st, freeing, first + (second + ([Receive(b, sp.text)] + last)));
    acts := freeing + (first + (second + ([Receive(b, sp.text)] + last)));
  }

  lemma OneStep(c: Codec, st: State, a: Action)
    requires Enabled(c, st, a)
    ensures Runs(c, st, [a]) && Final(c, st, [a]) == Apply(c, st, a)
  {
    hide Apply, Enabled;
    OneMore(c, st, [], a);
    assert [] + [a] == [a];
  }

  lemma StrangerStands(c: Codec, st: State, j: nat)
    requires Inv(c, st) && j < |st.sessions| && Stranger(st.sessions[j])
    ensures var s := st.sessions[j]; s.uid == s.firstUid && !InRpc(s.pc) && j in st.participants.Of(s.home)
  {
    hide Inv, SessionInv, ReaderInv;
    BlockedOfInv(c, st);
    SessionOfInv(c, st, j);
    AuthOfSession(c, st.sessions[j]);
    ReaderOfSession(c, st.sessions[j]);
    if InRpc(st.sessions[j].pc) {
      ClusterDeadline.CallersAreAuthenticated(c, st.sessions[j]);
    }
  }

  /** In every reachable state a session can still be told in error exactly when it is a stranger: open, not logged in, and
      holding a 32-bit uid that its memory happened to hold and that never matched on it. */
  lemma ToldInErrorIffStranger(c: Codec, run: seq<Action>, j: nat)
    requires Expressive(c) && Legal(c, run) && j < |After(c, run).sessions|
    ensures CanBeToldInError(c, After(c, run), j) <==> Stranger(After(c, run).sessions[j])
  {
    hide Inv, Apply, Enabled, Legal, After, Runs, Final, Says;
    RunKeepsInv(c, run);
    var st := After(c, run);
    var s := st.sessions[j];
    if Stranger(s) {
      var sp :| Says(c, s.firstUid, sp);
      var acts := StrangerCanBeTold(c, st, j, sp);
      StrangerIsUid(c, st, j);
      assert ToldInError(st, Final(c, st, acts), j);
    }
    if CanBeToldInError(c, st, j) {
      var acts :| Runs(c, st, acts) && ToldInError(st, Final(c, st, acts), j);
      FinalExtends(c, st, acts);
      ErrorMeansStranger(c, st, Final(c, st, acts), j);
    }
  }

  lemma StrangerIsUid(c: Codec, st: State, j: nat)
    requires j < |st.sessions| && Stranger(st.sessions[j])
    ensures st.sessions[j].firstUid !in st.sessions[j].matched
  {
  }

  /** A connection that has sent nothing is offered the text that user 2 sends to user 1, because its memory held 1. */
  lemma StrangerIsTold()
    ensures exists run :: Legal(CODEC, run) && |After(CODEC, run).sessions| > 0 &&
              var s := After(CODEC, run).sessions[0];
              && s.requests == [] && s.matched == {} && !s.authenticated
              && s.offered != [] && s.offered[0].cause.Push? && s.offered[0].cause.notice == TextNotice(2, 1, [])
              && s.offered[0].owner == 1
  {
    hide Inv, Apply, Enabled, CString, Legal, Runs, Final;
    var start := [Connect(Server1, 1)];
    ConnectedAlone();
    RunKeepsInv(CODEC, start);
    var st := After(CODEC, start);
    ParsesAsLogin(1);
    ParsesAsLogin(2);
    ParsesAsText(2, 1);
    var sp := Speech(LoginFrame(1), [1], 2, LoginFrame(2), [2], TextFrame(2, 1), []);
    assert Says(CODEC, 1, sp);
    var acts := StrangerCanBeTold(CODEC, st, 0, sp);
    RunsAreLegal(CODEC, start, acts);
    assert Legal(CODEC, start + acts);
  }

  lemma ConnectedAlone()
    ensures Legal(CODEC, [Connect(Server1, 1)])
    ensures After(CODEC, [Connect(Server1, 1)]).sessions == [NewSession(Server1, 1)]
  {
    var run := [Connect(Server1, 1)];
    assert run[..0] == [];
  }

  // ---------- A JSON layer that can say everything ----------

  /** Five bytes from 1 to 255 for a number below 255^5. */
  function Spelled(n: nat, k: nat): (b: Text)
    ensures |b| == k && 0 !in b
  {
    if k == 0 then [] else Spelled(n / 255, k - 1) + [n % 255 + 1]
  }

  function Value(b: Text): int {
    if b == [] then 0 else Value(b[..|b| - 1]) * 255 + b[|b| - 1] - 1
  }

  function Power255(k: nat): nat { if k == 0 then 1 else 255 * Power255(k - 1) }

  lemma {:induction false} ValueOfSpelled(n: nat, k: nat)
    requires n < Power255(k)
    ensures Value(Spelled(n, k)) == n
  {
    if k > 0 {
      assert n / 255 < Power255(k - 1);
      ValueOfSpelled(n / 255, k - 1);
      var b := Spelled(n, k);
      assert b[..|b| - 1] == Spelled(n / 255, k - 1);
      assert n == n / 255 * 255 + n % 255;
    }
  }

  function UidText(uid: int): Text
    requires IsInt32(uid)
  {
    Spelled(uid + 0x8000_0000, 5)
  }

  function UidOf(b: Text): int { Value(b) - 0x8000_0000 }

  lemma UidOfText(uid: int)
    requires IsInt32(uid)
    ensures UidOf(UidText(uid)) == uid
  {
    assert Power255(5) == 255 * (255 * (255 * (255 * 255)));
    ValueOfSpelled(uid + 0x8000_0000, 5);
  }

  /** Five bytes are a login of the uid they spell, ten a text between two such uids. */
  const TALKER := Codec(
    (b: Text) => if |b| == 5 then Some(LoginBody(UidOf(b), b)) else None,
    (b: Text) => false,
    (b: Text) => None,
    (b: Text) => None,
    (b: Text) => if |b| == 10 then Some(TextBody(UidOf(b[..5]), UidOf(b[5..]), [])) else None,
    (u: int, b: Text) => [],
    (u: int, v: int) => [],
    (u: int, v: int, items: seq<TextItem>) => [],
    (e: ServerError) => [])

  lemma TalkerLogsIn(uid: int)
    requires IsInt32(uid)
    ensures SaysLogin(TALKER, Frame(1005, UidText(uid)), uid, UidText(uid))
  {
    UidOfText(uid);
    CStringOfNulFree(UidText(uid));
  }

  lemma TalkerTexts(from: int, to: int)
    requires IsInt32(from) && IsInt32(to)
    ensures var body := UidText(from) + UidText(to);
            |body| == 10 && 0 !in body && TALKER.parseText(CString(body)) == Some(TextBody(from, to, []))
  {
    hide CString, Spelled, Value;
    UidOfText(from);
    UidOfText(to);
    var body := UidText(from) + UidText(to);
    assert body[..5] == UidText(from) && body[5..] == UidText(to);
    CStringOfNulFree(body);
  }

  lemma TalkerSays(uid: int)
    requires IsInt32(uid)
    ensures exists sp :: Says(TALKER, uid, sp)
  {
    hide CString, SaysLogin, UidText, UidOf;
    var other := if uid == 0 then 1 else 0;
    TalkerLogsIn(uid);
    TalkerLogsIn(other);
    TalkerTexts(other, uid);
    var sp := Speech(Frame(1005, UidText(uid)), UidText(uid), other, Frame(1005, UidText(other)), UidText(other),
                     Frame(1017, UidText(other) + UidText(uid)), []);
    assert Says(TALKER, uid, sp);
  }

  /** There is such a JSON layer. */
  lemma TalkerIsExpressive()
    ensures Expressive(TALKER)
  {
    hide Says;
    forall uid | IsInt32(uid) ensures exists sp :: Says(TALKER, uid, sp) {
      TalkerSays(uid);
    }
  }
}
