/** A request that is carried out without a fault has notified its addressee, whatever happens in between. */
module ClusterDelivery {
  import opened Wrappers
  import opened Framing
  import opened Protocol
  import opened Sessions
  import opened SessionInvariants
  import opened Cluster
  import opened ClusterInvariants
  import opened ClusterSteps
  import opened ClusterShapes
  import opened ClusterTheorems
  import opened ClusterProgress

  /** The notice that is sent out is the one asked for; only an application gets its sender's name on the way. */
  predicate SameButName(n: Notice, m: Notice) {
    m == n || (n.AddNotice? && m.AddNotice? && m.from == n.from && m.to == n.to)
  }

  /** The session handles its request number q, which asks for `n`, has failed at nothing so far, and has not yet notified
      anyone; where it has looked up the route, that was to server x. */
  predicate Underway(s: Session, q: nat, n: Notice, x: ServerId) {
    && |s.requests| == q + 1
    && match s.pc
       case TableWrite(m) => m == n
       case TableDone(m, failed) => m == n && !failed
       case RouteGet(m) => m == n
       case RouteGot(m, server) => m == n && server == Some(x.Name())
       case NameGet(m, target) => m == n && n.AddNotice? && target == x.Name()
       case Calling(m) => SameButName(n, m) && x == s.home.Peer()
       case _ => false
  }

  /** The step hands the session's notice to get_participant, here or at the peer. */
  ghost predicate IsNotifying(c: Codec, st: State, a: Action, i: nat)
    requires Enabled(c, st, a)
  {
    (a.RpcExec? && a.session == i) || (a.Resume? && a.session == i && ResumeOf(c, st, i, a.choice).NotifyHere?)
  }

  /** What one step must not spoil: commands and lookups of the request succeed, its RPC does not fail, the route read is
      server x, and when the notice is handed over p is the only open participant of x under that uid and has room. */
  ghost predicate Favourable(c: Codec, st: State, a: Action, i: nat, n: Notice, x: ServerId, p: nat)
    requires Enabled(c, st, a) && i < |st.sessions|
  {
    && (a.Exec? && a.session == i ==> !a.fault)
    && (a.Exec? && a.session == i && st.sessions[i].pc.RouteGet? ==> n.to in st.routes && st.routes[n.to] == x.Name())
    && (a.Resume? && a.session == i && st.sessions[i].pc.NameGet? ==> a.choice.Found?)
    && a != RpcFail(i)
    && (IsNotifying(c, st, a, i) ==> Sole(st, x, n.to, p) && HasRoom(st.sessions[p]))
  }

  /** Every step is favourable for as long as the request has not notified anyone. */
  ghost predicate Undisturbed(c: Codec, st: State, acts: seq<Action>, i: nat, q: nat, n: Notice, x: ServerId, p: nat)
    requires Runs(c, st, acts)
    decreases |acts|
  {
    acts == [] || i >= |st.sessions| || !Underway(st.sessions[i], q, n, x) ||
    (Favourable(c, st, acts[0], i, n, x, p) && Undisturbed(c, Apply(c, st, acts[0]), acts[1..], i, q, n, x, p))
  }

  /** Offer number k to session p is the accepted notification of session i's request number q. */
  ghost predicate IsTold(st: State, i: nat, q: nat, n: Notice, p: nat, k: nat) {
    && p < |st.sessions| && k < |st.sessions[p].offered|
    && var o := st.sessions[p].offered[k];
       && IsPushOf(o, i, q) && SameButName(n, o.cause.notice)
       && o.accepted && o.owner == n.to
  }

  /** Offer number k to session p carries the message that session i's request number q asks for. */
  ghost predicate CarriesRequest(c: Codec, st: State, i: nat, q: nat, p: nat, k: nat) {
    && i < |st.sessions| && q < |st.sessions[i].requests| && p < |st.sessions| && k < |st.sessions[p].offered|
    && var o := st.sessions[p].offered[k];
       && o.cause.Push?
       && Tells(c, st.sessions[i].requests[q].frame, o.cause.route,
                if o.cause.notice.AddNotice? then o.cause.notice.name else [], o.message)
  }

  lemma ToldCarries(c: Codec, st: State, i: nat, q: nat, n: Notice, p: nat, k: nat)
    requires Inv(c, st) && i < |st.sessions| && IsTold(st, i, q, n, p, k)
    ensures CarriesRequest(c, st, i, q, p, k)
  {
    var o := st.sessions[p].offered[k];
    assert PushOk(c, st.sessions, st.sessions[p], o) by { hide SessionsInv; }
    hide SessionsInv, SessionInv, PushesInv, OrderInv, UniqueInv, AskedBy, Tells, PushMessage, Inv;
    SenderIsInt32(c, st, i, o.cause.notice.from);
    PushTells(c, st.sessions[i].requests[q].frame, o.cause.route, o.cause.notice);
  }

  ghost predicate Told(st: State, i: nat, q: nat, n: Notice, p: nat) {
    exists k: nat :: IsTold(st, i, q, n, p, k)
  }

  predicate IsPushOf(o: Offer, i: nat, q: nat) {
    o.cause.Push? && o.cause.sender == i && o.cause.index == q
  }

  /** Offer number k to session p is the only notification of session i's request number q. */
  ghost predicate NobodyElseIsTold(st: State, i: nat, q: nat, p: nat, k: nat) {
    forall j, l :: 0 <= j < |st.sessions| && 0 <= l < |st.sessions[j].offered| && IsPushOf(st.sessions[j].offered[l], i, q) ==>
      j == p && l == k
  }

  predicate Replied(s: Session, q: nat) {
    exists k :: 0 <= k < |s.offered| && s.offered[k].cause == Reply(q)
  }

  // ---------- One step ----------

  predicate Concerns(a: Action, i: nat) {
    !(a.IssueToken? || a.Connect?) && a.session == i
  }

  /** Nothing but notifications was offered since. */
  ghost predicate OnlyPushes(offered: seq<Offer>, later: seq<Offer>) {
    offered <= later && forall m :: |offered| <= m < |later| ==> later[m].cause.Push?
  }

  lemma OthersKeepPc(c: Codec, st: State, a: Action, i: nat)
    requires Enabled(c, st, a) && i < |st.sessions| && !Concerns(a, i)
    ensures var r := Apply(c, st, a);
            i < |r.sessions| && r.sessions[i].pc == st.sessions[i].pc && r.sessions[i].requests == st.sessions[i].requests
            && r.sessions[i].home == st.sessions[i].home && OnlyPushes(st.sessions[i].offered, r.sessions[i].offered)
  {
    hide Execute, Continue, Finish, Notify, MayFind, ErrorReply;
    if a.Exec? {
      ExecShape(st, a.session, a.fault);
    } else if IsMove(a) {
      MoveShape(c, st, a);
      hide Apply, Enabled;
    } else if a.RpcExec? {
      var n := st.sessions[a.session].pc.notice;
      FoundIsSession(st, st.sessions[a.session].home.Peer(), AcrossRpc(n).to, a.target);
      NotifyKeepsPc(c, st, a.session, Remote, n, a.target, i);
    } else if a.Resume? {
      match ResumeOf(c, st, a.session, a.choice)
      case Await(t) =>
      case Answer(t, reply) =>
      case NotifyPeer(n) =>
      case NotifyHere(n) =>
        FoundIsSession(st, st.sessions[a.session].home, n.to, a.target);
        NotifyKeepsPc(c, st, a.session, Local, n, a.target, i);
    }
  }

  lemma NotifyKeepsPc(c: Codec, st: State, j: nat, route: Route, n: Notice, target: Option<nat>, i: nat)
    requires j < |st.sessions| && i < |st.sessions| && (target.Some? ==> target.value < |st.sessions|)
    ensures var s, t := st.sessions[i], Notify(c, st, j, route, n, target).sessions[i];
            t.pc == s.pc && t.requests == s.requests && t.home == s.home && OnlyPushes(s.offered, t.offered)
  {
    hide PushMessage;
  }

  lemma MovedStaysUnderway(s: Session, a: Action, q: nat, n: Notice, x: ServerId)
    requires IsMove(a) && CanMove(s, a) && Underway(s, q, n, x)
    ensures Underway(Moved(s, a), q, n, x)
  {
    hide Encode;
  }

  lemma ExecStaysUnderway(st: State, s: Session, q: nat, n: Notice, x: ServerId)
    requires NeedsStore(s.pc) && Underway(s, q, n, x)
    requires s.pc.RouteGet? ==> n.to in st.routes && st.routes[n.to] == x.Name()
    ensures Underway(s.(pc := PcAfterExec(st, s, false)), q, n, x)
  {
  }

  /** The handler goes on asking, or hands the notice over: to its own server if the route names it, else to the peer. */
  lemma ContinueUnderway(c: Codec, s: Session, count: nat, choice: Choice, q: nat, n: Notice, x: ServerId)
    requires Underway(s, q, n, x) && Resumable(s.pc) && (s.pc.NameGet? ==> choice.Found?)
    ensures match Continue(c, s, count, choice)
            case Await(t) => Underway(t, q, n, x)
            case Answer(_, _) => false
            case NotifyHere(m) => SameButName(n, m) && x == s.home
            case NotifyPeer(m) => SameButName(n, m) && x == s.home.Peer()
  {
    hide Dispatch, ErrorReply;
  }

  /** With exactly one participant of that uid, get_participant finds it. */
  lemma NotifyTells(c: Codec, st: State, i: nat, route: Route, q: nat, n: Notice, m: Notice, x: ServerId, p: nat,
                    target: Option<nat>)
    requires i < |st.sessions| && Current(st.sessions[i]) == q && SameButName(n, m)
    requires Sole(st, x, n.to, p) && HasRoom(st.sessions[p]) && MayFind(st, x, n.to, target)
    ensures target == Some(p) && p < |st.sessions|
    ensures Told(Notify(c, st, i, route, m, target), i, q, n, p)
  {
    SoleIsFound(st, x, n.to, p, target);
    hide PushMessage, MayFind, Sole;
    var r := Notify(c, st, i, route, m, target);
    assert IsTold(r, i, q, n, p, |st.sessions[p].offered|);
  }

  lemma ToldStays(st: State, r: State, i: nat, q: nat, n: Notice, p: nat)
    requires Told(st, i, q, n, p) && p < |st.sessions| && p < |r.sessions| && st.sessions[p].offered <= r.sessions[p].offered
    ensures Told(r, i, q, n, p)
  {
    hide PushMessage;
    var k: nat :| IsTold(st, i, q, n, p, k);
    assert IsTold(r, i, q, n, p, k);
  }

  lemma LocalTelling(c: Codec, st: State, i: nat, choice: Choice, target: Option<nat>, q: nat, n: Notice, p: nat)
    requires Enabled(c, st, Resume(i, choice, target)) && ResumeOf(c, st, i, choice).NotifyHere?
    requires var m := ResumeOf(c, st, i, choice).notice; SameButName(n, m)
    requires Current(st.sessions[i]) == q && Sole(st, st.sessions[i].home, n.to, p) && HasRoom(st.sessions[p])
    ensures |ApplyResume(c, st, i, choice, target).sessions| == |st.sessions|
    ensures Told(ApplyResume(c, st, i, choice, target), i, q, n, p)
  {
    hide Continue, Finish, ErrorReply, MayFind, Sole, Told, HasRoom, Notify;
    var m := ResumeOf(c, st, i, choice).notice;
    assert m.to == n.to;
    NotifyTells(c, st, i, Local, q, n, m, st.sessions[i].home, p, target);
    var told := Notify(c, st, i, Local, m, target);
    var reply := ErrorReply(c, Code(ResponseId(RequestId(m))), Success);
    FinishExtends(told.sessions[i], reply);
    ToldStays(told, Put(told, i, Finish(told.sessions[i], reply)), i, q, n, p) by { ToldIsThere(told, i, q, n, p); }
  }

  lemma FinishExtends(s: Session, reply: Message)
    ensures s.offered <= Finish(s, reply).offered
  {
  }

  lemma ToldIsThere(st: State, i: nat, q: nat, n: Notice, p: nat)
    requires Told(st, i, q, n, p)
    ensures p < |st.sessions|
  {
  }

  lemma RemoteTelling(c: Codec, st: State, i: nat, target: Option<nat>, q: nat, n: Notice, p: nat)
    requires Enabled(c, st, RpcExec(i, target)) && SameButName(n, st.sessions[i].pc.notice) && IsInt32(n.to)
    requires Current(st.sessions[i]) == q && Sole(st, st.sessions[i].home.Peer(), n.to, p) && HasRoom(st.sessions[p])
    ensures Told(Apply(c, st, RpcExec(i, target)), i, q, n, p)
  {
    hide MayFind, Sole, Told, HasRoom, Notify;
    var m := st.sessions[i].pc.notice;
    assert AcrossRpc(m).to == n.to;
    NotifyTells(c, st, i, Remote, q, n, m, st.sessions[i].home.Peer(), p, target);
    var told := Notify(c, st, i, Remote, m, target);
    ToldIsThere(told, i, q, n, p);
    ToldStays(told, Put(told, i, told.sessions[i].(pc := Called(m, true))), i, q, n, p);
  }

  lemma CallingIsInt32(c: Codec, s: Session, n: Notice)
    requires ReaderInv(c, s) && s.pc.Calling? && SameButName(n, s.pc.notice)
    ensures IsInt32(n.to)
  {
    hide AskedBy;
  }

  lemma ResumeTells(c: Codec, st: State, a: Action, i: nat, q: nat, n: Notice, x: ServerId, p: nat)
    requires Enabled(c, st, a) && a.Resume? && a.session == i && i < |st.sessions|
    requires Underway(st.sessions[i], q, n, x) && Favourable(c, st, a, i, n, x, p)
    ensures var r := Apply(c, st, a);
            i < |r.sessions| && (Underway(r.sessions[i], q, n, x) || Told(r, i, q, n, p))
  {
    hide Continue, Finish, ErrorReply, MayFind, Sole, Told, HasRoom, Notify, Enabled, ApplyResume;
    var s := st.sessions[i];
    ResumeIsEnabled(c, st, a);
    ContinueUnderway(c, s, AsUint32(|st.participants.Of(s.home)|), a.choice, q, n, x);
    match ResumeOf(c, st, i, a.choice)
    case Await(t) => AwaitApplies(c, st, i, a.choice, a.target);
    case NotifyPeer(m) => PeerApplies(c, st, i, a.choice, a.target);
    case NotifyHere(m) =>
      assert Current(s) == q;
      LocalTelling(c, st, i, a.choice, a.target, q, n, p);
  }

  lemma ResumeIsEnabled(c: Codec, st: State, a: Action)
    requires Enabled(c, st, a) && a.Resume?
    ensures a.session < |st.sessions| && Resumable(st.sessions[a.session].pc)
  {
  }

  lemma AwaitApplies(c: Codec, st: State, i: nat, choice: Choice, target: Option<nat>)
    requires Enabled(c, st, Resume(i, choice, target)) && ResumeOf(c, st, i, choice).Await?
    ensures ApplyResume(c, st, i, choice, target).sessions == st.sessions[i := ResumeOf(c, st, i, choice).session]
  {
    hide Continue;
  }

  lemma AnswerApplies(c: Codec, st: State, i: nat, choice: Choice, target: Option<nat>)
    requires Enabled(c, st, Resume(i, choice, target)) && ResumeOf(c, st, i, choice).Answer?
    ensures var next := ResumeOf(c, st, i, choice);
            ApplyResume(c, st, i, choice, target).sessions == st.sessions[i := Finish(next.session, next.reply)]
  {
    hide Continue, Finish;
  }

  lemma HereApplies(c: Codec, st: State, i: nat, choice: Choice, target: Option<nat>)
    requires Enabled(c, st, Resume(i, choice, target)) && ResumeOf(c, st, i, choice).NotifyHere?
    ensures var n := ResumeOf(c, st, i, choice).notice;
            && (target.Some? ==> target.value < |st.sessions|)
            && var told := Notify(c, st, i, Local, n, target);
               ApplyResume(c, st, i, choice, target).sessions ==
               told.sessions[i := Finish(told.sessions[i], ErrorReply(c, Code(ResponseId(RequestId(n))), Success))]
  {
    hide Continue, Finish, Notify, ErrorReply;
  }

  lemma PeerApplies(c: Codec, st: State, i: nat, choice: Choice, target: Option<nat>)
    requires Enabled(c, st, Resume(i, choice, target)) && ResumeOf(c, st, i, choice).NotifyPeer?
    ensures ApplyResume(c, st, i, choice, target).sessions ==
            st.sessions[i := st.sessions[i].(pc := Calling(ResumeOf(c, st, i, choice).notice))]
  {
    hide Continue;
  }

  lemma StepTells(c: Codec, st: State, a: Action, i: nat, q: nat, n: Notice, x: ServerId, p: nat)
    requires Inv(c, st) && Enabled(c, st, a) && i < |st.sessions|
    requires Underway(st.sessions[i], q, n, x) && Favourable(c, st, a, i, n, x, p)
    ensures var r := Apply(c, st, a);
            i < |r.sessions| && (Underway(r.sessions[i], q, n, x) || Told(r, i, q, n, p))
  {
    hide Inv, SessionInv, Told, Sole, HasRoom, Execute, PcAfterExec, Moved, CanMove, ApplyResume, ReaderInv, Notify, Finish, ErrorReply, MayFind;
    if !Concerns(a, i) {
      OthersKeepPc(c, st, a, i);
      hide Apply, Enabled;
    } else if a.Exec? {
      ExecShape(st, i, a.fault);
      ExecStaysUnderway(st, st.sessions[i], q, n, x);
    } else if IsMove(a) {
      MoveShape(c, st, a);
      MovedStaysUnderway(st.sessions[i], a, q, n, x);
      hide Apply, Enabled, Underway;
    } else if a.Resume? {
      ResumeTells(c, st, a, i, q, n, x, p);
      hide Apply, Enabled;
    } else if a.RpcExec? {
      SessionOfInv(c, st, i);
      ReaderOfSession(c, st.sessions[i]);
      CallingIsInt32(c, st.sessions[i], n);
      assert Current(st.sessions[i]) == q;
      RemoteTelling(c, st, i, a.target, q, n, p);
    }
  }

  // ---------- Every continuation ----------

  lemma UnderwayIsUnanswered(c: Codec, s: Session, q: nat, n: Notice, x: ServerId)
    requires SessionInv(c, s) && Underway(s, q, n, x)
    ensures !Replied(s, q)
  {
    hide OutboxOk, ReaderOk, AuthOk, GateOk, LoginsOk, ProperReply;
  }

  /** The request notified nobody else, and only once. */
  lemma ToldOnce(c: Codec, st: State, i: nat, q: nat, n: Notice, p: nat, k: nat, r: nat, l: nat)
    requires Inv(c, st) && IsTold(st, i, q, n, p, k)
    requires r < |st.sessions| && l < |st.sessions[r].offered|
    requires IsPushOf(st.sessions[r].offered[l], i, q)
    ensures r == p && l == k
  {
    hide SessionsInv, PushesInv;
    var a, b := st.sessions[p].offered[k], st.sessions[r].offered[l];
    assert SamePusher(a, b) && SamePusher(b, a);
  }

  lemma {:induction false} RunTells(c: Codec, st: State, acts: seq<Action>, i: nat, q: nat, n: Notice, x: ServerId, p: nat)
    requires Inv(c, st) && i < |st.sessions| && Runs(c, st, acts) && Undisturbed(c, st, acts, i, q, n, x, p)
    requires Underway(st.sessions[i], q, n, x) || Told(st, i, q, n, p)
    ensures var r := Final(c, st, acts);
            Inv(c, r) && i < |r.sessions| && (Underway(r.sessions[i], q, n, x) || Told(r, i, q, n, p))
    decreases |acts|
  {
    hide Inv, Apply, Enabled, Told, Underway, Favourable, Grows;
    if acts != [] {
      var r := Apply(c, st, acts[0]);
      StepKeepsInv(c, st, acts[0]);
      if Underway(st.sessions[i], q, n, x) {
        StepTells(c, st, acts[0], i, q, n, x, p);
      } else {
        ToldIsThere(st, i, q, n, p);
        OffersExtend(st.sessions, r.sessions, p);
        ToldStays(st, r, i, q, n, p);
      }
      if Underway(st.sessions[i], q, n, x) {
        RunTells(c, r, acts[1..], i, q, n, x, p);
      } else {
        ToldForever(c, r, acts[1..], i, q, n, p);
      }
    }
  }

  lemma {:induction false} ToldForever(c: Codec, st: State, acts: seq<Action>, i: nat, q: nat, n: Notice, p: nat)
    requires Inv(c, st) && i < |st.sessions| && Runs(c, st, acts) && Told(st, i, q, n, p)
    ensures var r := Final(c, st, acts); Inv(c, r) && i < |r.sessions| && Told(r, i, q, n, p)
    decreases |acts|
  {
    hide Inv, Apply, Enabled, Told, Grows;
    if acts != [] {
      var r := Apply(c, st, acts[0]);
      StepKeepsInv(c, st, acts[0]);
      ToldIsThere(st, i, q, n, p);
      OffersExtend(st.sessions, r.sessions, p);
      ToldStays(st, r, i, q, n, p);
      ToldForever(c, r, acts[1..], i, q, n, p);
    }
  }

  lemma OffersExtend(earlier: seq<Session>, later: seq<Session>, p: nat)
    requires Extends(earlier, later) && p < |earlier|
    ensures p < |later| && earlier[p].offered <= later[p].offered
  {
    hide Bound, NewPushesFit;
    assert Grows(earlier[p], later[p]);
  }

  /** Delivery: take any reachable state in which a request asks for a notice, and any continuation in which its own
      commands and RPC do not fail, its route lookup finds server x, and p is the only open participant of x under the
      addressed uid, with room, when the notice is handed over.  If the request is answered at the end, exactly one
      notification of it was offered, to p, and accepted, and it tells what the request asks for. */
  lemma RequestIsDelivered(c: Codec, run: seq<Action>, acts: seq<Action>, i: nat, n: Notice, x: ServerId, p: nat)
    requires Legal(c, run) && Runs(c, After(c, run), acts)
    requires i < |After(c, run).sessions|
    requires var s := After(c, run).sessions[i];
             && (s.pc == TableWrite(n) || s.pc == RouteGet(n))
             && Undisturbed(c, After(c, run), acts, i, Current(s), n, x, p)
    ensures var q, r := Current(After(c, run).sessions[i]), Final(c, After(c, run), acts);
            i < |r.sessions| && (Replied(r.sessions[i], q) ==>
              exists k: nat :: IsTold(r, i, q, n, p, k) && CarriesRequest(c, r, i, q, p, k) && NobodyElseIsTold(r, i, q, p, k))
  {
    hide Inv, SessionInv, Legal, After, Apply, Enabled, Undisturbed, IsTold, Replied, CarriesRequest;
    RunKeepsInv(c, run);
    var st := After(c, run);
    var q, r := Current(st.sessions[i]), Final(c, st, acts);
    SessionOfInv(c, st, i);
    ReaderOfSession(c, st.sessions[i]);
    assert Underway(st.sessions[i], q, n, x) by { hide AskedBy; }
    RunTells(c, st, acts, i, q, n, x, p);
    if Replied(r.sessions[i], q) {
      SessionOfInv(c, r, i);
      if Underway(r.sessions[i], q, n, x) {
        UnderwayIsUnanswered(c, r.sessions[i], q, n, x);
        assert false;
      }
      var k: nat :| IsTold(r, i, q, n, p, k);
      ToldCarries(c, r, i, q, n, p, k);
      forall j, l | 0 <= j < |r.sessions| && 0 <= l < |r.sessions[j].offered| && IsPushOf(r.sessions[j].offered[l], i, q)
        ensures j == p && l == k
      {
        ToldOnce(c, r, i, q, n, p, k, j, l);
      }
    }
  }
}
