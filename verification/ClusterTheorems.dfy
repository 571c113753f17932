/** What the invariant means for every run of the two servers. */
module ClusterTheorems {
  import opened Wrappers
  import opened Framing
  import opened Protocol
  import opened Sessions
  import opened SessionInvariants
  import opened Cluster
  import opened ClusterInvariants
  import opened ClusterSteps
  import opened ClusterShapes
  import opened ClusterTokens

  ghost function SessionAfter(c: Codec, run: seq<Action>, i: nat): Session
    requires Legal(c, run) && i < |After(c, run).sessions|
  {
    After(c, run).sessions[i]
  }

  // ---------- Order ----------

  /** The notifications that requests of session `sender` caused, in the order they were offered, ... */
  function PushesFrom(offered: seq<Offer>, sender: nat): seq<Notice> {
    if offered == [] then []
    else
      var last := offered[|offered| - 1];
      PushesFrom(offered[..|offered| - 1], sender) +
      if last.cause.Push? && last.cause.sender == sender then [last.cause.notice] else []
  }

  /** ... and the numbers of those requests. */
  function PushIndices(offered: seq<Offer>, sender: nat): (r: seq<nat>)
    ensures |r| == |PushesFrom(offered, sender)|
  {
    if offered == [] then []
    else
      var last := offered[|offered| - 1];
      PushIndices(offered[..|offered| - 1], sender) +
      if last.cause.Push? && last.cause.sender == sender then [last.cause.index] else []
  }

  /** `notices` is what some of the requests ask for, in the order of the requests. */
  ghost predicate InOrderOf(c: Codec, notices: seq<Notice>, requests: seq<Request>, at: seq<nat>) {
    && |at| == |notices|
    && (forall i, j :: 0 <= i < j < |at| ==> at[i] < at[j])
    && (forall i :: 0 <= i < |at| ==> at[i] < |requests| && AskedBy(c, requests[at[i]].frame, notices[i]))
  }

  lemma {:induction false} PushIndexOccurs(offered: seq<Offer>, sender: nat, i: nat)
    requires i < |PushIndices(offered, sender)|
    ensures exists k :: 0 <= k < |offered| && offered[k].cause.Push? && offered[k].cause.sender == sender
                        && offered[k].cause.index == PushIndices(offered, sender)[i]
                        && offered[k].cause.notice == PushesFrom(offered, sender)[i]
  {
    var last := |offered| - 1;
    if i < |PushIndices(offered[..last], sender)| {
      PushIndexOccurs(offered[..last], sender, i);
      var k :| 0 <= k < last && offered[..last][k].cause.Push? && offered[..last][k].cause.sender == sender
               && offered[..last][k].cause.index == PushIndices(offered[..last], sender)[i]
               && offered[..last][k].cause.notice == PushesFrom(offered[..last], sender)[i];
      assert offered[k] == offered[..last][k];
    } else {
      assert offered[last].cause.Push?;
    }
  }

  lemma {:induction false} PushIndicesIncrease(offered: seq<Offer>, sender: nat)
    requires forall k, l :: 0 <= k < l < |offered| && SamePusher(offered[k], offered[l]) ==>
                              offered[k].cause.index < offered[l].cause.index
    ensures forall i, j :: 0 <= i < j < |PushIndices(offered, sender)| ==>
                             PushIndices(offered, sender)[i] < PushIndices(offered, sender)[j]
  {
    if offered != [] {
      var last := |offered| - 1;
      var init := offered[..last];
      PushIndicesIncrease(init, sender);
      forall i | 0 <= i < |PushIndices(init, sender)| && offered[last].cause.Push? && offered[last].cause.sender == sender
        ensures PushIndices(init, sender)[i] < offered[last].cause.index
      {
        PushIndexOccurs(init, sender, i);
      }
    }
  }

  lemma OrderedPushes(c: Codec, sessions: seq<Session>, receiver: Session, offers: seq<Offer>, sender: nat)
    requires sender < |sessions|
    requires forall k :: 0 <= k < |offers| && offers[k].cause.Push? ==> PushOk(c, sessions, receiver, offers[k])
    requires forall k, l :: 0 <= k < l < |offers| && SamePusher(offers[k], offers[l]) ==>
                              offers[k].cause.index < offers[l].cause.index
    ensures InOrderOf(c, PushesFrom(offers, sender), sessions[sender].requests, PushIndices(offers, sender))
  {
    hide AskedBy;
    PushIndicesIncrease(offers, sender);
    forall i | 0 <= i < |PushIndices(offers, sender)|
      ensures PushIndices(offers, sender)[i] < |sessions[sender].requests|
      ensures AskedBy(c, sessions[sender].requests[PushIndices(offers, sender)[i]].frame, PushesFrom(offers, sender)[i])
    {
      PushIndexOccurs(offers, sender, i);
      var k :| 0 <= k < |offers| && offers[k].cause.Push? && offers[k].cause.sender == sender
               && offers[k].cause.index == PushIndices(offers, sender)[i]
               && offers[k].cause.notice == PushesFrom(offers, sender)[i];
      assert PushOk(c, sessions, receiver, offers[k]);
    }
  }

  /** Per-sender order: after every run over both servers, what one session's requests had delivered to
      another session, locally or by the peer RPC, is what a subsequence of those requests asked for, in their order. */
  lemma PerSenderOrder(c: Codec, run: seq<Action>, sender: nat, receiver: nat)
    requires Legal(c, run)
    requires sender < |After(c, run).sessions| && receiver < |After(c, run).sessions|
    ensures var offered := SessionAfter(c, run, receiver).offered;
            InOrderOf(c, PushesFrom(offered, sender), SessionAfter(c, run, sender).requests, PushIndices(offered, sender))
  {
    RunKeepsInv(c, run);
    hide SessionsInv, AskedBy, PushOk;
    OrderedPushes(c, After(c, run).sessions, After(c, run).sessions[receiver], After(c, run).sessions[receiver].offered, sender);
  }

  /** The offers whose messages were accepted, in order. */
  function AcceptedOffers(offered: seq<Offer>): seq<Offer> {
    if offered == [] then []
    else
      var last := offered[|offered| - 1];
      AcceptedOffers(offered[..|offered| - 1]) + if last.accepted then [last] else []
  }

  lemma {:induction false} AcceptedOffersAre(offered: seq<Offer>)
    ensures |AcceptedOffers(offered)| == |Accepted(offered)|
    ensures forall k :: 0 <= k < |Accepted(offered)| ==> AcceptedOffers(offered)[k].message == Accepted(offered)[k]
    ensures forall o :: o in AcceptedOffers(offered) ==> o in offered
  {
    if offered != [] {
      var init := offered[..|offered| - 1];
      AcceptedOffersAre(init);
      assert offered == init + [offered[|offered| - 1]];
    }
  }

  lemma {:induction false} AcceptedOffersIncrease(offered: seq<Offer>)
    requires forall k, l :: 0 <= k < l < |offered| && SamePusher(offered[k], offered[l]) ==>
                              offered[k].cause.index < offered[l].cause.index
    ensures var a := AcceptedOffers(offered);
            forall k, l :: 0 <= k < l < |a| && SamePusher(a[k], a[l]) ==> a[k].cause.index < a[l].cause.index
  {
    if offered != [] {
      var last := |offered| - 1;
      var init, a := AcceptedOffers(offered[..last]), AcceptedOffers(offered);
      AcceptedOffersIncrease(offered[..last]);
      AcceptedOffersAre(offered[..last]);
      forall k, l | 0 <= k < l < |a| && SamePusher(a[k], a[l]) ensures a[k].cause.index < a[l].cause.index {
        if l == |init| {
          assert a[k] == init[k] && init[k] in offered[..last];
          var m :| 0 <= m < last && offered[m] == init[k];
        }
      }
    }
  }

  /** The offers of a session whose messages are written: the first accepted ones. */
  ghost predicate WrittenAre(s: Session, offers: seq<Offer>) {
    && |offers| == |s.written| && offers <= AcceptedOffers(s.offered)
    && forall k :: 0 <= k < |offers| ==> offers[k].message == s.written[k]
  }

  /** The same order on the wire: after every run, the notifications of one sender among the messages written to a receiver's
      connection are what a subsequence of that sender's requests asked for, in their order. */
  lemma PerSenderOrderOnTheWire(c: Codec, run: seq<Action>, sender: nat, receiver: nat)
    requires Legal(c, run)
    requires sender < |After(c, run).sessions| && receiver < |After(c, run).sessions|
    ensures var r := SessionAfter(c, run, receiver);
            exists offers :: WrittenAre(r, offers) &&
              InOrderOf(c, PushesFrom(offers, sender), SessionAfter(c, run, sender).requests, PushIndices(offers, sender))
  {
    hide SessionsInv, AskedBy, Legal, After, PushOk, PushIndices, PushesFrom, InOrderOf;
    RunKeepsInv(c, run);
    var sessions := After(c, run).sessions;
    var r := sessions[receiver];
    var all := AcceptedOffers(r.offered);
    AcceptedOffersAre(r.offered);
    AcceptedOffersIncrease(r.offered);
    WrittenIsAccepted(c, After(c, run), receiver);
    var offers := all[..|r.written|];
    assert WrittenAre(r, offers);
    forall k | 0 <= k < |offers| && offers[k].cause.Push? ensures PushOk(c, sessions, r, offers[k]) {
      assert offers[k] in all;
      var m :| 0 <= m < |r.offered| && r.offered[m] == offers[k];
    }
    OrderedPushes(c, sessions, r, offers, sender);
  }

  lemma WrittenIsAccepted(c: Codec, st: State, i: nat)
    requires Inv(c, st) && i < |st.sessions|
    ensures st.sessions[i].written <= Accepted(st.sessions[i].offered)
  {
    hide Inv, SessionInv, Accepted;
    SessionOfInv(c, st, i);
    OutboxOfSession(c, st.sessions[i]);
  }

  // ---------- Soundness and location transparency ----------

  ghost predicate IsPush(c: Codec, run: seq<Action>, r: nat, k: nat)
    requires Legal(c, run)
  {
    && r < |After(c, run).sessions|
    && k < |SessionAfter(c, run, r).offered|
    && SessionAfter(c, run, r).offered[k].cause.Push?
  }

  /** Every notification was caused by a request that its sender made while authenticated; it names the uid that the
      sender's session then had, which an earlier login of that session had proven with the issued token, and goes to
      another uid; the receiver held the addressed uid, and unless that is what its memory happened to hold before any
      login, a login had proven it there too. */
  lemma NotificationSoundness(c: Codec, run: seq<Action>, r: nat, k: nat)
    requires Legal(c, run) && IsPush(c, run, r, k)
    ensures var receiver := SessionAfter(c, run, r);
            var o := receiver.offered[k];
            var Push(s, index, route, n) := o.cause;
            && s < |After(c, run).sessions|
            && var sender := SessionAfter(c, run, s);
               && index < |sender.requests|
               && sender.requests[index].authenticated
               && AskedBy(c, sender.requests[index].frame, n)
               && n.from == sender.requests[index].uid
               && TokenProven(c, run, s, n.from, index)
               && n.from != n.to
               && o.owner == n.to
               && (route == Local <==> receiver.home == sender.home)
               && Tells(c, sender.requests[index].frame, route, if n.AddNotice? then n.name else [], o.message)
               && (receiver.firstUid != n.to ==> TokenProven(c, run, r, n.to, |receiver.requests|))
  {
    RunKeepsInv(c, run);
    hide SessionsInv, SessionInv, AskedBy, Legal, After, TokenProven, PushMessage, Gated, Tells;
    var receiver := SessionAfter(c, run, r);
    assert PushOk(c, After(c, run).sessions, receiver, receiver.offered[k]);
    var Push(s, index, route, n) := receiver.offered[k].cause;
    assert IsInt32(n.from) by { hide PushesInv, OrderInv, UniqueInv; SenderIsInt32(c, After(c, run), s, n.from); }
    PushTells(c, SessionAfter(c, run, s).requests[index].frame, route, n);
    AuthenticationGate(c, run, s);
    assert TokenProven(c, run, s, n.from, index) by { GatedRequest(c, run, s, index); }
    if receiver.firstUid != n.to {
      MatchNeedsTheToken(c, run, r, n.to);
    }
  }

  lemma SenderIsInt32(c: Codec, st: State, i: nat, uid: int)
    requires Inv(c, st) && i < |st.sessions| && uid in st.sessions[i].matched
    ensures IsInt32(uid)
  {
    hide Inv, SessionInv;
    SessionOfInv(c, st, i);
    MatchedAreInt32(c, st.sessions[i]);
  }

  lemma GatedRequest(c: Codec, run: seq<Action>, i: nat, k: nat)
    requires Legal(c, run) && i < |After(c, run).sessions| && Gated(c, run, i)
    requires k < |SessionAfter(c, run, i).requests| && SessionAfter(c, run, i).requests[k].authenticated
    ensures TokenProven(c, run, i, SessionAfter(c, run, i).requests[k].uid, k)
  {
    hide Legal, After, TokenProven;
  }

  /** No request is notified twice, to one session or to two. */
  lemma NotifiedAtMostOnce(c: Codec, run: seq<Action>, q: nat, k: nat, r: nat, l: nat)
    requires Legal(c, run) && IsPush(c, run, q, k) && IsPush(c, run, r, l)
    requires var a, b := SessionAfter(c, run, q).offered[k].cause, SessionAfter(c, run, r).offered[l].cause;
             a.sender == b.sender && a.index == b.index
    ensures q == r && k == l
  {
    RunKeepsInv(c, run);
    hide SessionsInv, PushesInv;
    var sessions := After(c, run).sessions;
    var a, b := sessions[q].offered[k], sessions[r].offered[l];
    assert SamePusher(a, b) && SamePusher(b, a);
  }

  /** Location transparency: a notification that went through the peer RPC is the message that a local delivery of the
      same request offers, and went to a session of the uid asked for.  The uids of a reachable notification always fit
      the protobuf fields; the notification crosses unchanged exactly when its message ids fit them too. */
  lemma LocationTransparency(c: Codec, run: seq<Action>, r: nat, k: nat)
    requires Legal(c, run) && IsPush(c, run, r, k)
    ensures var o := SessionAfter(c, run, r).offered[k];
            var n := o.cause.notice;
            var fits := n.TextNotice? ==> forall i :: 0 <= i < |n.items| ==> -2147483648 <= n.items[i].msgid <= 2147483647;
            && IsInt32(n.from) && IsInt32(n.to) && o.owner == n.to
            && (AcrossRpc(n) == n <==> fits)
            && o.cause.sender < |After(c, run).sessions| && o.cause.index < |SessionAfter(c, run, o.cause.sender).requests|
            && var f := SessionAfter(c, run, o.cause.sender).requests[o.cause.index].frame;
               fits ==> Tells(c, f, Local, if n.AddNotice? then n.name else [], o.message)
  {
    RunKeepsInv(c, run);
    var st := After(c, run);
    var o := st.sessions[r].offered[k];
    PushOfInv(c, st, r, k);
    hide Inv, AskedBy, Tells, PushMessage, AcrossRpc, Legal, After;
    RpcIsTransparent(o.cause.notice);
    if FitsInt32(o.cause.notice) {
      SameMessage(c, o.cause.route, o.cause.notice);
    }
    PushTells(c, st.sessions[o.cause.sender].requests[o.cause.index].frame, Local, o.cause.notice);
  }

  lemma PushOfInv(c: Codec, st: State, r: nat, k: nat)
    requires Inv(c, st) && r < |st.sessions| && k < |st.sessions[r].offered|
    ensures var o := st.sessions[r].offered[k];
            PushOk(c, st.sessions, st.sessions[r], o) && (o.cause.Push? ==> IsInt32(o.cause.notice.from))
  {
    hide SessionsInv, SessionInv, OrderInv, UniqueInv, AskedBy, PushMessage;
    var o := st.sessions[r].offered[k];
    assert PushOk(c, st.sessions, st.sessions[r], o);
    if o.cause.Push? {
      hide Inv, PushesInv;
      SenderIsInt32(c, st, o.cause.sender, o.cause.notice.from);
    }
  }

  /** Whatever fits the protobuf fields makes the same message by either route. */
  lemma SameMessage(c: Codec, route: Route, n: Notice)
    requires FitsInt32(n)
    ensures PushMessage(c, route, n) == PushMessage(c, Local, n)
  {
    hide ConstructedBody, Dump, AcrossRpc;
    RpcIsTransparent(n);
  }

  // ---------- Outboxes ----------

  ghost predicate Conserved(s: Session) {
    && Accepted(s.offered) == s.written + InHand(s.writer) + s.outbox
    && |s.outbox| <= 64
    && s.wire <= WireOf(Accepted(s.offered))
    && forall k :: 0 <= k < |s.written| && s.written[k].close ==>
                     k == |s.written| - 1 && s.stopped && InHand(s.writer) == [] && s.wire == WireOf(s.written)
  }

  lemma OutboxInvConserves(s: Session)
    requires OutboxInv(s)
    ensures Conserved(s)
  {
    hide Encode, Accepted, WireOf;
    var hand := InHand(s.writer);
    WireOfConcat(s.written + hand, s.outbox);
    WireOfConcat(s.written, hand);
    if hand != [] {
      WireOfOne(hand[0]);
      assert hand == [hand[0]];
    } else {
      assert s.written + hand == s.written;
    }
  }

  /** Every accepted message is written, in hand or queued, in the order of acceptance; at most 64 are queued; the wire is
      a byte prefix of the accepted frames; and nothing follows a closing message, which ends the connection. */
  lemma OutboxConservation(c: Codec, run: seq<Action>, i: nat)
    requires Legal(c, run) && i < |After(c, run).sessions|
    ensures Conserved(SessionAfter(c, run, i))
  {
    hide Inv, SessionInv, OutboxInv, Conserved, Apply, Enabled;
    RunKeepsInv(c, run);
    SessionOfInv(c, After(c, run), i);
    OutboxOfSession(c, SessionAfter(c, run, i));
    OutboxInvConserves(SessionAfter(c, run, i));
  }

  // ---------- Session lifecycle ----------

  /** A stopped session never becomes a participant again, and nothing more reaches its wire. */
  lemma StoppedForGood(c: Codec, run: seq<Action>, earlier: nat, i: nat)
    requires Legal(c, run) && earlier <= |run|
    requires Legal(c, run[..earlier]) && i < |After(c, run[..earlier]).sessions|
    requires SessionAfter(c, run[..earlier], i).stopped
    ensures var st := After(c, run);
            && i < |st.sessions|
            && st.sessions[i].stopped
            && i !in st.participants.Of(Server1) && i !in st.participants.Of(Server2)
            && st.sessions[i].wire == SessionAfter(c, run[..earlier], i).wire
  {
    RunOnlyGrows(c, run, earlier);
    RunKeepsInv(c, run);
    hide SessionsInv, PushesInv, OrderInv, UniqueInv, Bound;
    assert Grows(After(c, run[..earlier]).sessions[i], After(c, run).sessions[i]);
  }

  lemma DeadlineStepSparesAuthenticated(c: Codec, st: State, i: nat)
    requires Inv(c, st) && Enabled(c, st, DeadlineResumes(i)) && st.sessions[i].authenticated
    ensures var r := Apply(c, st, DeadlineResumes(i));
            && |r.sessions| == |st.sessions|
            && r.sessions[i].stopped == st.sessions[i].stopped
            && forall x: ServerId :: i in st.participants.Of(x) ==> i in r.participants.Of(x)
  {
    hide SessionsInv, PushesInv, OrderInv, UniqueInv, Bound, RoutesInv, BlockedInv;
  }

  /** Once a session is authenticated, no later deadline step of the run stops it, even if the timer had expired before
      the login cancelled it. */
  lemma DeadlineSparesAuthenticated(c: Codec, run: seq<Action>, earlier: nat, i: nat)
    requires Legal(c, run) && earlier <= |run|
    requires Legal(c, run[..earlier]) && i < |After(c, run[..earlier]).sessions|
    requires SessionAfter(c, run[..earlier], i).authenticated
    requires Enabled(c, After(c, run), DeadlineResumes(i))
    ensures var st := After(c, run);
            var r := Apply(c, st, DeadlineResumes(i));
            && i < |st.sessions| == |r.sessions|
            && r.sessions[i].stopped == st.sessions[i].stopped
            && forall x: ServerId :: i in st.participants.Of(x) ==> i in r.participants.Of(x)
  {
    hide Inv, Apply, Enabled, Bound;
    RunOnlyGrows(c, run, earlier);
    RunKeepsInv(c, run);
    assert Grows(After(c, run[..earlier]).sessions[i], After(c, run).sessions[i]);
    DeadlineStepSparesAuthenticated(c, After(c, run), i);
  }

  /** The only ways a session is stopped. */
  lemma WhatStopsASession(c: Codec, st: State, a: Action, i: nat)
    requires Enabled(c, st, a)
    requires i < |st.sessions| && !st.sessions[i].stopped
    ensures i < |Apply(c, st, a).sessions|
    ensures Apply(c, st, a).sessions[i].stopped ==>
              var s := st.sessions[i];
              || a == ReaderFails(i)
              || a == WriterFails(i)
              || (a == WriterDone(i) && s.writer.message.close)
              || (a == DeadlineResumes(i) && s.timer.Fired? && !s.authenticated)
  {
    hide Apply, Enabled, Resumed, Moved, PcAfterExec;
    StepShape(c, st, a, i);
    if IsMove(a) && a.session == i && CanMove(st.sessions[i], a) {
      MovedMeans(st.sessions[i], a);
    }
    ResumedStopsNobody(st.sessions[i], Apply(c, st, a).sessions[i]);
  }

  lemma ResumedStopsNobody(s: Session, t: Session)
    ensures Resumed(s, t) ==> t.stopped == s.stopped
  {
  }

  /** Stopping a stopped session changes nothing, neither the session nor its server's participants. */
  lemma StopIsIdempotent(st: State, i: nat)
    requires i < |st.sessions|
    ensures var once := PutStopped(st, i, Stop(st.sessions[i]));
            PutStopped(once, i, Stop(once.sessions[i])) == once
  {
    var once := PutStopped(st, i, Stop(st.sessions[i]));
    var t := once.sessions[i];
    assert Stop(t) == t;
    assert once.sessions[i := t] == once.sessions;
    assert once.participants.Of(t.home) - {i} == once.participants.Of(t.home);
  }

  // ---------- Authentication gate and replies ----------

  ghost predicate Gated(c: Codec, run: seq<Action>, i: nat)
    requires Legal(c, run) && i < |After(c, run).sessions|
  {
    var s := SessionAfter(c, run, i);
    && (s.pc.Searching? || s.pc.TableWrite? || s.pc.TableDone? || s.pc.RouteGet? || s.pc.RouteGot? || s.pc.NameGet?
        || s.pc.Calling? || s.pc.Called? ==>
          s.requests != [] && s.requests[|s.requests| - 1].authenticated)
    && (s.authenticated ==> TokenProven(c, run, i, s.uid, |s.requests|))
    && (forall k: nat :: k < |s.requests| && s.requests[k].authenticated ==> TokenProven(c, run, i, s.requests[k].uid, k))
  }

  lemma ReaderIsGated(c: Codec, s: Session)
    requires ReaderInv(c, s) && AuthInv(s)
    ensures (s.pc.Searching? || s.pc.TableWrite? || s.pc.TableDone? || s.pc.RouteGet? || s.pc.RouteGot? || s.pc.NameGet?
             || s.pc.Calling? || s.pc.Called?) ==> s.requests != [] && s.requests[|s.requests| - 1].authenticated
    ensures s.authenticated ==> s.uid in s.matched
  {
    hide AskedBy;
  }

  /** No handler but login runs on a session before a login with the issued token: every other handler works on a request
      that was taken while the session was authenticated, and the uid that the session then had was that of an earlier
      request of its own, a login that presented the token last issued for it. */
  lemma AuthenticationGate(c: Codec, run: seq<Action>, i: nat)
    requires Legal(c, run) && i < |After(c, run).sessions|
    ensures Gated(c, run, i)
  {
    hide Inv, SessionInv, ReaderInv, AuthInv, Legal, After, Apply, Enabled, TokenProven, Proven;
    RunKeepsInv(c, run);
    SessionOfInv(c, After(c, run), i);
    var s := SessionAfter(c, run, i);
    ReaderOfSession(c, s);
    AuthOfSession(c, s);
    GateOfSession(c, s);
    ReaderIsGated(c, s);
    if s.authenticated {
      ProvenIsMatched(c, run, i, s.uid, |s.requests|);
    }
    forall k: nat | k < |s.requests| && s.requests[k].authenticated ensures TokenProven(c, run, i, s.requests[k].uid, k) {
      ProvenIsMatched(c, run, i, s.requests[k].uid, k);
    }
  }

  lemma OutboxOfSession(c: Codec, s: Session)
    requires SessionInv(c, s)
    ensures OutboxInv(s)
  {
    hide OutboxOk, RepliesOk, AuthOk, ReaderOk, GateOk;
  }
}
