/** What every step of the cluster keeps, hence what holds after every run. */
module ClusterInvariants {
  import opened Wrappers
  import opened Framing
  import opened Protocol
  import opened Sessions
  import opened SessionInvariants
  import opened Cluster
  import FriendTables

  // ---------- The invariant ----------

  ghost predicate SessionsInv(c: Codec, sessions: seq<Session>) {
    forall i :: 0 <= i < |sessions| ==> SessionInv(c, sessions[i])
  }

  predicate InRpc(pc: Pc) { pc.Calling? || pc.Called? }

  /** The participants of a server are exactly its sessions that have not stopped. */
  ghost predicate MembersOk(sessions: seq<Session>, server: ServerId, members: set<nat>) {
    && (forall i :: i in members ==> i < |sessions| && sessions[i].home == server && !sessions[i].stopped)
    && (forall i: nat :: i < |sessions| && sessions[i].home == server && !sessions[i].stopped ==> i in members)
  }

  ghost predicate ParticipantsInv(sessions: seq<Session>, participants: PerServer<set<nat>>) {
    && MembersOk(sessions, Server1, participants.Of(Server1))
    && MembersOk(sessions, Server2, participants.Of(Server2))
  }

  /** A server is blocked exactly by its one session that is in an RPC. */
  ghost predicate BlockedInv(sessions: seq<Session>, blocked: PerServer<Option<nat>>) {
    forall x: ServerId, i: nat :: blocked.Of(x) == Some(i) <==> i < |sessions| && sessions[i].home == x && InRpc(sessions[i].pc)
  }

  function LastLogin(logins: seq<(int, ServerId)>, uid: int): Option<ServerId> {
    if logins == [] then None
    else if logins[|logins| - 1].0 == uid then Some(logins[|logins| - 1].1)
    else LastLogin(logins[..|logins| - 1], uid)
  }

  /** A uid's token matched on some session of the server. */
  ghost predicate MatchedAt(sessions: seq<Session>, uid: int, server: ServerId) {
    exists i :: 0 <= i < |sessions| && sessions[i].home == server && uid in sessions[i].matched
  }

  ghost predicate RoutesInv(sessions: seq<Session>, routes: map<int, string>, logins: seq<(int, ServerId)>) {
    && (forall uid :: uid in routes <==> LastLogin(logins, uid).Some?)
    && (forall uid :: uid in routes ==> routes[uid] == LastLogin(logins, uid).value.Name())
    && (forall k :: 0 <= k < |logins| ==> MatchedAt(sessions, logins[k].0, logins[k].1))
  }

  ghost predicate TokensInv(tokens: map<int, Text>) {
    forall uid :: uid in tokens ==> IsInt32(uid)
  }

  /** How many of a session's requests may have caused a notification. */
  function Bound(s: Session): int {
    if Handling(s.pc) && !s.pc.Called? then |s.requests| - 1 else |s.requests|
  }

  /** A notification offered to `receiver` was caused by a request of an authenticated session, names its uid as the
      sender, is the frame of that request, and found the receiver under the addressed uid. */
  ghost predicate PushOk(c: Codec, sessions: seq<Session>, receiver: Session, o: Offer) {
    match o.cause
    case Reply(_) => true
    case Push(s, index, route, n) =>
      && s < |sessions|
      && index < |sessions[s].requests|
      && index < Bound(sessions[s])
      && sessions[s].requests[index].authenticated
      && AskedBy(c, sessions[s].requests[index].frame, n)
      && n.from == sessions[s].requests[index].uid
      && n.from in sessions[s].matched
      && n.from != n.to
      && IsInt32(n.to)
      && o.message == PushMessage(c, route, n)
      && o.owner == n.to
      && (o.owner in receiver.matched || o.owner == receiver.firstUid)
      && (route == Local <==> receiver.home == sessions[s].home)
  }

  ghost predicate PushesInv(c: Codec, sessions: seq<Session>) {
    forall r, k :: 0 <= r < |sessions| && 0 <= k < |sessions[r].offered| ==>
                     PushOk(c, sessions, sessions[r], sessions[r].offered[k])
  }

  predicate SamePusher(a: Offer, b: Offer) {
    a.cause.Push? && b.cause.Push? && a.cause.sender == b.cause.sender
  }

  /** One sender's notifications reach one receiver in the order of the sender's requests. */
  ghost predicate OrderInv(sessions: seq<Session>) {
    forall r, k, l :: 0 <= r < |sessions| && 0 <= k < l < |sessions[r].offered| &&
                      SamePusher(sessions[r].offered[k], sessions[r].offered[l]) ==>
                        sessions[r].offered[k].cause.index < sessions[r].offered[l].cause.index
  }

  /** No request is notified to two sessions. */
  ghost predicate UniqueInv(sessions: seq<Session>) {
    forall q, r, k, l :: 0 <= q < r < |sessions| && 0 <= k < |sessions[q].offered| && 0 <= l < |sessions[r].offered| &&
                         SamePusher(sessions[q].offered[k], sessions[r].offered[l]) ==>
                           sessions[q].offered[k].cause.index != sessions[r].offered[l].cause.index
  }

  ghost predicate Inv(c: Codec, st: State) {
    && SessionsInv(c, st.sessions)
    && ParticipantsInv(st.sessions, st.participants)
    && BlockedInv(st.sessions, st.blocked)
    && RoutesInv(st.sessions, st.routes, st.logins)
    && TokensInv(st.tokens)
    && FriendTables.Inv(st.tables)
    && PushesInv(c, st.sessions)
    && OrderInv(st.sessions)
    && UniqueInv(st.sessions)
  }

  // ---------- Sessions only grow ----------

  /** Only an open session is notified, and an authenticated one only under a uid that matched on it. */
  ghost predicate NewPushesFit(s: Session, t: Session) {
    forall k :: |s.offered| <= k < |t.offered| && t.offered[k].cause.Push? ==>
      !s.stopped && (s.authenticated ==> t.offered[k].owner in t.matched)
  }

  ghost predicate Grows(s: Session, t: Session) {
    && t.home == s.home && t.firstUid == s.firstUid
    && s.requests <= t.requests
    && s.matched <= t.matched
    && s.logins.Keys <= t.logins.Keys
    && s.offered <= t.offered
    && NewPushesFit(s, t)
    && Bound(s) <= Bound(t)
    && s.written <= t.written
    && s.wire <= t.wire
    && (s.authenticated ==> t.authenticated)
    && (s.stopped ==> t.stopped && t.wire == s.wire)
  }

  ghost predicate NoNewPush(s: Session, t: Session) {
    t.offered == s.offered ||
    exists o :: t.offered == s.offered + [o] && o.cause.Reply?
  }

  /** A step that notifies nobody. */
  ghost predicate Quiet(olds: seq<Session>, news: seq<Session>) {
    && |olds| <= |news|
    && (forall i :: 0 <= i < |olds| ==> Grows(olds[i], news[i]) && NoNewPush(olds[i], news[i]))
    && (forall i :: |olds| <= i < |news| ==> news[i].offered == [])
  }

  /** A step in which the current request of session `sender` notifies session `j`. */
  ghost predicate Notifies(c: Codec, olds: seq<Session>, news: seq<Session>, sender: nat, j: nat, route: Route, n: Notice) {
    && |olds| == |news|
    && sender < |olds| && j < |olds| && sender != j
    && (forall i :: 0 <= i < |olds| ==> Grows(olds[i], news[i]))
    && (forall i :: 0 <= i < |olds| && i != j ==> NoNewPush(olds[i], news[i]))
    && ReaderOk(c, Calling(n), olds[sender].requests, olds[sender].uid, olds[sender].authenticated, olds[sender].matched)
    && AuthInv(olds[sender]) && AuthInv(olds[j])
    && Bound(olds[sender]) <= Current(olds[sender]) < Bound(news[sender])
    && (route == Local <==> olds[j].home == olds[sender].home)
    && olds[j].uid == n.to && !olds[j].stopped
    && news[j].offered == olds[j].offered +
         [Offer(PushMessage(c, route, n), Push(sender, Current(olds[sender]), route, n), n.to, HasRoom(olds[j]))]
  }

  lemma GrowsKeepsPush(c: Codec, olds: seq<Session>, news: seq<Session>, r: nat, o: Offer)
    requires r < |olds| <= |news|
    requires forall i :: 0 <= i < |olds| ==> Grows(olds[i], news[i])
    requires PushOk(c, olds, olds[r], o)
    ensures PushOk(c, news, news[r], o)
  {
    hide AskedBy, PushMessage, Bound;
    if o.cause.Push? {
      var s := o.cause.sender;
      assert Grows(olds[s], news[s]) && Grows(olds[r], news[r]);
    }
  }

  lemma ReplyIsPushOk(c: Codec, sessions: seq<Session>, r: Session, o: Offer)
    requires o.cause.Reply?
    ensures PushOk(c, sessions, r, o)
  {
  }

  /** An offer of the new state is one of the old state, or a reply. */
  lemma QuietOffers(olds: seq<Session>, news: seq<Session>, r: nat, k: nat)
    requires Quiet(olds, news)
    requires r < |news| && k < |news[r].offered|
    ensures r < |olds|
    ensures news[r].offered[k].cause.Reply? || (k < |olds[r].offered| && news[r].offered[k] == olds[r].offered[k])
  {
    hide Grows;
    assert NoNewPush(olds[r], news[r]);
  }

  lemma QuietKeepsPushes(c: Codec, olds: seq<Session>, news: seq<Session>)
    requires Quiet(olds, news)
    ensures PushesInv(c, olds) ==> PushesInv(c, news)
    ensures OrderInv(olds) ==> OrderInv(news)
    ensures UniqueInv(olds) ==> UniqueInv(news)
  {
    hide PushOk, Grows, NoNewPush;
    forall r, k | 0 <= r < |news| && 0 <= k < |news[r].offered|
      ensures PushesInv(c, olds) ==> PushOk(c, news, news[r], news[r].offered[k])
    {
      QuietOffers(olds, news, r, k);
      if news[r].offered[k].cause.Reply? {
        ReplyIsPushOk(c, news, news[r], news[r].offered[k]);
      } else if PushesInv(c, olds) {
        GrowsKeepsPush(c, olds, news, r, news[r].offered[k]);
      }
    }
    if OrderInv(olds) {
      forall r, k, l | 0 <= r < |news| && 0 <= k < l < |news[r].offered| &&
                       SamePusher(news[r].offered[k], news[r].offered[l])
        ensures news[r].offered[k].cause.index < news[r].offered[l].cause.index
      {
        QuietOffers(olds, news, r, k);
        QuietOffers(olds, news, r, l);
      }
    }
    if UniqueInv(olds) {
      forall q, r, k, l | 0 <= q < r < |news| && 0 <= k < |news[q].offered| && 0 <= l < |news[r].offered| &&
                          SamePusher(news[q].offered[k], news[r].offered[l])
        ensures news[q].offered[k].cause.index != news[r].offered[l].cause.index
      {
        QuietOffers(olds, news, q, k);
        QuietOffers(olds, news, r, l);
      }
    }
  }

  /** An offer of the new state is one of the old state, or a reply, or the notification itself. */
  lemma NotifyingOffers(c: Codec, olds: seq<Session>, news: seq<Session>, sender: nat, j: nat, route: Route, n: Notice,
                        r: nat, k: nat)
    requires Notifies(c, olds, news, sender, j, route, n)
    requires r < |news| && k < |news[r].offered|
    ensures news[r].offered[k].cause.Reply?
            || (k < |olds[r].offered| && news[r].offered[k] == olds[r].offered[k])
            || (r == j && k == |olds[j].offered|)
  {
    hide Grows, PushMessage, ReaderOk, AuthOk, Bound;
    if r != j {
      assert NoNewPush(olds[r], news[r]);
    }
  }

  lemma NotificationIsPushOk(c: Codec, olds: seq<Session>, news: seq<Session>, sender: nat, j: nat, route: Route, n: Notice)
    requires Notifies(c, olds, news, sender, j, route, n)
    ensures PushOk(c, news, news[j], news[j].offered[|olds[j].offered|])
  {
    hide AskedBy, PushMessage, NoNewPush;
    assert Grows(olds[sender], news[sender]) && Grows(olds[j], news[j]);
  }

  /** So far the sender's current request has notified nobody. */
  lemma EarlierPushesAreBelow(c: Codec, olds: seq<Session>, sender: nat, r: nat, k: nat)
    requires PushesInv(c, olds)
    requires sender < |olds| && Bound(olds[sender]) <= Current(olds[sender])
    requires r < |olds| && k < |olds[r].offered|
    requires olds[r].offered[k].cause.Push? && olds[r].offered[k].cause.sender == sender
    ensures olds[r].offered[k].cause.index < Current(olds[sender])
  {
    hide AskedBy, PushMessage;
    assert PushOk(c, olds, olds[r], olds[r].offered[k]);
  }

  lemma NotifyKeepsPushes(c: Codec, olds: seq<Session>, news: seq<Session>, sender: nat, j: nat, route: Route, n: Notice)
    requires Notifies(c, olds, news, sender, j, route, n)
    requires PushesInv(c, olds)
    ensures PushesInv(c, news)
  {
    hide PushOk, Grows, NoNewPush, PushMessage, ReaderOk, AuthOk, Bound;
    forall r, k | 0 <= r < |news| && 0 <= k < |news[r].offered|
      ensures PushOk(c, news, news[r], news[r].offered[k])
    {
      NotifyingOffers(c, olds, news, sender, j, route, n, r, k);
      if news[r].offered[k].cause.Reply? {
        ReplyIsPushOk(c, news, news[r], news[r].offered[k]);
      } else if r == j && k == |olds[j].offered| {
        NotificationIsPushOk(c, olds, news, sender, j, route, n);
      } else {
        GrowsKeepsPush(c, olds, news, r, news[r].offered[k]);
      }
    }
  }

  lemma NotifyKeepsOrder(c: Codec, olds: seq<Session>, news: seq<Session>, sender: nat, j: nat, route: Route, n: Notice)
    requires Notifies(c, olds, news, sender, j, route, n)
    requires PushesInv(c, olds) && OrderInv(olds)
    ensures OrderInv(news)
  {
    hide PushOk, Grows, NoNewPush, PushMessage, ReaderOk, AuthOk, Bound;
    forall r, k, l | 0 <= r < |news| && 0 <= k < l < |news[r].offered| &&
                     SamePusher(news[r].offered[k], news[r].offered[l])
      ensures news[r].offered[k].cause.index < news[r].offered[l].cause.index
    {
      NotifyingOffers(c, olds, news, sender, j, route, n, r, k);
      NotifyingOffers(c, olds, news, sender, j, route, n, r, l);
      if r == j && l == |olds[j].offered| {
        EarlierPushesAreBelow(c, olds, sender, r, k);
      }
    }
  }

  lemma NotifyKeepsUnique(c: Codec, olds: seq<Session>, news: seq<Session>, sender: nat, j: nat, route: Route, n: Notice)
    requires Notifies(c, olds, news, sender, j, route, n)
    requires PushesInv(c, olds) && UniqueInv(olds)
    ensures UniqueInv(news)
  {
    hide PushOk, Grows, NoNewPush, PushMessage, ReaderOk, AuthOk, Bound;
    forall q, r, k, l | 0 <= q < r < |news| && 0 <= k < |news[q].offered| && 0 <= l < |news[r].offered| &&
                        SamePusher(news[q].offered[k], news[r].offered[l])
      ensures news[q].offered[k].cause.index != news[r].offered[l].cause.index
    {
      NotifyingOffers(c, olds, news, sender, j, route, n, q, k);
      NotifyingOffers(c, olds, news, sender, j, route, n, r, l);
      if r == j && l == |olds[j].offered| {
        EarlierPushesAreBelow(c, olds, sender, q, k);
      } else if q == j && k == |olds[j].offered| {
        EarlierPushesAreBelow(c, olds, sender, r, l);
      }
    }
  }
}
