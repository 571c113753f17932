/** What every uninterrupted stretch of a session's coroutines keeps, whatever the rest of the cluster does. */
module SessionInvariants {
  import opened Wrappers
  import opened Framing
  import opened Protocol
  import opened Sessions

  // ---------- The outbox ----------

  function Accepted(offered: seq<Offer>): seq<Message> {
    if offered == [] then []
    else
      var last := offered[|offered| - 1];
      Accepted(offered[..|offered| - 1]) + if last.accepted then [last.message] else []
  }

  function WireOf(messages: seq<Message>): Bytes {
    if messages == [] then [] else WireOf(messages[..|messages| - 1]) + messages[|messages| - 1].Wire()
  }

  function InHand(w: Writer): seq<Message> {
    if w.Writing? || w.Failed? then [w.message] else []
  }

  ghost predicate SentFits(w: Writer) {
    w.Writing? || w.Failed? ==> w.sent <= |w.message.Wire()|
  }

  function PartSent(w: Writer): Bytes
    requires SentFits(w)
  {
    if w.Writing? || w.Failed? then w.message.Wire()[..w.sent] else []
  }

  /** Every accepted message is in exactly one place and in the order of acceptance: written, in the writer's hands, or
      queued; the wire holds the written ones and a part of the one in hand; a closing message is the last one written. */
  ghost predicate OutboxOk(outbox: seq<Message>, writer: Writer, offered: seq<Offer>, written: seq<Message>, wire: Bytes,
                           stopped: bool)
  {
    && |outbox| <= 64
    && (writer.Waiting? ==> outbox == [])
    && Accepted(offered) == written + InHand(writer) + outbox
    && SentFits(writer)
    && wire == WireOf(written) + PartSent(writer)
    && (forall k :: 0 <= k < |written| - 1 ==> !written[k].close)
    && (writer.Returned? <==> written != [] && written[|written| - 1].close)
    && (writer.Returned? || writer.Failed? ==> stopped)
  }

  ghost predicate OutboxInv(s: Session) {
    OutboxOk(s.outbox, s.writer, s.offered, s.written, s.wire, s.stopped)
  }

  lemma AcceptedAppend(offered: seq<Offer>, o: Offer)
    ensures Accepted(offered + [o]) == Accepted(offered) + if o.accepted then [o.message] else []
  {
    assert (offered + [o])[..|offered|] == offered;
  }

  lemma WireOfAppend(messages: seq<Message>, m: Message)
    ensures WireOf(messages + [m]) == WireOf(messages) + m.Wire()
  {
    assert (messages + [m])[..|messages|] == messages;
  }

  lemma WireOfOne(m: Message)
    ensures WireOf([m]) == m.Wire()
  {
    hide Encode;
    WireOfAppend([], m);
    assert [] + [m] == [m] && WireOf([]) == [];
  }

  lemma {:induction false} WireOfConcat(a: seq<Message>, b: seq<Message>)
    ensures WireOf(a + b) == WireOf(a) + WireOf(b)
  {
    hide Encode;
    if b == [] {
      assert a + b == a;
    } else {
      assert (a + b)[..|a + b| - 1] == a + b[..|b| - 1];
      WireOfConcat(a, b[..|b| - 1]);
    }
  }

  /** A message is refused exactly when the writer is busy and 64 messages are queued. */
  lemma DeliverKeepsOutbox(s: Session, m: Message, cause: Cause)
    requires OutboxInv(s)
    ensures OutboxInv(Deliver(s, m, cause))
    ensures var t := Deliver(s, m, cause);
            && t.offered == s.offered + [Offer(m, cause, s.uid, !(|s.outbox| == 64 && !s.writer.Waiting?))]
            && (s.writer.Waiting? ==> t.writer == Writing(m, 0) && t.outbox == s.outbox)
            && (!s.writer.Waiting? ==> t.writer == s.writer && t.outbox == if |s.outbox| < 64 then s.outbox + [m] else s.outbox)
  {
    hide Encode, Accepted, WireOf;
    AcceptedAppend(s.offered, Offer(m, cause, s.uid, HasRoom(s)));
    assert m.Wire()[..0] == [];
    if s.writer.Waiting? {
      assert s.written + [] + [] == s.written;
      assert s.written + [m] + [] == s.written + [m];
    } else if |s.outbox| < CAPACITY {
      assert s.written + InHand(s.writer) + (s.outbox + [m]) == s.written + InHand(s.writer) + s.outbox + [m];
    }
  }

  lemma StartReceiveKeepsOutbox(s: Session)
    requires OutboxInv(s) && s.writer.Ready?
    ensures OutboxInv(StartReceive(s))
  {
    hide Encode, Accepted, WireOf;
    if s.outbox != [] {
      assert s.outbox == [s.outbox[0]] + s.outbox[1..];
      assert s.written + [] + s.outbox == s.written + [s.outbox[0]] + s.outbox[1..];
      assert PartSent(Writing(s.outbox[0], 0)) == [];
    }
  }

  lemma SendKeepsOutbox(s: Session, n: nat)
    requires OutboxInv(s) && CanSend(s, n)
    ensures OutboxInv(Send(s, n))
  {
    hide Encode, Accepted, WireOf;
    var Writing(m, sent) := s.writer;
    var w, wire := WireOf(s.written), m.Wire();
    assert wire[..sent] + wire[sent..sent + n] == wire[..sent + n];
    assert w + wire[..sent] + wire[sent..sent + n] == w + wire[..sent + n];
  }

  lemma WriteDoneKeepsOutbox(s: Session)
    requires OutboxInv(s) && WriteComplete(s)
    ensures OutboxInv(WriteDone(s))
  {
    hide Encode, Accepted, WireOf;
    var Writing(m, sent) := s.writer;
    WireOfAppend(s.written, m);
    assert m.Wire()[..sent] == m.Wire();
    assert s.written + [m] + [] + s.outbox == s.written + [m] + s.outbox;
    assert s.wire + [] == s.wire;
  }

  lemma WriteFailKeepsOutbox(s: Session)
    requires OutboxInv(s) && s.writer.Writing?
    ensures OutboxInv(WriteFail(s))
  {
    hide Encode;
  }

  lemma StopKeepsOutbox(s: Session)
    requires OutboxInv(s)
    ensures OutboxInv(Stop(s))
  {
    hide Encode;
  }

  // ---------- Replies ----------

  function Upto(n: nat): seq<nat> {
    if n == 0 then [] else Upto(n - 1) + [n - 1]
  }

  /** The numbers of the requests whose replies were offered, in the order of offering. */
  function ReplyIndices(offered: seq<Offer>): seq<nat> {
    if offered == [] then []
    else
      var last := offered[|offered| - 1];
      ReplyIndices(offered[..|offered| - 1]) + if last.cause.Reply? then [last.cause.index] else []
  }

  lemma ReplyIndicesAppend(offered: seq<Offer>, o: Offer)
    ensures ReplyIndices(offered + [o]) == ReplyIndices(offered) + if o.cause.Reply? then [o.cause.index] else []
  {
    assert (offered + [o])[..|offered|] == offered;
  }

  function StageOf(logins: map<nat, Stage>, k: nat): Option<Stage> {
    if k in logins then Some(logins[k]) else None
  }

  ghost predicate ProperReplies(c: Codec, completed: int, requests: seq<Request>, offered: seq<Offer>, logins: map<nat, Stage>) {
    forall k :: 0 <= k < |offered| && offered[k].cause.Reply? ==>
      && offered[k].cause.index < completed && offered[k].cause.index < |requests|
      && ProperReply(c, requests[offered[k].cause.index], offered[k].message, StageOf(logins, offered[k].cause.index))
  }

  function Completed(s: Session): int {
    if Handling(s.pc) then |s.requests| - 1 else |s.requests|
  }

  /** Each completed request has exactly one offered reply, in request order, and a proper one. */
  ghost predicate RepliesOk(c: Codec, completed: int, requests: seq<Request>, offered: seq<Offer>, logins: map<nat, Stage>) {
    && completed >= 0
    && ReplyIndices(offered) == Upto(completed)
    && ProperReplies(c, completed, requests, offered, logins)
  }

  ghost predicate ReplyInv(c: Codec, s: Session) {
    RepliesOk(c, Completed(s), s.requests, s.offered, s.logins)
  }

  // ---------- Where the reader may be ----------

  function IsServerName(name: string): bool { name == Server1.Name() || name == Server2.Name() }

  ghost predicate LoginPc(c: Codec, requests: seq<Request>, uid: int) {
    && requests != []
    && var r := requests[|requests| - 1];
       && (r.authenticated || r.frame.id == Code(LoginRequest))
       && LoginOf(c, r).Some? && LoginOf(c, r).value.uid == uid
  }

  ghost predicate TokenPc(c: Codec, requests: seq<Request>, uid: int, token: Text) {
    LoginPc(c, requests, uid) && LoginOf(c, requests[|requests| - 1]).value.token == token
  }

  ghost predicate NoticePc(c: Codec, requests: seq<Request>, uid: int, authenticated: bool, n: Notice) {
    && requests != []
    && requests[|requests| - 1].authenticated
    && AskedBy(c, requests[|requests| - 1].frame, n)
    && authenticated
    && n.from == uid == requests[|requests| - 1].uid
    && n.from != n.to
  }

  ghost predicate ReaderOk(c: Codec, pc: Pc, requests: seq<Request>, uid: int, authenticated: bool, matched: set<int>) {
    match pc
    case TokenGet(u, token) => TokenPc(c, requests, u, token)
    case TokenGot(u, token, stored) => TokenPc(c, requests, u, token) && (stored.Some? ==> IsInt32(u))
    case UserLookup(u) => LoginPc(c, requests, u) && u in matched
    case CountSet(u, _) => LoginPc(c, requests, u) && u in matched
    case CountDone(u) => LoginPc(c, requests, u) && u in matched
    case RouteSet(u) => LoginPc(c, requests, u) && u in matched && authenticated && uid == u
    case Lists(u) => LoginPc(c, requests, u) && u in matched && authenticated && uid == u
    case Searching =>
      requests != [] && requests[|requests| - 1].authenticated &&
      EnumCast(requests[|requests| - 1].frame.id) == Some(SearchUserRequest) &&
      c.parseSearch(CString(requests[|requests| - 1].frame.body))
    case TableWrite(n) => NoticePc(c, requests, uid, authenticated, n) && !n.TextNotice?
    case TableDone(n, _) => NoticePc(c, requests, uid, authenticated, n) && !n.TextNotice?
    case RouteGet(n) => NoticePc(c, requests, uid, authenticated, n)
    case RouteGot(n, server) =>
      NoticePc(c, requests, uid, authenticated, n) && (server.Some? ==> IsInt32(n.to) && IsServerName(server.value))
    case NameGet(n, target) =>
      NoticePc(c, requests, uid, authenticated, n) && n.AddNotice? && IsInt32(n.to) && IsServerName(target)
    case Calling(n) => NoticePc(c, requests, uid, authenticated, n) && IsInt32(n.to)
    case Called(n, _) => NoticePc(c, requests, uid, authenticated, n) && IsInt32(n.to)
    case _ => true
  }

  ghost predicate ReaderInv(c: Codec, s: Session) {
    ReaderOk(c, s.pc, s.requests, s.uid, s.authenticated, s.matched)
  }

  /** A session acts as a uid only after that uid's token matched on it; until the first login it still holds whatever its
      memory held; and the deadline is disarmed by authentication and by stop. */
  ghost predicate AuthOk(firstUid: int, uid: int, authenticated: bool, matched: set<int>, stopped: bool, timer: Timer) {
    && (authenticated ==> uid in matched)
    && (!authenticated ==> uid == firstUid)
    && (forall u :: u in matched ==> IsInt32(u))
    && (authenticated || stopped ==> !timer.Armed?)
  }

  ghost predicate AuthInv(s: Session) {
    AuthOk(s.firstUid, s.uid, s.authenticated, s.matched, s.stopped, s.timer)
  }

  /** One of the first `bound` requests was a login of `uid` whose token matched. */
  ghost predicate Proven(c: Codec, requests: seq<Request>, logins: map<nat, Stage>, uid: int, bound: nat) {
    exists q :: q in logins && q < bound && q < |requests| && LoginOf(c, requests[q]).Some? && LoginOf(c, requests[q]).value.uid == uid
  }

  /** A uid counts as matched because of a login of it, and a request was taken as authenticated only after such a login
      of the uid that the session then had. */
  ghost predicate GateOk(c: Codec, requests: seq<Request>, logins: map<nat, Stage>, matched: set<int>) {
    && (forall u :: u in matched ==> Proven(c, requests, logins, u, |requests|))
    && (forall k :: 0 <= k < |requests| && requests[k].authenticated ==> Proven(c, requests, logins, requests[k].uid, k))
  }

  ghost predicate GateInv(c: Codec, s: Session) {
    GateOk(c, s.requests, s.logins, s.matched)
  }

  /** How far the current request's login may have got. */
  ghost predicate LoginsOk(pc: Pc, n: nat, authenticated: bool, logins: map<nat, Stage>) {
    && (forall k :: k in logins ==> k < n && (logins[k].LoggedIn? ==> authenticated))
    && (pc.TokenGet? || pc.TokenGot? ==> n - 1 !in logins)
    && (pc.UserLookup? || pc.CountSet? || pc.CountDone? ==> n - 1 in logins && logins[n - 1] == TokenMatched)
    && (pc.RouteSet? || pc.Lists? ==> n - 1 in logins && logins[n - 1] == LoggedIn)
  }

  ghost predicate LoginsInv(s: Session) {
    LoginsOk(s.pc, |s.requests|, s.authenticated, s.logins)
  }

  ghost predicate SessionInv(c: Codec, s: Session) {
    OutboxInv(s) && ReplyInv(c, s) && ReaderInv(c, s) && AuthInv(s) && GateInv(c, s) && LoginsInv(s)
  }

  // ---------- Deliveries ----------

  lemma PushKeepsReplies(c: Codec, completed: int, requests: seq<Request>, offered: seq<Offer>, logins: map<nat, Stage>, o: Offer)
    requires RepliesOk(c, completed, requests, offered, logins) && o.cause.Push?
    ensures RepliesOk(c, completed, requests, offered + [o], logins)
  {
    hide ProperReply;
    ReplyIndicesAppend(offered, o);
  }

  lemma ReplyKeepsReplies(c: Codec, requests: seq<Request>, offered: seq<Offer>, logins: map<nat, Stage>, o: Offer)
    requires requests != [] && RepliesOk(c, |requests| - 1, requests, offered, logins)
    requires o.cause == Reply(|requests| - 1)
    requires ProperReply(c, requests[|requests| - 1], o.message, StageOf(logins, |requests| - 1))
    ensures RepliesOk(c, |requests|, requests, offered + [o], logins)
  {
    hide ProperReply;
    ReplyIndicesAppend(offered, o);
  }

  lemma PushKeepsSession(c: Codec, s: Session, m: Message, cause: Cause)
    requires SessionInv(c, s) && cause.Push?
    ensures SessionInv(c, Deliver(s, m, cause))
  {
    hide OutboxOk, RepliesOk, ReaderOk, AuthOk, GateOk, LoginsOk;
    DeliverKeepsOutbox(s, m, cause);
    PushKeepsReplies(c, Completed(s), s.requests, s.offered, s.logins, Offer(m, cause, s.uid, HasRoom(s)));
  }

  /** The reader is about to answer its current request with `reply`. */
  ghost predicate Answering(c: Codec, s: Session, reply: Message) {
    && s.requests != []
    && OutboxInv(s) && AuthInv(s) && GateInv(c, s)
    && LoginsOk(Idle, |s.requests|, s.authenticated, s.logins)
    && RepliesOk(c, |s.requests| - 1, s.requests, s.offered, s.logins)
    && ProperReply(c, s.requests[|s.requests| - 1], reply, StageOf(s.logins, |s.requests| - 1))
  }

  lemma FinishKeepsSession(c: Codec, s: Session, reply: Message)
    requires Answering(c, s, reply)
    ensures SessionInv(c, Finish(s, reply))
  {
    hide OutboxOk, RepliesOk, AuthOk, GateOk, ProperReply, LoginsOk;
    var t := s.(pc := Idle);
    DeliverKeepsOutbox(t, reply, Reply(Current(s)));
    ReplyKeepsReplies(c, s.requests, s.offered, s.logins, Offer(reply, Reply(Current(s)), t.uid, HasRoom(t)));
  }

  // ---------- The reader ----------

  lemma LogKeepsReplies(c: Codec, completed: int, requests: seq<Request>, offered: seq<Offer>, logins: map<nat, Stage>, r: Request)
    requires RepliesOk(c, completed, requests, offered, logins)
    ensures RepliesOk(c, completed, requests + [r], offered, logins)
  {
    hide ProperReply;
  }

  /** A note about the request being handled does not concern the replies already given. */
  lemma NoteKeepsReplies(c: Codec, requests: seq<Request>, offered: seq<Offer>, logins: map<nat, Stage>, stage: Stage)
    requires requests != [] && RepliesOk(c, |requests| - 1, requests, offered, logins)
    ensures RepliesOk(c, |requests| - 1, requests, offered, logins[|requests| - 1 := stage])
  {
    hide ProperReply;
  }

  lemma ProvenStays(c: Codec, requests: seq<Request>, logins: map<nat, Stage>, more: seq<Request>, later: map<nat, Stage>,
                    uid: int, bound: nat)
    requires Proven(c, requests, logins, uid, bound) && requests <= more && logins.Keys <= later.Keys
    ensures Proven(c, more, later, uid, bound)
    ensures bound <= |requests| ==> forall b: nat :: b >= bound ==> Proven(c, more, later, uid, b)
  {
    hide LoginOf;
    var q :| q in logins && q < bound && q < |requests| && LoginOf(c, requests[q]).Some? && LoginOf(c, requests[q]).value.uid == uid;
    assert q in later && more[q] == requests[q];
  }

  lemma LogKeepsGate(c: Codec, s: Session, r: Request)
    requires GateInv(c, s) && AuthInv(s) && r.authenticated == s.authenticated && r.uid == s.uid
    ensures GateOk(c, s.requests + [r], s.logins, s.matched)
  {
    hide LoginOf, Proven;
    var more := s.requests + [r];
    forall u | u in s.matched ensures Proven(c, more, s.logins, u, |s.requests|) && Proven(c, more, s.logins, u, |more|) {
      ProvenStays(c, s.requests, s.logins, more, s.logins, u, |s.requests|);
    }
    forall k | 0 <= k < |more| && more[k].authenticated ensures Proven(c, more, s.logins, more[k].uid, k) {
      if k < |s.requests| {
        ProvenStays(c, s.requests, s.logins, more, s.logins, more[k].uid, k);
      }
    }
  }

  lemma NoteKeepsGate(c: Codec, requests: seq<Request>, logins: map<nat, Stage>, matched: set<int>, stage: Stage)
    requires requests != [] && GateOk(c, requests, logins, matched)
    ensures GateOk(c, requests, logins[|requests| - 1 := stage], matched)
  {
    hide LoginOf, Proven;
    var later := logins[|requests| - 1 := stage];
    forall u | u in matched ensures Proven(c, requests, later, u, |requests|) {
      ProvenStays(c, requests, logins, requests, later, u, |requests|);
    }
    forall k | 0 <= k < |requests| && requests[k].authenticated ensures Proven(c, requests, later, requests[k].uid, k) {
      ProvenStays(c, requests, logins, requests, later, requests[k].uid, k);
    }
  }

  lemma MatchKeepsGate(c: Codec, requests: seq<Request>, logins: map<nat, Stage>, matched: set<int>, uid: int)
    requires LoginPc(c, requests, uid) && GateOk(c, requests, logins, matched)
    ensures GateOk(c, requests, logins[|requests| - 1 := TokenMatched], matched + {uid})
  {
    NoteKeepsGate(c, requests, logins, matched, TokenMatched);
    hide LoginOf;
    assert |requests| - 1 in logins[|requests| - 1 := TokenMatched];
  }

  /** What handle_message decides about a fresh request is right for where it leaves the reader. */
  lemma DispatchReader(c: Codec, s: Session, f: Frame)
    ensures var t := s.(requests := s.requests + [Request(f, s.authenticated, s.uid)]);
            match Dispatch(c, s, f)
            case Await(u) =>
              && u == t.(pc := u.pc) && Handling(u.pc)
              && ReaderOk(c, u.pc, t.requests, s.uid, s.authenticated, s.matched)
            case Answer(u, reply) => u == t && ProperReply(c, t.requests[|t.requests| - 1], reply, None)
            case _ => false
  {
    hide CString, ConstructedBody;
  }

  lemma DispatchKeepsSession(c: Codec, s: Session, f: Frame)
    requires SessionInv(c, s) && s.pc == Arrived(f)
    ensures match Dispatch(c, s, f)
            case Await(t) => SessionInv(c, t)
            case Answer(t, reply) => Answering(c, t, reply)
            case _ => false
  {
    hide OutboxOk, RepliesOk, ReaderOk, AuthOk, GateOk, ProperReply, Dispatch;
    var r := Request(f, s.authenticated, s.uid);
    LogKeepsGate(c, s, r);
    LogKeepsReplies(c, |s.requests|, s.requests, s.offered, s.logins, r);
    DispatchReader(c, s, f);
    DispatchEntersNoLookup(c, s, f);
  }

  lemma DispatchEntersNoLookup(c: Codec, s: Session, f: Frame)
    ensures Dispatch(c, s, f).Await? ==>
              var pc := Dispatch(c, s, f).session.pc;
              !(pc.UserLookup? || pc.CountSet? || pc.CountDone? || pc.RouteSet? || pc.Lists?)
  {
    hide CString, ConstructedBody, EnumCast, ErrorAndClose, ErrorReply, EmptyReply;
  }

  lemma TokenKeepsSession(c: Codec, s: Session, count: nat, choice: Choice)
    requires SessionInv(c, s) && s.pc.TokenGot?
    ensures match Continue(c, s, count, choice)
            case Await(t) => SessionInv(c, t)
            case Answer(t, reply) => Answering(c, t, reply)
            case _ => false
  {
    hide OutboxOk, RepliesOk, GateOk, CString, ConstructedBody, Dispatch;
    MatchKeepsGate(c, s.requests, s.logins, s.matched, s.pc.uid);
    NoteKeepsReplies(c, s.requests, s.offered, s.logins, TokenMatched);
  }

  lemma LookupsKeepSession(c: Codec, s: Session, count: nat, choice: Choice)
    requires SessionInv(c, s)
    requires s.pc.UserLookup? || s.pc.CountDone? || s.pc.Lists? || s.pc.Searching?
    ensures match Continue(c, s, count, choice)
            case Await(t) => SessionInv(c, t)
            case Answer(t, reply) => Answering(c, t, reply)
            case _ => false
  {
    hide OutboxOk, RepliesOk, GateOk, CString, ConstructedBody, Dispatch;
    var stage := if s.pc.CountDone? then LoggedIn else if choice.Throws? then LookupFailed else NoUser;
    NoteKeepsGate(c, s.requests, s.logins, s.matched, stage);
    NoteKeepsReplies(c, s.requests, s.offered, s.logins, stage);
  }

  lemma NoticesKeepSession(c: Codec, s: Session, count: nat, choice: Choice)
    requires SessionInv(c, s)
    requires s.pc.TableDone? || s.pc.RouteGot? || s.pc.NameGet?
    ensures match Continue(c, s, count, choice)
            case Await(t) => SessionInv(c, t)
            case Answer(t, reply) => Answering(c, t, reply)
            case NotifyHere(n) => ReaderOk(c, Calling(n), s.requests, s.uid, s.authenticated, s.matched)
            case NotifyPeer(n) => ReaderOk(c, Calling(n), s.requests, s.uid, s.authenticated, s.matched)
  {
    hide OutboxOk, RepliesOk, AuthOk, GateOk, CString, ConstructedBody, Dispatch;
  }

  /** Every resumption of the reader keeps the session's invariant, answers properly, and asks for a notification only
      on behalf of the authenticated uid of a request that it is handling. */
  lemma ContinueKeepsSession(c: Codec, s: Session, count: nat, choice: Choice)
    requires SessionInv(c, s) && Resumable(s.pc)
    ensures match Continue(c, s, count, choice)
            case Await(t) => SessionInv(c, t)
            case Answer(t, reply) => Answering(c, t, reply)
            case NotifyHere(n) => ReaderOk(c, Calling(n), s.requests, s.uid, s.authenticated, s.matched) && Handling(s.pc)
            case NotifyPeer(n) => ReaderOk(c, Calling(n), s.requests, s.uid, s.authenticated, s.matched) && Handling(s.pc)
  {
    hide OutboxOk, RepliesOk, GateOk, CString, ConstructedBody, Dispatch;
    if s.pc.Arrived? {
      DispatchKeepsSession(c, s, s.pc.frame);
    } else if s.pc.TokenGot? {
      TokenKeepsSession(c, s, count, choice);
    } else if s.pc.UserLookup? || s.pc.CountDone? || s.pc.Lists? || s.pc.Searching? {
      LookupsKeepSession(c, s, count, choice);
    } else {
      NoticesKeepSession(c, s, count, choice);
    }
  }
}
