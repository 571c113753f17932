/** The reply of every request, as determined by what its commands, lookups and RPC came to in the run. */
module ClusterReplies {
  import opened Wrappers
  import opened Framing
  import opened Protocol
  import opened Sessions
  import opened SessionInvariants
  import opened Cluster
  import opened ClusterInvariants
  import opened ClusterSteps
  import opened ClusterShapes
  import opened ClusterTokens
  import opened ClusterTheorems
  import opened ClusterDelivery

  // ---------- What a request met with ----------

  /** The outcomes that decide a reply. */
  datatype Outcome =
    | TokenRefused                // Redis did not return the presented token
    | UserMissing | UserThrew | UserFound
    | ListsThrew | Listed(text: Text)
    | SearchMissing | SearchThrew | SearchFound(text: Text)
    | StatementFailed
    | NameMissing                 // add_friend's user lookup found nothing or threw
    | NameFound(text: Text)
    | RpcBroke

  /** What step `a` means for the request that session i is handling. */
  function OutcomeOf(s: Session, a: Action, i: nat): Option<Outcome> {
    match a
    case RpcFail(j) => if j == i then Some(RpcBroke) else None
    case Exec(j, fault) => if j == i && fault && s.pc.TableWrite? then Some(StatementFailed) else None
    case Resume(j, choice, _) =>
      if j != i then None
      else (
        match s.pc
        case TokenGot(_, token, stored) => if stored == Some(token) then None else Some(TokenRefused)
        case UserLookup(_) =>
          Some(match choice case NotFound => UserMissing case Throws => UserThrew case Found(_) => UserFound)
        case Lists(_) => Some(match choice case Found(text) => Listed(text) case _ => ListsThrew)
        case Searching =>
          Some(match choice case NotFound => SearchMissing case Throws => SearchThrew case Found(text) => SearchFound(text))
        case NameGet(_, _) => Some(match choice case Found(text) => NameFound(text) case _ => NameMissing)
        case _ => None)
    case _ => None
  }

  /** The outcomes that session i's request number k has met with in the run, in order. */
  ghost function Trace(c: Codec, run: seq<Action>, i: nat, k: nat): seq<Outcome>
    requires Legal(c, run)
  {
    if run == [] then []
    else
      var earlier := run[..|run| - 1];
      Trace(c, earlier, i, k) + NewOutcome(After(c, earlier), run[|run| - 1], i, k)
  }

  function NewOutcome(st: State, a: Action, i: nat, k: nat): seq<Outcome> {
    if i < |st.sessions| && |st.sessions[i].requests| == k + 1 && OutcomeOf(st.sessions[i], a, i).Some?
    then [OutcomeOf(st.sessions[i], a, i).value] else []
  }

  // ---------- What it is answered ----------

  /** An error report under some id. */
  function Report(c: Codec, id: nat, e: ServerError, close: bool): Message {
    Message(id, ConstructedBody(c.errorText(e)), close)
  }

  /** The reply to a request, from the request and what it met with, in the numbers of the protocol. */
  ghost function ReplyTo(c: Codec, r: Request, trace: seq<Outcome>): Message {
    var f := r.frame;
    if !r.authenticated && f.id != 1005 then Report(c, f.id, NotAuthenticated, true)
    else
      match f.id % 65536
      case 1005 =>
        if c.parseLogin(CString(f.body)).None? then Report(c, f.id, InvalidJson, true) else ReplyToLogin(c, trace)
      case 1007 =>
        if !c.parseSearch(CString(f.body)) then Report(c, 1008, InvalidJson, false) else ReplyToSearch(c, trace)
      case 1009 => ReplyToNotice(c, r, 1010, trace)
      case 1013 => ReplyToNotice(c, r, 1014, trace)
      case 1017 => ReplyToNotice(c, r, 1018, trace)
      case _ => Message(f.id, [], false)
  }

  /** A request for a notification: whether and where the notice was delivered makes no difference to its sender. */
  function ReplyToNotice(c: Codec, r: Request, id: nat, trace: seq<Outcome>): Message {
    match Asks(c, r)
    case None => Report(c, id, InvalidJson, false)
    case Some((from, to)) =>
      if from != r.uid || from == to then Report(c, id, UserUidInvalid, false)
      else if RpcBroke in trace then Report(c, r.frame.id, RPCFailed, false)
      else if StatementFailed in trace || NameMissing in trace then Report(c, id, InternalError, false)
      else Report(c, id, Success, false)
  }

  function ReplyToLogin(c: Codec, trace: seq<Outcome>): Message {
    if TokenRefused in trace then Report(c, 1006, TokenInvalid, true)
    else if UserMissing in trace then Report(c, 1006, InternalError, true)
    else if UserThrew in trace || ListsThrew in trace then Report(c, 1006, InternalError, false)
    else if trace != [] && trace[|trace| - 1].Listed? then Message(1006, ConstructedBody(trace[|trace| - 1].text), false)
    else Message(0, [], false)
  }

  function ReplyToSearch(c: Codec, trace: seq<Outcome>): Message {
    if SearchThrew in trace then Report(c, 1008, InternalError, false)
    else if SearchMissing in trace then Report(c, 1008, UserNotFound, false)
    else if trace != [] && trace[|trace| - 1].SearchFound? then Message(1008, ConstructedBody(trace[|trace| - 1].text), false)
    else Message(0, [], false)
  }

  /** Sender and addressee of a request for a notification. */
  function Asks(c: Codec, r: Request): Option<(int, int)> {
    var body := CString(r.frame.body);
    match r.frame.id % 65536
    case 1009 => PairOf(c.parseAddFriend(body))
    case 1013 => PairOf(c.parseAuthFriend(body))
    case 1017 => (
      match c.parseText(body)
      case None => None
      case Some(b) => Some((b.fromuid, b.touid)))
    case _ => None
  }

  function PairOf(b: Option<PairBody>): Option<(int, int)> {
    if b.None? then None else Some((b.value.uid, b.value.touid))
  }

  /** The request was not authenticated and not a login, or was a malformed login, or was a login whose token was refused or
      whose user does not exist. */
  predicate HangsUp(c: Codec, r: Request, trace: seq<Outcome>) {
    || (!r.authenticated && r.frame.id != 1005)
    || (r.frame.id % 65536 == 1005 && c.parseLogin(CString(r.frame.body)).None?)
    || (r.frame.id % 65536 == 1005 && (TokenRefused in trace || UserMissing in trace))
  }

  /** Exactly the replies to such requests close the connection. */
  lemma ClosesIff(c: Codec, r: Request, trace: seq<Outcome>)
    ensures ReplyTo(c, r, trace).close <==> HangsUp(c, r, trace)
  {
    hide CString, ConstructedBody;
  }

  // ---------- The invariant ----------

  /** What a request with this notice has met with when it hands it over: an application's user lookup found its name. */
  function NameTrace(n: Notice): seq<Outcome> {
    if n.AddNotice? then [NameFound(n.name)] else []
  }

  /** What the current request has met with, by where its handler stands. */
  predicate TraceFits(pc: Pc, trace: seq<Outcome>) {
    match pc
    case CountSet(_, _) => trace == [UserFound]
    case CountDone(_) => trace == [UserFound]
    case RouteSet(_) => trace == [UserFound]
    case Lists(_) => trace == [UserFound]
    case TableDone(_, failed) => trace == if failed then [StatementFailed] else []
    case Calling(n) => trace == NameTrace(n)
    case Called(n, ok) =>
      && NameTrace(n) <= trace && (ok <==> trace == NameTrace(n))
      && forall k :: |NameTrace(n)| <= k < |trace| ==> trace[k] == RpcBroke
    case _ => trace == []
  }

  /** Each reply that session i has been offered is the one its request calls for, and the current request's outcomes fit. */
  ghost predicate RepliesFit(c: Codec, run: seq<Action>, i: nat, s: Session)
    requires Legal(c, run)
  {
    && (forall k: nat :: k >= |s.requests| ==> Trace(c, run, i, k) == [])
    && (Handling(s.pc) ==> s.requests != [] && TraceFits(s.pc, Trace(c, run, i, |s.requests| - 1)))
    && (forall m :: 0 <= m < |s.offered| && s.offered[m].cause.Reply? ==> ReplyFits(c, run, i, s, m))
  }

  ghost predicate ReplyFits(c: Codec, run: seq<Action>, i: nat, s: Session, m: nat)
    requires Legal(c, run) && m < |s.offered| && s.offered[m].cause.Reply?
  {
    var k := s.offered[m].cause.index;
    k < Completed(s) && k < |s.requests| && s.offered[m].message == ReplyTo(c, s.requests[k], Trace(c, run, i, k))
  }

  // ---------- One stretch of the handler ----------

  lemma NoticeAsks(c: Codec, s: Session, n: Notice)
    requires NoticePc(c, s.requests, s.uid, s.authenticated, n)
    ensures var r := s.requests[|s.requests| - 1];
            && r.authenticated && EnumCast(r.frame.id) == Some(RequestId(n)) && HasHandler(RequestId(n))
            && Asks(c, r) == Some((n.from, n.to)) && n.from == r.uid && n.from != n.to
  {
    hide CString;
  }

  lemma NoticeReply(c: Codec, s: Session, n: Notice, trace: seq<Outcome>)
    requires NoticePc(c, s.requests, s.uid, s.authenticated, n)
    ensures ReplyTo(c, s.requests[|s.requests| - 1], trace) ==
            if RpcBroke in trace then ErrorReply(c, CurrentId(s), RPCFailed)
            else if StatementFailed in trace || NameMissing in trace then ErrorReply(c, Code(ResponseId(RequestId(n))), InternalError)
            else ErrorReply(c, Code(ResponseId(RequestId(n))), Success)
  {
    NoticeAsks(c, s, n);
    hide CString, Asks, ErrorReply, NoticePc, EnumCast;
  }

  lemma LoginReply(c: Codec, s: Session, uid: int, trace: seq<Outcome>)
    requires LoginPc(c, s.requests, uid)
    ensures ReplyTo(c, s.requests[|s.requests| - 1], trace) == ReplyToLogin(c, trace)
  {
    hide CString, ErrorReply, ReplyToLogin;
  }

  lemma SearchReply(c: Codec, s: Session, trace: seq<Outcome>)
    requires s.pc.Searching? && ReaderInv(c, s)
    ensures s.requests != [] && ReplyTo(c, s.requests[|s.requests| - 1], trace) == ReplyToSearch(c, trace)
  {
    hide CString, ErrorReply, ReplyToSearch;
  }

  function With(trace: seq<Outcome>, o: Option<Outcome>): seq<Outcome> {
    if o.Some? then trace + [o.value] else trace
  }

  lemma DispatchFits(c: Codec, s: Session, f: Frame)
    ensures var r := Request(f, s.authenticated, s.uid);
            match Dispatch(c, s, f)
            case Await(t) => t.requests == s.requests + [r] && t.offered == s.offered && Handling(t.pc) && TraceFits(t.pc, [])
            case Answer(t, reply) => t.requests == s.requests + [r] && t.offered == s.offered && reply == ReplyTo(c, r, [])
            case _ => false
  {
    hide CString, ConstructedBody;
  }

  lemma TokenFits(c: Codec, s: Session, count: nat, choice: Choice, target: Option<nat>, i: nat, trace: seq<Outcome>)
    requires s.pc.TokenGot? || s.pc.CountDone?
    requires ReaderInv(c, s) && TraceFits(s.pc, trace)
    ensures var later := With(trace, OutcomeOf(s, Resume(i, choice, target), i));
            match Continue(c, s, count, choice)
            case Await(t) => t.requests == s.requests && t.offered == s.offered && Handling(t.pc) && TraceFits(t.pc, later)
            case Answer(t, reply) =>
              t.requests == s.requests && t.offered == s.offered && reply == ReplyTo(c, s.requests[|s.requests| - 1], later)
            case _ => false
  {
    hide CString, ConstructedBody, ReplyTo, Dispatch, LoginOf;
    LoginReply(c, s, s.pc.uid, With(trace, OutcomeOf(s, Resume(i, choice, target), i)));
  }

  lemma LookupFits(c: Codec, s: Session, count: nat, choice: Choice, target: Option<nat>, i: nat, trace: seq<Outcome>)
    requires s.pc.UserLookup? || s.pc.Lists?
    requires ReaderInv(c, s) && TraceFits(s.pc, trace)
    ensures var later := With(trace, OutcomeOf(s, Resume(i, choice, target), i));
            match Continue(c, s, count, choice)
            case Await(t) => t.requests == s.requests && t.offered == s.offered && Handling(t.pc) && TraceFits(t.pc, later)
            case Answer(t, reply) =>
              t.requests == s.requests && t.offered == s.offered && reply == ReplyTo(c, s.requests[|s.requests| - 1], later)
            case _ => false
  {
    hide CString, ConstructedBody, ReplyTo, Dispatch, LoginOf;
    LoginReply(c, s, s.pc.uid, With(trace, OutcomeOf(s, Resume(i, choice, target), i)));
  }

  lemma LoginFits(c: Codec, s: Session, count: nat, choice: Choice, target: Option<nat>, i: nat, trace: seq<Outcome>)
    requires s.pc.TokenGot? || s.pc.UserLookup? || s.pc.CountDone? || s.pc.Lists?
    requires ReaderInv(c, s) && TraceFits(s.pc, trace)
    ensures var later := With(trace, OutcomeOf(s, Resume(i, choice, target), i));
            match Continue(c, s, count, choice)
            case Await(t) => t.requests == s.requests && t.offered == s.offered && Handling(t.pc) && TraceFits(t.pc, later)
            case Answer(t, reply) =>
              t.requests == s.requests && t.offered == s.offered && reply == ReplyTo(c, s.requests[|s.requests| - 1], later)
            case _ => false
  {
    if s.pc.TokenGot? || s.pc.CountDone? {
      TokenFits(c, s, count, choice, target, i, trace);
    } else {
      LookupFits(c, s, count, choice, target, i, trace);
    }
    hide Continue, TraceFits, OutcomeOf, ReplyTo, ReaderInv;
  }

  lemma SearchFits(c: Codec, s: Session, count: nat, choice: Choice, target: Option<nat>, i: nat, trace: seq<Outcome>)
    requires s.pc.Searching? && ReaderInv(c, s) && TraceFits(s.pc, trace)
    ensures s.requests != []
    ensures var later := With(trace, OutcomeOf(s, Resume(i, choice, target), i));
            match Continue(c, s, count, choice)
            case Answer(t, reply) =>
              t.requests == s.requests && t.offered == s.offered && reply == ReplyTo(c, s.requests[|s.requests| - 1], later)
            case _ => false
  {
    SearchReply(c, s, With(trace, OutcomeOf(s, Resume(i, choice, target), i)));
    hide CString, ConstructedBody, ReplyTo, Dispatch, ReaderInv;
  }

  lemma RouteFits(c: Codec, s: Session, count: nat, choice: Choice, target: Option<nat>, i: nat, trace: seq<Outcome>)
    requires s.pc.TableDone? || s.pc.RouteGot?
    requires ReaderInv(c, s) && TraceFits(s.pc, trace)
    ensures s.requests != []
    ensures var later := With(trace, OutcomeOf(s, Resume(i, choice, target), i));
            match Continue(c, s, count, choice)
            case Await(t) => t.requests == s.requests && t.offered == s.offered && Handling(t.pc) && TraceFits(t.pc, later)
            case Answer(t, reply) =>
              t.requests == s.requests && t.offered == s.offered && reply == ReplyTo(c, s.requests[|s.requests| - 1], later)
            case NotifyHere(n) =>
              later == NameTrace(n) &&
              ErrorReply(c, Code(ResponseId(RequestId(n))), Success) == ReplyTo(c, s.requests[|s.requests| - 1], later)
            case NotifyPeer(n) => later == NameTrace(n)
  {
    NoticeReply(c, s, s.pc.notice, With(trace, OutcomeOf(s, Resume(i, choice, target), i)));
    hide CString, ErrorReply, ErrorAndClose, TextReply, ReplyTo, Dispatch, AskedBy, Code, ResponseId, RequestId, Note, Match,
         Authenticate, AsUint32;
  }

  lemma ContinueName(c: Codec, s: Session, count: nat, choice: Choice)
    requires s.pc.NameGet? && s.pc.notice.AddNotice?
    ensures Continue(c, s, count, choice) ==
            if choice.Found? then NotifyVia(s, s.pc.notice.(name := choice.text), s.pc.target)
            else Answer(s, ErrorReply(c, Code(ResponseId(RequestId(s.pc.notice))), InternalError))
  {
    hide Dispatch, ErrorReply, NotifyVia;
  }

  lemma NameIsAsked(c: Codec, s: Session)
    requires s.pc.NameGet? && ReaderInv(c, s)
    ensures s.requests != [] && s.pc.notice.AddNotice? && NoticePc(c, s.requests, s.uid, s.authenticated, s.pc.notice)
  {
    hide AskedBy;
  }

  lemma NameMet(pc: Pc, trace: seq<Outcome>)
    requires pc.NameGet? && TraceFits(pc, trace)
    ensures trace == []
  {
  }

  lemma NameFits(c: Codec, s: Session, count: nat, choice: Choice, target: Option<nat>, i: nat, trace: seq<Outcome>)
    requires s.pc.NameGet?
    requires ReaderInv(c, s) && TraceFits(s.pc, trace)
    ensures s.requests != []
    ensures var later := With(trace, OutcomeOf(s, Resume(i, choice, target), i));
            match Continue(c, s, count, choice)
            case Await(t) => t.requests == s.requests && t.offered == s.offered && Handling(t.pc) && TraceFits(t.pc, later)
            case Answer(t, reply) =>
              t.requests == s.requests && t.offered == s.offered && reply == ReplyTo(c, s.requests[|s.requests| - 1], later)
            case NotifyHere(n) =>
              later == NameTrace(n) &&
              ErrorReply(c, Code(ResponseId(RequestId(n))), Success) == ReplyTo(c, s.requests[|s.requests| - 1], later)
            case NotifyPeer(n) => later == NameTrace(n)
  {
    hide Continue, ReplyTo, ReaderInv, NoticePc, ErrorReply, TraceFits;
    var n, later := s.pc.notice, With(trace, OutcomeOf(s, Resume(i, choice, target), i));
    NameIsAsked(c, s);
    NameMet(s.pc, trace);
    ContinueName(c, s, count, choice);
    NoticeReply(c, s, n, later);
    assert later == [if choice.Found? then NameFound(choice.text) else NameMissing];
  }

  lemma NoticeFits(c: Codec, s: Session, count: nat, choice: Choice, target: Option<nat>, i: nat, trace: seq<Outcome>)
    requires s.pc.TableDone? || s.pc.RouteGot? || s.pc.NameGet?
    requires ReaderInv(c, s) && TraceFits(s.pc, trace)
    ensures s.requests != []
    ensures var later := With(trace, OutcomeOf(s, Resume(i, choice, target), i));
            match Continue(c, s, count, choice)
            case Await(t) => t.requests == s.requests && t.offered == s.offered && Handling(t.pc) && TraceFits(t.pc, later)
            case Answer(t, reply) =>
              t.requests == s.requests && t.offered == s.offered && reply == ReplyTo(c, s.requests[|s.requests| - 1], later)
            case NotifyHere(n) =>
              later == NameTrace(n) &&
              ErrorReply(c, Code(ResponseId(RequestId(n))), Success) == ReplyTo(c, s.requests[|s.requests| - 1], later)
            case NotifyPeer(n) => later == NameTrace(n)
  {
    if s.pc.NameGet? {
      NameFits(c, s, count, choice, target, i, trace);
    } else {
      RouteFits(c, s, count, choice, target, i, trace);
    }
    hide Continue, TraceFits, OutcomeOf, ReplyTo, ReaderInv, ErrorReply;
  }

  // ---------- One step ----------

  lemma TraceMore(c: Codec, run: seq<Action>, a: Action, i: nat, k: nat)
    requires Legal(c, run) && Enabled(c, After(c, run), a)
    ensures Legal(c, run + [a]) && After(c, run + [a]) == Apply(c, After(c, run), a)
    ensures var st := After(c, run);
            Trace(c, run + [a], i, k) ==
            if i < |st.sessions| && |st.sessions[i].requests| == k + 1 then With(Trace(c, run, i, k), OutcomeOf(st.sessions[i], a, i))
            else Trace(c, run, i, k)
  {
    hide Apply, Enabled, OutcomeOf;
    assert (run + [a])[..|run|] == run;
    assert Trace(c, run, i, k) + [] == Trace(c, run, i, k);
  }

  lemma OnlyHandlersMeetOutcomes(c: Codec, st: State, a: Action, i: nat)
    requires Enabled(c, st, a) && i < |st.sessions| && OutcomeOf(st.sessions[i], a, i).Some?
    ensures Handling(st.sessions[i].pc)
  {
    hide MayFind, ResumeOf;
  }

  /** From fitting replies to fitting replies: the older ones stay, and what is new is the answer to the current request. */
  lemma FitsAfter(c: Codec, run: seq<Action>, a: Action, i: nat, t: Session)
    requires Legal(c, run) && Enabled(c, After(c, run), a) && Legal(c, run + [a]) && i < |After(c, run).sessions|
    requires RepliesFit(c, run, i, After(c, run).sessions[i])
    requires var s := After(c, run).sessions[i];
             s.requests <= t.requests && Completed(s) <= Completed(t)
    requires Handling(t.pc) ==> t.requests != [] && TraceFits(t.pc, Trace(c, run + [a], i, |t.requests| - 1))
    requires var s := After(c, run).sessions[i];
             forall m :: 0 <= m < |t.offered| && t.offered[m].cause.Reply? ==>
               (m < |s.offered| && t.offered[m] == s.offered[m]) || ReplyFits(c, run + [a], i, t, m)
    ensures RepliesFit(c, run + [a], i, t)
  {
    hide Apply, Enabled, ReplyTo, Legal, After, Trace, TraceFits, OutcomeOf;
    var st := After(c, run);
    var s := st.sessions[i];
    forall k: nat | k >= |t.requests| ensures Trace(c, run + [a], i, k) == [] {
      TraceMore(c, run, a, i, k);
    }
    forall m | 0 <= m < |t.offered| && t.offered[m].cause.Reply? ensures ReplyFits(c, run + [a], i, t, m) {
      if m < |s.offered| && t.offered[m] == s.offered[m] {
        assert ReplyFits(c, run, i, s, m);
        var k := s.offered[m].cause.index;
        TraceMore(c, run, a, i, k);
        if OutcomeOf(s, a, i).Some? {
          OnlyHandlersMeetOutcomes(c, st, a, i);
        }
      }
    }
  }

  /** The current request met with nothing new, and the session was offered no reply. */
  lemma NothingMet(c: Codec, run: seq<Action>, a: Action, i: nat, t: Session)
    requires Legal(c, run) && Enabled(c, After(c, run), a) && i < |After(c, run).sessions|
    requires RepliesFit(c, run, i, After(c, run).sessions[i])
    requires var s := After(c, run).sessions[i];
             && OutcomeOf(s, a, i).None? && t.requests == s.requests && OnlyPushes(s.offered, t.offered)
             && Handling(t.pc) == Handling(s.pc)
             && (Handling(s.pc) ==> forall trace :: TraceFits(s.pc, trace) ==> TraceFits(t.pc, trace))
    ensures Legal(c, run + [a]) && RepliesFit(c, run + [a], i, t)
  {
    hide Apply, Enabled, ReplyTo, Legal, After, Trace, TraceFits, OutcomeOf;
    var s := After(c, run).sessions[i];
    TraceMore(c, run, a, i, 0);
    if Handling(t.pc) {
      TraceMore(c, run, a, i, |t.requests| - 1);
    }
    FitsAfter(c, run, a, i, t);
  }

  /** The session goes on to wait at another point. */
  lemma GoesOn(c: Codec, run: seq<Action>, a: Action, i: nat, t: Session)
    requires Legal(c, run) && Enabled(c, After(c, run), a) && i < |After(c, run).sessions|
    requires RepliesFit(c, run, i, After(c, run).sessions[i])
    requires var s := After(c, run).sessions[i];
             && Handling(s.pc) && Handling(t.pc) && s.requests != [] && t.requests == s.requests
             && OnlyPushes(s.offered, t.offered)
             && TraceFits(t.pc, With(Trace(c, run, i, |s.requests| - 1), OutcomeOf(s, a, i)))
    ensures Legal(c, run + [a]) && RepliesFit(c, run + [a], i, t)
  {
    hide Apply, Enabled, ReplyTo, Legal, After, Trace, TraceFits, OutcomeOf;
    TraceMore(c, run, a, i, |t.requests| - 1);
    FitsAfter(c, run, a, i, t);
  }

  /** The session answers its current request. */
  lemma Answers(c: Codec, run: seq<Action>, a: Action, i: nat, t: Session, reply: Message)
    requires Legal(c, run) && Enabled(c, After(c, run), a) && i < |After(c, run).sessions|
    requires RepliesFit(c, run, i, After(c, run).sessions[i])
    requires var s := After(c, run).sessions[i];
             && Handling(s.pc) && s.requests != [] && t.requests == s.requests && OnlyPushes(s.offered, t.offered)
             && reply == ReplyTo(c, s.requests[|s.requests| - 1], With(Trace(c, run, i, |s.requests| - 1), OutcomeOf(s, a, i)))
    ensures Legal(c, run + [a]) && RepliesFit(c, run + [a], i, Finish(t, reply))
  {
    hide Apply, Enabled, ReplyTo, Legal, After, Trace, TraceFits, OutcomeOf;
    var s, u := After(c, run).sessions[i], Finish(t, reply);
    TraceMore(c, run, a, i, |t.requests| - 1);
    FinishOffersReply(t, reply);
    forall m | 0 <= m < |u.offered| && u.offered[m].cause.Reply?
      ensures (m < |s.offered| && u.offered[m] == s.offered[m]) || ReplyFits(c, run + [a], i, u, m)
    {
      if m < |t.offered| {
        assert u.offered[m] == t.offered[m];
      }
    }
    FitsAfter(c, run, a, i, u);
  }

  lemma FinishOffersReply(s: Session, reply: Message)
    ensures var t := Finish(s, reply);
            && t.pc == Idle && t.requests == s.requests
            && t.offered == s.offered + [Offer(reply, Reply(Current(s)), s.uid, HasRoom(s.(pc := Idle)))]
  {
  }

  /** The session takes a new request. */
  lemma Takes(c: Codec, run: seq<Action>, a: Action, i: nat, t: Session, r: Request)
    requires Legal(c, run) && Enabled(c, After(c, run), a) && i < |After(c, run).sessions|
    requires RepliesFit(c, run, i, After(c, run).sessions[i])
    requires var s := After(c, run).sessions[i];
             && !Handling(s.pc) && t.requests == s.requests + [r] && t.offered == s.offered
    ensures Legal(c, run + [a])
    ensures Handling(t.pc) && TraceFits(t.pc, []) ==> RepliesFit(c, run + [a], i, t)
    ensures forall reply :: reply == ReplyTo(c, r, []) ==> RepliesFit(c, run + [a], i, Finish(t, reply))
  {
    hide Apply, Enabled, ReplyTo, Legal, After, Trace, TraceFits, OutcomeOf;
    var s := After(c, run).sessions[i];
    TraceMore(c, run, a, i, |s.requests|);
    if Handling(t.pc) && TraceFits(t.pc, []) {
      FitsAfter(c, run, a, i, t);
    }
    var reply := ReplyTo(c, r, []);
    var u := Finish(t, reply);
    FinishOffersReply(t, reply);
    forall m | 0 <= m < |u.offered| && u.offered[m].cause.Reply?
      ensures (m < |s.offered| && u.offered[m] == s.offered[m]) || ReplyFits(c, run + [a], i, u, m)
    {
    }
    FitsAfter(c, run, a, i, u);
  }

  lemma MoveFits(c: Codec, run: seq<Action>, a: Action, i: nat)
    requires Legal(c, run) && Enabled(c, After(c, run), a) && i < |After(c, run).sessions| && IsMove(a) && a.session == i
    requires RepliesFit(c, run, i, After(c, run).sessions[i])
    ensures Legal(c, run + [a]) && RepliesFit(c, run + [a], i, Apply(c, After(c, run), a).sessions[i])
  {
    MoveShape(c, After(c, run), a);
    MovedKeepsRecord(After(c, run).sessions[i], a);
    hide Apply, Enabled, RepliesFit, TraceFits, Legal, After, Moved, CanMove;
    NothingMet(c, run, a, i, Moved(After(c, run).sessions[i], a));
  }

  lemma MovedKeepsRecord(s: Session, a: Action)
    requires IsMove(a) && CanMove(s, a)
    ensures var t := Moved(s, a);
            t.requests == s.requests && t.offered == s.offered && Handling(t.pc) == Handling(s.pc) && (Handling(s.pc) ==> t.pc == s.pc)
  {
    hide Encode;
  }

  lemma ExecFits(c: Codec, run: seq<Action>, fault: bool, i: nat)
    requires Legal(c, run) && Enabled(c, After(c, run), Exec(i, fault)) && i < |After(c, run).sessions|
    requires RepliesFit(c, run, i, After(c, run).sessions[i])
    ensures var a := Exec(i, fault);
            Legal(c, run + [a]) && i < |Apply(c, After(c, run), a).sessions|
            && RepliesFit(c, run + [a], i, Apply(c, After(c, run), a).sessions[i])
  {
    hide Legal, After, TraceFits, ReplyFits, Execute, PcAfterExec, OutcomeOf, Trace;
    var st := After(c, run);
    var s := st.sessions[i];
    ExecShape(st, i, fault);
    ExecTraceFits(st, s, fault, i, if s.requests == [] then [] else Trace(c, run, i, |s.requests| - 1));
    ExecApplies(c, st, i, fault);
    hide Apply, Enabled;
    GoesOn(c, run, Exec(i, fault), i, s.(pc := PcAfterExec(st, s, fault)));
  }

  lemma ExecTraceFits(st: State, s: Session, fault: bool, i: nat, trace: seq<Outcome>)
    requires NeedsStore(s.pc)
    ensures Handling(s.pc) && Handling(PcAfterExec(st, s, fault))
    ensures TraceFits(s.pc, trace) ==> TraceFits(PcAfterExec(st, s, fault), With(trace, OutcomeOf(s, Exec(i, fault), i)))
  {
  }

  lemma ExecApplies(c: Codec, st: State, i: nat, fault: bool)
    requires Enabled(c, st, Exec(i, fault))
    ensures i < |st.sessions| && Apply(c, st, Exec(i, fault)) == Execute(st, i, fault)
  {
    hide Execute;
  }

  lemma RpcExecFits(c: Codec, run: seq<Action>, target: Option<nat>, i: nat)
    requires Legal(c, run) && Enabled(c, After(c, run), RpcExec(i, target)) && i < |After(c, run).sessions|
    requires RepliesFit(c, run, i, After(c, run).sessions[i])
    ensures var a := RpcExec(i, target);
            Legal(c, run + [a]) && i < |Apply(c, After(c, run), a).sessions|
            && RepliesFit(c, run + [a], i, Apply(c, After(c, run), a).sessions[i])
  {
    hide Legal, After, ReplyFits, Notify, MayFind, Trace;
    var st := After(c, run);
    var s, n := st.sessions[i], st.sessions[i].pc.notice;
    FoundIsSession(st, s.home.Peer(), AcrossRpc(n).to, target);
    NotifyKeepsPc(c, st, i, Remote, n, target, i);
    GoesOn(c, run, RpcExec(i, target), i, Notify(c, st, i, Remote, n, target).sessions[i].(pc := Called(n, true)));
  }

  lemma RpcFailFits(c: Codec, run: seq<Action>, i: nat)
    requires Legal(c, run) && Enabled(c, After(c, run), RpcFail(i)) && i < |After(c, run).sessions|
    requires RepliesFit(c, run, i, After(c, run).sessions[i])
    ensures var a := RpcFail(i);
            Legal(c, run + [a]) && i < |Apply(c, After(c, run), a).sessions|
            && RepliesFit(c, run + [a], i, Apply(c, After(c, run), a).sessions[i])
  {
    hide Legal, After, ReplyFits, Trace;
    var s := After(c, run).sessions[i];
    GoesOn(c, run, RpcFail(i), i, s.(pc := Called(s.pc.notice, false)));
  }

  lemma CalledReply(c: Codec, s: Session, n: Notice, ok: bool, trace: seq<Outcome>)
    requires ReaderInv(c, s) && s.pc == Called(n, ok) && TraceFits(s.pc, trace)
    ensures s.requests != []
    ensures ReplyTo(c, s.requests[|s.requests| - 1], trace) ==
            if ok then ErrorReply(c, Code(ResponseId(RequestId(n))), Success) else ErrorReply(c, CurrentId(s), RPCFailed)
  {
    NoticeReply(c, s, n, trace);
    hide ReplyTo, ErrorReply, AskedBy;
    if !ok {
      assert trace[|NameTrace(n)|] in trace;
    }
    assert forall e :: e in trace ==> e in NameTrace(n) || e == RpcBroke;
  }

  lemma RpcReturnFits(c: Codec, run: seq<Action>, i: nat)
    requires Legal(c, run) && Enabled(c, After(c, run), RpcReturn(i)) && i < |After(c, run).sessions|
    requires RepliesFit(c, run, i, After(c, run).sessions[i]) && ReaderInv(c, After(c, run).sessions[i])
    ensures var a := RpcReturn(i);
            Legal(c, run + [a]) && i < |Apply(c, After(c, run), a).sessions|
            && RepliesFit(c, run + [a], i, Apply(c, After(c, run), a).sessions[i])
  {
    hide Legal, After, ReplyTo, ReplyFits, Finish, ErrorReply, Trace, TraceFits, ReaderInv;
    var s := After(c, run).sessions[i];
    var trace := Trace(c, run, i, |s.requests| - 1);
    CalledReply(c, s, s.pc.notice, s.pc.ok, trace);
    Answers(c, run, RpcReturn(i), i, s, ReplyTo(c, s.requests[|s.requests| - 1], trace));
  }

  lemma ResumeFits(c: Codec, run: seq<Action>, choice: Choice, target: Option<nat>, i: nat)
    requires Legal(c, run) && Enabled(c, After(c, run), Resume(i, choice, target)) && i < |After(c, run).sessions|
    requires RepliesFit(c, run, i, After(c, run).sessions[i]) && ReaderInv(c, After(c, run).sessions[i])
    ensures var a := Resume(i, choice, target);
            Legal(c, run + [a]) && i < |Apply(c, After(c, run), a).sessions|
            && RepliesFit(c, run + [a], i, Apply(c, After(c, run), a).sessions[i])
  {
    var st, a := After(c, run), Resume(i, choice, target);
    var s := st.sessions[i];
    ResumeIsEnabled(c, st, a);
    if s.pc.Arrived? {
      ArrivedFits(c, run, choice, target, i);
    } else {
      HandlerFits(c, run, choice, target, i);
    }
  }

  lemma ArrivedFits(c: Codec, run: seq<Action>, choice: Choice, target: Option<nat>, i: nat)
    requires Legal(c, run) && Enabled(c, After(c, run), Resume(i, choice, target)) && i < |After(c, run).sessions|
    requires RepliesFit(c, run, i, After(c, run).sessions[i]) && After(c, run).sessions[i].pc.Arrived?
    ensures var a := Resume(i, choice, target);
            Legal(c, run + [a]) && i < |Apply(c, After(c, run), a).sessions|
            && RepliesFit(c, run + [a], i, Apply(c, After(c, run), a).sessions[i])
  {
    hide Legal, After, ReplyTo, RepliesFit, Finish, MayFind, Dispatch, TraceFits, Notify;
    var st, a := After(c, run), Resume(i, choice, target);
    var s := st.sessions[i];
    var f := s.pc.frame;
    DispatchFits(c, s, f);
    match Dispatch(c, s, f)
    case Await(t) => Takes(c, run, a, i, t, Request(f, s.authenticated, s.uid));
    case Answer(t, reply) => Takes(c, run, a, i, t, Request(f, s.authenticated, s.uid));
  }

  lemma HandlerFits(c: Codec, run: seq<Action>, choice: Choice, target: Option<nat>, i: nat)
    requires Legal(c, run) && Enabled(c, After(c, run), Resume(i, choice, target)) && i < |After(c, run).sessions|
    requires RepliesFit(c, run, i, After(c, run).sessions[i]) && ReaderInv(c, After(c, run).sessions[i])
    requires Resumable(After(c, run).sessions[i].pc) && !After(c, run).sessions[i].pc.Arrived?
    ensures var a := Resume(i, choice, target);
            Legal(c, run + [a]) && i < |Apply(c, After(c, run), a).sessions|
            && RepliesFit(c, run + [a], i, Apply(c, After(c, run), a).sessions[i])
  {
    hide Legal, After, ReplyTo, ReplyFits, Finish, MayFind, Continue, TraceFits, Notify, OutcomeOf, ReaderInv, ErrorReply, Trace,
         ApplyResume;
    var st, a := After(c, run), Resume(i, choice, target);
    var s := st.sessions[i];
    assert Apply(c, st, a) == ApplyResume(c, st, i, choice, target);
    ContinueFits(c, s, AsUint32(|st.participants.Of(s.home)|), choice, target, i, Trace(c, run, i, |s.requests| - 1));
    match ResumeOf(c, st, i, choice)
    case Await(t) =>
      AwaitApplies(c, st, i, choice, target);
      GoesOn(c, run, a, i, t);
    case Answer(t, reply) =>
      AnswerApplies(c, st, i, choice, target);
      Answers(c, run, a, i, t, reply);
    case NotifyPeer(n) =>
      PeerApplies(c, st, i, choice, target);
      CallingFits(n);
      GoesOn(c, run, a, i, s.(pc := Calling(n)));
    case NotifyHere(n) =>
      HereApplies(c, st, i, choice, target);
      NotifyKeepsPc(c, st, i, Local, n, target, i);
      Answers(c, run, a, i, Notify(c, st, i, Local, n, target).sessions[i], ErrorReply(c, Code(ResponseId(RequestId(n))), Success));
  }

  lemma ContinueFits(c: Codec, s: Session, count: nat, choice: Choice, target: Option<nat>, i: nat, trace: seq<Outcome>)
    requires Resumable(s.pc) && !s.pc.Arrived? && ReaderInv(c, s) && TraceFits(s.pc, trace)
    ensures s.requests != []
    ensures var later := With(trace, OutcomeOf(s, Resume(i, choice, target), i));
            match Continue(c, s, count, choice)
            case Await(t) => t.requests == s.requests && t.offered == s.offered && Handling(t.pc) && TraceFits(t.pc, later)
            case Answer(t, reply) =>
              t.requests == s.requests && t.offered == s.offered && reply == ReplyTo(c, s.requests[|s.requests| - 1], later)
            case NotifyHere(n) =>
              later == NameTrace(n) &&
              ErrorReply(c, Code(ResponseId(RequestId(n))), Success) == ReplyTo(c, s.requests[|s.requests| - 1], later)
            case NotifyPeer(n) => later == NameTrace(n)
  {
    if s.pc.TokenGot? || s.pc.UserLookup? || s.pc.CountDone? || s.pc.Lists? {
      LoginFits(c, s, count, choice, target, i, trace);
    } else if s.pc.Searching? {
      SearchFits(c, s, count, choice, target, i, trace);
    } else {
      NoticeFits(c, s, count, choice, target, i, trace);
    }
    assert s.requests != [] by { hide AskedBy, CString; }
    hide Continue, ReplyTo, TraceFits, OutcomeOf, ReaderInv, ErrorReply;
  }

  lemma CallingFits(n: Notice)
    ensures TraceFits(Calling(n), NameTrace(n))
  {
  }

  lemma OthersFit(c: Codec, run: seq<Action>, a: Action, i: nat)
    requires Legal(c, run) && Enabled(c, After(c, run), a) && i < |After(c, run).sessions| && !Concerns(a, i)
    requires RepliesFit(c, run, i, After(c, run).sessions[i])
    ensures Legal(c, run + [a]) && i < |Apply(c, After(c, run), a).sessions|
            && RepliesFit(c, run + [a], i, Apply(c, After(c, run), a).sessions[i])
  {
    hide Legal, After, RepliesFit, TraceFits, Apply, Enabled;
    OthersKeepPc(c, After(c, run), a, i);
    NothingMet(c, run, a, i, Apply(c, After(c, run), a).sessions[i]);
  }

  lemma StepFits(c: Codec, run: seq<Action>, a: Action, i: nat)
    requires Legal(c, run) && Enabled(c, After(c, run), a) && i < |After(c, run).sessions|
    requires RepliesFit(c, run, i, After(c, run).sessions[i]) && ReaderInv(c, After(c, run).sessions[i])
    ensures Legal(c, run + [a]) && i < |Apply(c, After(c, run), a).sessions|
            && RepliesFit(c, run + [a], i, Apply(c, After(c, run), a).sessions[i])
  {
    hide Legal, After, RepliesFit, Apply, Enabled, ReaderInv;
    if !Concerns(a, i) {
      OthersFit(c, run, a, i);
    } else if IsMove(a) {
      MoveShape(c, After(c, run), a);
      MoveFits(c, run, a, i);
    } else if a.Exec? {
      ExecFits(c, run, a.fault, i);
    } else if a.Resume? {
      ResumeFits(c, run, a.choice, a.target, i);
    } else if a.RpcExec? {
      RpcExecFits(c, run, a.target, i);
    } else if a.RpcFail? {
      RpcFailFits(c, run, i);
    } else {
      RpcReturnFits(c, run, i);
    }
  }

  // ---------- How far the logins got ----------

  /** What a recorded stage means for the outcomes of its request. */
  predicate StageFits(stage: Stage, trace: seq<Outcome>) {
    match stage
    case TokenMatched => TokenRefused !in trace
    case NoUser => UserMissing in trace && TokenRefused !in trace
    case LookupFailed => UserThrew in trace && TokenRefused !in trace
    case LoggedIn => UserFound in trace && TokenRefused !in trace
  }

  ghost predicate StagesFit(c: Codec, run: seq<Action>, i: nat, s: Session)
    requires Legal(c, run)
  {
    forall k :: k in s.logins ==> k < |s.requests| && StageFits(s.logins[k], Trace(c, run, i, k))
  }

  lemma LoginStages(c: Codec, s: Session, count: nat, choice: Choice, target: Option<nat>, i: nat, trace: seq<Outcome>)
    requires (s.pc.TokenGot? || s.pc.UserLookup? || s.pc.CountDone?) && s.requests != [] && TraceFits(s.pc, trace)
    ensures var next := Continue(c, s, count, choice);
            (next.Await? || next.Answer?) ==>
              && s.requests <= next.session.requests
              && forall k :: k in next.session.logins ==>
                   || (k in s.logins && next.session.logins[k] == s.logins[k])
                   || (Handling(s.pc) && k == |s.requests| - 1
                       && StageFits(next.session.logins[k], With(trace, OutcomeOf(s, Resume(i, choice, target), i))))
  {
    hide CString, Dispatch, ErrorReply, ErrorAndClose;
  }

  lemma OthersNoteNothing(c: Codec, s: Session, count: nat, choice: Choice)
    requires Resumable(s.pc) && !(s.pc.TokenGot? || s.pc.UserLookup? || s.pc.CountDone?)
    ensures var next := Continue(c, s, count, choice);
            next.Await? || next.Answer? ==> s.requests <= next.session.requests && next.session.logins == s.logins
  {
    hide CString, ConstructedBody, EnumCast;
  }

  lemma ContinueStages(c: Codec, s: Session, count: nat, choice: Choice, target: Option<nat>, i: nat, trace: seq<Outcome>)
    requires Resumable(s.pc) && (Handling(s.pc) ==> s.requests != [] && TraceFits(s.pc, trace))
    ensures var next := Continue(c, s, count, choice);
            (next.Await? || next.Answer?) ==>
              && s.requests <= next.session.requests
              && forall k :: k in next.session.logins ==>
                   || (k in s.logins && next.session.logins[k] == s.logins[k])
                   || (Handling(s.pc) && k == |s.requests| - 1
                       && StageFits(next.session.logins[k], With(trace, OutcomeOf(s, Resume(i, choice, target), i))))
  {
    if s.pc.TokenGot? || s.pc.UserLookup? || s.pc.CountDone? {
      LoginStages(c, s, count, choice, target, i, trace);
    } else {
      OthersNoteNothing(c, s, count, choice);
    }
    hide Continue, TraceFits, OutcomeOf, StageFits;
  }

  lemma ResumeLeavesLogins(c: Codec, st: State, i: nat, choice: Choice, target: Option<nat>)
    requires Enabled(c, st, Resume(i, choice, target))
    ensures var t := ApplyResume(c, st, i, choice, target);
            && i < |t.sessions|
            && var next := ResumeOf(c, st, i, choice);
               if next.Await? || next.Answer? then
                 t.sessions[i].logins == next.session.logins && t.sessions[i].requests == next.session.requests
               else t.sessions[i].logins == st.sessions[i].logins && t.sessions[i].requests == st.sessions[i].requests
  {
    hide Continue, ErrorReply, Notify, ApplyResume;
    match ResumeOf(c, st, i, choice)
    case Await(_) => AwaitApplies(c, st, i, choice, target);
    case Answer(_, _) => AnswerApplies(c, st, i, choice, target);
    case NotifyPeer(_) => PeerApplies(c, st, i, choice, target);
    case NotifyHere(n) =>
      HereApplies(c, st, i, choice, target);
      NotifyKept(c, st, i, Local, n, target, i);
  }

  lemma StageStays(stage: Stage, s: Session, a: Action, i: nat, trace: seq<Outcome>)
    requires StageFits(stage, trace) && (OutcomeOf(s, a, i) != Some(TokenRefused))
    ensures StageFits(stage, With(trace, OutcomeOf(s, a, i)))
  {
    hide OutcomeOf;
  }

  /** A step that notes nothing new about the session's logins. */
  lemma SameStagesFit(c: Codec, run: seq<Action>, a: Action, i: nat, t: Session)
    requires Legal(c, run) && Enabled(c, After(c, run), a) && i < |After(c, run).sessions|
    requires var s := After(c, run).sessions[i];
             && StagesFit(c, run, i, s) && LoginsInv(s) && s.requests <= t.requests && t.logins == s.logins
    ensures Legal(c, run + [a]) && StagesFit(c, run + [a], i, t)
  {
    hide Apply, Enabled, Legal, After, Trace, OutcomeOf, StageFits;
    var s := After(c, run).sessions[i];
    TraceMore(c, run, a, i, 0);
    forall k | k in t.logins ensures k < |t.requests| && StageFits(t.logins[k], Trace(c, run + [a], i, k)) {
      StageSurvives(c, run, a, i, k);
    }
  }

  lemma StageSurvives(c: Codec, run: seq<Action>, a: Action, i: nat, k: nat)
    requires Legal(c, run) && Enabled(c, After(c, run), a) && i < |After(c, run).sessions|
    requires var s := After(c, run).sessions[i]; StagesFit(c, run, i, s) && LoginsInv(s) && k in s.logins
    ensures Legal(c, run + [a]) && StageFits(After(c, run).sessions[i].logins[k], Trace(c, run + [a], i, k))
  {
    hide Apply, Enabled, Legal, After, Trace, StageFits;
    var s := After(c, run).sessions[i];
    TraceMore(c, run, a, i, k);
    if |s.requests| == k + 1 {
      StageStays(s.logins[k], s, a, i, Trace(c, run, i, k));
    }
  }

  lemma ResumeStages(c: Codec, run: seq<Action>, choice: Choice, target: Option<nat>, i: nat)
    requires Legal(c, run) && Enabled(c, After(c, run), Resume(i, choice, target)) && i < |After(c, run).sessions|
    requires var s := After(c, run).sessions[i]; StagesFit(c, run, i, s) && LoginsInv(s) && RepliesFit(c, run, i, s)
    ensures var a := Resume(i, choice, target);
            Legal(c, run + [a]) && i < |Apply(c, After(c, run), a).sessions|
            && StagesFit(c, run + [a], i, Apply(c, After(c, run), a).sessions[i])
  {
    hide Legal, After, ReplyFits, Trace, StageFits, OutcomeOf, TraceFits, MayFind, Continue, ApplyResume;
    var st, a := After(c, run), Resume(i, choice, target);
    var s := st.sessions[i];
    ResumeLeavesLogins(c, st, i, choice, target);
    var t := Apply(c, st, a).sessions[i];
    var trace := if s.requests == [] then [] else Trace(c, run, i, |s.requests| - 1);
    ContinueStages(c, s, AsUint32(|st.participants.Of(s.home)|), choice, target, i, trace);
    TraceMore(c, run, a, i, 0);
    forall k | k in t.logins ensures k < |t.requests| && StageFits(t.logins[k], Trace(c, run + [a], i, k)) {
      if k in s.logins && t.logins[k] == s.logins[k] {
        StageSurvives(c, run, a, i, k);
      } else {
        TraceMore(c, run, a, i, k);
      }
    }
  }

  lemma StepStages(c: Codec, run: seq<Action>, a: Action, i: nat)
    requires Legal(c, run) && Enabled(c, After(c, run), a) && i < |After(c, run).sessions|
    requires var s := After(c, run).sessions[i]; StagesFit(c, run, i, s) && LoginsInv(s) && RepliesFit(c, run, i, s)
    ensures Legal(c, run + [a]) && i < |Apply(c, After(c, run), a).sessions|
            && StagesFit(c, run + [a], i, Apply(c, After(c, run), a).sessions[i])
  {
    hide Legal, After, RepliesFit, StagesFit, Apply, Enabled, LoginsInv, Resumed, Moved, CanMove, PcAfterExec;
    var st := After(c, run);
    var s := st.sessions[i];
    StepShape(c, st, a, i);
    var t := Apply(c, st, a).sessions[i];
    if Kept(s, t) {
      SameStagesFit(c, run, a, i, t);
    } else if a.Exec? {
      SameStagesFit(c, run, a, i, t);
    } else if IsMove(a) {
      MovedMeans(s, a);
      SameStagesFit(c, run, a, i, t);
    } else {
      ResumeStages(c, run, a.choice, a.target, i);
    }
  }

  // ---------- Every run ----------

  lemma {:induction false} NoTraceYet(c: Codec, run: seq<Action>, i: nat, k: nat)
    requires Legal(c, run) && i >= |After(c, run).sessions|
    ensures Trace(c, run, i, k) == []
  {
    hide Apply, Enabled, OutcomeOf;
    if run != [] {
      NewSessionStep(c, After(c, run[..|run| - 1]), run[|run| - 1]);
      NoTraceYet(c, run[..|run| - 1], i, k);
    }
  }

  lemma NewSessionFits(c: Codec, run: seq<Action>, a: Action, i: nat, server: ServerId, memory: int)
    requires Legal(c, run) && Enabled(c, After(c, run), a) && i >= |After(c, run).sessions|
    ensures Legal(c, run + [a]) && RepliesFit(c, run + [a], i, NewSession(server, memory))
    ensures StagesFit(c, run + [a], i, NewSession(server, memory))
  {
    hide Apply, Enabled, Legal, After, Trace, OutcomeOf;
    TraceMore(c, run, a, i, 0);
    forall k: nat ensures Trace(c, run + [a], i, k) == [] {
      TraceMore(c, run, a, i, k);
      NoTraceYet(c, run, i, k);
    }
  }

  lemma {:induction false} RunFits(c: Codec, run: seq<Action>, i: nat)
    requires Legal(c, run) && i < |After(c, run).sessions|
    ensures RepliesFit(c, run, i, After(c, run).sessions[i]) && StagesFit(c, run, i, After(c, run).sessions[i])
  {
    hide Apply, Enabled, RepliesFit, StagesFit, Inv, SessionInv, ReaderInv, LoginsInv;
    if run != [] {
      var init, a := run[..|run| - 1], run[|run| - 1];
      assert run == init + [a];
      NewSessionStep(c, After(c, init), a);
      if i < |After(c, init).sessions| {
        RunFits(c, init, i);
        RunKeepsInv(c, init);
        SessionOfInv(c, After(c, init), i);
        LoginsOfSession(c, After(c, init).sessions[i]);
        StepFits(c, init, a, i);
        StepStages(c, init, a, i);
      } else {
        NewSessionFits(c, init, a, i, a.server, a.memory);
      }
    }
  }

  lemma RepliesOfSession(c: Codec, s: Session)
    requires SessionInv(c, s)
    ensures 0 <= Completed(s) && ReplyIndices(s.offered) == Upto(Completed(s))
    ensures ProperReplies(c, Completed(s), s.requests, s.offered, s.logins)
  {
    hide OutboxOk, ReaderOk, AuthOk, GateOk, LoginsOk, ProperReplies, ReplyIndices, Upto;
  }

  lemma LoginsAreChecked(c: Codec, run: seq<Action>, i: nat, s: Session)
    requires Evident(c, run, i, s) && LoginsInv(s)
    ensures forall k :: k in s.logins ==> k < |s.requests| && Checked(c, run, i, k, s.requests[k])
    ensures forall k :: k in s.logins && s.logins[k].LoggedIn? ==> s.authenticated
  {
    hide Checked;
  }

  /** Each handled frame gets exactly one offered reply, in request order, and at most the request being handled still waits
      for its own.  The reply is the one that ReplyTo determines from the request and from what its commands, lookups and RPC
      came to.  A login got past its token only with the issued one, and further only as its user lookup allowed. */
  lemma ReplyDiscipline(c: Codec, run: seq<Action>, i: nat)
    requires Legal(c, run) && i < |After(c, run).sessions|
    ensures var s := SessionAfter(c, run, i);
            && 0 <= Completed(s)
            && ReplyIndices(s.offered) == Upto(Completed(s))
            && (forall m :: 0 <= m < |s.offered| && s.offered[m].cause.Reply? ==> ReplyFits(c, run, i, s, m))
            && ProperReplies(c, Completed(s), s.requests, s.offered, s.logins)
            && (forall k :: k in s.logins ==>
                  k < |s.requests| && Checked(c, run, i, k, s.requests[k]) && StageFits(s.logins[k], Trace(c, run, i, k)))
            && (forall k :: k in s.logins && s.logins[k].LoggedIn? ==> s.authenticated)
  {
    hide Inv, SessionInv, Legal, After, Evident, Checked, LoginsInv, ProperReplies, ReplyIndices, Upto, Completed, ReplyFits,
         StageFits, Trace;
    RunKeepsInv(c, run);
    SessionOfInv(c, After(c, run), i);
    RunIsEvident(c, run, i);
    RepliesOfSession(c, SessionAfter(c, run, i));
    LoginsOfSession(c, SessionAfter(c, run, i));
    LoginsAreChecked(c, run, i, SessionAfter(c, run, i));
    RunFits(c, run, i);
  }

  // ---------- The requests are the frames received ----------

  /** The frames that the run's reads delivered to session i, in order. */
  function Received(run: seq<Action>, i: nat): seq<Frame> {
    if run == [] then []
    else
      var a := run[|run| - 1];
      Received(run[..|run| - 1], i) + if a.Receive? && a.session == i then [a.frame] else []
  }

  function FramesOf(requests: seq<Request>): seq<Frame> {
    if requests == [] then [] else FramesOf(requests[..|requests| - 1]) + [requests[|requests| - 1].frame]
  }

  /** The frames of the handled requests, and the one that has arrived. */
  function Taken(s: Session): seq<Frame> {
    FramesOf(s.requests) + if s.pc.Arrived? then [s.pc.frame] else []
  }

  lemma FramesMore(requests: seq<Request>, r: Request)
    ensures FramesOf(requests + [r]) == FramesOf(requests) + [r.frame]
  {
    assert (requests + [r])[..|requests|] == requests;
  }

  lemma ContinueTakes(c: Codec, s: Session, count: nat, choice: Choice)
    requires Resumable(s.pc)
    ensures match Continue(c, s, count, choice)
            case Await(t) => !t.pc.Arrived? && FramesOf(t.requests) == Taken(s)
            case Answer(t, _) => FramesOf(t.requests) == Taken(s)
            case _ => !s.pc.Arrived?
  {
    hide CString, ConstructedBody, EnumCast, FramesOf;
    if s.pc.Arrived? {
      FramesMore(s.requests, Request(s.pc.frame, s.authenticated, s.uid));
    }
  }

  lemma ResumeTakes(c: Codec, st: State, i: nat, choice: Choice, target: Option<nat>)
    requires Enabled(c, st, Resume(i, choice, target))
    ensures i < |ApplyResume(c, st, i, choice, target).sessions|
    ensures Taken(ApplyResume(c, st, i, choice, target).sessions[i]) == Taken(st.sessions[i])
  {
    hide Continue, Finish, Notify, ErrorReply, MayFind, ApplyResume, FramesOf;
    ContinueTakes(c, st.sessions[i], AsUint32(|st.participants.Of(st.sessions[i].home)|), choice);
    match ResumeOf(c, st, i, choice)
    case Await(t) => AwaitApplies(c, st, i, choice, target);
    case Answer(t, reply) =>
      AnswerApplies(c, st, i, choice, target);
      FinishOffersReply(t, reply);
    case NotifyPeer(_) => PeerApplies(c, st, i, choice, target);
    case NotifyHere(n) =>
      HereApplies(c, st, i, choice, target);
      NotifyKeepsPc(c, st, i, Local, n, target, i);
      FinishOffersReply(Notify(c, st, i, Local, n, target).sessions[i], ErrorReply(c, Code(ResponseId(RequestId(n))), Success));
  }

  lemma MovedTakes(s: Session, a: Action)
    requires IsMove(a) && CanMove(s, a)
    ensures Taken(Moved(s, a)) == Taken(s) + if a.Receive? then [a.frame] else []
  {
    hide Encode, FramesOf;
  }

  lemma RpcTakes(c: Codec, st: State, a: Action)
    requires Enabled(c, st, a) && (a.RpcExec? || a.RpcFail? || a.RpcReturn?)
    ensures a.session < |Apply(c, st, a).sessions| && Taken(Apply(c, st, a).sessions[a.session]) == Taken(st.sessions[a.session])
  {
    hide Finish, Notify, ErrorReply, MayFind, FramesOf;
    var s := st.sessions[a.session];
    if a.RpcExec? {
      FoundIsSession(st, s.home.Peer(), AcrossRpc(s.pc.notice).to, a.target);
      NotifyKeepsPc(c, st, a.session, Remote, s.pc.notice, a.target, a.session);
    } else if a.RpcReturn? {
      FinishOffersReply(s, ErrorReply(c, Code(ResponseId(RequestId(s.pc.notice))), Success));
      FinishOffersReply(s, ErrorReply(c, CurrentId(s), RPCFailed));
    }
  }

  lemma StepTakes(c: Codec, st: State, a: Action, i: nat)
    requires Enabled(c, st, a) && i < |st.sessions|
    ensures i < |Apply(c, st, a).sessions|
    ensures Taken(Apply(c, st, a).sessions[i]) == Taken(st.sessions[i]) + if a.Receive? && a.session == i then [a.frame] else []
  {
    hide Execute, ApplyResume, Moved, CanMove, FramesOf, MayFind, Finish, Notify, ErrorReply;
    if !Concerns(a, i) {
      OthersKeepPc(c, st, a, i);
      hide Apply, Enabled;
    } else if IsMove(a) {
      MoveShape(c, st, a);
      MovedTakes(st.sessions[i], a);
      hide Apply, Enabled;
    } else if a.Exec? {
      ExecShape(st, i, a.fault);
    } else if a.Resume? {
      ResumeTakes(c, st, i, a.choice, a.target);
    } else {
      RpcTakes(c, st, a);
      hide Apply, Enabled;
    }
  }

  /** Every frame that a session's reads deliver becomes its next request, unchanged and in order. */
  lemma {:induction false} RequestsAreReceived(c: Codec, run: seq<Action>, i: nat)
    requires Legal(c, run)
    ensures Received(run, i) == if i < |After(c, run).sessions| then Taken(After(c, run).sessions[i]) else []
  {
    hide Apply, Enabled, Taken;
    if run != [] {
      var init, a := run[..|run| - 1], run[|run| - 1];
      RequestsAreReceived(c, init, i);
      NewSessionStep(c, After(c, init), a);
      if i < |After(c, init).sessions| {
        StepTakes(c, After(c, init), a, i);
      } else {
        NobodyReceives(c, After(c, init), a, i);
        assert i < |After(c, run).sessions| ==> Taken(NewSession(a.server, a.memory)) == [] by { NothingTaken(); }
      }
    }
  }

  lemma NobodyReceives(c: Codec, st: State, a: Action, i: nat)
    requires Enabled(c, st, a) && i >= |st.sessions|
    ensures !(a.Receive? && a.session == i)
  {
  }

  lemma NothingTaken()
    ensures forall home: ServerId, memory: int :: Taken(NewSession(home, memory)) == []
  {
  }

  /** Once the reply to a request that hangs up is written, it is the last message of its connection, and the session is
      stopped. */
  lemma HangingUpEndsIt(c: Codec, run: seq<Action>, i: nat)
    requires Legal(c, run) && i < |After(c, run).sessions|
    ensures var s := SessionAfter(c, run, i);
            exists offers: seq<Offer> :: WrittenAre(s, offers) &&
              forall k :: 0 <= k < |offers| && offers[k].cause.Reply? ==>
                var q := offers[k].cause.index;
                q < |s.requests| && (HangsUp(c, s.requests[q], Trace(c, run, i, q)) ==>
                  k == |s.written| - 1 && s.stopped && s.wire == WireOf(s.written))
  {
    hide Inv, Legal, After, Trace, ReplyTo, HangsUp, Accepted, AcceptedOffers, WireOf, Completed, StageFits;
    RunKeepsInv(c, run);
    RunFits(c, run, i);
    var s := SessionAfter(c, run, i);
    WrittenIsAccepted(c, After(c, run), i);
    AcceptedOffersAre(s.offered);
    OutboxConservation(c, run, i);
    var offers := AcceptedOffers(s.offered)[..|s.written|];
    assert WrittenAre(s, offers);
    forall k | 0 <= k < |offers| && offers[k].cause.Reply?
      ensures var q := offers[k].cause.index;
              q < |s.requests| && (HangsUp(c, s.requests[q], Trace(c, run, i, q)) ==>
                k == |s.written| - 1 && s.stopped && s.wire == WireOf(s.written))
    {
      assert offers[k] in AcceptedOffers(s.offered);
      var m :| 0 <= m < |s.offered| && s.offered[m] == offers[k];
      assert ReplyFits(c, run, i, s, m);
      ClosesIff(c, s.requests[offers[k].cause.index], Trace(c, run, i, offers[k].cause.index));
    }
  }

  /** The request is answered under its own 32-bit id instead of its response id. */
  predicate UnderOwnId(c: Codec, r: Request, trace: seq<Outcome>) {
    var id := r.frame.id;
    || (!r.authenticated && id != 1005)
    || id % 65536 !in {1005, 1007, 1009, 1013, 1017}
    || (id % 65536 == 1005 && c.parseLogin(CString(r.frame.body)).None?)
    || (Asks(c, r).Some? && Asks(c, r).value.0 == r.uid != Asks(c, r).value.1 && RpcBroke in trace)
  }

  /** The replies under the request's own id are exactly those to unauthenticated requests, to unknown or unhandled ids, to
      malformed logins, and to requests whose peer RPC failed. */
  lemma OwnIdIff(c: Codec, r: Request, trace: seq<Outcome>)
    ensures ReplyTo(c, r, trace).id == r.frame.id <==> UnderOwnId(c, r, trace)
  {
    hide CString, ConstructedBody;
  }
}
