/** A chat session as a value: the connection's state together with the record of what it handled, was offered and
    wrote.  Each function is one uninterrupted stretch of one of its three coroutines. */
module Sessions {
  import opened Wrappers
  import opened Framing
  import opened Protocol

  const CAPACITY: nat := 64

  /** Why a message was offered to a session: as the reply to its request number `index`, or as the notification that
      request number `index` of session `sender` caused. */
  datatype Cause = Reply(index: nat) | Push(sender: nat, index: nat, route: Route, notice: Notice)

  /** One call of deliver; `owner` is the session's uid at that moment. */
  datatype Offer = Offer(message: Message, cause: Cause, owner: int, accepted: bool)

  datatype Writer =
    | Ready                                    // about to receive from the channel
    | Waiting                                  // suspended in async_receive
    | Writing(message: Message, sent: nat)     // suspended in async_write
    | Failed(message: Message, sent: nat)      // the write threw
    | Returned                                 // a close_after_send message was written

  datatype Timer =
    | Armed
    | Fired        // expired; the completion is queued and cancel no longer reaches it
    | Cancelled    // the aborted completion is queued
    | Over

  /** Where the reader coroutine is suspended. */
  datatype Pc =
    | Idle                                              // async_read of the next frame
    | Arrived(frame: Frame)                             // the read completed
    | TokenGet(uid: int, token: Text)                   // GET user_token_ sent
    | TokenGot(uid: int, token: Text, stored: Option<Text>)
    | UserLookup(uid: int)                              // search_user_by_type
    | CountSet(uid: int, count: nat)                    // HSET login_count sent
    | CountDone(uid: int)
    | RouteSet(uid: int)                                // SET user_login_server_ sent
    | Lists(uid: int)                                   // friend list queries
    | Searching
    | TableWrite(notice: Notice)                        // friend table statement sent
    | TableDone(notice: Notice, failed: bool)
    | RouteGet(notice: Notice)                          // GET user_login_server_ sent
    | RouteGot(notice: Notice, server: Option<string>)
    | NameGet(notice: Notice, target: string)           // add_friend's user lookup
    | Calling(notice: Notice)                           // blocked in the peer RPC
    | Called(notice: Notice, ok: bool)                  // the RPC is decided but has not returned
    | Ended

  datatype Session = Session(
    home: ServerId,
    firstUid: int,               // uid_ has no initial value: whatever the memory held
    uid: int,
    authenticated: bool,
    stopped: bool,
    timer: Timer,
    pc: Pc,
    outbox: seq<Message>,
    writer: Writer,
    matched: set<int>,           // uids whose token matched on this session
    logins: map<nat, Stage>,     // by request number, for the requests whose token matched
    requests: seq<Request>,
    offered: seq<Offer>,
    written: seq<Message>,
    wire: Bytes)

  function NewSession(home: ServerId, memory: int): Session {
    Session(home, memory, memory, false, false, Armed, Idle, [], Ready, {}, map[], [], [], [], [])
  }

  /** participant_count returns a uint32_t. */
  function AsUint32(n: nat): (r: nat)
    ensures r < 0x1_0000_0000 && (n < 0x1_0000_0000 ==> r == n)
  {
    n % 0x1_0000_0000
  }

  // ---------- deliver, stop, the writer and the deadline ----------

  predicate HasRoom(s: Session) { s.writer.Waiting? || |s.outbox| < CAPACITY }

  /** deliver: try_send hands the message to a suspended receiver, else buffers it, else drops it. */
  function Deliver(s: Session, m: Message, cause: Cause): Session {
    var t := s.(offered := s.offered + [Offer(m, cause, s.uid, HasRoom(s))]);
    if s.writer.Waiting? then t.(writer := Writing(m, 0))
    else if |s.outbox| < CAPACITY then t.(outbox := s.outbox + [m])
    else t
  }

  function Cancel(t: Timer): Timer { if t.Armed? then Cancelled else t }

  function Stop(s: Session): Session {
    s.(stopped := true, timer := Cancel(s.timer))
  }

  /** The number of the request being handled. */
  function Current(s: Session): nat {
    if s.requests == [] then 0 else |s.requests| - 1
  }

  function CurrentId(s: Session): nat {
    if s.requests == [] then 0 else s.requests[|s.requests| - 1].frame.id
  }

  /** Records how far the current request's login got. */
  function Note(s: Session, stage: Stage): Session {
    s.(logins := s.logins[Current(s) := stage])
  }

  function Match(s: Session, uid: int): Session {
    Note(s, TokenMatched).(matched := s.matched + {uid})
  }

  function Authenticate(s: Session, uid: int): Session {
    s.(uid := uid, authenticated := true, timer := Cancel(s.timer), logins := s.logins[Current(s) := LoggedIn])
  }

  function StartReceive(s: Session): Session
    requires s.writer.Ready?
  {
    if s.outbox == [] then s.(writer := Waiting)
    else s.(writer := Writing(s.outbox[0], 0), outbox := s.outbox[1..])
  }

  predicate CanSend(s: Session, n: nat) {
    !s.stopped && s.writer.Writing? && s.writer.sent + n <= |s.writer.message.Wire()|
  }

  function Send(s: Session, n: nat): Session
    requires CanSend(s, n)
  {
    var Writing(m, sent) := s.writer;
    s.(writer := Writing(m, sent + n), wire := s.wire + m.Wire()[sent..sent + n])
  }

  predicate WriteComplete(s: Session) {
    s.writer.Writing? && s.writer.sent == |s.writer.message.Wire()|
  }

  /** The writer resumes after a complete write. */
  function WriteDone(s: Session): Session
    requires WriteComplete(s)
  {
    var t := s.(written := s.written + [s.writer.message]);
    if s.writer.message.close then Stop(t.(writer := Returned)) else t.(writer := Ready)
  }

  /** The write throws: a network error, or the socket was closed. */
  function WriteFail(s: Session): Session
    requires s.writer.Writing?
  {
    Stop(s.(writer := Failed(s.writer.message, s.writer.sent)))
  }

  /** check_login_deadline resumes. */
  function DeadlineResume(s: Session): Session
    requires s.timer.Fired? || s.timer.Cancelled?
  {
    if s.timer.Fired? && !s.authenticated then Stop(s.(timer := Over)) else s.(timer := Over)
  }

  /** The reader's read fails or the header is refused. */
  function ReadFail(s: Session): Session {
    Stop(s.(pc := Ended))
  }

  // ---------- The reader and the handlers ----------

  /** What one resumption of the reader does: suspend again, answer, or notify a session here or at the peer. */
  datatype Next =
    | Await(session: Session)
    | Answer(session: Session, reply: Message)
    | NotifyHere(notice: Notice)
    | NotifyPeer(notice: Notice)

  /** The outcome of the lookup or query a resumption waited for. */
  datatype Choice = Throws | NotFound | Found(text: Text)

  predicate Handling(pc: Pc) { !(pc.Idle? || pc.Arrived? || pc.Ended?) }

  predicate Resumable(pc: Pc) {
    || pc.Arrived? || pc.TokenGot? || pc.UserLookup? || pc.CountDone? || pc.Lists? || pc.Searching?
    || pc.TableDone? || pc.RouteGot? || pc.NameGet?
  }

  /** handle_message up to the handler's first suspension. */
  function Dispatch(c: Codec, s: Session, f: Frame): Next {
    var t := s.(requests := s.requests + [Request(f, s.authenticated, s.uid)]);
    if !s.authenticated && f.id != Code(LoginRequest) then Answer(t, ErrorAndClose(c, f.id, NotAuthenticated))
    else
      var body := CString(f.body);
      match EnumCast(f.id)
      case Some(LoginRequest) => (
        match c.parseLogin(body)
        case None => Answer(t, ErrorAndClose(c, f.id, InvalidJson))
        case Some(r) => Await(t.(pc := TokenGet(r.uid, r.token))))
      case Some(SearchUserRequest) =>
        if c.parseSearch(body) then Await(t.(pc := Searching))
        else Answer(t, ErrorReply(c, Code(SearchUserResponse), InvalidJson))
      case Some(AddFriendRequest) => (
        match c.parseAddFriend(body)
        case None => Answer(t, ErrorReply(c, Code(AddFriendResponse), InvalidJson))
        case Some(r) =>
          if r.uid != s.uid || r.uid == r.touid then Answer(t, ErrorReply(c, Code(AddFriendResponse), UserUidInvalid))
          else Await(t.(pc := TableWrite(AddNotice(r.uid, r.touid, [])))))
      case Some(AuthFriendRequest) => (
        match c.parseAuthFriend(body)
        case None => Answer(t, ErrorReply(c, Code(AuthFriendResponse), InvalidJson))
        case Some(r) =>
          if r.uid != s.uid || r.uid == r.touid then Answer(t, ErrorReply(c, Code(AuthFriendResponse), UserUidInvalid))
          else Await(t.(pc := TableWrite(AuthNotice(r.uid, r.touid)))))
      case Some(TextChatMsgReq) => (
        match c.parseText(body)
        case None => Answer(t, ErrorReply(c, Code(TextChatMsgRsp), InvalidJson))
        case Some(r) =>
          if r.fromuid != s.uid || r.fromuid == r.touid then Answer(t, ErrorReply(c, Code(TextChatMsgRsp), UserUidInvalid))
          else Await(t.(pc := RouteGet(TextNotice(r.fromuid, r.touid, r.items)))))
      case _ => Answer(t, EmptyReply(f.id))
  }

  function NotifyVia(s: Session, n: Notice, server: string): Next {
    if server == s.home.Name() then NotifyHere(n) else NotifyPeer(n)
  }

  /** The rest of the handlers, one suspension at a time; `count` is the server's participant count. */
  function Continue(c: Codec, s: Session, count: nat, choice: Choice): Next
    requires Resumable(s.pc)
  {
    match s.pc
    case Arrived(f) => Dispatch(c, s, f)
    case TokenGot(uid, token, stored) =>
      if stored == Some(token) then Await(Match(s, uid).(pc := UserLookup(uid)))
      else Answer(s, ErrorAndClose(c, Code(LoginResponse), TokenInvalid))
    case UserLookup(uid) => (
      match choice
      case Throws => Answer(Note(s, LookupFailed), ErrorReply(c, Code(LoginResponse), InternalError))
      case Found(_) => Await(s.(pc := CountSet(uid, count)))
      case _ => Answer(Note(s, NoUser), ErrorAndClose(c, Code(LoginResponse), InternalError)))
    case CountDone(uid) => Await(Authenticate(s, uid).(pc := RouteSet(uid)))
    case Lists(uid) =>
      if choice.Found? then Answer(s, TextReply(LoginResponse, choice.text))
      else Answer(s, ErrorReply(c, Code(LoginResponse), InternalError))
    case Searching => (
      match choice
      case Throws => Answer(s, ErrorReply(c, Code(SearchUserResponse), InternalError))
      case Found(text) => Answer(s, TextReply(SearchUserResponse, text))
      case _ => Answer(s, ErrorReply(c, Code(SearchUserResponse), UserNotFound)))
    case TableDone(n, failed) =>
      if failed then Answer(s, ErrorReply(c, Code(ResponseId(RequestId(n))), InternalError))
      else Await(s.(pc := RouteGet(n)))
    case RouteGot(n, server) =>
      if server.None? then Answer(s, ErrorReply(c, Code(ResponseId(RequestId(n))), Success))
      else if n.AddNotice? then Await(s.(pc := NameGet(n, server.value)))
      else NotifyVia(s, n, server.value)
    case NameGet(n, server) =>
      if choice.Found? && n.AddNotice? then NotifyVia(s, n.(name := choice.text), server)
      else Answer(s, ErrorReply(c, Code(ResponseId(RequestId(n))), InternalError))
  }

  /** The reader delivers the reply to its own session and reads on. */
  function Finish(s: Session, reply: Message): Session {
    Deliver(s.(pc := Idle), reply, Reply(Current(s)))
  }
}
