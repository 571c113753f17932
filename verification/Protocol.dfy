/** Message ids, errors, requests and notifications of the chat servers, and the peer RPC's conversions. */
module Protocol {
  import opened Wrappers
  import opened Framing

  type Text = Bytes

  datatype MessageId =
    | LoginRequest | LoginResponse | SearchUserRequest | SearchUserResponse | AddFriendRequest | AddFriendResponse
    | NotifyAddFriend | AuthFriendRequest | AuthFriendResponse | NotifyAuthFriend
    | TextChatMsgReq | TextChatMsgRsp | NotifyTextChatMsg | InvalidRequest

  function Code(m: MessageId): nat {
    match m
    case LoginRequest => 1005
    case LoginResponse => 1006
    case SearchUserRequest => 1007
    case SearchUserResponse => 1008
    case AddFriendRequest => 1009
    case AddFriendResponse => 1010
    case NotifyAddFriend => 1011
    case AuthFriendRequest => 1013
    case AuthFriendResponse => 1014
    case NotifyAuthFriend => 1015
    case TextChatMsgReq => 1017
    case TextChatMsgRsp => 1018
    case NotifyTextChatMsg => 1019
    case InvalidRequest => 1500
  }

  /** magic_enum::enum_cast of a 32-bit id: the id is first reduced to the enum's 16 bits. */
  function EnumCast(id: nat): (r: Option<MessageId>)
    ensures r.Some? ==> Code(r.value) == id % 65536
  {
    match id % 65536
    case 1005 => Some(LoginRequest)
    case 1006 => Some(LoginResponse)
    case 1007 => Some(SearchUserRequest)
    case 1008 => Some(SearchUserResponse)
    case 1009 => Some(AddFriendRequest)
    case 1010 => Some(AddFriendResponse)
    case 1011 => Some(NotifyAddFriend)
    case 1013 => Some(AuthFriendRequest)
    case 1014 => Some(AuthFriendResponse)
    case 1015 => Some(NotifyAuthFriend)
    case 1017 => Some(TextChatMsgReq)
    case 1018 => Some(TextChatMsgRsp)
    case 1019 => Some(NotifyTextChatMsg)
    case 1500 => Some(InvalidRequest)
    case _ => None
  }

  /** The numbers of the Python client's table, by the name of the constant. */
  function ClientCode(m: MessageId): nat {
    match m
    case LoginRequest => 1005
    case LoginResponse => 1006
    case SearchUserRequest => 1007
    case SearchUserResponse => 1008
    case AddFriendRequest => 1009
    case AddFriendResponse => 1010
    case NotifyAddFriend => 1011
    case AuthFriendRequest => 1013
    case AuthFriendResponse => 1014
    case NotifyAuthFriend => 1015
    case TextChatMsgReq => 1017
    case TextChatMsgRsp => 1018
    case NotifyTextChatMsg => 1019
    case InvalidRequest => 1500
  }

  /** An id is recognised as a message exactly when its low 16 bits are that message's number in the client's table, which is
      the server's own. */
  lemma RecognisedIff(id: nat, m: MessageId)
    ensures EnumCast(id) == Some(m) <==> ClientCode(m) == id % 65536
    ensures Code(m) == ClientCode(m)
  {
  }

  /** get_response_id. */
  function ResponseId(m: MessageId): MessageId {
    match m
    case LoginRequest => LoginResponse
    case SearchUserRequest => SearchUserResponse
    case AddFriendRequest => AddFriendResponse
    case AuthFriendRequest => AuthFriendResponse
    case TextChatMsgReq => TextChatMsgRsp
    case _ => InvalidRequest
  }

  /** The ids that handlers_init registers. */
  predicate HasHandler(m: MessageId) {
    m.LoginRequest? || m.SearchUserRequest? || m.AddFriendRequest? || m.AuthFriendRequest? || m.TextChatMsgReq?
  }

  datatype ServerError =
    | Success | InvalidJson | RPCFailed | TokenInvalid | InternalError | UserNotFound | UserUidInvalid | NotAuthenticated

  /** The two servers of the configuration; each one's peer channel leads to the other. */
  datatype ServerId = Server1 | Server2 {
    function Peer(): ServerId { if this == Server1 then Server2 else Server1 }

    function Name(): string { if this == Server1 then "chat_server1" else "chat_server2" }
  }

  // ---------- Requests and notifications ----------

  datatype LoginBody = LoginBody(uid: int, token: Text)
  datatype PairBody = PairBody(uid: int, touid: int)
  datatype TextItem = TextItem(msgid: int, content: Text)
  datatype TextBody = TextBody(fromuid: int, touid: int, items: seq<TextItem>)

  /** A notification with its addressee: what a handler wants delivered to the session of uid `to`. */
  datatype Notice =
    | AddNotice(from: int, to: int, name: Text)
    | AuthNotice(from: int, to: int)
    | TextNotice(from: int, to: int, items: seq<TextItem>)

  /** The JSON layer: what each body parses to, if anything, and what each value is dumped to. */
  datatype Codec = Codec(
    parseLogin: Text -> Option<LoginBody>,
    parseSearch: Text -> bool,
    parseAddFriend: Text -> Option<PairBody>,
    parseAuthFriend: Text -> Option<PairBody>,
    parseText: Text -> Option<TextBody>,
    dumpAddFriend: (int, Text) -> Text,
    dumpAuthFriend: (int, int) -> Text,
    dumpText: (int, int, seq<TextItem>) -> Text,
    errorText: ServerError -> Text)

  function Dump(c: Codec, n: Notice): Text {
    match n
    case AddNotice(from, to, name) => c.dumpAddFriend(from, name)
    case AuthNotice(from, to) => c.dumpAuthFriend(from, to)
    case TextNotice(from, to, items) => c.dumpText(from, to, items)
  }

  function NoticeId(n: Notice): MessageId {
    match n
    case AddNotice(_, _, _) => NotifyAddFriend
    case AuthNotice(_, _) => NotifyAuthFriend
    case TextNotice(_, _, _) => NotifyTextChatMsg
  }

  function RequestId(n: Notice): MessageId {
    match n
    case AddNotice(_, _, _) => AddFriendRequest
    case AuthNotice(_, _) => AuthFriendRequest
    case TextNotice(_, _, _) => TextChatMsgReq
  }

  /** `n` is what the request frame `f` asks to have delivered. */
  ghost predicate AskedBy(c: Codec, f: Frame, n: Notice) {
    && EnumCast(f.id) == Some(RequestId(n))
    && match n
       case AddNotice(from, to, _) => c.parseAddFriend(CString(f.body)) == Some(PairBody(from, to))
       case AuthNotice(from, to) => c.parseAuthFriend(CString(f.body)) == Some(PairBody(from, to))
       case TextNotice(from, to, items) => c.parseText(CString(f.body)) == Some(TextBody(from, to, items))
  }

  // ---------- The peer RPC ----------

  predicate IsInt32(x: int) { -0x8000_0000 <= x < 0x8000_0000 }

  /** Assignment of an int64 to a protobuf int32 field. */
  function Narrow(x: int): (r: int)
    ensures IsInt32(r)
    ensures r == x <==> IsInt32(x)
    ensures (x - r) % 0x1_0000_0000 == 0
  {
    assert x + 0x8000_0000 == 0x1_0000_0000 * ((x + 0x8000_0000) / 0x1_0000_0000) + (x + 0x8000_0000) % 0x1_0000_0000;
    (x + 0x8000_0000) % 0x1_0000_0000 - 0x8000_0000
  }

  function NarrowItems(items: seq<TextItem>): (r: seq<TextItem>)
    ensures |r| == |items|
    ensures forall i :: 0 <= i < |r| ==> r[i] == TextItem(Narrow(items[i].msgid), items[i].content)
  {
    if items == [] then []
    else NarrowItems(items[..|items| - 1]) + [TextItem(Narrow(items[|items| - 1].msgid), items[|items| - 1].content)]
  }

  /** The notification the peer builds from the protobuf message the caller built. */
  function AcrossRpc(n: Notice): (r: Notice)
    ensures NoticeId(r) == NoticeId(n)
  {
    match n
    case AddNotice(from, to, name) => AddNotice(Narrow(from), Narrow(to), name)
    case AuthNotice(from, to) => AuthNotice(Narrow(from), Narrow(to))
    case TextNotice(from, to, items) => TextNotice(Narrow(from), Narrow(to), NarrowItems(items))
  }

  predicate FitsInt32(n: Notice) {
    && IsInt32(n.from) && IsInt32(n.to)
    && (n.TextNotice? ==> forall i :: 0 <= i < |n.items| ==> IsInt32(n.items[i].msgid))
  }

  /** The RPC carries a notification unchanged exactly when all its numbers fit the protobuf fields. */
  lemma RpcIsTransparent(n: Notice)
    ensures AcrossRpc(n) == n <==> FitsInt32(n)
  {
    if n.TextNotice? {
      var r := NarrowItems(n.items);
      if AcrossRpc(n) == n {
        forall i | 0 <= i < |n.items| ensures IsInt32(n.items[i].msgid) {
          assert r[i] == n.items[i];
        }
      }
    }
  }

  /** GrpcTextChatMsgRequest's conversion operator followed by NotifyTextChatMessage's constructor: two append loops. */
  method CarryItems(items: seq<TextItem>) returns (r: seq<TextItem>)
    ensures r == NarrowItems(items)
  {
    var textmsgs: seq<TextItem> := [];
    for i := 0 to |items|
      invariant textmsgs == NarrowItems(items[..i])
    {
      assert items[..i + 1][..i] == items[..i];
      textmsgs := textmsgs + [TextItem(Narrow(items[i].msgid), items[i].content)];
    }
    assert items[..|items|] == items;
    r := [];
    for i := 0 to |textmsgs|
      invariant r == textmsgs[..i]
    {
      r := r + [TextItem(textmsgs[i].msgid, textmsgs[i].content)];
    }
  }

  // ---------- Messages ----------

  /** ChannelMessage: a node's id and body, and whether the connection is closed once it is sent. */
  datatype Message = Message(id: nat, body: Text, close: bool) {
    function Wire(): Bytes { Encode(Frame(id, body)) }
  }

  datatype Route = Local | Remote

  function PushMessage(c: Codec, route: Route, n: Notice): Message {
    var m := if route == Remote then AcrossRpc(n) else n;
    Message(Code(NoticeId(m)), ConstructedBody(Dump(c, m)), false)
  }

  // ---------- What a notification says ----------

  /** The text items as they arrive: as they were sent, or, across the RPC, with each message id reduced to 32 bits. */
  predicate Arrive(route: Route, items: seq<TextItem>, arrived: seq<TextItem>) {
    match route
    case Local => arrived == items
    case Remote =>
      && |arrived| == |items|
      && forall j :: 0 <= j < |items| ==> arrived[j].content == items[j].content && Reduced(items[j].msgid, arrived[j].msgid)
  }

  predicate Reduced(x: int, r: int) {
    -2147483648 <= r <= 2147483647 && (x - r) % 4294967296 == 0
  }

  /** `m` tells what the request frame `f` asks for: a text with all its items under id 1019, an acceptance of its two users
      under id 1015, an application under id 1011 with its sender's `name`. */
  ghost predicate Tells(c: Codec, f: Frame, route: Route, name: Text, m: Message) {
    var body := CString(f.body);
    match f.id % 65536
    case 1017 =>
      c.parseText(body).Some? &&
      var b := c.parseText(body).value;
      exists items :: Arrive(route, b.items, items) &&
        m == Message(1019, ConstructedBody(c.dumpText(b.fromuid, b.touid, items)), false)
    case 1013 =>
      c.parseAuthFriend(body).Some? &&
      var b := c.parseAuthFriend(body).value;
      m == Message(1015, ConstructedBody(c.dumpAuthFriend(b.uid, b.touid)), false)
    case 1009 =>
      c.parseAddFriend(body).Some? &&
      var b := c.parseAddFriend(body).value;
      m == Message(1011, ConstructedBody(c.dumpAddFriend(b.uid, name)), false)
    case _ => false
  }

  lemma PushTells(c: Codec, f: Frame, route: Route, n: Notice)
    requires AskedBy(c, f, n) && IsInt32(n.from) && IsInt32(n.to)
    ensures Tells(c, f, route, if n.AddNotice? then n.name else [], PushMessage(c, route, n))
  {
    hide CString, ConstructedBody;
    var m := if route == Remote then AcrossRpc(n) else n;
    if n.TextNotice? {
      assert Arrive(route, n.items, m.items);
    }
  }

  function EmptyReply(id: nat): Message { Message(id, [], false) }

  function TextReply(m: MessageId, text: Text): Message { Message(Code(m), ConstructedBody(text), false) }

  function ErrorReply(c: Codec, id: nat, e: ServerError): Message {
    Message(id, ConstructedBody(c.errorText(e)), false)
  }

  function ErrorAndClose(c: Codec, id: nat, e: ServerError): Message {
    ErrorReply(c, id, e).(close := true)
  }

  /** A frame as a session received it, whether the session was authenticated at that moment, and its uid then. */
  datatype Request = Request(frame: Frame, authenticated: bool, uid: int)

  /** What a login request asks for. */
  function LoginOf(c: Codec, r: Request): Option<LoginBody> {
    if EnumCast(r.frame.id) == Some(LoginRequest) then c.parseLogin(CString(r.frame.body)) else None
  }

  /** How far the login of one request got: its token matched, the user lookup failed, or it authenticated the session. */
  datatype Stage = TokenMatched | NoUser | LookupFailed | LoggedIn

  /** The reply a request may get: under the response id of the request, except that an unauthenticated request, an
      unknown or unhandled id, a malformed login and a failed peer RPC are answered under the request's own 32-bit id.
      A login whose token does not match, or whose user does not exist, closes the connection; a lookup that throws does
      not, nor does any answer once the session is authenticated. */
  ghost predicate ProperReply(c: Codec, r: Request, m: Message, stage: Option<Stage>) {
    var f := r.frame;
    if !r.authenticated && f.id != Code(LoginRequest) then m == ErrorAndClose(c, f.id, NotAuthenticated)
    else
      match EnumCast(f.id)
      case None => m == EmptyReply(f.id)
      case Some(LoginRequest) =>
        if c.parseLogin(CString(f.body)).None? then m == ErrorAndClose(c, f.id, InvalidJson)
        else (
          match stage
          case None => m == ErrorAndClose(c, Code(LoginResponse), TokenInvalid)
          case Some(NoUser) => m == ErrorAndClose(c, Code(LoginResponse), InternalError)
          case Some(LookupFailed) => m == ErrorReply(c, Code(LoginResponse), InternalError)
          case Some(LoggedIn) => m.id == Code(LoginResponse) && !m.close
          case Some(TokenMatched) => false)
      case Some(SearchUserRequest) => m.id == Code(SearchUserResponse) && !m.close
      case Some(q) =>
        if !HasHandler(q) then m == EmptyReply(f.id)
        else (m.id == Code(ResponseId(q)) && !m.close) || m == ErrorReply(c, f.id, RPCFailed)
  }
}
