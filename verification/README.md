# Verified model of the chat backend

A Dafny model of the distributed chat system: two chat servers over one Redis and one database, with the status, verify
and gate servers' logic beside them. `dafny verify dfyconfig.toml` checks all of it.

## What is modelled

- **The chat cluster** (`Sessions`, `Cluster` and the `Cluster*` theorem modules). A step is one uninterrupted stretch
  of one coroutine, one command that Redis or the database executes or fails, or one event of the network, a timer or
  the peer. All coroutines of a server share a thread, so a server blocked in a peer RPC takes no other step. Every
  choice that the program does not make (which participant of an equal uid is found first, what memory `uid_` held, how
  many bytes a write takes, when a command fails) is a parameter of the step, and the theorems hold for every run.
- **The objects behind it** (`ChatServers`, `MsgNode` and `Socket` in `Framing`, `FriendRepo`, `UserRepo`, `Services`,
  `MailClient`). Where the program changes fields or buffers in place, a class does, and its methods are proved against
  the step functions that the machines run.
- **The stores**: the user cache interleaved at its commands (`UserCache`), the friend tables (`FriendTables`), the
  verification codes with their time to live (`VerifyCodes`), and one flat key space used as several maps (`KeySpace`).
- **Framing** (`Framing`): the byte-level codec against the independent one of the Python client, and streams cut
  anywhere.
- **The allocator** (`Allocator`) and **the mail client** (`MailQueue`, `ShellQuote`).

## Where the code and its documentation or intent differ

The model follows the code. Each of these is stated exactly.

- Accepting a friend does not set the applicant's row to status 1, as `tests/TEST_PLAN.md` line 109 promises: the
  handler passes (approver, applicant) to a statement keyed on (applicant, approver). Only the applicant's own later
  acceptance sets it (`ClusterTables.AcceptedIffByTheApplicant`, with a run in `AcceptedApplicationStaysPendingInARun`).
- `stop` does not interrupt the handler that the reader is in. A session closed by its login deadline can still become
  authenticated, exactly when it holds a login with the token in Redis, and then its uid is routed to a server where it
  has no participant (`ClusterDeadline.LoginAfterStop`, `ClusterWitnesses.LoginAfterDeadline`).
- The peer RPC blocks the server's only thread, so two users who text each other across the servers can make both wait
  for ever; this is the only way an RPC cannot go on (`ClusterProgress.StuckIffMutualWait`,
  `ClusterWitnesses.MutualWaitIsReachable`).
- `uid_` has no initial value. A connection that never logged in can be told what was meant for a user exactly when its
  memory held that user's uid (`ClusterStrangers.ToldInErrorIffStranger`, with a run in `StrangerIsTold`).
- `reset_password` leaves the cached user behind, and a lookup under way may cache the old password even afterwards
  (`UserCache.CachedIsExactIff`, with runs in `CachedPasswordMayBeStale`, `StalePasswordIsReturned` and
  `StalePasswordMayBeCached`).
- A body that is too long becomes an empty one, and a body ends at its first NUL (`Framing.ConstructedNodeDecodes`).
- Some errors are answered under the request's id instead of the response id (`ClusterReplies.OwnIdIff`).
- Two overlapping requests for a verification code may get different ones, exactly when one is about to store a code
  while another lives (`VerifyCodes.SameCodeIffNonePending`, with a run in `OverlappingRequestsMayDiffer`).
  The mail says three minutes; the code lives for 600 seconds.
- `participant_count` is a 32-bit number; the balance of the allocator holds exactly as long as it does not wrap
  (`Allocator.AlwaysBalancedIffNoWrap`).

## Model

| member | source | states |
|---|---|---|
| ClusterTheorems.PerSenderOrder | chat_server/chat_server.hpp:163-197 | after every run over both servers, the notifications that one session's requests offered to another, by either route, are what a subsequence of those requests asked for, in request order |
| ClusterTheorems.PerSenderOrderOnTheWire | chat_server/chat_server.hpp:199-213 | the same for what was written to the receiver's connection, after drops, stops and partial writes |
| ClusterTheorems.NotificationSoundness | chat_server/handle_message.cpp:484-530 | every notification was asked for by a request that its sender made while authenticated, names the uid the sender's session had at that request, which an earlier login of that session proved with the issued token, differs from the addressee, and was enqueued where the session's uid was the addressee's; that uid was proven there in the same way unless the receiver's memory happened to hold it; it went by the RPC exactly if the two sessions are on different servers; and the message tells what that request's frame asks for |
| ClusterPushes.PushedContent | chat_server/handle_message.cpp:324-530 | every notification in every run, in the numbers of the protocol: under id 1019 the request's two uids and all its text items, in order and with equal contents, each message id unchanged on one server and reduced to the int32 congruent to it across the RPC; under 1015 the two uids of the acceptance in their order; under 1011 the applicant's uid and a name; it goes to the uid asked for |
| ClusterPushes.RunNames | chat_server/handle_message.cpp:344-377 | the name told of an application is the one that the user lookup of that same request returned in the run |
| Protocol.PushTells | chat_server/grpc_service.hpp:194-249 | the frame built for a notice, by either route, is the one its request asks for |
| ClusterTheorems.NotifiedAtMostOnce | chat_server/chat_server.hpp:60-68 | no request has more than one notification enqueued, to one session or to several |
| ClusterTheorems.LocationTransparency | chat_server/grpc_service.hpp:178-249 | a notification that went through the peer RPC is the one a local delivery of its request enqueues whenever its message ids fit 32 signed bits, for a session of the same uid; every reachable uid fits; and the notification crosses unchanged exactly when its message ids fit |
| ClusterTheorems.OutboxConservation | chat_server/chat_server.hpp:105-125 | in every run each accepted message is written, in hand or queued, in order of acceptance; at most 64 are queued; the wire is a byte prefix of the accepted frames; nothing follows a closing message, which ends the session |
| ClusterTheorems.StoppedForGood | chat_server/chat_server.hpp:215-221 | from any moment of a run on, a stopped session is never a participant again and its wire never grows |
| ClusterTheorems.DeadlineSparesAuthenticated | chat_server/chat_server.hpp:150-161 | once a session is authenticated no later deadline step stops it or takes it out of the participants, also when the timer had already expired before the login cancelled it |
| ClusterTheorems.WhatStopsASession | chat_server/chat_server.hpp:163-221 | a session is stopped only by a failed or refused read, a failed write, a written closing message, or its deadline while unauthenticated |
| ClusterTokens.TokensAreIssued | status_server/grpc_service.hpp:47-51 | in every run Redis holds for each uid exactly the token the status server wrote last |
| ClusterTokens.MatchNeedsTheToken | chat_server/handle_message.cpp:249-255 | in every run a uid counts as matched on a session only if one of that session's own requests was a login of that uid that presented the token last issued for it when Redis executed the GET |
| ClusterTheorems.StopIsIdempotent | chat_server/chat_server.hpp:215-221 | stopping a stopped session changes nothing, neither its state nor its server's participants |
| ClusterTheorems.AuthenticationGate | chat_server/handle_message.cpp:546-562 | in every run no handler but login works on a request unless it was taken while the session was authenticated, and the uid it then had was proven by an earlier request of that session, a login with the issued token, although ids are narrowed to 16 bits |
| ClusterReplies.ReplyDiscipline | chat_server/handle_message.cpp:546-577 | in every run each handled frame has exactly one offered reply, in request order, and it is the one, with its id, text and closing flag written out, that the request and the recorded outcomes of its own token check, lookups, statement and peer RPC in that run determine; a login got past its token only with the issued one and on to acceptance only after its user was found; only the frame being handled may still wait for its reply |
| ClusterReplies.RequestsAreReceived | chat_server/chat_server.hpp:163-197 | in every run the requests of a session are the frames its reads delivered, unchanged and in order; only the last one may not have been taken up yet |
| ClusterReplies.ClosesIff | chat_server/handle_message.cpp:246-260 | a reply closes the connection exactly if its request was unauthenticated and not a login, or was a malformed login, or was a login whose token was refused or whose user does not exist |
| ClusterReplies.HangingUpEndsIt | chat_server/chat_server.hpp:199-213 | once the reply to such a request is written it is the last message of its connection, and the session is stopped |
| ClusterReplies.OwnIdIff | chat_server/handle_message.cpp:246 | a reply carries the request's own 32-bit id exactly for an unauthenticated request, an unknown or unhandled id, a malformed login, or a request whose peer RPC failed |
| ClusterProgress.RouteIsTheLastLogin | chat_server/handle_message.cpp:196-207 | every routing entry holds the name of the server at which the run's last completed login write of its uid was executed, and that uid's token matched on a session there; there is an entry exactly for the uids with such a write |
| ClusterDelivery.RequestIsDelivered | chat_server/handle_message.cpp:498-529 | in every continuation of every reachable state, whatever is interleaved: if a request's own commands and RPC do not fail, its route names server x, and one open participant of x with room holds the addressee when the notice is handed over, then once the request is answered exactly one notification of it was offered, accepted, and to that participant, and its message tells what the request's frame asks for |
| ClusterProgress.TextCanBeDelivered | chat_server/handle_message.cpp:498-529 | with both servers running such a continuation exists, of two steps locally and four through the peer |
| ClusterProgress.StuckIffMutualWait | chat_server/grpc_service.hpp:178-191 | with a server blocked in a peer RPC, no RPC step is possible exactly when both servers wait for each other |
| ClusterProgress.HandlerCanGoOn | chat_server/chat_server.hpp:163-197 | in every reachable state a session that has taken a frame in and not answered it can go on, unless its server is blocked in an RPC |
| ClusterProgress.WriterCanGoOn | chat_server/chat_server.hpp:199-213 | likewise an open session with a message queued or in hand can send on |
| ClusterProgress.RpcsReturn | chat_server/grpc_service.hpp:146-192 | unless both wait for each other, at most four RPC steps free both servers |
| ClusterProgress.MutualWaitIsForever | chat_server/main.cpp:67-117 | in a mutual wait no session is offered or sent anything again until an RPC fails |
| ClusterDeadline.PendingLoginSucceeds | chat_server/handle_message.cpp:242-288 | a login under way whose token is the one in Redis, or was when Redis was asked, can be carried out from every reachable state, stopped or not, its server blocked or not, with no token issued meanwhile |
| ClusterDeadline.HopelessForever | chat_server/handle_message.cpp:546-552 | a stopped, unauthenticated session with no such login pending is never authenticated, whatever happens, unless the very token it presented is issued yet |
| ClusterDeadline.LoginAfterStop | chat_server/chat_server.hpp:150-161 | in every reachable state a stopped unauthenticated session can still become authenticated, by a continuation that does not issue the presented token by chance, exactly when its reader holds a login with the token that Redis holds, or held when it was asked |
| ClusterWitnesses.LoginCompletes | chat_server/handle_message.cpp:242-288 | a received login with the stored token has a fault-free run that authenticates the session under that uid, writes its routing entry and lets it read on, with no other session touched |
| ClusterWitnesses.TextReachesTheCall | chat_server/handle_message.cpp:498-523 | a text to a uid routed to the other server has a run that blocks the server in the peer RPC |
| ClusterWitnesses.LoginAfterDeadline | chat_server/chat_server.hpp:147-161 | a concrete run in which the deadline closes a session and its login completes afterwards, with a routing entry and no participant |
| ClusterWitnesses.MutualWaitIsReachable | chat_server/main.cpp:67-117 | a concrete fault-free run that ends in the mutual wait |
| ClusterStrangers.ToldInErrorIffStranger | chat_server/chat_server.hpp:227 | in every reachable state a session can still be offered a notification for a uid that never matched on it exactly when it is open, not logged in, and its memory held that 32-bit uid |
| ClusterStrangers.StrangerIsTold | chat_server/chat_server.hpp:60-68 | a concrete run in which a connection that sent nothing is offered a text between two logged-in users |
| ClusterSteps.StepKeepsInv | chat_server/chat_server.hpp:36-228 | the cluster invariant (outboxes, replies, gate, participants, routes, tokens, notifications, order, uniqueness) is inductive over every step, and no step takes anything from a session's record |
| ClusterSteps.RunKeepsInv | chat_server/chat_server.hpp:36-228 | the cluster invariant holds after every run |
| ClusterSteps.RunOnlyGrows | chat_server/chat_server.hpp:103-221 | from any moment of a run to its end, what each session handled, was offered and wrote is only extended, and stopped and authenticated stay so |
| SessionInvariants.DeliverKeepsOutbox | chat_server/chat_server.hpp:119-125 | a delivered message is handed to a waiting writer, else queued last, else, exactly when 64 are queued, refused; the accepted ones are not disturbed |
| SessionInvariants.WriteDoneKeepsOutbox | chat_server/chat_server.hpp:199-213 | a complete write moves exactly the message in hand to the wire, and a closing one stops the session |
| SessionInvariants.ContinueKeepsSession | chat_server/handle_message.cpp:242-530 | every resumption of a handler keeps the session's invariant, answers only with a proper reply, and asks for a notification only in the authenticated uid's name |
| Protocol.RecognisedIff | tests/message_ids.py:7-20 | a 32-bit id is taken for a message exactly when its low 16 bits are that message's number in the Python client's table, which is also the server's own |
| Protocol.RpcIsTransparent | proto/message.proto:46-79 | the RPC's conversions are the identity exactly on notifications whose numbers all fit in 32 signed bits |
| Protocol.Narrow | proto/message.proto:46-79 | an int64 stored in an int32 field becomes the number in range that is congruent to it modulo 2^32, itself exactly when it was in range |
| Protocol.CarryItems | chat_server/grpc_service.hpp:112-129 | the two append loops keep every text item, in order, with its message id narrowed |
| ChatServers.DrainWrites | chat_server/chat_server.hpp:199-213 | on a connection that takes every byte the writer sends exactly the queued frames in order, up to and including the first closing one, stops if there was one, and otherwise waits on an empty channel |
| ChatServers.ChatServer.Join | chat_server/chat_server.hpp:40-43 | adds exactly that participant |
| ChatServers.ChatServer.Leave | chat_server/chat_server.hpp:46-49 | removes exactly that participant |
| ChatServers.ChatServer.ParticipantCount | chat_server/chat_server.hpp:51-54 | the number of participants if it fits in 32 bits, and else off by a multiple of 2^32 |
| ChatServers.ChatServer.GetParticipant | chat_server/chat_server.hpp:60-68 | a participant of that uid, and null exactly when there is none |
| ChatServers.ChatSession.constructor | chat_server/chat_server.hpp:77-82 | a fresh session is unauthenticated and open, with an empty channel and whatever uid its memory held |
| ChatServers.ChatSession.Start | chat_server/chat_server.hpp:84-87 | the session joins its server's participants |
| ChatServers.ChatSession.Deliver | chat_server/chat_server.hpp:119-125 | refines the machine's delivery: a waiting writer takes the message, else it is queued last if fewer than 64 are, else dropped |
| ChatServers.ChatSession.MarkAuthenticated | chat_server/chat_server.hpp:144-147 | authenticates and cancels only a deadline that has not expired yet |
| ChatServers.ChatSession.LogIn | chat_server/handle_message.cpp:272-275 | refines the machine's authentication with the login's uid |
| ChatServers.ChatSession.Stop | chat_server/chat_server.hpp:215-221 | refines the machine's stop and removes exactly this session from its server |
| ChatServers.ChatSession.CheckLoginDeadline | chat_server/chat_server.hpp:150-161 | refines the machine's deadline step; an authenticated session is neither closed nor removed |
| ChatServers.ChatSession.Writer | chat_server/chat_server.hpp:199-213 | the loop puts on the wire the queued frames up to and including the first closing one, and leaves the server exactly if it closed |
| Framing.SwapReadsPacked | chat_server/msg_node.hpp:81-100 | reading back the swapped memory image undoes the big-endian packing, at every width |
| Framing.HeaderRoundTrip | chat_server/msg_node.hpp:81-100 | a header written for any 32-bit id and 16-bit length parses back to exactly them |
| Framing.CodecsAgree | tests/msg_node.py:25-39 | the C++ codec produces the same bytes and accepts the same headers with the same result as the Python codec, which is given with its own numbers: four and two digits to the base 256, at most 1024 bytes |
| Framing.FramesUpTo1024 | chat_server/msg_node.hpp:18-21 | a frame of any 32-bit id and any body of at most 1024 bytes reads back whole |
| Framing.RefusedOver1024 | chat_server/msg_node.hpp:81-91 | a header is refused, whatever follows it, exactly when its two length bytes declare more than 1024 |
| Framing.StreamRoundTrip | tests/chat_client.py:51-64 | a stream of frames cut at any byte reads back as a prefix of them, and uncut as all of them |
| Framing.ReadChunks | chat_server/chat_server.hpp:163-181 | however the network cuts the bytes of a list of frames into pieces, the server's reader gets exactly that list and refuses nothing |
| Framing.ReceiveChunks | tests/chat_client.py:37-64 | the client's reader, called until it gives nothing, gets exactly that list |
| Framing.ConstructedNodeDecodes | chat_server/msg_node.hpp:24-33 | the frame of any text decodes, to the text before its first NUL or to nothing if that exceeds 1024 bytes; to the text itself exactly when it is NUL-free and has at most 1024 bytes |
| Framing.Socket.Recv | tests/chat_client.py:41-47 | a call takes at most the asked number of bytes off the front of the stream, and none only at its end |
| Framing.Socket.RecvExact | tests/chat_client.py:37-49 | the next n bytes in order, or nothing exactly when fewer remain |
| Framing.Socket.RecvMessage | tests/chat_client.py:51-64 | the first frame of the stream, which is taken off it, or nothing when it is cut or malformed |
| Framing.MsgNode.FromBody | chat_server/msg_node.hpp:24-33 | the buffer holds the encoding of the id and the body that fits, in place, whatever was passed |
| Framing.MsgNode.SetBodyLength | chat_server/msg_node.hpp:68-74 | takes the length exactly if it is at most 1024 and else changes nothing |
| Framing.MsgNode.EncodeHeader | chat_server/msg_node.hpp:94-100 | writes the big-endian id and length over the first six bytes and nothing else |
| Framing.MsgNode.DecodeHeader | chat_server/msg_node.hpp:81-91 | reads the id from the first four bytes and the length from the next two, most significant first, and refuses exactly a length above 1024 |
| Framing.ReadFrames | chat_server/chat_server.hpp:163-181 | the reader gets exactly the frames of the incoming stream, whatever its pieces, and reports whether a header was refused |
| FriendTables.RunKeepsInv | sql/friend.sql:1-20 | after any run friend rows are symmetric, irreflexive, unique and without a remark, and apply rows irreflexive and unique; from any earlier moment nothing was removed and no status went back |
| FriendTables.RowsTellTheRun | chat_server/friend_repo.hpp:33-63 | which apply and friend rows exist, and which have status 1, is exactly determined by which statements ran in which order |
| ClusterTables.TablesAreOps | chat_server/handle_message.cpp:324-457 | in every run over both servers the friend tables are exactly what the executed statements that the requests ask for, each about its own uid and touid in this order, make of empty ones |
| ClusterTables.EveryStatementWasAskedFor | chat_server/handle_message.cpp:329-410 | every executed statement was asked for by a request taken from a session then authenticated as the uid the statement comes from, after a login of that uid with the issued token |
| ClusterTables.AcceptedIffByTheApplicant | chat_server/handle_message.cpp:400-410 | in every run an application has status 1 exactly when the applicant itself sent an acceptance to the user it had applied to, after applying; the acceptance of the user who was asked never sets it, though it makes both friends |
| ClusterTables.AcceptedApplicationStaysPendingInARun | tests/TEST_PLAN.md:109 | a concrete run of two logged-in users, one applying and the other accepting, after which both are friends and the application has status 0 |
| ClusterTables.PushesAreRecorded | chat_server/handle_message.cpp:336-450 | whoever was told of an application finds its row in the table, and whoever was told of an acceptance finds both friend rows |
| FriendTables.AcceptanceOfTheApplicantsRow | chat_server/friend_repo.hpp:47-63 | the acceptance statement with (approver, applicant) leaves the applicant's row with status 1 exactly if it had it before, and leaves both friend rows |
| FriendTables.AcceptedApplicationStaysPending | tests/TEST_PLAN.md:109 | the shortest run in which an accepted application keeps status 0 |
| FriendTables.StatementsAreIdempotent | chat_server/friend_repo.hpp:33-63 | running a statement again changes nothing more |
| FriendTables.FriendListsAreMutual | chat_server/friend_repo.hpp:85-103 | after any run two existing users list each other or neither does, exactly when one accepted the other |
| FriendTables.FriendRepo.AddFriendApply | chat_server/friend_repo.hpp:33-45 | the tables change as the machine's insert-or-keep statement says |
| FriendTables.FriendRepo.AuthFriendApply | chat_server/friend_repo.hpp:47-63 | the tables change as the machine's transaction says |
| FriendTables.FriendRepo.GetFriendApplies | chat_server/friend_repo.hpp:65-83 | exactly one entry for each row applying to the user from an existing user, in the order of the rows, with status and name |
| FriendTables.FriendRepo.GetFriends | chat_server/friend_repo.hpp:85-103 | exactly one entry for each friend row of the user to an existing user, in the order of the rows, with remark and name |
| UserCache.CacheAgreesWithTable | chat_server/handle_message.cpp:142-194 | in every interleaving each cached user is what the slow lookup by its key finds, but for the password, and is as a whole the user's row at some moment of the run; absence is never cached |
| UserCache.LookupAgreesWithTable | chat_server/handle_message.cpp:171-194 | a completed lookup agrees with the slow lookup in the same sense and finds every user that was registered when it began |
| UserCache.ResetAndCache | gate_server/user_repo.hpp:86-96 | a password reset makes a cached entry of that user exact exactly if it already holds the new password, and leaves every other entry as exact as it was |
| UserCache.CachedIsExactIff | chat_server/handle_message.cpp:171-194 | in every run a cached user was found in the table by a lookup of its key, and is exactly its row now if and only if the last reset of that user since that read, if any, gave it the password that was read, also when the reset came before the cache write |
| UserCache.CachedPasswordMayBeStale | gate_server/dispatcher.cpp:280-306 | a concrete run that leaves an outdated password in the cache, cached before the reset |
| UserCache.StalePasswordIsReturned | chat_server/handle_message.cpp:142-194 | a concrete run in which a lookup begun after the reset returns the old password from the cache |
| UserCache.StalePasswordMayBeCached | chat_server/handle_message.cpp:189-192 | a concrete run in which a lookup caches an outdated password after the reset |
| Users.SelectIsUnique | chat_server/user_repo.hpp:35-62 | with the table's unique keys each of the two lookups has one possible answer: the row of that id, or the row of that name, and nothing exactly when there is none |
| Users.UserRepo.CreateUser | gate_server/user_repo.hpp:65-84 | refused exactly when the name or the email is taken, with nothing changed; else one new row under a new id |
| Users.UserRepo.ResetPassword | gate_server/user_repo.hpp:86-96 | only the password of the row of that name and email changes, and success is reported only if there is one |
| Users.UserRepo.CheckPassword | gate_server/user_repo.hpp:98-113 | an id of a user of that name and password, and nothing exactly when there is none |
| VerifyCodes.EveryChangeWasVerified | gate_server/dispatcher.cpp:253-306 | over all interleavings each account creation or password change follows the same request's read of the very code it presents, which was then the one stored last for that account's email, less than 600 seconds before, and had been made for that email |
| VerifyCodes.EveryRowWasVerified | gate_server/dispatcher.cpp:253-306 | every password in the user table was put there by such a creation or change |
| VerifyCodes.OnlyTheLiveCodePasses | gate_server/dispatcher.cpp:264-266 | the check is passed exactly by the code that is stored and unexpired for the email, and no code made for one email passes for another |
| VerifyCodes.SameCodeIffNonePending | verify_server/grpc_service.hpp:18-45 | in every reachable state with a live code for an email, every request for it that is answered while the code lives and without a failing GET for it gets that code, if and only if no other request is about to store one |
| VerifyCodes.SameCodeWithinItsTime | verify_server/grpc_service.hpp:18-45 | with none about to be stored, that holds along every continuation, whatever fails for other emails |
| VerifyCodes.StoringSettles | verify_server/grpc_service.hpp:38-44 | the last overlapping request to store settles the code for 600 seconds |
| VerifyCodes.OverlappingRequestsMayDiffer | verify_server/grpc_service.hpp:26-44 | a concrete run in which two overlapping requests answer different codes and only the later is live |
| VerifyCodes.Services.GetVerifyCode | verify_server/grpc_service.hpp:18-45 | run alone, the request is the machine's steps; an answered code is live for its email afterwards, and only a failed SETEX leaves it unanswered |
| VerifyCodes.Services.UserRegister | gate_server/dispatcher.cpp:253-278 | run alone, the request is the machine's steps; without the live code, or with a taken name or email, no account is created |
| VerifyCodes.Services.ResetPassword | gate_server/dispatcher.cpp:280-306 | run alone, the request is the machine's steps; without the live code, or without such a user, no password changes |
| KeySpace.RenderInjective | chat_server/message_common.hpp:75-80 | no two keys of the token, login-server, uid-info, name-info and count families are the same string |
| KeySpace.StatusServerKeys | status_server/grpc_service.hpp:25-49 | the status server's own key for a token is the one the chat servers read, and so is the hash of the counts |
| KeySpace.DecimalDenotes | chat_server/handle_message.cpp:171-221 | the number in a key is written in decimal: its digits denote it, after a sign if it is negative |
| KeySpace.StepRefines | common/redis_client.cpp:9-70 | each command keeps the correspondence between the flat store and the typed maps and gets the same reply |
| KeySpace.FlatRefinesTyped | chat_server/handle_message.cpp:171-221 | any sequence of commands gets from the one flat store exactly the replies of independent typed maps, if no email is a key of another family |
| KeySpace.AddressIsSafeIffOutside | verify_server/grpc_service.hpp:20-21 | an email can be used as a bare key without disturbing the other families exactly when it is none of their keys |
| Allocator.GetServerIndex | status_server/grpc_service.hpp:95-132 | the first server if the hash is empty or every count is the largest int64; else the one with the least count, missing counts being 0 and unknown names ignored, ties to the least name, then to the last position of a repeated name; the order of names is given by the first position at which they differ |
| Allocator.BeforeIff | status_server/grpc_service.hpp:108 | the map's order of two names is decided at the first position where they differ: the first name ends there or has the smaller character |
| Allocator.TieOfTheTwo | status_server/grpc_service.hpp:120-131 | with equal counts the answer for the two configured servers is the first, and no other |
| Allocator.ChoiceIsUnique | status_server/grpc_service.hpp:120-131 | that description fits exactly one index |
| Allocator.RoundsBalance | status_server/grpc_service.hpp:95-132 | after k rounds of choose, connect and log in over n distinct servers every server has the floor or the ceiling of k / n participants, for k up to n(2^32 - 1) + 1 |
| Allocator.WrapLosesBalance | chat_server/chat_server.hpp:51-54 | one round later a count has wrapped to zero and with several servers the balance is lost |
| Allocator.AlwaysBalancedIffNoWrap | chat_server/handle_message.cpp:209-221 | a run is balanced after each of its rounds exactly when there is one server or no count had to wrap |
| Allocator.RunRounds | status_server/grpc_service.hpp:95-132 | rounds that use the method's own choices form such a run, of any length |
| ClusterCounts.EveryCountWasCounted | chat_server/handle_message.cpp:209-221 | in every run of the cluster each entry of the hash is under a server's name and is the number of participants that server had when the user lookup of one of its logins returned |
| ClusterCounts.RoundsInTheCluster | chat_server/handle_message.cpp:242-288 | any sequence of rounds can be carried out by the two chat servers, and then the hash and the participants are the ones the allocator's model reckons with |
| ClusterCounts.ClusterIsBalanced | status_server/grpc_service.hpp:95-132 | so with the allocator's own choices each chat server then holds the floor or the ceiling of half the sessions |
| MailQueue.DeliveredInOrder | verify_server/mail_client.hpp:24-71 | in every interleaving the tasks the run's callers enqueued are, each once and in their order, the delivered ones, the one in hand and the queued ones; the worker has exited only after the stop and with all of them delivered |
| MailQueue.NoLostWakeup | verify_server/mail_client.hpp:57-66 | with work left, or stopped and not exited, the worker or a pending notification can always go on, without a spurious wake-up |
| MailQueue.StopDrainsAndExits | verify_server/mail_client.hpp:43-52 | after the stop every continuation is finite, and one that cannot go on has delivered every task that a caller enqueued in the run, in order, and ended the worker |
| MailQueue.MailClient.SendMail | verify_server/mail_client.hpp:24-30 | the task is enqueued last, a sleeping worker is awake afterwards, nothing else changes |
| MailQueue.MailClient.Take | verify_server/mail_client.hpp:60-68 | takes the oldest task, or ends the worker exactly if none is left |
| MailQueue.MailClient.WorkerLoop | verify_server/mail_client.hpp:57-71 | once stopped it delivers what is queued, in order, and returns with the queue empty |
| MailQueue.MailClient.Destroy | verify_server/mail_client.hpp:43-53 | when the join returns, the task in hand and all queued ones have been delivered, in order |
| ShellQuote.Quote | verify_server/mail_client.hpp:91-103 | the loop builds the quotation that the tokenizer lemmas are about |
| ShellQuote.BuildCommand | verify_server/mail_client.hpp:73-77 | the command line built is the one whose reading by the shell is proved |
| ShellQuote.QuotationIsRead | verify_server/mail_client.hpp:91-103 | a POSIX shell reads the quotation of any string as exactly that string, whatever surrounds it |
| ShellQuote.CutQuotationFails | verify_server/mail_client.hpp:77 | a command cut inside a quotation is never a complete command |
| ShellQuote.ShellReadsTheCommand | verify_server/mail_client.hpp:73-77 | the shell reads the mail command with subject and address as single words, then the redirection, exactly when neither holds a NUL; with one it reads no command |

## Left out

- Handlers and session coroutines as methods: a suspended coroutine is not a Dafny method, so `Sessions` gives each stretch between two suspensions as a function of the session's value; the classes of `ChatServers` cover the stretches that update fields.
- The two suspensions of a frame's header and body, and those inside `search_user_by_type` and the two list queries, are one suspension each in the cluster; the lookup's own interleavings are in `UserCache`, the reader's in `Framing.ReadFrames`.
- The content of the replies to a successful login or search: the text that the queries come to is a parameter, and it becomes the body of the reply.
- Row order: the friend queries name no order; the model returns rows in the order of insertion.
- JSON grammar and dump lengths: a `Codec` gives what each body parses to and each value is dumped to, for any such functions.
- Redis and database failures other than "no effect, and the caller sees the failure"; a peer RPC that fails is assumed to have no later effect.
- ClusterStrangers.ToldInErrorIffStranger: assumes that the JSON layer can express a login and a text for every 32-bit uid; `TalkerIsExpressive` gives one that can.
- ClusterDeadline.LoginAfterStop: that a random token never equals one already presented is an assumption about the continuations; elsewhere the status server may issue any token.
- Delivery after stop: a closed session's writer may still hold accepted messages; nothing says they are lost, only that none reaches the wire.
- Allocator.RoundsBalance: assumes that nobody leaves and that each round is atomic; the hash is not lowered when a participant leaves.
- Users.UserRepo.ResetPassword: whether a row that already had the password counts as affected is left open.
- Column widths, collation, implicit defaults of `INSERT IGNORE` and auto-increment values: exact strings, unbounded integers and an arbitrary new id.
- ShellQuote.ShellReadsTheCommand: the tokenizer answers "not covered" for special characters left unquoted; the mail command has none.
- `popen`, `/usr/bin/mail` and the exit status; the mail body; a `strlen` above the range of int.
- Passwords in clear and their confirmation, refusing repeated applications and approvals of nonexistent ones: the code does not do these (`tests/TEST_PLAN.md` lines 147-148).
- The gate's `user_login` beyond its password check and the status server's `Login` RPC: reads that add nothing to the token and allocator models.
- HTTP, URL routing, gRPC and asio internals, configuration, `main` functions, logging, the context pool and the interactive client.
