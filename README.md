# Chat server and client state, modelled in Dafny

This project models the core of a small Java chat system. There are two sides.

The server side:
- `Server` is the registry shared by all sessions. It holds three maps:
  - conversation id to member names;
  - connection id to session handler;
  - logged-in name to connection id.
- `ServerConnection` is one client's session. It is a state machine over `BEGIN`, `FRIENDS`, `IDLE` and `LOGOFF`, with its own sets of friends and conversations. It answers each request `Message` with one reply `Message` carrying a fixed code.

The wire record:
- `Message` has its defaults, setters, `equals` and `toString` rendering.
- The client's request factories are in `ClientMessageSender`.

The client side:
- `ClientConversation` holds one conversation's transcript and its members' statuses.
- `ClientModel` holds the online and offline friend lists, the table of open conversations and the queue of outgoing requests. Each incoming reply or event updates them.

The files and modules:
- `wrappers.dfy` (`Wrappers`): `Option`, which stands for Java's `null`.
- `message.dfy` (`Messages`): the `Message` datatype, its setters as functional updates, `Equals`, and `Render`, the specification of `toString`. It also has a loop method `ToString` proved equal to `Render`, and the decimal rendering of integers with its parse round-trip.
- `protocol.dfy` (`Protocol`): session states, reply builders, the state and conversation guards, and the request dispatch table. It also holds the pure decisions of the handlers, and the finding below.
- `server.dfy` (`ChatServer`): class `Server` (the registry) and class `ServerConnection` (the handler). They refer to each other, so they share one module.
- `client_message_sender.dfy` (`ClientMessages`): the request factories, and lemmas tying each request to the server handler it reaches.
- `client_conversation.dfy` (`ClientConversations`): class `ClientConversation`.
- `client_model.dfy` (`ClientModels`): class `ClientModel`, with pure functions (`OnFriends`, `OnPresence`, `OnConversationEvent`) that specify how its lists and statuses change.

How sockets and Java's runtime are represented:
- Each handler has `out`, the messages written to its client so far. Registry pushes append to the target handler's `out`.
- Each handler has `linkUp`, which says whether a write succeeds. A write on a broken link throws `IOException` in Java.
- Every `synchronized` block is read as sequential code.
- HashSet and HashMap iteration order is unspecified. Loops over them choose the next element with `:|`, so their contracts hold for every order.

Behaviours of the code that the model keeps as written:
- `Server.login` refuses a connection that logs in again under its own name. The id check (main/Server.java:144) comes before the name check (main/Server.java:146).
- `Server.logoff(String)` removes from `usernames` by the Integer id (main/Server.java:181), so the name stays bound. `ChatServer.Server.LogoffUser` states that `usernames` is unchanged.
- The batch 508 reply of `addToConversation(message, ID)` has no type (main/ServerConnection.java:714-717). `Protocol.BatchInternalErrorUntyped` states this, and `Protocol.UntypedInternalErrorRendered` shows it prints `Type: null`.
- The connection counter is never decremented, since `connectionClosed` is never called. After 500 accepted clients, `Register` refuses every new one.
- The second 305 branch of `ClientModel.friends` (main/ClientModel.java:93) is unreachable. `ClientModels.ClientModel.Friends` has `assert false` there.
- `ClientModel.event` appends a friend who goes offline (701) to the offline list even when they are already on it. `ClientModels.GoesOfflineEffect` proves the list then holds that name twice.
- The server's reply 605 ("none of these people are logged on") carries no conversation id. The client's `startConversation` unboxes that id and throws. `ClientModels.StartRepliesAndClient` and the `crashed` result of `ClientModels.ClientModel.StartConversation` state this.
- `ClientMessageSender.CreateStatusMessage` keeps code 0. The server's event handler refuses it with 504 (`ClientMessages.StatusMessageRefused`).

The comment at main/Server.java:145 says `login` returns false only when the name is bound to a different id, so re-sending one's own name would succeed. The id check at main/Server.java:144 makes that branch unreachable with a true result: the connection's id is already in the map. The model follows the code and refuses it.

## Model

| member | source | states |
|---|---|---|
| Messages.SettersRoundTrip | main/Message.java:42-92 | each setter sets exactly its own field, its getter then returns that value, and putting the old value back restores the message; `getID` after `setID` returns the id |
| Messages.ParseTypeInvertsTypeName | main/Message.java:78-84 | `setType(String)` accepts exactly the names of the type constants, and parsing a type's name gives that type back |
| Messages.Equals | main/Message.java:94-107 | `equals` holds only for identical messages; it is false whenever either message lacks a conversation id, since the exception is caught; identical messages with a type, an id and the same Friends array are equal |
| Messages.NothingEqualsFresh | main/Message.java:94-107 | no message equals a freshly constructed one, in either order, because the fresh one has no conversation id |
| Messages.NatToStringRoundTrip | main/Message.java:112-116 | the decimal digits printed for a non-negative number read back as that number |
| Messages.IntToStringSign | main/Message.java:112-116 | an integer's decimal text is non-empty and starts with '-' exactly for negative numbers |
| Messages.IntToStringRoundTrip | main/Message.java:112-116 | reading back the decimal text of any integer gives that integer |
| Messages.NegativeRoundTrip | main/Message.java:112 | a negative conversation id also prints and reads back unchanged |
| Messages.FriendsTextAppend | main/Message.java:119-125 | the Friends text of two lists in a row is the text of the first followed by the text of the second |
| Messages.FriendsTextOfEntries | main/Message.java:121-123 | each Friends entry is printed followed by ", ", including the last |
| Messages.RenderBrackets | main/Message.java:109-128 | every rendering starts with "MESSAGE { Type: " and the type, and ends with " }" |
| Messages.RenderFresh | main/Message.java:109-128 | a fresh message prints as "MESSAGE { Type: null }": no optional field appears |
| Messages.EqualsRendersAlike | main/Message.java:94-128 | messages that `equals` accepts print the same text |
| Messages.AppendFriends | main/Message.java:119-125 | the Friends loop appends exactly the entries' text to what was printed so far |
| Messages.ToString | main/Message.java:109-128 | the accumulating `toString` produces exactly `Render`: the type, then each present optional field in order, then the Friends braces when non-empty, then " }" |
| Protocol.CheckStateCodes | main/ServerConnection.java:625-640 | the state guard passes exactly in IDLE; otherwise it is an Error, 502 exactly in BEGIN and 504 in every other state |
| Protocol.LoginOutcomes | main/ServerConnection.java:267-311 | login succeeds (101) exactly in BEGIN with a name of length 4 to 16 that the registry accepts; every other outcome is an Error that leaves the state unchanged; 501 exactly for a bad length in BEGIN |
| Protocol.FirstNewStep | main/ServerConnection.java:375-386 | one turn of the batch friends loop skips a name already known or already added, and otherwise appends it |
| Protocol.FirstNewContents | main/ServerConnection.java:375-386 | the names the batch adds are distinct and are exactly the listed names not already friends |
| Protocol.FirstNewCount | main/ServerConnection.java:379-388 | the "%d friends added" count is the number of distinct listed names that were not friends |
| Protocol.BatchInternalErrorUntyped | main/ServerConnection.java:713-717 | when the registry refuses a batch member, the 508 reply has no type, while the single-target 508 reply is typed Error |
| Protocol.SendVerdictPass | main/ServerConnection.java:436-455 | a send request reaches the registry exactly in IDLE, with an id of one of the session's conversations and non-empty text; otherwise the reply is 502, 503, 504 or 509 |
| Protocol.EventVerdictPass | main/ServerConnection.java:506-528 | an event is relayed exactly in IDLE with code at least 702, where codes below 710 also need one of the session's conversations; otherwise the reply is 502, 504 or 509 |
| Protocol.DispatchTable | main/ServerConnection.java:223-253 | Response and Error requests are invalid commands; Event and Status share the event handler and no other two types share a handler; exactly Friends, Start, Message, Add, Event and Status pass through the state guard |
| Protocol.SendReplyAsWrittenLoses401 | main/ServerConnection.java:469-476 | as written, any non-empty failed list produces no reply at all; as intended, it produces 401 listing the failed recipients |
| Protocol.EventRouteRanges | main/ServerConnection.java:519-546 | codes below 702 are refused, 702 to 709 go to the conversation, and 710 and above go to the friends |
| Protocol.RenderCodeStatus | main/Message.java:109-128 | a reply with only a type, a positive code and a status prints as "MESSAGE { Type: T, Code: C, Status: S }" |
| Protocol.WelcomeRendered | main/ServerConnection.java:298-303 | the login reply for cjfman prints as "MESSAGE { Type: Login, Code: 101, Status: Welcome cjfman }" |
| Protocol.UntypedInternalErrorRendered | main/ServerConnection.java:714-717 | the untyped batch 508 reply prints with "Type: null" |
| ChatServer.Accepts | main/Server.java:142-152 | the registry accepts a login exactly when neither the id nor the name is already bound |
| ChatServer.AcceptKeepsInjective | main/Server.java:142-152 | an accepted login adds exactly one name, and no two names share a connection id afterwards |
| ChatServer.LeaveProperties | main/Server.java:236-250 | leaving changes only that conversation: the user leaves it, it is deleted exactly when it becomes empty, and no conversation is ever left empty |
| ChatServer.DepartedStep | main/ServerConnection.java:572-582 | leaving the session's conversations one at a time composes into leaving all of them, whatever the order |
| ChatServer.FriendPushesStep | main/ServerConnection.java:553-554 | each adopted friend adds one friend notice to the client's output, in order |
| ChatServer.MissedStep | main/Server.java:353-384 | the failed list grows by one member exactly when that member is not the sender and is not logged in on a working connection, and it never lists anyone twice |
| ChatServer.TargetsAdd | main/Server.java:353-384 | with unique bindings, each member visited adds at most its own connection to those sent the line, and never one already sent it |
| ChatServer.LoggedOnAmong | main/ServerConnection.java:709-721 | the contacts a batch adds are exactly the listed contacts that are logged in |
| ChatServer.AddReplyOutcomes | main/ServerConnection.java:670-739 | 508 exactly when the conversation is missing and someone would be added; 602 lists exactly the logged-on contacts added; 601 names the single target |
| ChatServer.StartNeverFatal | main/ServerConnection.java:408-429 | adding to a conversation just created never gives 508; the reply is 503, 506, 601, 602 or 605 |
| ChatServer.LowestFree | main/Server.java:128-130 | the id scan returns the lowest id not in use, or the bound when all ids below it are used |
| ChatServer.ToArray | main/Server.java:514-515 | copying a member set to an array lists each member exactly once |
| ChatServer.Server.constructor | main/Server.java:37-42 | a new registry has no conversations, connections or logins |
| ChatServer.Server.UnusedID | main/Server.java:124-133 | the smallest id in [0, 500) without a connection, or 500 when all are taken |
| ChatServer.Server.Register | main/Server.java:101-115 | once 500 connections have been accepted, a client is refused with no change; otherwise a fresh BEGIN handler is stored under an unused id and the count grows by one; the registry stays consistent |
| ChatServer.Server.Login | main/Server.java:142-152 | succeeds exactly when `Accepts` holds, adding just that binding; otherwise nothing changes |
| ChatServer.Server.LogoffConnection | main/Server.java:159-169 | removes the connection and its user's binding, keeping the registry consistent |
| ChatServer.Server.LogoffUser | main/Server.java:176-190 | removes the connection bound to the name, and leaves `usernames` as it was |
| ChatServer.Server.StartConversation | main/Server.java:209-229 | opens the lowest free conversation id with the user as sole member; none only when every id below 0x7FFFFFFF is taken, changing nothing |
| ChatServer.Server.LeaveConversation | main/Server.java:236-250 | no change for an unknown id; otherwise the user leaves, and the conversation is deleted when it becomes empty |
| ChatServer.Server.GetConversationMembers | main/Server.java:307-313 | the member set, never empty, for a known id, and none otherwise |
| ChatServer.Unreached | main/Server.java:465-492 | the failed list of a push holds only listed users that are logged in on a connection whose link is down |
| ChatServer.Server.PushMessage | main/Server.java:455-493 | each logged-in listed user's connection receives the message once per listing when its link is up; unbound users are skipped; the failed list is, in order, the listed users whose write failed |
| ChatServer.Server.PushTo | main/Server.java:465-491 | one turn of the push loop: `u`'s connection, if `u` is logged in, gets the message when its link is up, keeping `Pushed` over the users so far; the write fails exactly when that link is down |
| ChatServer.Server.PushMessageToConversation | main/Server.java:507-518 | none for an unknown conversation; otherwise a push to exactly its members, each listed once |
| ChatServer.Server.AddToConversation | main/Server.java:258-299 | true exactly when the conversation exists; then the user joins it, their handler joins and is sent the earlier members, and the earlier members hear of the arrival only if that write succeeded |
| ChatServer.Server.Admit | main/Server.java:276-295 | the added user's handler, if any, joins and receives the Start push; on success each earlier member receives the Add push |
| ChatServer.Server.SendMessage | main/Server.java:335-393 | none for an unknown conversation; otherwise every reachable member other than the sender gets the line once, the sender never gets it, and the failed list holds, once each, exactly the other members not reached |
| ChatServer.Server.Visit | main/Server.java:353-384 | one member's turn: skip the sender, otherwise relay and report whether the member is lost |
| ChatServer.Server.Relay | main/Server.java:355-383 | the line reaches exactly the member's connection when it is live; the member is lost otherwise |
| ChatServer.Server.AddFriend | main/Server.java:400-420 | only the handler the user is logged in on gains the friend and receives the friend notice |
| ChatServer.Server.FindFriends | main/Server.java:427-447 | exactly the logged-in users other than the given one whose handler counts them as a friend (everyone in all-users mode), each listed once |
| ChatServer.ServerConnection.constructor | main/ServerConnection.java:41-49 | a new session is in BEGIN with no user, friends or conversations, and inherits all-users mode |
| ChatServer.ServerConnection.ReceiveMessage | main/ServerConnection.java:97-106 | writes the chat line exactly when the link is up, and reports failure otherwise |
| ChatServer.ServerConnection.PushMessage | main/ServerConnection.java:113-117 | writes the message exactly when the link is up |
| ChatServer.ServerConnection.Write | main/ServerConnection.java:256-259 | the reply write succeeds exactly when the link is up |
| ChatServer.ServerConnection.AddFriend | main/ServerConnection.java:124-137 | records the new friend and sends the client a friend notice |
| ChatServer.ServerConnection.AddConversation | main/ServerConnection.java:143-146 | adds the id to the session's conversations |
| ChatServer.ServerConnection.JoinConversation | main/ServerConnection.java:153-173 | adds the id and sends the client the Start push with the members; false when that write fails |
| ChatServer.ServerConnection.Login | main/ServerConnection.java:267-311 | the reply and next state follow `LoginOutcomes`; on 101 the user and the binding are set, otherwise neither changes; in BEGIN the registry accepts exactly a name not yet logged in |
| ChatServer.ServerConnection.Logout | main/ServerConnection.java:318-325 | replies "Good Bye" with 200 and moves to LOGOFF |
| ChatServer.ServerConnection.Friends | main/ServerConnection.java:332-401 | outside IDLE it gives the guard's error with no change; a single name is added (300, 301 or 304); a list adds its names (302 or 303); neither gives 503 with no change; in both branches the handler each newly added name is logged in on records this user as a friend, and its client gets one 305 notice per such name when its link is up; in IDLE the reply is as `ServedInIdle` says |
| ChatServer.ServerConnection.AddOneFriend | main/ServerConnection.java:344-366 | 300 when already a friend; otherwise 304 if the friend is logged in, else 301; a new friend's own handler records this user and is told |
| ChatServer.ServerConnection.Befriend | main/ServerConnection.java:347-355 | records the friend here, and through the registry records this user with the friend's handler |
| ChatServer.ServerConnection.BefriendIfNew | main/ServerConnection.java:376-385 | a listed name is new exactly when it was not yet a friend, and counts as online when new and logged in; when new, the other handler it is logged in on records this user and that client gets one 305 notice; no other handler changes |
| ChatServer.ServerConnection.AddFriends | main/ServerConnection.java:370-398 | the reply counts the distinct new names and lists those logged in (303), or 302 when none is; the friends set gains every listed name; each other handler gains this user as a friend exactly when a new name is logged in on it, and each client gets one 305 notice per new name bound to it |
| ChatServer.ServerConnection.BefriendAll | main/ServerConnection.java:375-386 | the loop counts exactly the distinct new names, lists those logged in in order, adds every listed name, and keeps `Reciprocated` over the new names |
| ChatServer.ServerConnection.BefriendNext | main/ServerConnection.java:376-385 | one turn: the new names grow by the listed name exactly when it is neither a friend nor listed earlier, and `Reciprocated` is kept |
| ChatServer.ServerConnection.Reciprocate | main/ServerConnection.java:376-381 | befriending one more name keeps `Reciprocated`, counting the name exactly when it is new |
| ChatServer.ServerConnection.Include | main/ServerConnection.java:687-693 | the registry's add succeeds exactly when the conversation exists, and the named user joins it |
| ChatServer.ServerConnection.AddMembers | main/ServerConnection.java:670-739 | the reply is `AddReply`; 508 moves to LOGOFF, every other reply stays in IDLE; exactly the added names join the conversation |
| ChatServer.ServerConnection.Enroll | main/ServerConnection.java:711-720 | a contact who is logged out is skipped; a logged-in one joins, and this fails only for a missing conversation |
| ChatServer.ServerConnection.EnrollNext | main/ServerConnection.java:709-721 | one turn of the batch loop keeps "the conversation holds exactly the logged-in contacts so far" |
| ChatServer.ServerConnection.EnrollAll | main/ServerConnection.java:709-721 | the batch adds exactly the logged-in contacts, in order, and fails exactly when the conversation is missing and someone is logged in |
| ChatServer.ServerConnection.AddContacts | main/ServerConnection.java:704-737 | 605 when nobody is logged in, 602 listing exactly those added, and untyped 508 with LOGOFF when the registry refuses |
| ChatServer.ServerConnection.Start | main/ServerConnection.java:408-429 | outside IDLE it gives the guard's error with no change; 507 only when every conversation id is taken; otherwise the lowest free id is opened with this user, joined, and the targets are added |
| ChatServer.ServerConnection.Add | main/ServerConnection.java:491-499 | outside IDLE it gives the guard's error; no id means no reply and no change; otherwise the targets are added to the named conversation, without checking that the requester is a member |
| ChatServer.ServerConnection.Send | main/ServerConnection.java:436-484 | guard errors as `SendVerdict` says; otherwise 510 for a conversation the registry no longer knows, else 400 when every other member was reached, or the intended 401 listing exactly the other members the line did not reach (as written, Java sends no reply then: see `Protocol.SendReplyAsWritten` under Findings) |
| ChatServer.ServerConnection.Event | main/ServerConnection.java:506-547 | guard errors as `EventVerdict` says; otherwise the request, with its User overwritten, is the reply; codes 702 to 709 go to the conversation's members (704 also leaves it), and 710 and above go to every friend |
| ChatServer.ServerConnection.Broadcast | main/ServerConnection.java:531-540 | pushes to exactly the conversation's members, and when leaving, removes this user in the registry and in the session |
| ChatServer.ServerConnection.Announce | main/ServerConnection.java:562 | pushes to exactly the session's friends, each once |
| ChatServer.ServerConnection.Greet | main/ServerConnection.java:71-74 | the FRIENDS step adopts exactly the users who befriended this one and always ends in IDLE |
| ChatServer.ServerConnection.FindFriends | main/ServerConnection.java:552-563 | every logged-in user who befriended this one becomes a friend and is announced to the client, then every friend is told this user is online |
| ChatServer.ServerConnection.Adopt | main/ServerConnection.java:553-554 | each found name becomes a friend, and the client gets one friend notice per name, in order |
| ChatServer.ServerConnection.Logoff | main/ServerConnection.java:569-594 | leaves every session conversation, drops the connection and the user's binding, closes the session, and keeps the registry consistent |
| ChatServer.ServerConnection.LeaveAll | main/ServerConnection.java:572-582 | the registry's conversations become those left by this user in each session conversation |
| ChatServer.ServerConnection.HandleConnection | main/ServerConnection.java:206-260 | a failed read moves to LOGOFF with no reply; otherwise the reply is the one `Answered` gives for the request read; guarded requests in BEGIN get 502 and change nothing; IDLE stays IDLE or goes to LOGOFF; the reply is written exactly when the link is up, and the write fails otherwise |
| ChatServer.ServerConnection.Answer | main/ServerConnection.java:223-253 | the switch answers as `Answered` says: no reply for an untyped request, login as `LoginReply` with the next state `LoginState` (BEGIN to FRIENDS on success), logout as `LogoutReply` moving to LOGOFF, 505 for Response and Error, the guard's 502 or 504 outside IDLE with the state kept, and in IDLE the selected handler's reply as `ServedInIdle` states |
| ChatServer.ServerConnection.Respond | main/ServerConnection.java:255-259 | the reply, if any, is written exactly when the link is up, the write failing otherwise; nothing the switch decided changes |
| ChatServer.ServerConnection.Serve | main/ServerConnection.java:230-247 | every guarded handler answers 502 in BEGIN with no change, and 504 in FRIENDS and LOGOFF keeping the state; in IDLE the handler the type selects answers as `ServedInIdle` states (friends, start, text, add and event replies) and leaves the session in IDLE or LOGOFF |
| ChatServer.ServerConnection.ServeRelay | main/ServerConnection.java:236-247 | Message, Event and Status requests are answered as `Answered` says, keeping the session state |
| ChatServer.ServerConnection.ServeMembership | main/ServerConnection.java:230-241 | Friends, Start and Add requests are answered as `Answered` says; an IDLE session stays IDLE or goes to LOGOFF |
| ChatServer.ServerConnection.Step | main/ServerConnection.java:67-86 | one pass of the run loop keeps the registry consistent; a session ends closed exactly when its connection is gone, and an open session past BEGIN is IDLE after each pass; a failed read, or a reply that cannot be written (the IOException path), leaves the session closed |
| ClientMessages.RequestsDispatch | main/ClientMessageSender.java:11-115 | each factory's type sends it to the intended server handler |
| ClientMessages.ConversationEvents | main/ClientMessageSender.java:71-130 | entered, typing, left and cleared-text events have codes 702, 703, 704 and 705, carry the id and user, and go to the conversation; the two left-message factories build the same message |
| ClientMessages.PresenceEvents | main/ClientMessageSender.java:107-121 | idle and active events have codes 710 and 711, no conversation id, and go to the friends |
| ClientMessages.EventsPassServerChecks | main/ClientMessageSender.java:71-121 | in IDLE, a conversation event passes the server's checks exactly for one of the session's conversations, and idle and active events always pass |
| ClientMessages.StatusMessageRefused | main/ClientMessageSender.java:20-26 | a status message keeps code 0, and the server refuses it with 504 |
| ClientMessages.SentMessageChecks | main/ClientMessageSender.java:11-18 | a sent message has code 0 and passes the server's checks exactly for one of the session's conversations with non-empty text |
| ClientMessages.StartRequests | main/ClientMessageSender.java:49-61 | a multi-user start request leaves User empty, so the server takes its list branch; a single-user one naming a logged-in user is answered 601 |
| ClientMessages.LoginMessageRendered | main/ClientMessageSender.java:35-40 | a login request prints as "MESSAGE { Type: Login, User: name }" |
| ClientConversations.TranscriptBreaks | main/ClientConversation.java:35-37 | when names and texts contain no line break, the transcript has one line break per received line |
| ClientConversations.TranscriptGrows | main/ClientConversation.java:35-37 | an earlier transcript is always a prefix of a later one |
| ClientConversations.Welcome | main/ClientConversation.java:25-29 | adding names one by one keeps every existing status, gives each new name "", and adds nothing else |
| ClientConversations.ClientConversation.constructor | main/ClientConversation.java:16-23 | the transcript is empty, and exactly the listed users are members, each with status "" |
| ClientConversations.ClientConversation.AddUser | main/ClientConversation.java:25-29 | a new user gets status ""; an existing user's status is never overwritten |
| ClientConversations.ClientConversation.RemoveUser | main/ClientConversation.java:31-33 | removes only that user; every other status is unchanged |
| ClientConversations.ClientConversation.UpdateConversation | main/ClientConversation.java:35-37 | appends exactly "\n" + user + ": " + text, and the earlier transcript remains a prefix |
| ClientConversations.ClientConversation.ChangeStatus | main/ClientConversation.java:39-41 | sets that user's status, adding the user if absent; the others are unchanged |
| ClientModels.RemoveFirst | main/ClientModel.java:86 | `ArrayList.remove` takes out one occurrence of the name and leaves a list without it unchanged |
| ClientModels.RemoveFirstDistinct | main/ClientModel.java:86 | on a duplicate-free list, the name is then gone and the list stays duplicate-free |
| ClientModels.ListedOfflineEffect | main/ClientModel.java:65-79 | replies 301 and 302 list exactly the old offline names plus the named ones, and keep the offline list duplicate-free |
| ClientModels.ComesOnlineEffect | main/ClientModel.java:82-90 | a friend coming online is listed online once and, if not already online, is no longer offline |
| ClientModels.GoesOfflineEffect | main/ClientModel.java:230-237 | a friend going offline leaves the online list and is appended offline, twice over if already listed there |
| ClientModels.FriendsKeepsDistinct | main/ClientModel.java:58-105 | Friends replies never list anyone twice on either list |
| ClientModels.ConversationEventEffect | main/ClientModel.java:239-277 | a conversation event changes only its sender's status: 704 removes the sender, 702, 703 and 705 set it, and other codes change nothing |
| ClientModels.StartRepliesAndClient | main/ClientModel.java:117-123 | the server's 601 and 602 start replies carry the new id, so the client opens the conversation; 605 carries none, so the client's handler stops at the id |
| ClientModels.ClientModel.constructor | main/ClientModel.java:24-31 | empty friend lists and conversation table, and the given outgoing queue |
| ClientModels.ClientModel.Friends | main/ClientModel.java:58-105 | the lists change as `OnFriends` says: nothing for the client's own user; 301 and 302 add missing names offline; 304 and 305 bring a friend online |
| ClientModels.ClientModel.ListOffline | main/ClientModel.java:72-79 | the loop appends each listed name not yet offline, once, in order |
| ClientModels.ClientModel.BefriendOne | main/ClientModel.java:126-130 | a name not yet a friend is appended to the friends and one friend request is queued for it; a known friend changes nothing |
| ClientModels.ClientModel.Befriend | main/ClientModel.java:138-144 | appends each new name once, in order, and queues exactly one friend request per appended name |
| ClientModels.ClientModel.StartConversation | main/ClientModel.java:110-149 | a reply about the client's own user, or with another code, changes nothing; a 601, 602 or 605 reply without an id crashes; with an id, a fresh conversation opens with the reply's members at status "", and every new friend is added and requested |
| ClientModels.ClientModel.UpdateConversation | main/ClientModel.java:151-168 | the conversation the message names gains the line unless the code is 400 or the user is the client's own string object; every other transcript is unchanged |
| ClientModels.ClientModel.AddToConversation | main/ClientModel.java:170-203 | an open conversation named by a 601 or 602 reply gains the arriving users at status "", keeping present ones; nothing else changes |
| ClientModels.ClientModel.JoinAll | main/ClientModel.java:187-196 | adds each listed user in turn to that conversation only |
| ClientModels.ClientModel.Event | main/ClientModel.java:209-278 | presence events change the lists as `OnPresence` says; the client's own 704 closes the conversation; another user's 702 to 705 change that user's status in the named open conversation, as `OnConversationEvent` says; nothing else changes |
| ClientModels.ClientModel.Close | main/ClientModel.java:211-215 | removes exactly the named conversation |
| ClientModels.ClientModel.Presence | main/ClientModel.java:217-237 | 700 brings the friend online and 701 takes them offline; other codes leave the lists alone |
| ClientModels.ClientModel.StatusEvent | main/ClientModel.java:239-277 | only the named open conversation changes, as `OnConversationEvent` says |

## Left out

- Socket and stream I/O are not modelled: the `serve` accept loop, the `run` loop, the welcome handshake, and object streams. They become the `out` sequence and the `linkUp` flag. One run-loop pass is `Step`, and one accept is `Register`.
- A read that yields a null object, or a `ClassNotFoundException`, returns without a reply. The model treats every read as either a `Message` or a failure.
- Threads and `synchronized` locking are not modelled; the model is sequential. `Server.kill` and `connectionClosed` (never called) are left out, as is logging.
- `ServerConnection.login` with a null User gives 503. Message fields other than the type and the id are modelled as never null, so that path is left out.
- ChatServer.ServerConnection.Logoff: for a session that never logged in, Java's events carry a null user. The model uses "".
- ChatServer.ServerConnection.Start, Add, AddMembers and Logoff: their contracts do not restate the pushes to other sessions' outputs. The registry methods they call (`AddToConversation`, `PushMessageToConversation`, `PushMessage`) state those.
- ChatServer.ServerConnection.Step: the contract states the session state, registry consistency and when the session closes, not the reply; `HandleConnection` states the reply.
- ChatServer.ServerConnection.Send: the contract gives the intended 401 reply when some members were not reached; the code as written sends no reply there (the ClassCastException at main/ServerConnection.java:470), which `Protocol.SendReplyAsWritten` models.
- Messages.Equals: Java compares the Friends arrays by reference. A `sameFriendsArray` flag stands for that comparison and implies equal contents.
- ClientModels.ClientModel.UpdateConversation: `input.User != this.user` compares references. A `sameObject` flag stands for it.
- `Message` is a value: setters are functional updates, and the aliasing of a request object that `event` rewrites is not captured.
- The client's queue of outgoing requests is a sequence, not a concurrent queue.
- The GUI is not modelled: every `GUI.*` call, `ErrorWindow`, `ChangedFriendsList`, `ClientModel.login`, `logout` and `status`, the `Debug`/`Tester` fields, and the launcher.
- ClientSocketThread's dispatch loop is left out. Each `ClientModel` handler is modelled on its own.
- The socket-driven tests are not part of this model.

## Findings

| source | as written | input that shows it | evidently intended | confidence | as-written member | corrected member |
|---|---|---|---|---|---|---|
| main/ServerConnection.java:470 | `(String[])failed.toArray()` casts an `Object[]` to `String[]`, which throws `ClassCastException`; `run` catches it, so no reply is written | a chat line to a conversation with a logged-out member, `failed == ["kemus"]` | reply 401 "Failed to deliver message to the following recipients" listing the failed members | high, not executed | Protocol.SendReplyAsWritten | Protocol.SendReply |
