/**
 * The server side of the chat protocol, as pure decisions: the session
 * states of a connection, the fixed limits, and every reply the
 * connection handler (main/ServerConnection.java) builds, together with
 * the small list computations its loops perform.  The stateful handler in
 * module ChatServer is specified in terms of these functions.
 */
module Protocol {
  import opened Wrappers
  import opened Messages

  /** ServerConnection.State. */
  datatype State = BEGIN | IDLE | LOGOFF | FRIENDS

  const MinUserLength: int := 4
  const MaxUserLength: int := 16
  const MaxConnections: int := 500
  const MaxConversations: int := 0x7FFFFFFF

  /** A fresh message with its type, code and status set, as every reply starts. */
  function Reply(t: MsgType, code: int, status: string): Message {
    Fresh().(kind := Some(t), code := code, status := status)
  }

  // ---------------------------------------------------------------------
  // Guards shared by the request handlers
  // ---------------------------------------------------------------------

  /** `missingError`: a required field of the request is absent. */
  function MissingError(): Message {
    Reply(MsgType.Error, 503, "Required field is missing")
  }

  /** `wrongError`: an event code a client may not send. */
  function WrongError(): Message {
    Reply(MsgType.Error, 504, "Command sequence error")
  }

  /** `checkState`: requests other than login and logout need an IDLE session. */
  function CheckState(s: State): Option<Message> {
    if s == BEGIN then Some(Reply(MsgType.Error, 502, "Not logged in"))
    else if s != IDLE then Some(Reply(MsgType.Error, 504, "Command Sequence Error"))
    else None
  }

  /** `checkConversation`: the handler only serves conversations it belongs to. */
  function CheckConversation(mine: set<int>, id: int): Option<Message> {
    if id !in mine then Some(Reply(MsgType.Error, 509, "ID does not match any of your conversations"))
    else None
  }

  /** The dispatch's default branch: a Response or Error sent by a client. */
  function InvalidCommand(): Message {
    Reply(MsgType.Error, 505, "Invalid Command")
  }

  /** The state guard passes exactly in IDLE, and otherwise tells BEGIN (502) from the rest (504). */
  lemma CheckStateCodes(s: State)
    ensures CheckState(s).None? <==> s == IDLE
    ensures CheckState(s).Some? ==> CheckState(s).value.kind == Some(MsgType.Error)
    ensures CheckState(s).Some? ==> (CheckState(s).value.code == 502 <==> s == BEGIN)
    ensures CheckState(s).Some? ==> (CheckState(s).value.code == 504 <==> s != BEGIN)
  {
  }

  // ---------------------------------------------------------------------
  // Login and logout
  // ---------------------------------------------------------------------

  /** A username the handler accepts: between 4 and 16 characters. */
  predicate ValidUserLength(user: string) {
    MinUserLength <= |user| <= MaxUserLength
  }

  /**
   * The reply to a Login request. `accepted` is the registry's answer, which
   * the handler only asks for once the state and the length check pass.
   */
  function LoginReply(s: State, user: string, accepted: bool): Message {
    if s != BEGIN then Reply(MsgType.Error, 502, "Already logged in")
    else if |user| > MaxUserLength || |user| < MinUserLength then
      Reply(MsgType.Error, 501, "Username must be shorter than 16 and longer than 4")
    else if accepted then Reply(MsgType.Login, 101, "Welcome " + user)
    else Reply(MsgType.Error, 502, user + " already logged in")
  }

  /** The session state after a Login request: only an accepted login leaves BEGIN. */
  function LoginState(s: State, user: string, accepted: bool): State {
    if s == BEGIN && ValidUserLength(user) && accepted then FRIENDS else s
  }

  /**
   * A login succeeds (101) exactly when the session is new, the name has a
   * valid length and the registry accepts it; every failure is an Error, and
   * a failed login keeps the state.
   */
  lemma LoginOutcomes(s: State, user: string, accepted: bool)
    ensures LoginReply(s, user, accepted).code == 101
      <==> s == BEGIN && ValidUserLength(user) && accepted
    ensures LoginReply(s, user, accepted).code != 101
      ==> (LoginReply(s, user, accepted).kind == Some(MsgType.Error) && LoginState(s, user, accepted) == s)
    ensures LoginReply(s, user, accepted).code == 501 <==> s == BEGIN && !ValidUserLength(user)
  {
  }

  /** The Logout reply; Java prints a null user as "null". */
  function LogoutReply(user: Option<string>): Message {
    Reply(MsgType.Logout, 200, "Good Bye " + user.GetOr("null"))
  }

  // ---------------------------------------------------------------------
  // Friends
  // ---------------------------------------------------------------------

  /** The reply to a single-name Friends request. */
  function FriendReply(alreadyFriend: bool, friend: string, online: bool): Message {
    if alreadyFriend then Reply(MsgType.Friends, 300, "0 friends added")
    else Reply(MsgType.Friends, if online then 304 else 301, "1 friend added").(user := friend)
  }

  /** The reply to a Friends request carrying a list: 303 with the online names, else 302. */
  function FriendsBatchReply(added: nat, online: seq<string>): Message {
    var base := Reply(MsgType.Friends, 0, IntToString(added) + " friends added");
    if |online| > 0 then base.(code := 303, friends := online) else base.(code := 302)
  }

  /** The Friends message the registry pushes to a user whom `user` has just befriended. */
  function FriendPush(user: string): Message {
    Fresh().(kind := Some(MsgType.Friends), code := 305, user := user)
  }

  /** The names of `fs` that the batch loop adds: those not yet known, first occurrences only. */
  function FirstNew(fs: seq<string>, known: set<string>): seq<string>
    decreases |fs|
  {
    if fs == [] then []
    else
      var init, last := fs[..|fs| - 1], fs[|fs| - 1];
      FirstNew(init, known) + (if last in known || last in init then [] else [last])
  }

  /** One more name of the batch is added exactly when it is neither known nor seen before. */
  lemma FirstNewStep(fs: seq<string>, k: nat, known: set<string>)
    requires k < |fs|
    ensures fs[k] in known || fs[k] in fs[..k] ==> FirstNew(fs[..k + 1], known) == FirstNew(fs[..k], known)
    ensures !(fs[k] in known || fs[k] in fs[..k]) ==> FirstNew(fs[..k + 1], known) == FirstNew(fs[..k], known) + [fs[k]]
  {
    assert fs[..k + 1][..k] == fs[..k];
  }

  /** Whether a sequence lists each name at most once. */
  predicate Distinct<T(==)>(xs: seq<T>) {
    forall i, j :: 0 <= i < j < |xs| ==> xs[i] != xs[j]
  }

  /** The added names are exactly the unknown names of the batch, each once. */
  lemma {:induction false} FirstNewContents(fs: seq<string>, known: set<string>)
    ensures Distinct(FirstNew(fs, known))
    ensures forall x :: x in FirstNew(fs, known) <==> x in fs && x !in known
    decreases |fs|
  {
    if fs != [] {
      var init, last := fs[..|fs| - 1], fs[|fs| - 1];
      FirstNewContents(init, known);
      assert fs == init + [last];
    }
  }

  /** The number of names the batch loop adds is the number of distinct unknown names. */
  lemma FirstNewCount(fs: seq<string>, known: set<string>)
    ensures |FirstNew(fs, known)| == |(set x | x in fs) - known|
  {
    FirstNewContents(fs, known);
    DistinctCard(FirstNew(fs, known));
    assert (set x | x in FirstNew(fs, known)) == (set x | x in fs) - known;
  }

  /** A duplicate-free sequence has as many elements as its set. */
  lemma {:induction false} DistinctCard<T>(xs: seq<T>)
    requires Distinct(xs)
    ensures |(set x | x in xs)| == |xs|
    decreases |xs|
  {
    if xs != [] {
      var init := xs[..|xs| - 1];
      DistinctCard(init);
      assert xs == init + [xs[|xs| - 1]];
      assert (set x | x in xs) == (set x | x in init) + {xs[|xs| - 1]};
    }
  }

  // ---------------------------------------------------------------------
  // Starting conversations and adding members
  // ---------------------------------------------------------------------

  /** The registry has no free conversation id left. */
  function BusyError(): Message {
    Reply(MsgType.Error, 507, "Server Busy. Try again later")
  }

  /** A single user to add is not logged on. */
  function NotLoggedOn(friend: string): Message {
    Reply(MsgType.Error, 506, friend + " is not logged on")
  }

  /**
   * The registry refused an addition (the conversation does not exist).  The
   * single-user path types the reply as an Error; the batch path never sets
   * the type, which then stays null.
   */
  function InternalError(typed: bool): Message {
    var m := Fresh().(code := 508, status := "Internal Server Error");
    if typed then m.(kind := Some(MsgType.Error)) else m
  }

  /** A single user was added; the reply carries the request's own type. */
  function AddedOne(kind: Option<MsgType>, friend: string, id: int): Message {
    Fresh().(kind := kind, user := friend, conversationId := Some(id), code := 601)
  }

  /** Several users were added; the reply lists exactly them. */
  function AddedMany(kind: Option<MsgType>, id: int, added: seq<string>): Message {
    Fresh().(kind := kind, conversationId := Some(id), code := 602, friends := added)
  }

  /** Nobody in the batch was logged on; note that the reply carries no conversation id. */
  function NoneAdded(kind: Option<MsgType>): Message {
    Fresh().(kind := kind, code := 605, status := "None of these people are logged on")
  }

  /** The Start message a member receives when added, listing the members before the addition. */
  function StartPush(id: int, members: seq<string>): Message {
    Fresh().(kind := Some(MsgType.Start), conversationId := Some(id), code := 602, friends := members)
  }

  /** The Add message the existing members receive when `user` joins. */
  function AddPush(id: int, user: string): Message {
    Fresh().(kind := Some(MsgType.Add), conversationId := Some(id), code := 601, user := user)
  }

  /**
   * The outcome of the batch loop of `addToConversation`, given the names
   * that are logged on and whether the conversation exists: the first
   * logged-on name hits a 508 when it does not; otherwise 605 or 602.
   */
  function BatchAddReply(kind: Option<MsgType>, id: int, online: seq<string>, exists_: bool): Message {
    if |online| > 0 && !exists_ then InternalError(false)
    else if |online| == 0 then NoneAdded(kind)
    else AddedMany(kind, id, online)
  }

  /** The batch path's 508 reply leaves the message type null, unlike the single-user 508. */
  lemma BatchInternalErrorUntyped(kind: Option<MsgType>, id: int, online: seq<string>)
    requires |online| > 0
    ensures BatchAddReply(kind, id, online, false).kind.None?
    ensures BatchAddReply(kind, id, online, false).code == 508
    ensures InternalError(true).kind == Some(MsgType.Error)
  {
  }

  // ---------------------------------------------------------------------
  // The checks a request meets before the registry is involved
  // ---------------------------------------------------------------------

  /**
   * What the handler's checks make of a request: answer it with an error
   * straight away, drop it without a reply (Java throws while unboxing a
   * missing conversation id, and the run loop swallows the exception), or
   * let it through to the registry.
   */
  datatype Verdict = Answer(reply: Message) | Silent | Pass

  /** `sendMessage`'s checks, in order: state, conversation id, membership, text. */
  function SendVerdict(s: State, mine: set<int>, request: Message): Verdict {
    if CheckState(s).Some? then Answer(CheckState(s).value)
    else if request.conversationId.None? then Silent
    else if CheckConversation(mine, request.conversationId.value).Some? then
      Answer(CheckConversation(mine, request.conversationId.value).value)
    else if |request.status| == 0 then Answer(MissingError())
    else Pass
  }

  /** A text message reaches the registry exactly from IDLE, for one of the handler's conversations, with text. */
  lemma SendVerdictPass(s: State, mine: set<int>, request: Message)
    ensures SendVerdict(s, mine, request).Pass? <==>
              s == IDLE && request.conversationId.Some? && request.conversationId.value in mine && |request.status| > 0
    ensures SendVerdict(s, mine, request).Answer? ==> SendVerdict(s, mine, request).reply.code in {502, 503, 504, 509}
  {
  }

  /** `event`'s checks, in order: state, a code a client may send, and for conversation events the id and membership. */
  function EventVerdict(s: State, mine: set<int>, request: Message): Verdict {
    if CheckState(s).Some? then Answer(CheckState(s).value)
    else if EventRoute(request.code) == Refused then Answer(WrongError())
    else if EventRoute(request.code) == ToFriends then Pass
    else if request.conversationId.None? then Silent
    else if CheckConversation(mine, request.conversationId.value).Some? then
      Answer(CheckConversation(mine, request.conversationId.value).value)
    else Pass
  }

  /**
   * An event is relayed exactly from IDLE, with a code of 702 or more, and
   * for codes below 710 only into one of the handler's conversations.
   */
  lemma EventVerdictPass(s: State, mine: set<int>, request: Message)
    ensures EventVerdict(s, mine, request).Pass? <==>
              s == IDLE && request.code >= 702
              && (request.code < 710 ==> request.conversationId.Some? && request.conversationId.value in mine)
    ensures EventVerdict(s, mine, request).Answer? ==> EventVerdict(s, mine, request).reply.code in {502, 504, 509}
  {
  }

  // ---------------------------------------------------------------------
  // Dispatch
  // ---------------------------------------------------------------------

  /** The request handlers of a connection. */
  datatype Handler = LoginHandler | LogoutHandler | FriendsHandler | StartHandler | SendHandler | AddHandler | EventHandler | Unknown

  /** `handleConnection`'s switch on the request type. */
  function Dispatch(t: MsgType): Handler {
    match t
    case Login => LoginHandler
    case Logout => LogoutHandler
    case Friends => FriendsHandler
    case Start => StartHandler
    case Message => SendHandler
    case Add => AddHandler
    case Event => EventHandler
    case Status => EventHandler
    case Response => Unknown
    case Error => Unknown
  }

  /** Requests that pass the state guard before doing anything. */
  predicate Guarded(h: Handler) {
    h in {FriendsHandler, StartHandler, SendHandler, AddHandler, EventHandler}
  }

  /**
   * Status requests are served as events, only Response and Error are
   * refused, and no other two types share a handler.
   */
  lemma DispatchTable(t: MsgType, u: MsgType)
    ensures Dispatch(t) == Unknown <==> t == Response || t == Error
    ensures Dispatch(t) == EventHandler <==> t == Event || t == Status
    ensures Dispatch(t) == Dispatch(u) && t != u ==> {t, u} == {Event, Status} || {t, u} == {Response, Error}
    ensures Guarded(Dispatch(t)) <==> t in {Friends, Start, MsgType.Message, Add, Event, Status}
  {
  }

  // ---------------------------------------------------------------------
  // Text messages
  // ---------------------------------------------------------------------

  /** The message a member receives: the sender's text in a conversation. */
  function Chat(id: int, sender: string, text: string): Message {
    Fresh().(kind := Some(MsgType.Message), user := sender, conversationId := Some(id), status := text)
  }

  /** The registry does not know the conversation. */
  function SendFailure(id: int): Message {
    Reply(MsgType.Error, 510, "Message Send Failure").(conversationId := Some(id))
  }

  /**
   * The reply to a delivered text message: 400, or 401 listing the
   * recipients the registry could not reach.
   */
  function SendReply(id: int, failed: seq<string>): Message {
    if |failed| > 0 then
      Reply(MsgType.Message, 401, "Failed to deliver message to the following recipients")
        .(friends := failed, conversationId := Some(id))
    else Reply(MsgType.Message, 400, "Message Received").(conversationId := Some(id))
  }

  /**
   * The reply as main/ServerConnection.java:470 computes it: casting
   * `failed.toArray()`, an Object[], to String[] throws ClassCastException,
   * which the connection's run loop swallows, so no reply is written at all
   * whenever some recipient failed.
   */
  function SendReplyAsWritten(id: int, failed: seq<string>): Option<Message> {
    if |failed| > 0 then None
    else Some(Reply(MsgType.Message, 400, "Message Received").(conversationId := Some(id)))
  }

  /** The written code loses exactly the 401 replies; the corrected one reports every failure. */
  lemma SendReplyAsWrittenLoses401(id: int, failed: seq<string>)
    ensures SendReplyAsWritten(id, failed).None? <==> |failed| > 0
    ensures |failed| > 0 ==> SendReply(id, failed).code == 401 && SendReply(id, failed).friends == failed
    ensures |failed| == 0 ==> SendReplyAsWritten(id, failed) == Some(SendReply(id, failed))
    ensures SendReplyAsWritten(0, ["kemus"]).None? && SendReply(0, ["kemus"]).code == 401
  {
  }

  // ---------------------------------------------------------------------
  // Events
  // ---------------------------------------------------------------------

  /** Where an event from a client goes, by its code. */
  datatype Route = Refused | ToConversation | ToFriends

  function EventRoute(code: int): Route {
    if code < 702 then Refused else if code < 710 then ToConversation else ToFriends
  }

  /** Codes below 702 are refused, 702 to 709 go to a conversation, the rest to friends. */
  lemma EventRouteRanges(code: int)
    ensures EventRoute(code) == Refused <==> code < 702
    ensures EventRoute(code) == ToConversation <==> 702 <= code <= 709
    ensures EventRoute(code) == ToFriends <==> code >= 710
  {
  }

  /** The Event a handler pushes to its friends when its user comes online. */
  function LoggedOnEvent(user: string): Message {
    Fresh().(kind := Some(MsgType.Event), user := user, code := 700, status := user + " has logged on")
  }

  /** The Event a handler pushes to its friends when its user goes offline. */
  function LoggedOffEvent(user: string): Message {
    Fresh().(kind := Some(MsgType.Event), user := user, code := 701, status := user + " has logged off")
  }

  /** The Event a handler pushes to each of its conversations when its user logs off. */
  function LeftEvent(id: int, user: string): Message {
    Fresh().(kind := Some(MsgType.Event), code := 704, user := user, conversationId := Some(id))
  }

  // ---------------------------------------------------------------------
  // Renderings that main/ServerTest.java compares replies against
  // ---------------------------------------------------------------------

  /** A reply with only a type, a positive code and a status prints those three fields. */
  lemma RenderCodeStatus(m: Message)
    requires m.conversationId.None? && m.user == "" && m.code > 0 && |m.status| > 0 && m.friends == []
    ensures Render(m)
      == "MESSAGE { Type: " + TypeText(m.kind) + ", Code: " + IntToString(m.code) + ", Status: " + m.status + " }"
  {
  }

  /** Decimal renderings of the codes below. */
  lemma CodeTexts()
    ensures IntToString(101) == "101" && IntToString(508) == "508" && IntToString(602) == "602"
  {
    assert NatToString(10) == NatToString(1) + [DigitChar(0)];
    assert NatToString(50) == NatToString(5) + [DigitChar(0)];
    assert NatToString(60) == NatToString(6) + [DigitChar(0)];
  }

  /**
   * A successful login greets the user by name
   * ("MESSAGE { Type: Login, Code: 101, Status: Welcome cjfman }").
   */
  lemma WelcomeRendered()
    ensures Render(LoginReply(BEGIN, "cjfman", true))
      == "MESSAGE { Type: " + "Login" + ", Code: " + "101" + ", Status: " + "Welcome cjfman" + " }"
  {
    var m := LoginReply(BEGIN, "cjfman", true);
    assert m == Reply(MsgType.Login, 101, "Welcome cjfman");
    RenderCodeStatus(m);
    CodeTexts();
  }

  /**
   * The batch path's 508 reply prints its unset type as "null"
   * ("MESSAGE { Type: null, Code: 508, Status: Internal Server Error }").
   */
  lemma UntypedInternalErrorRendered()
    ensures Render(InternalError(false))
      == "MESSAGE { Type: " + "null" + ", Code: " + "508" + ", Status: " + "Internal Server Error" + " }"
  {
    RenderCodeStatus(InternalError(false));
    CodeTexts();
  }
}
