/**
 * The client's outgoing requests (main/ClientMessageSender.java): each
 * factory starts from a fresh message and fixes its type, and for events
 * its code.  The lemmas tie them to the server: which handler each request
 * reaches, and what the server's checks make of it.
 */
module ClientMessages {
  import opened Wrappers
  import opened Messages
  import opened Protocol
  import ChatServer

  function CreateSentMessage(id: int, user: string, status: string): Message {
    Fresh().(conversationId := Some(id), status := status, user := user, kind := Some(MsgType.Message))
  }

  function CreateStatusMessage(user: string, status: string): Message {
    Fresh().(status := status, user := user, kind := Some(MsgType.Status))
  }

  function CreateFriendAddMessage(user: string): Message {
    Fresh().(user := user, kind := Some(MsgType.Friends))
  }

  function CreateLoginMessage(user: string): Message {
    Fresh().(user := user, kind := Some(MsgType.Login))
  }

  function CreateLogoutMessage(user: string): Message {
    Fresh().(user := user, kind := Some(MsgType.Logout))
  }

  function CreateStartMessage(user: string): Message {
    Fresh().(user := user, kind := Some(MsgType.Start))
  }

  function CreateStartMultipleMessage(users: seq<string>): Message {
    Fresh().(friends := users, kind := Some(MsgType.Start))
  }

  function CreateAddMessage(id: int, user: string): Message {
    Fresh().(conversationId := Some(id), user := user, kind := Some(MsgType.Add))
  }

  /** A conversation event: an id, a user and one of the codes 702 to 705. */
  function ConversationEvent(id: int, user: string, code: int): Message {
    Fresh().(conversationId := Some(id), user := user, code := code, kind := Some(MsgType.Event))
  }

  function CreateEnteredTextMessage(id: int, user: string): Message {
    ConversationEvent(id, user, 702)
  }

  function CreateTypingTextMessage(id: int, user: string): Message {
    ConversationEvent(id, user, 703)
  }

  function CreateLeftConversationMessage(id: int, user: string): Message {
    ConversationEvent(id, user, 704)
  }

  function CreateClearedTextMessage(id: int, user: string): Message {
    ConversationEvent(id, user, 705)
  }

  function CreateLeftMessage(id: int, user: string): Message {
    ConversationEvent(id, user, 704)
  }

  /** A presence event for friends: a user and a code, no conversation. */
  function PresenceEvent(user: string, code: int): Message {
    Fresh().(user := user, code := code, kind := Some(MsgType.Event))
  }

  function CreateUserIdleMessage(user: string): Message {
    PresenceEvent(user, 710)
  }

  function CreateUserActiveMessage(user: string): Message {
    PresenceEvent(user, 711)
  }

  /** The handler each request reaches on the server. */
  lemma RequestsDispatch(id: int, user: string, status: string, users: seq<string>)
    ensures Dispatch(CreateSentMessage(id, user, status).kind.value) == SendHandler
    ensures Dispatch(CreateStatusMessage(user, status).kind.value) == EventHandler
    ensures Dispatch(CreateFriendAddMessage(user).kind.value) == FriendsHandler
    ensures Dispatch(CreateLoginMessage(user).kind.value) == LoginHandler
    ensures Dispatch(CreateLogoutMessage(user).kind.value) == LogoutHandler
    ensures Dispatch(CreateStartMessage(user).kind.value) == StartHandler
    ensures Dispatch(CreateStartMultipleMessage(users).kind.value) == StartHandler
    ensures Dispatch(CreateAddMessage(id, user).kind.value) == AddHandler
    ensures Dispatch(CreateEnteredTextMessage(id, user).kind.value) == EventHandler
    ensures Dispatch(CreateUserIdleMessage(user).kind.value) == EventHandler
  {
  }

  /**
   * Entered, typing, left and cleared-text events carry the id and user
   * with codes 702, 703, 704 and 705, and the server routes them to the
   * conversation; the two left-message factories build the same message.
   */
  lemma ConversationEvents(id: int, user: string)
    ensures CreateEnteredTextMessage(id, user).code == 702
    ensures CreateTypingTextMessage(id, user).code == 703
    ensures CreateLeftConversationMessage(id, user).code == 704
    ensures CreateClearedTextMessage(id, user).code == 705
    ensures CreateLeftMessage(id, user) == CreateLeftConversationMessage(id, user)
    ensures forall code :: 702 <= code <= 705 ==>
              var m := ConversationEvent(id, user, code);
              m.kind == Some(MsgType.Event) && m.conversationId == Some(id) && m.user == user
              && EventRoute(m.code) == ToConversation
  {
  }

  /** Idle and active events carry codes 710 and 711, no conversation id, and go to friends. */
  lemma PresenceEvents(user: string)
    ensures CreateUserIdleMessage(user).code == 710 && CreateUserActiveMessage(user).code == 711
    ensures CreateUserIdleMessage(user).conversationId.None? && CreateUserActiveMessage(user).conversationId.None?
    ensures EventRoute(CreateUserIdleMessage(user).code) == ToFriends
    ensures EventRoute(CreateUserActiveMessage(user).code) == ToFriends
  {
  }

  /**
   * An IDLE session relays a conversation event exactly for one of its
   * own conversations, and a presence event always.
   */
  lemma EventsPassServerChecks(id: int, user: string, code: int, mine: set<int>)
    requires 702 <= code <= 705
    ensures EventVerdict(IDLE, mine, ConversationEvent(id, user, code)).Pass? <==> id in mine
    ensures EventVerdict(IDLE, mine, CreateUserIdleMessage(user)).Pass?
    ensures EventVerdict(IDLE, mine, CreateUserActiveMessage(user)).Pass?
  {
    EventVerdictPass(IDLE, mine, ConversationEvent(id, user, code));
  }

  /**
   * The status message keeps the default code 0, which the server's event
   * handler refuses with 504 in every IDLE session.
   */
  lemma StatusMessageRefused(user: string, status: string, mine: set<int>)
    ensures CreateStatusMessage(user, status).code == 0
    ensures EventVerdict(IDLE, mine, CreateStatusMessage(user, status)) == Answer(WrongError())
  {
  }

  /**
   * A sent message has code 0 and passes the server's checks exactly for
   * a conversation of the session, with text.
   */
  lemma SentMessageChecks(id: int, user: string, text: string, mine: set<int>)
    ensures CreateSentMessage(id, user, text).code == 0
    ensures SendVerdict(IDLE, mine, CreateSentMessage(id, user, text)).Pass? <==> id in mine && |text| > 0
  {
    SendVerdictPass(IDLE, mine, CreateSentMessage(id, user, text));
  }

  /**
   * A start request for several users leaves User empty and lists them as
   * Friends, so the server takes its list branch; one for a single user
   * takes the single-user branch.
   */
  lemma StartRequests(user: string, users: seq<string>, cid: int, names: map<string, int>)
    ensures CreateStartMultipleMessage(users).user == "" && CreateStartMultipleMessage(users).friends == users
    ensures |users| > 0 ==>
              ChatServer.AddReply(CreateStartMultipleMessage(users), cid, names, true)
              == BatchAddReply(Some(MsgType.Start), cid, ChatServer.LoggedOnAmong(names, users), true)
    ensures |user| > 0 && user in names ==>
              ChatServer.AddReply(CreateStartMessage(user), cid, names, true) == AddedOne(Some(MsgType.Start), user, cid)
  {
  }

  /** A login request prints its type and user ("MESSAGE { Type: Login, User: cjfman }"). */
  lemma LoginMessageRendered(user: string)
    requires |user| > 0
    ensures Render(CreateLoginMessage(user)) == "MESSAGE { Type: " + "Login" + ", User: " + user + " }"
  {
  }
}
