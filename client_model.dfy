/**
 * The client's view of the chat (main/ClientModel.java): which friends are
 * online and offline, the open conversations, and the requests queued for
 * the server.  Each handler takes one message received from the server.
 * The window calls (GUI.fireChanges, createNewConversation, the error
 * window) only repaint and are left out.
 */
module ClientModels {
  import opened Wrappers
  import opened Messages
  import opened Protocol
  import opened ClientConversations
  import ClientMessages
  import ChatServer

  // ---------------------------------------------------------------------
  // The friend lists
  // ---------------------------------------------------------------------

  /** The friends listed as online and those listed as offline. */
  datatype Roster = Roster(online: seq<string>, offline: seq<string>)

  /** ArrayList.remove(Object): drops the first occurrence of `x`, if any. */
  function RemoveFirst(xs: seq<string>, x: string): (r: seq<string>)
    ensures multiset(r) == multiset(xs) - multiset{x}
    ensures x !in xs ==> r == xs
  {
    if xs == [] then []
    else if xs[0] == x then
      assert xs == [xs[0]] + xs[1..];
      xs[1..]
    else
      assert xs == [xs[0]] + xs[1..];
      [xs[0]] + RemoveFirst(xs[1..], x)
  }

  /** Removing from a list without repeats leaves a list without repeats and without `x`. */
  lemma {:induction false} RemoveFirstDistinct(xs: seq<string>, x: string)
    requires Distinct(xs)
    ensures Distinct(RemoveFirst(xs, x)) && x !in RemoveFirst(xs, x)
    decreases |xs|
  {
    if xs != [] {
      assert xs[0] !in xs[1..];
      if xs[0] != x {
        var rest := RemoveFirst(xs[1..], x);
        RemoveFirstDistinct(xs[1..], x);
        assert xs[0] !in rest by {
          assert multiset(rest)[xs[0]] <= multiset(xs[1..])[xs[0]];
        }
        DistinctCons(xs[0], rest);
      }
    }
  }

  lemma DistinctCons(a: string, xs: seq<string>)
    requires Distinct(xs) && a !in xs
    ensures Distinct([a] + xs)
  {
    var ys := [a] + xs;
    forall i, j | 0 <= i < j < |ys| ensures ys[i] != ys[j] {
      if i == 0 {
        assert ys[j] == xs[j - 1];
      } else {
        assert ys[i] == xs[i - 1] && ys[j] == xs[j - 1];
      }
    }
  }

  lemma DistinctConcat(xs: seq<string>, ys: seq<string>)
    requires Distinct(xs) && Distinct(ys)
    requires forall y :: y in ys ==> y !in xs
    ensures Distinct(xs + ys)
  {
    var zs := xs + ys;
    forall i, j | 0 <= i < j < |zs| ensures zs[i] != zs[j] {
      if j < |xs| {
        assert zs[i] == xs[i] && zs[j] == xs[j];
      } else if i < |xs| {
        assert zs[j] == ys[j - |xs|] && zs[i] == xs[i];
        assert ys[j - |xs|] in ys;
      } else {
        assert zs[i] == ys[i - |xs|] && zs[j] == ys[j - |xs|];
      }
    }
  }

  /** Friends reported offline (replies 301 and 302): each name not yet listed offline is appended. */
  function ListedOffline(r: Roster, names: seq<string>): Roster {
    Roster(r.online, r.offline + FirstNew(names, ChatServer.Elements(r.offline)))
  }

  /**
   * A friend comes online (reply 304, event 700): appended to the online
   * list and struck once from the offline list, unless already online, in
   * which case nothing changes.
   */
  function ComesOnline(r: Roster, user: string): Roster {
    if user in r.online then r else Roster(r.online + [user], RemoveFirst(r.offline, user))
  }

  /** A friend goes offline (event 701): struck once from the online list, appended to the offline one. */
  function GoesOffline(r: Roster, user: string): Roster {
    Roster(RemoveFirst(r.online, user), r.offline + [user])
  }

  /** The lists after a Friends reply; one that names the client's own user changes nothing. */
  function OnFriends(me: string, r: Roster, m: Message): Roster {
    if m.user == me then r
    else if m.code == 301 then ListedOffline(r, [m.user])
    else if m.code == 302 then ListedOffline(r, m.friends)
    else if m.code == 304 || m.code == 305 then ComesOnline(r, m.user)
    else r
  }

  /** The lists after an Event; one about the client's own user changes nothing here. */
  function OnPresence(me: string, r: Roster, m: Message): Roster {
    if m.user == me then r
    else if m.code == 700 then ComesOnline(r, m.user)
    else if m.code == 701 then GoesOffline(r, m.user)
    else r
  }

  /** Replies 301 and 302 list exactly the named friends offline once more, each name once. */
  lemma ListedOfflineEffect(r: Roster, names: seq<string>)
    ensures forall x :: x in ListedOffline(r, names).offline <==> x in r.offline || x in names
    ensures Distinct(r.offline) ==> Distinct(ListedOffline(r, names).offline)
  {
    var known := ChatServer.Elements(r.offline);
    FirstNewContents(names, known);
    if Distinct(r.offline) {
      DistinctConcat(r.offline, FirstNew(names, known));
    }
  }

  /** A friend who comes online is listed online once and, if they were not online yet, no longer offline. */
  lemma ComesOnlineEffect(r: Roster, user: string)
    requires Distinct(r.online) && Distinct(r.offline)
    ensures var r' := ComesOnline(r, user);
            user in r'.online && Distinct(r'.online) && Distinct(r'.offline)
            && (user !in r.online ==> user !in r'.offline)
  {
    if user !in r.online {
      DistinctConcat(r.online, [user]);
      RemoveFirstDistinct(r.offline, user);
    }
  }

  /**
   * A friend who goes offline leaves the online list and is appended to the
   * offline list even when already there, which then lists them twice.
   */
  lemma GoesOfflineEffect(r: Roster, user: string)
    requires Distinct(r.online)
    ensures var r' := GoesOffline(r, user);
            user !in r'.online && Distinct(r'.online) && user in r'.offline
            && (user in r.offline ==> !Distinct(r'.offline))
  {
    RemoveFirstDistinct(r.online, user);
    var r' := GoesOffline(r, user);
    if user in r.offline {
      var i :| 0 <= i < |r.offline| && r.offline[i] == user;
      assert r'.offline[i] == r'.offline[|r.offline|];
    }
  }

  /** Friends replies never list anyone twice on either list. */
  lemma FriendsKeepsDistinct(me: string, r: Roster, m: Message)
    requires Distinct(r.online) && Distinct(r.offline)
    ensures Distinct(OnFriends(me, r, m).online) && Distinct(OnFriends(me, r, m).offline)
  {
    if m.user != me {
      if m.code == 301 {
        ListedOfflineEffect(r, [m.user]);
      } else if m.code == 302 {
        ListedOfflineEffect(r, m.friends);
      } else if m.code == 304 || m.code == 305 {
        ComesOnlineEffect(r, m.user);
      }
    }
  }

  // ---------------------------------------------------------------------
  // Conversations
  // ---------------------------------------------------------------------

  /** The member statuses of a conversation after an event from another user. */
  function OnConversationEvent(statuses: map<string, string>, m: Message): map<string, string> {
    if m.code == 702 then statuses[m.user := "User has entered text."]
    else if m.code == 703 then statuses[m.user := "User is typing"]
    else if m.code == 704 then statuses - {m.user}
    else if m.code == 705 then statuses[m.user := ""]
    else statuses
  }

  /** A conversation event touches only its sender's status: 704 drops the sender, 702, 703 and 705 set it. */
  lemma ConversationEventEffect(statuses: map<string, string>, m: Message)
    ensures var r := OnConversationEvent(statuses, m);
            (forall v :: v != m.user ==> (v in r <==> v in statuses) && (v in r ==> r[v] == statuses[v]))
            && (702 <= m.code <= 705 ==> (m.user in r <==> m.code != 704))
            && (m.code !in {702, 703, 704, 705} ==> r == statuses)
  {
  }

  /** The users a Start reply opens a conversation with (none for 605). */
  function Opened(m: Message): seq<string> {
    if m.code == 605 then [] else if m.code == 601 then [m.user] else m.friends
  }

  /** The users a Start reply makes friends of when they are not yet. */
  function Invited(m: Message): seq<string> {
    if m.code == 602 then m.friends else [m.user]
  }

  /** The users an Add reply adds to a conversation. */
  function Arrivals(m: Message): seq<string> {
    if m.code == 601 then [m.user] else if m.code == 602 then m.friends else []
  }

  /** One friend request per name, in order. */
  function FriendAddRequests(names: seq<string>): seq<Message> {
    seq(|names|, i requires 0 <= i < |names| => ClientMessages.CreateFriendAddMessage(names[i]))
  }

  lemma FriendAddRequestsConcat(xs: seq<string>, ys: seq<string>)
    ensures FriendAddRequests(xs + ys) == FriendAddRequests(xs) + FriendAddRequests(ys)
  {
  }

  /**
   * One step of a loop that appends each name of `names` missing from a
   * list that started as `start`: the list so far decides whether the
   * next name is added.
   */
  lemma AppendMissingStep(start: seq<string>, names: seq<string>, k: nat)
    requires k < |names|
    ensures var known := ChatServer.Elements(start);
            var sofar := start + FirstNew(names[..k], known);
            FirstNew(names[..k + 1], known) == FirstNew(names[..k], known) + (if names[k] in sofar then [] else [names[k]])
  {
    var known := ChatServer.Elements(start);
    FirstNewStep(names, k, known);
    FirstNewContents(names[..k], known);
  }

  /** The single-name batch adds the name exactly when it is not known. */
  lemma FirstNewOne(x: string, known: set<string>)
    ensures FirstNew([x], known) == if x in known then [] else [x]
  {
    assert [x][..0] == [];
  }

  /** Whether a Start reply opens a conversation (it names another user and carries an id). */
  predicate Opens(me: string, m: Message) {
    m.user != me && m.code in {601, 602, 605} && m.conversationId.Some?
  }

  /**
   * The server's replies to a start request: 601 and 602 carry the new
   * conversation's id, so the client opens it; 605 carries none, so the
   * client's handler stops at the missing id.
   */
  lemma StartRepliesAndClient(me: string, request: Message, cid: int, names: map<string, int>)
    ensures var reply := ChatServer.AddReply(request, cid, names, true);
            (reply.code in {601, 602} ==> reply.conversationId == Some(cid))
            && (reply.code == 605 ==> reply.conversationId.None? && !Opens(me, reply))
  {
  }

  class ClientModel {
    const user: string
    var friendsList: seq<string>
    var offlineFriends: seq<string>
    var sendables: seq<Message>
    var conversations: map<int, ClientConversation>

    /** Every open conversation is its own object. */
    ghost predicate Valid()
      reads this
    {
      forall a, b :: a in conversations && b in conversations && a != b ==> conversations[a] != conversations[b]
    }

    /** An open conversation shares its object with no other. */
    lemma Apart(cid: int)
      requires Valid() && cid in conversations
      ensures forall id :: id in conversations && id != cid ==> conversations[id] != conversations[cid]
    {
    }

    function Lists(): Roster
      reads this
    {
      Roster(friendsList, offlineFriends)
    }

    /** A client for `user`, sharing the queue of outgoing requests, with no friends and no conversations. */
    constructor (user: string, sendables: seq<Message>)
      ensures this.user == user && this.sendables == sendables
      ensures friendsList == [] && offlineFriends == [] && conversations == map[]
      ensures Valid()
    {
      this.user := user;
      this.sendables := sendables;
      friendsList := [];
      offlineFriends := [];
      conversations := map[];
    }

    /** Handles a Friends reply. */
    method Friends(input: Message)
      modifies this`friendsList, this`offlineFriends
      ensures Lists() == OnFriends(user, old(Lists()), input)
    {
      if input.user == user {
      } else if input.code == 301 {
        FirstNewOne(input.user, ChatServer.Elements(offlineFriends));
        if input.user !in offlineFriends {
          offlineFriends := offlineFriends + [input.user];
        }
      } else if input.code == 302 {
        ListOffline(input.friends);
      } else if input.code == 304 || input.code == 305 {
        if input.user !in friendsList {
          friendsList := friendsList + [input.user];
          if input.user in offlineFriends {
            offlineFriends := RemoveFirst(offlineFriends, input.user);
          }
        }
      } else if input.code == 305 {
        // The branch for several online friends: 305 was taken above.
        assert false;
      }
    }

    /** Appends to the offline list each name it does not list yet. */
    method ListOffline(names: seq<string>)
      modifies this`offlineFriends
      ensures offlineFriends == old(offlineFriends) + FirstNew(names, ChatServer.Elements(old(offlineFriends)))
    {
      ghost var known := ChatServer.Elements(offlineFriends);
      var k := 0;
      while k < |names|
        invariant 0 <= k <= |names|
        invariant offlineFriends == old(offlineFriends) + FirstNew(names[..k], known)
      {
        AppendMissingStep(old(offlineFriends), names, k);
        if names[k] !in offlineFriends {
          offlineFriends := offlineFriends + [names[k]];
        }
        k := k + 1;
      }
      assert names[..k] == names;
    }

    /** Makes a friend of `name` if not yet listed online, queuing a friend request for them. */
    method BefriendOne(name: string)
      modifies this`friendsList, this`sendables
      ensures var added := if name in old(friendsList) then [] else [name];
              friendsList == old(friendsList) + added && sendables == old(sendables) + FriendAddRequests(added)
    {
      if name !in friendsList {
        friendsList := friendsList + [name];
        sendables := sendables + [ClientMessages.CreateFriendAddMessage(name)];
      }
    }

    /** Makes friends of the named users not yet listed online, queuing one friend request for each. */
    method Befriend(names: seq<string>)
      modifies this`friendsList, this`sendables
      ensures friendsList == old(friendsList) + FirstNew(names, ChatServer.Elements(old(friendsList)))
      ensures sendables == old(sendables) + FriendAddRequests(FirstNew(names, ChatServer.Elements(old(friendsList))))
    {
      ghost var added := [];
      var k := 0;
      while k < |names|
        invariant 0 <= k <= |names|
        invariant added == FirstNew(names[..k], ChatServer.Elements(old(friendsList)))
        invariant friendsList == old(friendsList) + added
        invariant sendables == old(sendables) + FriendAddRequests(added)
      {
        AppendMissingStep(old(friendsList), names, k);
        ghost var next := if names[k] in friendsList then [] else [names[k]];
        FriendAddRequestsConcat(added, next);
        BefriendOne(names[k]);
        added := added + next;
        k := k + 1;
      }
      assert names[..k] == names;
    }

    /**
     * Handles a Start reply: opens the conversation under its id with its
     * users at empty status, and befriends them.  A 601, 602 or 605 reply
     * without an id stops at the id lookup (`crashed`) and changes nothing.
     */
    method StartConversation(input: Message) returns (crashed: bool)
      requires Valid()
      modifies this`conversations, this`friendsList, this`sendables
      ensures Valid()
      ensures crashed <==> input.user != user && input.code in {601, 602, 605} && input.conversationId.None?
      ensures !Opens(user, input) ==>
                conversations == old(conversations) && friendsList == old(friendsList) && sendables == old(sendables)
      ensures Opens(user, input) ==>
                var cid := input.conversationId.value;
                cid in conversations
                && var conv := conversations[cid];
                   conversations.Keys == old(conversations).Keys + {cid}
                   && (forall id :: id in old(conversations) && id != cid ==> conversations[id] == old(conversations[id]))
                   && fresh(conv) && conv.buff == ""
                   && (forall u :: u in conv.userStatus <==> u in Opened(input))
                   && (forall u :: u in conv.userStatus ==> conv.userStatus[u] == "")
                   && friendsList == old(friendsList) + FirstNew(Invited(input), ChatServer.Elements(old(friendsList)))
                   && sendables == old(sendables) + FriendAddRequests(FirstNew(Invited(input), ChatServer.Elements(old(friendsList))))
    {
      crashed := false;
      if input.user == user {
      } else if input.code == 601 || input.code == 605 || input.code == 602 {
        if input.conversationId.None? {
          crashed := true;
          return;
        }
        if input.code == 602 {
          var conv := new ClientConversation(input.friends);
          conversations := conversations[input.conversationId.value := conv];
          Befriend(input.friends);
        } else {
          var conv := new ClientConversation(if input.code == 605 then [] else [input.user]);
          conversations := conversations[input.conversationId.value := conv];
          FirstNewOne(input.user, ChatServer.Elements(friendsList));
          BefriendOne(input.user);
        }
      }
    }

    /**
     * Handles a chat message: unless it is the 400 acknowledgement or its
     * user is the very string object of this client's user (`sameObject`,
     * a reference comparison), its line is appended to that conversation.
     */
    method UpdateConversation(input: Message, sameObject: bool)
      requires Valid()
      modifies conversations.Values`buff
      ensures forall id :: id in conversations ==>
                conversations[id].buff
                == if input.code != 400 && !sameObject && input.conversationId == Some(id)
                   then old(conversations[id].buff) + Line(input.user, input.status)
                   else old(conversations[id].buff)
    {
      if input.code == 400 {
      } else if !sameObject {
        if input.conversationId.Some? && input.conversationId.value in conversations {
          Apart(input.conversationId.value);
          conversations[input.conversationId.value].UpdateConversation(input.user, input.status);
        }
      }
    }

    /** Handles an Add reply: the arriving users join that conversation, if it is open. */
    method AddToConversation(input: Message)
      requires Valid()
      modifies conversations.Values`userStatus
      ensures forall id :: id in conversations ==>
                conversations[id].userStatus
                == if input.conversationId == Some(id)
                   then Welcome(old(conversations[id].userStatus), Arrivals(input))
                   else old(conversations[id].userStatus)
    {
      if input.code == 601 {
        if input.conversationId.Some? && input.conversationId.value in conversations {
          Apart(input.conversationId.value);
          conversations[input.conversationId.value].AddUser(input.user);
        }
      }
      if input.code == 602 {
        if input.conversationId.Some? && input.conversationId.value in conversations {
          JoinAll(input.conversationId.value, input.friends);
        }
      }
    }

    /** Adds the named users, one at a time, to open conversation `cid`. */
    method JoinAll(cid: int, names: seq<string>)
      requires Valid() && cid in conversations
      modifies conversations.Values`userStatus
      ensures forall id :: id in conversations ==>
                conversations[id].userStatus
                == if id == cid then Welcome(old(conversations[id].userStatus), names)
                   else old(conversations[id].userStatus)
    {
      Apart(cid);
      var k := 0;
      while k < |names|
        invariant 0 <= k <= |names|
        invariant conversations[cid].userStatus == Welcome(old(conversations[cid].userStatus), names[..k])
        invariant forall id :: id in conversations && id != cid ==> conversations[id].userStatus == old(conversations[id].userStatus)
      {
        WelcomeStep(old(conversations[cid].userStatus), names, k);
        conversations[cid].AddUser(names[k]);
        k := k + 1;
      }
      assert names[..k] == names;
    }

    /**
     * Handles an Event: presence events (700, 701) move a friend between
     * the lists, conversation events (702 to 705) change the sender's status
     * in that conversation if it is open, and the client's own 704 closes it.
     */
    method Event(input: Message)
      requires Valid()
      modifies this`friendsList, this`offlineFriends, this`conversations, conversations.Values`userStatus
      ensures Valid()
      ensures Lists() == OnPresence(user, old(Lists()), input)
      ensures conversations
              == if input.user == user && input.code == 704 && input.conversationId.Some?
                 then old(conversations) - {input.conversationId.value}
                 else old(conversations)
      ensures input.user == user ==>
                forall id :: id in conversations ==> conversations[id].userStatus == old(conversations[id].userStatus)
      ensures input.user != user ==>
                forall id :: id in conversations ==>
                  conversations[id].userStatus
                  == if input.conversationId == Some(id)
                     then OnConversationEvent(old(conversations[id].userStatus), input)
                     else old(conversations[id].userStatus)
    {
      if input.user == user {
        if input.code == 704 {
          Close(input.conversationId);
        }
      } else {
        Presence(input);
        StatusEvent(input);
      }
    }

    /** The client's own user left conversation `cid` (704): it is closed. */
    method Close(cid: Option<int>)
      requires Valid()
      modifies this`conversations
      ensures Valid()
      ensures conversations == if cid.Some? then old(conversations) - {cid.value} else old(conversations)
    {
      if cid.Some? {
        conversations := conversations - {cid.value};
      }
    }

    /** A friend comes online (700) or goes offline (701); other events leave the lists alone. */
    method Presence(input: Message)
      requires input.user != user
      modifies this`friendsList, this`offlineFriends
      ensures Lists() == OnPresence(user, old(Lists()), input)
    {
      if input.code == 700 {
        if input.user !in friendsList {
          friendsList := friendsList + [input.user];
          if input.user in offlineFriends {
            offlineFriends := RemoveFirst(offlineFriends, input.user);
          }
        }
      } else if input.code == 701 {
        friendsList := RemoveFirst(friendsList, input.user);
        offlineFriends := offlineFriends + [input.user];
      }
    }

    /** Another member entered text (702), is typing (703), left (704) or cleared their text (705). */
    method StatusEvent(input: Message)
      requires Valid() && input.user != user
      modifies conversations.Values`userStatus
      ensures forall id :: id in conversations ==>
                conversations[id].userStatus
                == if input.conversationId == Some(id)
                   then OnConversationEvent(old(conversations[id].userStatus), input)
                   else old(conversations[id].userStatus)
    {
      if input.conversationId.Some? && input.conversationId.value in conversations {
        var conv := conversations[input.conversationId.value];
        Apart(input.conversationId.value);
        if input.code == 702 {
          conv.ChangeStatus(input.user, "User has entered text.");
        } else if input.code == 703 {
          conv.ChangeStatus(input.user, "User is typing");
        } else if input.code == 704 {
          conv.RemoveUser(input.user);
        } else if input.code == 705 {
          conv.ChangeStatus(input.user, "");
        }
      }
    }
  }
}
