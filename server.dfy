/**
 * The chat server: the registry of conversations, connections and logged-in
 * users (main/Server.java) and the per-connection protocol handler
 * (main/ServerConnection.java).  The two classes refer to each other, so
 * they share this module.
 *
 * Sockets are replaced by two fields of each connection: `out`, the
 * messages written to its client so far, and `linkUp`, whether a write
 * succeeds (a write on a broken link throws IOException in Java).  Every
 * `synchronized` block is read as sequential code.  Java's HashSet and
 * HashMap iteration order is unspecified; loops over them pick the next
 * element with `:|`, so their contracts hold for every order.
 */
module ChatServer {
  import opened Wrappers
  import opened Messages
  import opened Protocol

  // ---------------------------------------------------------------------
  // Pure helpers shared by the registry and the handler
  // ---------------------------------------------------------------------

  /**
   * `Server.login`'s decision.  The id check comes first, so a connection
   * that re-sends its own name is refused as well: the comparison
   * `usernames.get(username).equals(ID)` can never be reached with a true
   * result.
   */
  function Accepts(names: map<string, int>, id: int, username: string): (r: bool)
    ensures r <==> id !in names.Values && username !in names
  {
    if id in names.Values then false
    else if username in names then names[username] == id
    else true
  }

  /** No two names are bound to the same connection id. */
  ghost predicate Injective(names: map<string, int>) {
    forall u, v :: u in names && v in names && u != v ==> names[u] != names[v]
  }

  /** An accepted login keeps the username table injective and binds exactly the new name. */
  lemma AcceptKeepsInjective(names: map<string, int>, id: int, username: string)
    requires Injective(names) && Accepts(names, id, username)
    ensures Injective(names[username := id])
    ensures names[username := id].Keys == names.Keys + {username}
  {
    var after := names[username := id];
    forall u, v | u in after && v in after && u != v
      ensures after[u] != after[v]
    {
      if u != username && v != username {
      } else if u == username {
        assert names[v] in names.Values;
      } else {
        assert names[u] in names.Values;
      }
    }
  }

  /**
   * `Server.leaveConversation` on the conversation table: a missing id
   * changes nothing; otherwise the user leaves and a conversation left
   * empty is destroyed.
   */
  function Leave(convs: map<int, set<string>>, cid: int, username: string): map<int, set<string>> {
    if cid !in convs then convs
    else
      var rest := convs[cid] - {username};
      if |rest| == 0 then convs - {cid} else convs[cid := rest]
  }

  /**
   * The table after `username` has left each conversation of `cids`: in
   * those it is no longer a member, and those it was the last member of
   * are gone.
   */
  function Departed(convs: map<int, set<string>>, cids: set<int>, username: string): map<int, set<string>> {
    map c | c in convs && (c !in cids || convs[c] - {username} != {}) :: if c in cids then convs[c] - {username} else convs[c]
  }

  /**
   * Leaving conversations one at a time, in whatever order the set is
   * walked, gives the table `Departed` describes.
   */
  lemma DepartedStep(convs: map<int, set<string>>, left: set<int>, cid: int, username: string)
    requires cid !in left
    ensures Departed(convs, {}, username) == convs
    ensures Leave(Departed(convs, left, username), cid, username) == Departed(convs, left + {cid}, username)
  {
    var before := Departed(convs, left, username);
    var after := Departed(convs, left + {cid}, username);
    assert cid in before <==> cid in convs;
    assert cid in before ==> before[cid] == convs[cid];
    var left1 := Leave(before, cid, username);
    assert forall c :: c in left1 <==> c in after;
    assert forall c :: c in left1 ==> left1[c] == after[c];
  }

  /** What `addFriend(String)` writes to its client for each of `names`, in order. */
  function FriendPushes(names: seq<string>): seq<Message> {
    if names == [] then [] else FriendPushes(names[..|names| - 1]) + [FriendPush(names[|names| - 1])]
  }

  lemma FriendPushesStep(names: seq<string>, k: nat)
    requires k < |names|
    ensures FriendPushes(names[..k + 1]) == FriendPushes(names[..k]) + [FriendPush(names[k])]
  {
    assert names[..k + 1][..k] == names[..k];
  }

  /** Every conversation in the table has at least one member. */
  ghost predicate NoEmptyConversation(convs: map<int, set<string>>) {
    forall c :: c in convs ==> convs[c] != {}
  }

  /**
   * Leaving touches only the named conversation, keeps every conversation
   * non-empty, and deletes the entry exactly when its last member leaves.
   */
  lemma LeaveProperties(convs: map<int, set<string>>, cid: int, username: string)
    requires NoEmptyConversation(convs)
    ensures NoEmptyConversation(Leave(convs, cid, username))
    ensures forall c :: c != cid ==> (c in Leave(convs, cid, username) <==> c in convs)
    ensures forall c :: c != cid && c in convs ==> Leave(convs, cid, username)[c] == convs[c]
    ensures cid in Leave(convs, cid, username) <==> cid in convs && convs[cid] != {username}
    ensures cid in Leave(convs, cid, username) ==> Leave(convs, cid, username)[cid] == convs[cid] - {username}
  {
    if cid in convs {
      var rest := convs[cid] - {username};
      if |rest| == 0 {
        assert convs[cid] <= {username};
      } else {
        assert rest != {};
        assert convs[cid] != {username} by {
          var x :| x in rest;
        }
      }
    }
  }

  /** `n` copies of `m`: what a connection receives when it is named `n` times. */
  function Repeat(m: Message, n: nat): (r: seq<Message>)
    ensures |r| == n && forall k :: 0 <= k < n ==> r[k] == m
  {
    if n == 0 then [] else Repeat(m, n - 1) + [m]
  }

  /** How many entries of `users` are logged in on connection `i`. */
  function Hits(names: map<string, int>, users: seq<string>, i: int): nat {
    if users == [] then 0
    else
      var u := users[|users| - 1];
      Hits(names, users[..|users| - 1], i) + if u in names && names[u] == i then 1 else 0
  }

  /** Listing one more user adds one hit for the connection that user is logged in on. */
  lemma HitsAppend(names: map<string, int>, users: seq<string>, u: string)
    ensures forall i :: Hits(names, users + [u], i) == Hits(names, users, i) + if BoundTo(names, u, i) then 1 else 0
  {
    assert (users + [u])[..|users|] == users;
  }

  /**
   * The entries of `users`, in order, that are logged in on a connection
   * whose link is down: the recipients a push fails for.
   */
  function Unreached(names: map<string, int>, down: set<int>, users: seq<string>): (r: seq<string>)
    ensures forall u :: u in r ==> u in users && u in names && names[u] in down
  {
    if users == [] then []
    else
      var u := users[|users| - 1];
      Unreached(names, down, users[..|users| - 1]) + if u in names && names[u] in down then [u] else []
  }

  /** Whether `u` is logged in on connection `i`. */
  predicate BoundTo(names: map<string, int>, u: string, i: int) {
    u in names && names[u] == i
  }

  /** Whether `u` is logged in on one of the connections `live`. */
  predicate Reaches(names: map<string, int>, live: set<int>, u: string) {
    u in names && names[u] in live
  }

  /**
   * `missed` lists, once each, the members among `visited` other than
   * `sender` that are not logged in on a live connection.
   */
  ghost predicate Missed(missed: seq<string>, visited: set<string>, sender: string, names: map<string, int>, live: set<int>) {
    Distinct(missed) && forall c :: c in missed <==> c in visited && c != sender && !Reaches(names, live, c)
  }

  /** Visiting one more member keeps `Missed`, listing the member exactly when it is lost. */
  lemma MissedStep(missed: seq<string>, visited: set<string>, contact: string, sender: string,
                   names: map<string, int>, live: set<int>, lost: bool)
    requires contact !in visited && Missed(missed, visited, sender, names, live)
    requires lost <==> contact != sender && !Reaches(names, live, contact)
    ensures Missed(if lost then missed + [contact] else missed, visited + {contact}, sender, names, live)
  {
  }

  /** The connections of the logged-in members of `members` other than `sender`. */
  ghost function Targets(names: map<string, int>, members: set<string>, sender: string): set<int> {
    set c | c in members && c != sender && c in names :: names[c]
  }

  /**
   * Visiting one more member adds at most its own connection to the
   * targets, and with unique bindings that connection was not a target yet.
   */
  lemma TargetsAdd(names: map<string, int>, visited: set<string>, c: string, sender: string)
    requires Injective(names) && c !in visited
    ensures Targets(names, visited + {c}, sender)
            == Targets(names, visited, sender) + if c != sender && c in names then {names[c]} else {}
    ensures c in names ==> names[c] !in Targets(names, visited, sender)
  {
    if c in names {
      forall d | d in visited && d in names
        ensures names[d] != names[c]
      {
        assert d != c;
      }
    }
  }

  /** The entries of `xs`, in order, that are logged in. */
  function LoggedOnAmong(names: map<string, int>, xs: seq<string>): (r: seq<string>)
    ensures forall x :: x in r <==> x in xs && x in names
  {
    if xs == [] then []
    else
      var last := xs[|xs| - 1];
      LoggedOnAmong(names, xs[..|xs| - 1]) + if last in names then [last] else []
  }

  /** A longer prefix mentions one more name. */
  lemma ElementsStep(xs: seq<string>, k: nat)
    requires k < |xs|
    ensures Elements(xs[..k + 1]) == Elements(xs[..k]) + {xs[k]}
  {
    assert xs[..k + 1][..k] == xs[..k];
  }

  /** Appending a name adds it to the mentioned names. */
  lemma ElementsAppend(xs: seq<string>, x: string)
    ensures Elements(xs + [x]) == Elements(xs) + {x}
  {
    assert (xs + [x])[..|xs|] == xs;
  }

  /** Filtering an extended list extends the filtered list by the new entry, if logged in. */
  lemma LoggedOnAmongAppend(names: map<string, int>, xs: seq<string>, x: string)
    ensures x in names ==> LoggedOnAmong(names, xs + [x]) == LoggedOnAmong(names, xs) + [x]
    ensures x !in names ==> LoggedOnAmong(names, xs + [x]) == LoggedOnAmong(names, xs)
  {
    assert (xs + [x])[..|xs|] == xs;
  }

  /** Filtering a longer prefix. */
  lemma LoggedOnAmongStep(names: map<string, int>, xs: seq<string>, k: nat)
    requires k < |xs|
    ensures xs[k] in names ==> LoggedOnAmong(names, xs[..k + 1]) == LoggedOnAmong(names, xs[..k]) + [xs[k]]
    ensures xs[k] !in names ==> LoggedOnAmong(names, xs[..k + 1]) == LoggedOnAmong(names, xs[..k])
  {
    assert xs[..k + 1] == xs[..k] + [xs[k]];
    LoggedOnAmongAppend(names, xs[..k], xs[k]);
  }

  /** The names a list mentions. */
  function Elements(xs: seq<string>): (r: set<string>)
    ensures forall x :: x in r <==> x in xs
  {
    if xs == [] then {} else Elements(xs[..|xs| - 1]) + {xs[|xs| - 1]}
  }

  /** Conversation `cid` of `convs` after `names` have joined it (nothing changes when it is absent). */
  function Joined(convs: map<int, set<string>>, cid: int, names: seq<string>): map<int, set<string>> {
    if cid in convs && |names| > 0 then convs[cid := convs[cid] + Elements(names)] else convs
  }

  /** One more name joining, as a second join of that name alone. */
  lemma JoinedStep(convs: map<int, set<string>>, cid: int, names: seq<string>, x: string)
    ensures Joined(Joined(convs, cid, names), cid, [x]) == Joined(convs, cid, names + [x])
  {
    ElementsAppend(names, x);
    assert Elements([x]) == {x};
    if cid in convs && names != [] {
      var once := Joined(convs, cid, names);
      assert once[cid] + {x} == convs[cid] + Elements(names + [x]);
    } else if names == [] {
      assert names + [x] == [x];
    }
  }

  /** The names `addToConversation(message, ID)` tries to add: the logged-in target or targets. */
  function AddedNames(request: Message, names: map<string, int>): seq<string> {
    if |request.user| > 0 then (if request.user in names then [request.user] else [])
    else LoggedOnAmong(names, request.friends)
  }

  /**
   * The reply of `addToConversation(message, ID)`, given the logged-in
   * names and whether the conversation exists: a single target must be
   * logged in (506) and the conversation must exist (508, typed); a list
   * goes through the batch outcome; a request naming nobody is 503.
   */
  function AddReply(request: Message, cid: int, names: map<string, int>, exists_: bool): Message {
    if |request.user| > 0 then
      if request.user !in names then NotLoggedOn(request.user)
      else if !exists_ then InternalError(true)
      else AddedOne(request.kind, request.user, cid)
    else if |request.friends| > 0 then BatchAddReply(request.kind, cid, LoggedOnAmong(names, request.friends), exists_)
    else MissingError()
  }

  /**
   * Adding members fails with 508 only for a missing conversation, and only
   * once some target is logged in; on an existing conversation the reply
   * lists exactly the logged-in targets.
   */
  lemma AddReplyOutcomes(request: Message, cid: int, names: map<string, int>, exists_: bool)
    ensures AddReply(request, cid, names, exists_).code == 508 <==> !exists_ && |AddedNames(request, names)| > 0
    ensures exists_ && |request.user| == 0 && |AddedNames(request, names)| > 0 ==>
              AddReply(request, cid, names, exists_).code == 602
              && AddReply(request, cid, names, exists_).friends == AddedNames(request, names)
    ensures exists_ && |request.user| > 0 && |AddedNames(request, names)| > 0 ==>
              AddReply(request, cid, names, exists_).code == 601
              && AddReply(request, cid, names, exists_).user == request.user
  {
  }

  /** A conversation that was just started exists, so adding its members is never fatal. */
  lemma StartNeverFatal(request: Message, cid: int, names: map<string, int>)
    ensures AddReply(request, cid, names, true).code != 508
    ensures AddReply(request, cid, names, true).code in {503, 506, 601, 602, 605}
  {
  }

  /**
   * The scan of `unusedID` and `startConversation`: the smallest id in
   * [0, bound) that `used` lacks, or `bound` when there is none.
   */
  method LowestFree(used: set<int>, bound: nat) returns (r: nat)
    ensures r <= bound
    ensures r < bound ==> r !in used
    ensures forall k :: 0 <= k < r ==> k in used
  {
    r := 0;
    while r < bound
      invariant r <= bound
      invariant forall k :: 0 <= k < r ==> k in used
    {
      if r !in used {
        return;
      }
      r := r + 1;
    }
  }

  /** The next element a HashSet iterator yields: any one of them. */
  method Pick<T>(s: set<T>) returns (x: T)
    requires s != {}
    ensures x in s
  {
    x :| x in s;
  }

  /**
   * `toArray` on a HashSet: every element once, in an order the model does
   * not fix.
   */
  method ToArray<T>(s: set<T>) returns (xs: seq<T>)
    ensures Distinct(xs)
    ensures forall x :: x in xs <==> x in s
  {
    xs := [];
    var rest := s;
    while rest != {}
      invariant Distinct(xs)
      invariant forall x :: x in xs <==> x in s && x !in rest
      invariant rest <= s
      decreases rest
    {
      var x :| x in rest;
      xs := xs + [x];
      rest := rest - {x};
    }
  }

  /** The ids 0 .. n-1. */
  function Range(n: nat): (r: set<int>)
    ensures forall k :: k in r <==> 0 <= k < n
  {
    if n == 0 then {} else Range(n - 1) + {n - 1}
  }

  /** There are exactly `n` ids in [0, n). */
  lemma {:induction false} RangeSize(n: nat)
    ensures |Range(n)| == n
  {
    if n > 0 {
      RangeSize(n - 1);
    }
  }

  /** A registry holding fewer than `bound` ids has a free one below `bound`. */
  lemma FreeBelow(used: set<int>, bound: nat)
    requires |used| < bound
    ensures exists k :: 0 <= k < bound && k !in used
  {
    if forall k :: 0 <= k < bound ==> k in used {
      RangeSize(bound);
      SubsetCard(Range(bound), used);
    }
  }

  lemma SubsetCard(a: set<int>, b: set<int>)
    requires a <= b
    ensures |a| <= |b|
  {
    assert b == a + (b - a);
  }

  // ---------------------------------------------------------------------
  // The registry
  // ---------------------------------------------------------------------

  /** main/Server.java: the maps shared by all connection handlers. */
  class Server {
    /** Conversation id to the names of its members. */
    var conversations: map<int, set<string>>
    /** Connection id to the handler serving it. */
    var connections: map<int, ServerConnection>
    /** Logged-in name to the id of its connection. */
    var usernames: map<string, int>
    /** Connections accepted so far; never decremented, since `connectionClosed` is never called. */
    var numConnections: int
    const allUsersMode: bool

    constructor (allUsersMode: bool)
      ensures conversations == map[] && connections == map[] && usernames == map[]
      ensures numConnections == 0 && this.allUsersMode == allUsersMode
      ensures Valid()
    {
      conversations := map[];
      connections := map[];
      usernames := map[];
      numConnections := 0;
      this.allUsersMode := allUsersMode;
    }

    /** Each handler is stored under its own id, so distinct ids name distinct handlers. */
    ghost predicate Indexed()
      reads this`connections
    {
      forall i :: i in connections ==> connections[i].id == i && connections[i].server == this
    }

    /** Connection ids lie in [0, 500), and no more connections are live than were accepted. */
    ghost predicate Capacity()
      reads this`connections, this`numConnections
    {
      (forall i :: i in connections ==> 0 <= i < MaxConnections) && |connections| <= numConnections
    }

    /** The shape of the maps: ids are keys, names are unique, conversations non-empty. */
    ghost predicate Wellformed()
      reads this
    {
      Indexed() && Capacity()
      && Injective(usernames)
      && NoEmptyConversation(conversations)
    }

    /**
     * The registry agrees with its handlers: every logged-in name belongs to
     * a live connection whose user it is, and every live connection with a
     * user is logged in under that name.
     */
    ghost predicate Valid()
      reads this, connections.Values`user
    {
      Wellformed() && Linked()
    }

    /** Logged-in names and handler users agree in both directions. */
    ghost predicate Linked()
      reads this`usernames, this`connections, connections.Values`user
    {
      (forall u :: u in usernames ==> usernames[u] in connections && connections[usernames[u]].user == Some(u))
      && (forall i :: i in connections && connections[i].user.Some? ==>
            connections[i].user.value in usernames && usernames[connections[i].user.value] == i)
    }

    /** `unusedID`: the smallest id in [0, 500) without a connection, or 500. */
    method UnusedID() returns (id: int)
      ensures 0 <= id <= MaxConnections
      ensures id < MaxConnections ==> id !in connections
      ensures forall k :: 0 <= k < id ==> k in connections
    {
      id := LowestFree(connections.Keys, MaxConnections);
    }

    /**
     * One pass of the accept loop of `serve`, without the socket: refuse the
     * client once 500 connections have been accepted, otherwise register a
     * new handler under the lowest free id.
     */
    method Register(linkUp: bool) returns (c: Option<ServerConnection>)
      requires Valid()
      modifies this
      ensures old(numConnections) >= MaxConnections ==> c.None? && unchanged(this)
      ensures old(numConnections) < MaxConnections ==>
        c.Some? && fresh(c.value) && c.value.id !in old(connections)
        && 0 <= c.value.id < MaxConnections
        && connections == old(connections)[c.value.id := c.value]
        && numConnections == old(numConnections) + 1
        && c.value.Initial() && c.value.server == this && c.value.linkUp == linkUp
      ensures conversations == old(conversations) && usernames == old(usernames)
      ensures Valid()
    {
      if numConnections >= MaxConnections {
        return None;
      }
      FreeBelow(connections.Keys, MaxConnections);
      var id := UnusedID();
      var conn := new ServerConnection(id, this, linkUp);
      connections := connections[id := conn];
      numConnections := numConnections + 1;
      c := Some(conn);
    }

    /** `login`: bind `username` to connection `id` unless either is already bound. */
    method Login(id: int, username: string) returns (ok: bool)
      modifies this`usernames
      ensures ok == Accepts(old(usernames), id, username)
      ensures usernames == if ok then old(usernames)[username := id] else old(usernames)
    {
      if id in usernames.Values {
        return false;
      }
      if username in usernames {
        return usernames[username] == id;
      }
      usernames := usernames[username := id];
      ok := true;
    }

    /** `logoff(ServerConnection)`: unbind the connection's user (if any) and drop the connection. */
    method LogoffConnection(c: ServerConnection)
      modifies this`usernames, this`connections
      ensures usernames == if c.user.Some? then old(usernames) - {c.user.value} else old(usernames)
      ensures connections == old(connections) - {c.id}
      ensures old(Valid()) && c.id in old(connections) && old(connections)[c.id] == c ==> Valid()
    {
      if c.user.Some? {
        usernames := usernames - {c.user.value};
      }
      connections := connections - {c.id};
    }

    /**
     * `logoff(String)`: drops the connection bound to `username`.  The
     * binding itself survives: `usernames.remove(ID)` looks an Integer up
     * in a map keyed by String and removes nothing.
     */
    method LogoffUser(username: string)
      modifies this`connections
      ensures usernames == old(usernames)
      ensures connections == if username in usernames then old(connections) - {usernames[username]} else old(connections)
    {
      if username in usernames {
        var id := usernames[username];
        connections := connections - {id};
      }
    }

    /** `loggedOn`. */
    predicate LoggedOn(username: string)
      reads this
    {
      username in usernames
    }

    /**
     * `startConversation`: open the lowest free conversation id with
     * `username` as its only member; None once every id below 0x7FFFFFFF
     * is taken.
     */
    method StartConversation(username: string) returns (cid: Option<int>)
      requires Wellformed()
      modifies this`conversations
      ensures cid.None? ==>
                (conversations == old(conversations)
                 && forall k :: 0 <= k < MaxConversations ==> k in old(conversations))
      ensures cid.Some? ==>
                (0 <= cid.value < MaxConversations && cid.value !in old(conversations)
                 && (forall k :: 0 <= k < cid.value ==> k in old(conversations))
                 && conversations == old(conversations)[cid.value := {username}])
      ensures Wellformed()
    {
      var id := LowestFree(conversations.Keys, MaxConversations);
      if id == MaxConversations {
        return None;
      }
      conversations := conversations[id := {username}];
      cid := Some(id);
    }

    /** `leaveConversation`. */
    method LeaveConversation(cid: int, username: string)
      requires Wellformed()
      modifies this`conversations
      ensures conversations == Leave(old(conversations), cid, username)
      ensures Wellformed()
    {
      if cid !in conversations {
        return;
      }
      var conversation := conversations[cid] - {username};
      if |conversation| == 0 {
        conversations := conversations - {cid};
      } else {
        conversations := conversations[cid := conversation];
      }
      LeaveProperties(old(conversations), cid, username);
    }

    /** `getConversationMembers`: a copy of the member set, or None for an unknown id. */
    function GetConversationMembers(cid: int): (r: Option<set<string>>)
      requires Wellformed()
      reads this
      ensures r.Some? <==> cid in conversations
      ensures r.Some? ==> r.value == conversations[cid] && r.value != {}
    {
      if cid in conversations then Some(conversations[cid]) else None
    }

    /** The connections whose writes fail. */
    ghost function Down(): set<int>
      reads this, connections.Values`linkUp
    {
      set i | i in connections && !connections[i].linkUp
    }

    /**
     * `pushMessage(Message, String[])`: write `m` to every listed user that
     * is logged in, once per listing; the result lists, in order, the users
     * whose write failed.  A logged-in name without a connection would make
     * Java dereference null, so the caller must rule it out.
     */
    method PushMessage(m: Message, users: seq<string>) returns (failed: seq<string>)
      requires Indexed()
      requires forall u :: u in users && u in usernames ==> usernames[u] in connections
      modifies connections.Values`out
      ensures failed == Unreached(usernames, Down(), users)
      ensures forall i :: i in connections ==>
                connections[i].out == old(connections[i].out) + if connections[i].linkUp then Repeat(m, Hits(usernames, users, i)) else []
    {
      ghost var before := Outboxes();
      assert Repeat(m, 0) == [];
      failed := [];
      var k := 0;
      while k < |users|
        invariant 0 <= k <= |users|
        invariant failed == Unreached(usernames, Down(), users[..k])
        invariant Pushed(before, m, users[..k])
      {
        var u := users[k];
        assert users[..k + 1][..k] == users[..k];
        assert users[..k + 1] == users[..k] + [u];
        var lost := PushTo(m, u, users[..k], before);
        if lost {
          failed := failed + [u];
        }
        ghost var next := users[..k + 1];
        k := k + 1;
        assert users[..k] == next;
      }
      assert users[..|users|] == users;
    }

    /**
     * Since the snapshot `before`, each connection whose link is up has
     * been written `m` once per entry of `sent` logged in on it.
     */
    ghost predicate Pushed(before: map<int, seq<Message>>, m: Message, sent: seq<string>)
      reads this, connections.Values`out, connections.Values`linkUp
    {
      forall i :: i in connections && i in before ==>
        connections[i].out == before[i] + if connections[i].linkUp then Repeat(m, Hits(usernames, sent, i)) else []
    }

    /** One turn of `pushMessage`'s loop: write `m` to `u`'s connection, if `u` is logged in. */
    method PushTo(m: Message, u: string, ghost sent: seq<string>, ghost before: map<int, seq<Message>>) returns (lost: bool)
      requires Indexed()
      requires u in usernames ==> usernames[u] in connections
      requires Pushed(before, m, sent)
      modifies connections.Values`out
      ensures lost == (u in usernames && usernames[u] in Down())
      ensures Pushed(before, m, sent + [u])
    {
      HitsAppend(usernames, sent, u);
      lost := false;
      if u in usernames {
        var conn := connections[usernames[u]];
        var ok := conn.PushMessage(m);
        lost := !ok;
      }
    }

    /** Whether a write to `username` reaches it: logged in, connected, link up. */
    ghost predicate Delivers(username: string)
      reads this, connections.Values`linkUp
    {
      Reaches(usernames, Live(), username)
    }

    /**
     * `pushMessageToConversation`: push `m` to every member of the
     * conversation, listed in some order as `members`; None for an unknown
     * conversation.
     */
    method PushMessageToConversation(cid: int, m: Message) returns (failed: Option<seq<string>>, ghost members: seq<string>)
      requires Wellformed()
      requires cid in conversations ==> forall u :: u in conversations[cid] && u in usernames ==> usernames[u] in connections
      modifies connections.Values`out
      ensures failed.None? <==> cid !in conversations
      ensures failed.None? ==> members == []
      ensures failed.Some? ==> Distinct(members) && forall u :: u in members <==> u in conversations[cid]
      ensures failed.Some? ==> failed.value == Unreached(usernames, Down(), members)
      ensures forall i :: i in connections ==>
                connections[i].out == old(connections[i].out)
                  + if failed.Some? && connections[i].linkUp then Repeat(m, Hits(usernames, members, i)) else []
    {
      if cid !in conversations {
        return None, [];
      }
      var conversation := ToArray(conversations[cid]);
      members := conversation;
      var f := PushMessage(m, conversation);
      failed := Some(f);
    }

    /**
     * `addToConversation(int, String)`: for a known conversation, add the
     * user; if the user is logged in and connected, that handler joins the
     * conversation and is sent the earlier `members`, and when that write
     * succeeds each earlier member is told who joined.  True exactly when
     * the conversation exists.
     */
    method AddToConversation(cid: int, username: string) returns (ok: bool, ghost members: seq<string>)
      requires Wellformed()
      requires cid in conversations ==> forall u :: u in conversations[cid] && u in usernames ==> usernames[u] in connections
      modifies this`conversations, connections.Values`conversations, connections.Values`out
      ensures Wellformed()
      ensures ok <==> cid in old(conversations)
      ensures !ok ==> conversations == old(conversations)
      ensures ok ==> conversations == old(conversations)[cid := old(conversations)[cid] + {username}]
      ensures ok ==> Distinct(members) && forall u :: u in members <==> u in old(conversations)[cid]
      ensures forall i :: i in connections ==>
                connections[i].conversations == old(connections[i].conversations)
                  + if ok && BoundTo(usernames, username, i) then {cid} else {}
      ensures forall i :: i in connections ==>
                connections[i].out == old(connections[i].out)
                  + (if ok && BoundTo(usernames, username, i) && connections[i].linkUp then [StartPush(cid, members)] else [])
                  + (if ok && Delivers(username) && connections[i].linkUp then Repeat(AddPush(cid, username), Hits(usernames, members, i)) else [])
    {
      if cid !in conversations {
        return false, [];
      }
      var conversation := ToArray(conversations[cid]);
      members := conversation;
      conversations := conversations[cid := conversations[cid] + {username}];
      ok := true;
      Admit(cid, username, conversation);
    }

    /**
     * The second half of `addToConversation`: the added user's handler, if
     * any, joins and is sent the earlier members; when that write succeeds
     * they are told who joined.
     */
    method Admit(cid: int, username: string, members: seq<string>)
      requires Indexed()
      requires forall u :: u in members && u in usernames ==> usernames[u] in connections
      modifies connections.Values`conversations, connections.Values`out
      ensures forall i :: i in connections ==>
                connections[i].conversations == old(connections[i].conversations)
                  + if BoundTo(usernames, username, i) then {cid} else {}
      ensures forall i :: i in connections ==>
                connections[i].out == old(connections[i].out)
                  + (if BoundTo(usernames, username, i) && connections[i].linkUp then [StartPush(cid, members)] else [])
                  + (if Delivers(username) && connections[i].linkUp then Repeat(AddPush(cid, username), Hits(usernames, members, i)) else [])
    {
      if username in usernames && usernames[username] in connections {
        var joining := connections[usernames[username]];
        var success := joining.JoinConversation(cid, members);
        if success {
          var _ := PushMessage(AddPush(cid, username), members);
        }
      }
    }

    /**
     * `sendMessage`: deliver a chat line to every other member of the
     * conversation.  The result is None for an unknown conversation, and
     * otherwise lists each member other than the sender that the line did
     * not reach: not logged in, logged in without a connection, or behind a
     * broken link.  For a logged-in member without a connection the source
     * calls `logoff(String)`, which then finds nothing to remove.
     */
    method SendMessage(cid: int, sender: string, text: string) returns (failed: Option<seq<string>>)
      requires Wellformed()
      modifies this`connections, connections.Values`out
      ensures connections == old(connections)
      ensures failed.None? <==> cid !in conversations
      ensures failed.Some? ==> Distinct(failed.value)
      ensures failed.Some? ==>
                forall c :: c in failed.value <==> c in conversations[cid] && c != sender && !Delivers(c)
      ensures forall i :: i in connections ==>
                connections[i].out == old(connections[i].out)
                  + if failed.Some? && connections[i].linkUp && i in Targets(usernames, conversations[cid], sender)
                    then [Chat(cid, sender, text)] else []
    {
      if cid !in conversations {
        return None;
      }
      var conversation := conversations[cid];
      ghost var live := Live();
      ghost var before := Outboxes();
      var rest := conversation;
      ghost var visited: set<string> := {};
      ghost var targets: set<int> := {};
      var missed: seq<string> := [];
      while rest != {}
        invariant rest <= conversation && visited == conversation - rest
        invariant targets == Targets(usernames, visited, sender)
        invariant connections == old(connections) && live == Live()
        invariant Missed(missed, visited, sender, usernames, live)
        invariant Relayed(before, Chat(cid, sender, text), targets)
        decreases rest
      {
        var contact := Pick(rest);
        assert conversation - (rest - {contact}) == visited + {contact};
        TargetsAdd(usernames, visited, contact, sender);
        var lost;
        lost, targets := Visit(cid, sender, text, contact, targets, live, before);
        MissedStep(missed, visited, contact, sender, usernames, live, lost);
        if lost {
          missed := missed + [contact];
        }
        visited := visited + {contact};
        rest := rest - {contact};
      }
      failed := Some(missed);
    }

    /** What has been written to each connection so far. */
    ghost function Outboxes(): map<int, seq<Message>>
      reads this, connections.Values`out
    {
      map i | i in connections :: connections[i].out
    }

    /**
     * Since the snapshot `before`, exactly the live connections among
     * `targets` have been sent `m`, once.
     */
    ghost predicate Relayed(before: map<int, seq<Message>>, m: Message, targets: set<int>)
      reads this, connections.Values`out, connections.Values`linkUp
    {
      forall i :: i in connections && i in before ==>
        connections[i].out == before[i] + if connections[i].linkUp && i in targets then [m] else []
    }

    /**
     * One turn of `sendMessage`'s loop: unless `contact` is the sender, the
     * line is relayed to it; `lost` says whether it is to be listed as failed.
     */
    method Visit(cid: int, sender: string, text: string, contact: string,
                 ghost targets: set<int>, ghost live: set<int>, ghost before: map<int, seq<Message>>)
      returns (lost: bool, ghost targets': set<int>)
      requires Indexed() && live == Live()
      requires contact in usernames ==> usernames[contact] !in targets
      requires Relayed(before, Chat(cid, sender, text), targets)
      modifies this`connections, connections.Values`out
      ensures connections == old(connections)
      ensures lost <==> contact != sender && !Reaches(usernames, live, contact)
      ensures targets' == targets + if contact != sender && contact in usernames then {usernames[contact]} else {}
      ensures Relayed(before, Chat(cid, sender, text), targets')
    {
      lost := false;
      targets' := targets;
      if contact != sender {
        lost := Relay(cid, sender, text, contact, live);
        if contact in usernames {
          targets' := targets + {usernames[contact]};
        }
      }
    }

    /** The ids of the connections whose writes succeed. */
    ghost function Live(): set<int>
      reads this, connections.Values`linkUp
    {
      set i | i in connections && connections[i].linkUp
    }

    /** The body of `sendMessage`'s loop for one member other than the sender. */
    method Relay(cid: int, sender: string, text: string, contact: string, ghost live: set<int>) returns (lost: bool)
      requires Indexed() && live == Live()
      modifies this`connections, connections.Values`out
      ensures connections == old(connections)
      ensures lost == !Reaches(usernames, live, contact)
      ensures forall i :: i in connections ==>
                connections[i].out == old(connections[i].out)
                  + if connections[i].linkUp && BoundTo(usernames, contact, i) then [Chat(cid, sender, text)] else []
    {
      if contact !in usernames {
        return true;
      }
      var receiverId := usernames[contact];
      if receiverId !in connections {
        LogoffUser(contact);
        return true;
      }
      var receiver := connections[receiverId];
      var ok := receiver.ReceiveMessage(cid, sender, text);
      lost := !ok;
    }

    /**
     * `addFriend(user, friend)`: the handler `user` is logged in on records
     * `friend` and is told so.  A logged-in name without a connection would
     * make Java dereference null, so the caller must rule it out.
     */
    method AddFriend(user: string, friend: string)
      requires Indexed()
      requires user in usernames ==> usernames[user] in connections
      modifies connections.Values`friends, connections.Values`out
      ensures forall i :: i in connections ==>
                connections[i].friends == old(connections[i].friends) + if BoundTo(usernames, user, i) then {friend} else {}
      ensures forall i :: i in connections ==>
                connections[i].out == old(connections[i].out)
                  + if BoundTo(usernames, user, i) && connections[i].linkUp then [FriendPush(friend)] else []
    {
      if user !in usernames {
        return;
      }
      var connection := connections[usernames[user]];
      connection.AddFriend(friend);
    }

    /** The logged-in users, other than `user`, whose handlers count `user` as a friend, among the handlers `ids`. */
    ghost function BefriendedAmong(ids: set<int>, user: string): set<string>
      reads this, connections.Values`user, connections.Values`friends
    {
      set i | i in ids && i in connections && connections[i].user.Some? && connections[i].user.value != user
                && connections[i].IsFriend(user) :: connections[i].user.value
    }

    /**
     * `findFriends`: every logged-in user other than `user` who has
     * befriended `user` (everybody, in all-users mode).  With consistent
     * tables no name is listed twice.
     */
    method FindFriends(user: string) returns (found: seq<string>)
      requires Wellformed()
      ensures forall f :: f in found <==> f in BefriendedAmong(connections.Keys, user)
      ensures Valid() ==> Distinct(found)
    {
      found := [];
      var rest := connections.Keys;
      ghost var visited: set<int> := {};
      while rest != {}
        invariant rest <= connections.Keys && visited == connections.Keys - rest
        invariant forall f :: f in found <==> f in BefriendedAmong(visited, user)
        invariant Valid() ==> Distinct(found)
        invariant Valid() ==> forall f :: f in found ==> f in usernames && usernames[f] in visited
        decreases rest
      {
        var key := Pick(rest);
        var connection := connections[key];
        visited := visited + {key};
        rest := rest - {key};
        var friend := connection.user;
        if friend.None? || friend.value == user {
          continue;
        }
        if connection.IsFriend(user) {
          found := found + [friend.value];
        }
      }
    }
  }

  // ---------------------------------------------------------------------
  // The connection handler
  // ---------------------------------------------------------------------

  /** main/ServerConnection.java: one client's session. */
  class ServerConnection {
    const id: int
    const server: Server
    const allUsersMode: bool
    var state: State
    /** The logged-in name; null (None) before login. */
    var user: Option<string>
    var friends: set<string>
    var conversations: set<int>
    /** Everything written to the client so far. */
    var out: seq<Message>
    /** Whether writes to the client succeed. */
    var linkUp: bool
    /** Whether the socket has been closed by `logoff`. */
    var closed: bool

    constructor (id: int, server: Server, linkUp: bool)
      ensures this.id == id && this.server == server && this.linkUp == linkUp
      ensures allUsersMode == server.allUsersMode
      ensures Initial()
    {
      this.id := id;
      this.server := server;
      this.allUsersMode := server.allUsersMode;
      this.linkUp := linkUp;
      state := BEGIN;
      user := None;
      friends := {};
      conversations := {};
      out := [];
      closed := false;
    }

    /** A new handler: BEGIN, nobody logged in, no friends, no conversations, nothing written. */
    ghost predicate Initial()
      reads this
    {
      state == BEGIN && user.None? && friends == {} && conversations == {} && out == [] && !closed
    }

    /** `isFriend`: every user counts as a friend in all-users mode. */
    predicate IsFriend(friend: string)
      reads this`friends
    {
      allUsersMode || friend in friends
    }

    /** `receiveMessage`: write a chat message; false where Java throws IOException. */
    method ReceiveMessage(cid: int, sender: string, text: string) returns (ok: bool)
      modifies this`out
      ensures ok == linkUp
      ensures out == old(out) + if linkUp then [Chat(cid, sender, text)] else []
    {
      ok := Write(Chat(cid, sender, text));
    }

    /** `pushMessage`: write `m`; false where Java throws IOException. */
    method PushMessage(m: Message) returns (ok: bool)
      modifies this`out
      ensures ok == linkUp
      ensures out == old(out) + if linkUp then [m] else []
    {
      ok := Write(m);
    }

    /** `out.writeObject`: succeeds exactly while the link is up. */
    method Write(m: Message) returns (ok: bool)
      modifies this`out
      ensures ok == linkUp
      ensures out == old(out) + if linkUp then [m] else []
    {
      if linkUp {
        out := out + [m];
      }
      ok := linkUp;
    }

    /** `addFriend`: called by the registry when `username` befriends this user. */
    method AddFriend(username: string)
      modifies this`friends, this`out
      ensures friends == old(friends) + {username}
      ensures out == old(out) + if linkUp then [FriendPush(username)] else []
    {
      friends := friends + {username};
      var _ := Write(FriendPush(username));
    }

    /** `addConversation(Integer)`. */
    method AddConversation(cid: int)
      modifies this`conversations
      ensures conversations == old(conversations) + {cid}
    {
      conversations := conversations + {cid};
    }

    /**
     * `addConversation(Integer, String[])`: join a conversation on another
     * handler's behalf and tell the client who is in it.
     */
    method JoinConversation(cid: int, members: seq<string>) returns (ok: bool)
      modifies this`conversations, this`out
      ensures conversations == old(conversations) + {cid}
      ensures ok == linkUp
      ensures out == old(out) + if linkUp then [StartPush(cid, members)] else []
    {
      conversations := conversations + {cid};
      ok := Write(StartPush(cid, members));
    }

    // -------------------------------------------------------------------
    // Request handlers
    // -------------------------------------------------------------------

    /** The session invariant: no user before login, a user once logged in. */
    ghost predicate SessionValid()
      reads this`state, this`user
    {
      (state == BEGIN ==> user.None?) && (state == IDLE || state == FRIENDS ==> user.Some?)
    }

    /** This handler is live in a consistent registry. */
    ghost predicate Registered()
      reads this`state, this`user, server, server.connections.Values`user
    {
      id in server.connections && server.connections[id] == this && server.Valid() && SessionValid()
    }

    /**
     * `login`: in BEGIN, a name of valid length that the registry accepts
     * logs the session in and moves it to FRIENDS; every other request is
     * refused and changes nothing.
     */
    method Login(request: Message) returns (reply: Message)
      requires Registered()
      modifies this`state, this`user, server`usernames
      ensures reply == LoginReply(old(state), request.user, Accepts(old(server.usernames), id, request.user))
      ensures state == LoginState(old(state), request.user, Accepts(old(server.usernames), id, request.user))
      ensures old(state) == BEGIN ==> (Accepts(old(server.usernames), id, request.user) <==> request.user !in old(server.usernames))
      ensures reply.code == 101 ==> user == Some(request.user) && server.usernames == old(server.usernames)[request.user := id]
      ensures reply.code != 101 ==> user == old(user) && server.usernames == old(server.usernames)
      ensures Registered()
    {
      if state != BEGIN {
        return Reply(MsgType.Error, 502, "Already logged in");
      }
      assert id !in server.usernames.Values;
      if |request.user| > MaxUserLength || |request.user| < MinUserLength {
        return Reply(MsgType.Error, 501, "Username must be shorter than 16 and longer than 4");
      }
      var name := request.user;
      ghost var before := server.usernames;
      var ok := server.Login(id, name);
      if ok {
        AcceptKeepsInjective(before, id, name);
        user := Some(name);
        state := FRIENDS;
        return Reply(MsgType.Login, 101, "Welcome " + name);
      }
      reply := Reply(MsgType.Error, 502, name + " already logged in");
    }

    /** `logout`: say goodbye and move to LOGOFF, which the run loop acts on. */
    method Logout() returns (reply: Message)
      requires Registered()
      modifies this`state
      ensures reply == LogoutReply(user) && state == LOGOFF
      ensures Registered()
    {
      reply := LogoutReply(user);
      state := LOGOFF;
    }

    /**
     * `friends`: outside IDLE the state guard's error; a single name is
     * added (300 when already a friend, else 304 or 301 by whether it is
     * logged in); a list adds its new names (303 listing those logged in,
     * else 302); a request with neither is 503.  Every logged-in handler of
     * a newly added name records this user as a friend in return, and its
     * client is told once per such name.
     */
    method Friends(request: Message) returns (reply: Message)
      requires Registered()
      modifies this`friends, server.connections.Values`friends, server.connections.Values`out
      ensures Registered()
      ensures CheckState(old(state)).Some? ==>
                reply == CheckState(old(state)).value && unchanged(server.connections.Values)
      ensures CheckState(old(state)).None? && |request.user| > 0 ==>
                reply == FriendReply(request.user in old(friends), request.user, request.user in server.usernames)
                && friends == old(friends) + {request.user}
      ensures CheckState(old(state)).None? && |request.user| > 0 ==>
                forall i :: i in server.connections && i != id ==>
                  server.connections[i].friends == old(server.connections[i].friends)
                    + if request.user !in old(friends) && BoundTo(server.usernames, request.user, i) then {user.value} else {}
      ensures CheckState(old(state)).None? && |request.user| > 0 ==>
                forall i :: i in server.connections ==>
                  server.connections[i].out == old(server.connections[i].out)
                    + if request.user !in old(friends) && BoundTo(server.usernames, request.user, i) && server.connections[i].linkUp
                      then [FriendPush(user.value)] else []
      ensures CheckState(old(state)).None? && |request.user| == 0 && |request.friends| > 0 ==>
                reply == FriendsBatchReply(|FirstNew(request.friends, old(friends))|,
                                           LoggedOnAmong(server.usernames, FirstNew(request.friends, old(friends))))
                && friends == old(friends) + Elements(request.friends)
      ensures CheckState(old(state)).None? && |request.user| == 0 && |request.friends| > 0 ==>
                forall i :: i in server.connections && i != id ==>
                  server.connections[i].friends == old(server.connections[i].friends)
                    + if Hits(server.usernames, FirstNew(request.friends, old(friends)), i) > 0 then {user.value} else {}
      ensures CheckState(old(state)).None? && |request.user| == 0 && |request.friends| > 0 ==>
                forall i :: i in server.connections ==>
                  server.connections[i].out == old(server.connections[i].out)
                    + if server.connections[i].linkUp
                      then Repeat(FriendPush(user.value), Hits(server.usernames, FirstNew(request.friends, old(friends)), i)) else []
      ensures CheckState(old(state)).None? && |request.user| == 0 && |request.friends| == 0 ==>
                reply == MissingError() && unchanged(server.connections.Values)
      ensures old(state) == IDLE ==>
                ServedInIdle(FriendsHandler, request, old(user).value, old(friends), old(conversations), old(server.conversations), Some(reply))
    {
      var error := CheckState(state);
      if error.Some? {
        return error.value;
      }
      if |request.user| > 0 {
        reply := AddOneFriend(request.user);
        return;
      }
      if |request.friends| > 0 {
        reply := AddFriends(request.friends);
        return;
      }
      reply := MissingError();
    }

    /**
     * The single-name branch of `friends`.  A new friend's own handler, if
     * it is logged in, records this user as its friend and is told so.
     */
    method AddOneFriend(friend: string) returns (reply: Message)
      requires Registered() && state == IDLE
      modifies this`friends, server.connections.Values`friends, server.connections.Values`out
      ensures Registered()
      ensures reply == FriendReply(friend in old(friends), friend, friend in server.usernames)
      ensures friends == old(friends) + {friend}
      ensures forall i :: i in server.connections && i != id ==>
                server.connections[i].friends == old(server.connections[i].friends)
                  + if friend !in old(friends) && BoundTo(server.usernames, friend, i) then {user.value} else {}
      ensures forall i :: i in server.connections ==>
                server.connections[i].out == old(server.connections[i].out)
                  + if friend !in old(friends) && BoundTo(server.usernames, friend, i) && server.connections[i].linkUp
                    then [FriendPush(user.value)] else []
    {
      if friend in friends {
        return Reply(MsgType.Friends, 300, "0 friends added");
      }
      Befriend(friend);
      var online := server.LoggedOn(friend);
      reply := Reply(MsgType.Friends, if online then 304 else 301, "1 friend added").(user := friend);
    }

    /**
     * Record `friend` here and, through the registry, record this user with
     * `friend`'s handler and tell its client.
     */
    method Befriend(friend: string)
      requires Registered() && state == IDLE
      modifies this`friends, server.connections.Values`friends, server.connections.Values`out
      ensures Registered()
      ensures friends == old(friends) + {friend}
      ensures forall i :: i in server.connections && i != id ==>
                server.connections[i].friends == old(server.connections[i].friends)
                  + if BoundTo(server.usernames, friend, i) then {user.value} else {}
      ensures forall i :: i in server.connections ==>
                server.connections[i].out == old(server.connections[i].out)
                  + if BoundTo(server.usernames, friend, i) && server.connections[i].linkUp then [FriendPush(user.value)] else []
    {
      friends := friends + {friend};
      server.AddFriend(friend, user.value);
    }

    /** One turn of the list branch of `friends`: a name not yet a friend is befriended. */
    method BefriendIfNew(friend: string) returns (isNew: bool, online: bool)
      requires Registered() && state == IDLE
      modifies this`friends, server.connections.Values`friends, server.connections.Values`out
      ensures Registered() && state == IDLE
      ensures friends == old(friends) + {friend}
      ensures isNew == (friend !in old(friends))
      ensures online == (isNew && friend in server.usernames)
      ensures forall i :: i in server.connections && i != id ==>
                server.connections[i].friends == old(server.connections[i].friends)
                  + if isNew && BoundTo(server.usernames, friend, i) then {user.value} else {}
      ensures forall i :: i in server.connections ==>
                server.connections[i].out == old(server.connections[i].out)
                  + if isNew && BoundTo(server.usernames, friend, i) && server.connections[i].linkUp
                    then [FriendPush(user.value)] else []
    {
      isNew := friend !in friends;
      online := false;
      if isNew {
        Befriend(friend);
        online := server.LoggedOn(friend);
      }
    }

    /**
     * Since the snapshots `before` (friends) and `outs` (written messages),
     * every other handler that a name of `added` is logged in on has gained
     * `me` as a friend, and every handler has been told once per such name.
     */
    ghost predicate Reciprocated(before: map<int, set<string>>, outs: map<int, seq<Message>>, added: seq<string>, me: string)
      reads server, server.connections.Values
    {
      forall i :: i in server.connections && i in before && i in outs ==>
        (i != id ==> server.connections[i].friends == before[i] + if Hits(server.usernames, added, i) > 0 then {me} else {})
        && server.connections[i].out
           == outs[i] + if server.connections[i].linkUp then Repeat(FriendPush(me), Hits(server.usernames, added, i)) else []
    }

    /**
     * One turn of the list branch: befriend `fs[k]`, extending the new names
     * by it exactly when it is new, and keep `Reciprocated` over them.
     */
    method BefriendNext(fs: seq<string>, k: nat, ghost known: set<string>, ghost before: map<int, set<string>>,
                        ghost outs: map<int, seq<Message>>) returns (isNew: bool, online: bool)
      requires k < |fs|
      requires Registered() && state == IDLE
      requires friends == known + Elements(fs[..k])
      requires Reciprocated(before, outs, FirstNew(fs[..k], known), user.value)
      modifies this`friends, server.connections.Values`friends, server.connections.Values`out
      ensures Registered() && state == IDLE
      ensures friends == known + Elements(fs[..k + 1])
      ensures FirstNew(fs[..k + 1], known) == if isNew then FirstNew(fs[..k], known) + [fs[k]] else FirstNew(fs[..k], known)
      ensures online == (isNew && fs[k] in server.usernames)
      ensures Reciprocated(before, outs, FirstNew(fs[..k + 1], known), user.value)
    {
      ElementsStep(fs, k);
      FirstNewStep(fs, k, known);
      ghost var sofar := FirstNew(fs[..k], known);
      isNew, online := Reciprocate(fs[k], sofar, before, outs);
      ghost var next := if isNew then sofar + [fs[k]] else sofar;
      assert next == FirstNew(fs[..k + 1], known);
    }

    /** Befriend `friend`, keeping `Reciprocated` over `added` extended by it when it is new. */
    method Reciprocate(friend: string, ghost added: seq<string>, ghost before: map<int, set<string>>,
                       ghost outs: map<int, seq<Message>>) returns (isNew: bool, online: bool)
      requires Registered() && state == IDLE
      requires Reciprocated(before, outs, added, user.value)
      modifies this`friends, server.connections.Values`friends, server.connections.Values`out
      ensures Registered() && state == IDLE
      ensures friends == old(friends) + {friend}
      ensures isNew == (friend !in old(friends))
      ensures online == (isNew && friend in server.usernames)
      ensures Reciprocated(before, outs, if isNew then added + [friend] else added, user.value)
    {
      isNew, online := BefriendIfNew(friend);
      HitsAppend(server.usernames, added, friend);
    }

    /**
     * The list branch of `friends`: each name not yet a friend is added, in
     * order.  The handler each new friend is logged in on records this user
     * as its friend and is told so, once per new friend bound to it.
     */
    method AddFriends(fs: seq<string>) returns (reply: Message)
      requires Registered() && state == IDLE
      modifies this`friends, server.connections.Values`friends, server.connections.Values`out
      ensures Registered()
      ensures reply == FriendsBatchReply(|FirstNew(fs, old(friends))|, LoggedOnAmong(server.usernames, FirstNew(fs, old(friends))))
      ensures friends == old(friends) + Elements(fs)
      ensures forall i :: i in server.connections && i != id ==>
                server.connections[i].friends == old(server.connections[i].friends)
                  + if Hits(server.usernames, FirstNew(fs, old(friends)), i) > 0 then {user.value} else {}
      ensures forall i :: i in server.connections ==>
                server.connections[i].out == old(server.connections[i].out)
                  + if server.connections[i].linkUp
                    then Repeat(FriendPush(user.value), Hits(server.usernames, FirstNew(fs, old(friends)), i)) else []
    {
      ghost var before := map i | i in server.connections :: server.connections[i].friends;
      ghost var outs := map i | i in server.connections :: server.connections[i].out;
      assert Repeat(FriendPush(user.value), 0) == [];
      var added, online := BefriendAll(fs, before, outs);
      reply := FriendsBatchReply(added, online);
    }

    /** The loop of the list branch: befriend each name of `fs` in order. */
    method BefriendAll(fs: seq<string>, ghost before: map<int, set<string>>, ghost outs: map<int, seq<Message>>)
      returns (added: nat, online: seq<string>)
      requires Registered() && state == IDLE
      requires Reciprocated(before, outs, [], user.value)
      modifies this`friends, server.connections.Values`friends, server.connections.Values`out
      ensures Registered() && state == IDLE
      ensures added == |FirstNew(fs, old(friends))|
      ensures online == LoggedOnAmong(server.usernames, FirstNew(fs, old(friends)))
      ensures friends == old(friends) + Elements(fs)
      ensures Reciprocated(before, outs, FirstNew(fs, old(friends)), user.value)
    {
      ghost var known := friends;
      ghost var names := server.usernames;
      added := 0;
      online := [];
      var k := 0;
      while k < |fs|
        invariant 0 <= k <= |fs|
        invariant Registered() && state == IDLE && server.usernames == names
        invariant friends == known + Elements(fs[..k])
        invariant added == |FirstNew(fs[..k], known)|
        invariant online == LoggedOnAmong(names, FirstNew(fs[..k], known))
        invariant Reciprocated(before, outs, FirstNew(fs[..k], known), user.value)
      {
        var isNew, isOnline := BefriendNext(fs, k, known, before, outs);
        LoggedOnAmongAppend(names, FirstNew(fs[..k], known), fs[k]);
        if isNew {
          added := added + 1;
          if isOnline {
            online := online + [fs[k]];
          }
        }
        ghost var next := fs[..k + 1];
        k := k + 1;
        assert fs[..k] == next;
      }
      assert fs[..k] == fs;
    }

    /**
     * `server.addToConversation(ID, friend)` as the handler sees it: true
     * exactly when the conversation exists, in which case `friend` joins it
     * (and this handler does too when `friend` is its own user).
     */
    method Include(cid: int, friend: string) returns (ok: bool)
      requires Registered()
      modifies server`conversations, server.connections.Values`conversations, server.connections.Values`out
      ensures Registered()
      ensures ok == (cid in old(server.conversations))
      ensures server.conversations == if ok then old(server.conversations)[cid := old(server.conversations)[cid] + {friend}]
                                      else old(server.conversations)
      ensures conversations == old(conversations) + if ok && user == Some(friend) then {cid} else {}
    {
      ghost var members;
      ok, members := server.AddToConversation(cid, friend);
    }

    /**
     * `addToConversation(message, ID)`: add the request's target, or each
     * logged-in name of its list, to conversation `cid`.  A refusal by the
     * registry is fatal: 508 and LOGOFF.
     */
    method AddMembers(request: Message, cid: int) returns (reply: Message)
      requires Registered() && state == IDLE
      modifies this`state, this`conversations, server`conversations,
               server.connections.Values`conversations, server.connections.Values`out
      ensures Registered()
      ensures reply == AddReply(request, cid, server.usernames, cid in old(server.conversations))
      ensures state == if reply.code == 508 then LOGOFF else IDLE
      ensures server.conversations == Joined(old(server.conversations), cid, AddedNames(request, server.usernames))
      ensures conversations == old(conversations)
                + if cid in old(server.conversations) && user.value in AddedNames(request, server.usernames) then {cid} else {}
    {
      if |request.user| > 0 {
        var friend := request.user;
        if !server.LoggedOn(friend) {
          return NotLoggedOn(friend);
        }
        var ok := Include(cid, friend);
        if !ok {
          state := LOGOFF;
          return InternalError(true);
        }
        assert Elements([friend]) == {friend};
        return AddedOne(request.kind, friend, cid);
      }
      if |request.friends| > 0 {
        reply := AddContacts(request.kind, cid, request.friends);
        return;
      }
      reply := MissingError();
    }

    /** One contact of the list: skipped when logged out, otherwise included. */
    method Enroll(cid: int, contact: string) returns (joined: bool, ok: bool)
      requires Registered()
      modifies server`conversations, server.connections.Values`conversations, server.connections.Values`out
      ensures Registered()
      ensures joined == (contact in server.usernames)
      ensures ok == (!joined || cid in old(server.conversations))
      ensures server.conversations == if joined then Joined(old(server.conversations), cid, [contact]) else old(server.conversations)
      ensures conversations == old(conversations) + if joined && ok && user == Some(contact) then {cid} else {}
    {
      joined := server.LoggedOn(contact);
      ok := true;
      if joined {
        ok := Include(cid, contact);
        assert Elements([contact]) == {contact};
      }
    }

    /**
     * One step of the list branch: `added` are the names added so far to
     * `cid` (which was `before` when the list started); a logged-in
     * `contact` joins too, and a refusal leaves everything as it was.
     */
    method EnrollNext(cid: int, contact: string, added: seq<string>, ghost before: map<int, set<string>>,
                      ghost mine: set<int>, ghost me: string)
      returns (ok: bool, added': seq<string>)
      requires Registered() && user == Some(me)
      requires cid !in before ==> added == []
      requires server.conversations == Joined(before, cid, added)
      requires conversations == mine + if cid in before && me in added then {cid} else {}
      modifies server`conversations, server.connections.Values`conversations, server.connections.Values`out
      ensures Registered()
      ensures ok == (contact !in server.usernames || cid in before)
      ensures added' == added + if contact in server.usernames then [contact] else []
      ensures ok && cid !in before ==> added' == []
      ensures server.conversations == Joined(before, cid, added')
      ensures conversations == mine + if cid in before && me in added' then {cid} else {}
    {
      var joined;
      joined, ok := Enroll(cid, contact);
      added' := added;
      if joined {
        JoinedStep(before, cid, added, contact);
        added' := added + [contact];
      }
    }

    /**
     * The loop of the list branch: every logged-in contact joins `cid`, in
     * list order; it stops at the first refusal, which happens exactly when
     * the conversation is missing and some contact is logged in.
     */
    method EnrollAll(cid: int, contacts: seq<string>) returns (ok: bool, added: seq<string>)
      requires Registered() && user.Some?
      modifies server`conversations, server.connections.Values`conversations, server.connections.Values`out
      ensures Registered()
      ensures ok == (cid in old(server.conversations) || LoggedOnAmong(server.usernames, contacts) == [])
      ensures ok ==> added == LoggedOnAmong(server.usernames, contacts)
      ensures server.conversations == Joined(old(server.conversations), cid, LoggedOnAmong(server.usernames, contacts))
      ensures conversations == old(conversations)
                + if cid in old(server.conversations) && user.value in LoggedOnAmong(server.usernames, contacts) then {cid} else {}
    {
      ghost var before := server.conversations;
      ghost var mine := conversations;
      ghost var me := user.value;
      ghost var names := server.usernames;
      added := [];
      var k := 0;
      while k < |contacts|
        invariant 0 <= k <= |contacts|
        invariant Registered() && user == Some(me) && server.usernames == names
        invariant added == LoggedOnAmong(names, contacts[..k])
        invariant cid !in before ==> added == []
        invariant server.conversations == Joined(before, cid, added)
        invariant conversations == mine + if cid in before && me in added then {cid} else {}
      {
        LoggedOnAmongStep(names, contacts, k);
        ok, added := EnrollNext(cid, contacts[k], added, before, mine, me);
        if !ok {
          assert contacts[k] in LoggedOnAmong(names, contacts);
          return;
        }
        k := k + 1;
      }
      assert contacts[..k] == contacts;
      ok := true;
    }

    /** The list branch of `addToConversation(message, ID)`. */
    method AddContacts(kind: Option<MsgType>, cid: int, contacts: seq<string>) returns (reply: Message)
      requires Registered() && state == IDLE
      modifies this`state, this`conversations, server`conversations,
               server.connections.Values`conversations, server.connections.Values`out
      ensures Registered()
      ensures reply == BatchAddReply(kind, cid, LoggedOnAmong(server.usernames, contacts), cid in old(server.conversations))
      ensures state == if reply.code == 508 then LOGOFF else IDLE
      ensures server.conversations == Joined(old(server.conversations), cid, LoggedOnAmong(server.usernames, contacts))
      ensures conversations == old(conversations)
                + if cid in old(server.conversations) && user.value in LoggedOnAmong(server.usernames, contacts) then {cid} else {}
    {
      var ok, added := EnrollAll(cid, contacts);
      if !ok {
        state := LOGOFF;
        return InternalError(false);
      }
      if |added| == 0 {
        return NoneAdded(kind);
      }
      reply := AddedMany(kind, cid, added);
    }

    /**
     * `startConversation`: in IDLE, open a conversation holding just this
     * user, join it, and add the request's targets to it; 507 once every
     * conversation id is taken.
     */
    method Start(request: Message) returns (reply: Message, ghost cid: Option<int>)
      requires Registered()
      modifies this`state, this`conversations, server`conversations,
               server.connections.Values`conversations, server.connections.Values`out
      ensures Registered()
      ensures CheckState(old(state)).Some? ==>
                reply == CheckState(old(state)).value && cid.None?
                && unchanged(this, server) && unchanged(server.connections.Values)
      ensures CheckState(old(state)).None? && cid.None? ==>
                reply == BusyError() && (forall k :: 0 <= k < MaxConversations ==> k in old(server.conversations))
                && unchanged(this, server) && unchanged(server.connections.Values)
      ensures cid.Some? ==>
                old(state) == IDLE && state == IDLE
                && 0 <= cid.value < MaxConversations && cid.value !in old(server.conversations)
                && (forall k :: 0 <= k < cid.value ==> k in old(server.conversations))
                && reply == AddReply(request, cid.value, server.usernames, true)
                && server.conversations == Joined(old(server.conversations)[cid.value := {user.value}], cid.value,
                                                  AddedNames(request, server.usernames))
                && conversations == old(conversations) + {cid.value}
      ensures old(state) == IDLE ==>
                ServedInIdle(StartHandler, request, old(user).value, old(friends), old(conversations), old(server.conversations), Some(reply))
    {
      var error := CheckState(state);
      if error.Some? {
        return error.value, None;
      }
      var started := server.StartConversation(user.value);
      if started.None? {
        return BusyError(), None;
      }
      cid := started;
      AddConversation(started.value);
      reply := AddMembers(request, started.value);
      StartNeverFatal(request, started.value, server.usernames);
    }

    /**
     * `addToConversation(message)`: in IDLE, add the request's targets to
     * the conversation it names.  Membership of the requester is not
     * checked; a request without a conversation id fails on unboxing and
     * gets no reply (None).
     */
    method Add(request: Message) returns (reply: Option<Message>)
      requires Registered()
      modifies this`state, this`conversations, server`conversations,
               server.connections.Values`conversations, server.connections.Values`out
      ensures Registered()
      ensures CheckState(old(state)).Some? ==>
                reply == Some(CheckState(old(state)).value) && unchanged(this, server) && unchanged(server.connections.Values)
      ensures CheckState(old(state)).None? && request.conversationId.None? ==>
                reply.None? && unchanged(this, server) && unchanged(server.connections.Values)
      ensures CheckState(old(state)).None? && request.conversationId.Some? ==>
                var cid := request.conversationId.value;
                reply == Some(AddReply(request, cid, server.usernames, cid in old(server.conversations)))
                && state == (if reply.value.code == 508 then LOGOFF else IDLE)
                && server.conversations == Joined(old(server.conversations), cid, AddedNames(request, server.usernames))
                && conversations == old(conversations)
                     + if cid in old(server.conversations) && user.value in AddedNames(request, server.usernames) then {cid} else {}
      ensures old(state) == IDLE ==>
                ServedInIdle(AddHandler, request, old(user).value, old(friends), old(conversations), old(server.conversations), reply)
    {
      var error := CheckState(state);
      if error.Some? {
        return Some(error.value);
      }
      if request.conversationId.None? {
        return None;
      }
      var added := AddMembers(request, request.conversationId.value);
      reply := Some(added);
    }

    /**
     * `sendMessage`: a request that passes the checks is handed to the
     * registry.  510 when the registry does not know the conversation;
     * otherwise 400, or 401 listing the members other than this user that
     * the text did not reach (the reply as intended; see
     * Protocol.SendReplyAsWritten for the code as written).
     */
    method Send(request: Message) returns (reply: Option<Message>, ghost failed: Option<seq<string>>)
      requires Registered()
      modifies server`connections, server.connections.Values`out
      ensures Registered() && server.connections == old(server.connections)
      ensures SendVerdict(state, conversations, request).Answer? ==>
                reply == Some(SendVerdict(state, conversations, request).reply) && unchanged(server.connections.Values)
      ensures SendVerdict(state, conversations, request).Silent? ==>
                reply.None? && unchanged(server.connections.Values)
      ensures SendVerdict(state, conversations, request).Pass? ==>
                var cid := request.conversationId.value;
                (failed.None? <==> cid !in server.conversations)
                && reply == Some(if failed.None? then SendFailure(cid) else SendReply(cid, failed.value))
                && (failed.Some? ==>
                      Distinct(failed.value)
                      && forall c :: c in failed.value <==> c in server.conversations[cid] && c != user.value && !server.Delivers(c))
                && forall i :: i in server.connections ==>
                     server.connections[i].out == old(server.connections[i].out)
                       + if failed.Some? && server.connections[i].linkUp
                            && i in Targets(server.usernames, server.conversations[cid], user.value)
                         then [Chat(cid, user.value, request.status)] else []
      ensures old(state) == IDLE ==>
                ServedInIdle(SendHandler, request, old(user).value, old(friends), old(conversations), old(server.conversations), reply)
    {
      var verdict := SendVerdict(state, conversations, request);
      if verdict.Answer? {
        return Some(verdict.reply), None;
      }
      if verdict.Silent? {
        return None, None;
      }
      var cid := request.conversationId.value;
      var result := server.SendMessage(cid, user.value, request.status);
      failed := result;
      if result.None? {
        return Some(SendFailure(cid)), failed;
      }
      reply := Some(SendReply(cid, result.value));
    }

    /**
     * `event`: a request that passes the checks is relayed with its User
     * overwritten by this session's user: codes 702 to 709 to every member
     * of the conversation (`audience`, empty when the registry no longer
     * knows it), where 704 also makes this user leave it; codes from 710 to
     * every friend.  The relayed message is also the reply.
     */
    method Event(request: Message) returns (reply: Option<Message>, ghost audience: seq<string>)
      requires Registered()
      modifies this`conversations, server`conversations, server.connections.Values`out
      ensures Registered()
      ensures EventVerdict(old(state), old(conversations), request).Answer? ==>
                reply == Some(EventVerdict(old(state), old(conversations), request).reply)
                && unchanged(this, server) && unchanged(server.connections.Values)
      ensures EventVerdict(old(state), old(conversations), request).Silent? ==>
                reply.None? && unchanged(this, server) && unchanged(server.connections.Values)
      ensures EventVerdict(old(state), old(conversations), request).Pass? ==>
                reply == Some(request.(user := user.value))
                && Distinct(audience)
                && (forall i :: i in server.connections ==>
                      server.connections[i].out == old(server.connections[i].out)
                        + if server.connections[i].linkUp then Repeat(reply.value, Hits(server.usernames, audience, i)) else [])
      ensures EventVerdict(old(state), old(conversations), request).Pass? && EventRoute(request.code) == ToFriends ==>
                (forall u :: u in audience <==> u in friends)
                && conversations == old(conversations) && server.conversations == old(server.conversations)
      ensures EventVerdict(old(state), old(conversations), request).Pass? && EventRoute(request.code) == ToConversation ==>
                var cid := request.conversationId.value;
                (forall u :: u in audience <==> cid in old(server.conversations) && u in old(server.conversations)[cid])
                && server.conversations == (if request.code == 704 then Leave(old(server.conversations), cid, user.value)
                                            else old(server.conversations))
                && conversations == (if request.code == 704 then old(conversations) - {cid} else old(conversations))
      ensures old(state) == IDLE ==>
                ServedInIdle(EventHandler, request, old(user).value, old(friends), old(conversations), old(server.conversations), reply)
    {
      var verdict := EventVerdict(state, conversations, request);
      if verdict.Answer? {
        return Some(verdict.reply), [];
      }
      if verdict.Silent? {
        return None, [];
      }
      var relayed := request.(user := user.value);
      reply := Some(relayed);
      if EventRoute(request.code) == ToConversation {
        audience := Broadcast(request.conversationId.value, relayed, request.code == 704);
      } else {
        audience := Announce(relayed);
      }
    }

    /**
     * Push `m` to every member of conversation `cid` (`audience`, empty
     * when the registry does not know it); when `leave`, this user then
     * leaves the conversation, in the registry and in its own set.
     */
    method Broadcast(cid: int, m: Message, leave: bool) returns (ghost audience: seq<string>)
      requires Registered() && user.Some?
      modifies this`conversations, server`conversations, server.connections.Values`out
      ensures Registered()
      ensures Distinct(audience)
      ensures forall u :: u in audience <==> cid in old(server.conversations) && u in old(server.conversations)[cid]
      ensures server.conversations == if leave then Leave(old(server.conversations), cid, user.value) else old(server.conversations)
      ensures conversations == if leave then old(conversations) - {cid} else old(conversations)
      ensures forall i :: i in server.connections ==>
                server.connections[i].out == old(server.connections[i].out)
                  + if server.connections[i].linkUp then Repeat(m, Hits(server.usernames, audience, i)) else []
    {
      var unreached;
      unreached, audience := server.PushMessageToConversation(cid, m);
      if unreached.None? {
        assert Repeat(m, 0) == [];
      }
      if leave {
        server.LeaveConversation(cid, user.value);
        conversations := conversations - {cid};
      }
    }

    /** Push `m` to every friend (`audience`, in the order the friend set is walked). */
    method Announce(m: Message) returns (ghost audience: seq<string>)
      requires Registered()
      modifies server.connections.Values`out
      ensures Distinct(audience)
      ensures forall u :: u in audience <==> u in friends
      ensures forall i :: i in server.connections ==>
                server.connections[i].out == old(server.connections[i].out)
                  + if server.connections[i].linkUp then Repeat(m, Hits(server.usernames, audience, i)) else []
    {
      var names := ToArray(friends);
      audience := names;
      var _ := server.PushMessage(m, names);
    }

    /** The FRIENDS step of the run loop: `findFriends`, then IDLE. */
    method Greet() returns (ghost found: seq<string>, ghost audience: seq<string>)
      requires Registered() && state == FRIENDS
      modifies this`state, this`friends, server.connections.Values`out
      ensures Registered() && state == IDLE
      ensures Distinct(found)
      ensures forall f :: f in found <==> f in old(server.BefriendedAmong(server.connections.Keys, user.value))
      ensures friends == old(friends) + Elements(found)
      ensures Distinct(audience) && forall u :: u in audience <==> u in friends
    {
      found, audience := FindFriends();
      state := IDLE;
    }

    /**
     * `findFriends`: every logged-in user who has befriended this one
     * becomes a friend (each announced to the client), and then every
     * friend is told this user is online.
     */
    method FindFriends() returns (ghost found: seq<string>, ghost audience: seq<string>)
      requires Registered() && user.Some?
      modifies this`friends, server.connections.Values`out
      ensures Distinct(found)
      ensures forall f :: f in found <==> f in old(server.BefriendedAmong(server.connections.Keys, user.value))
      ensures friends == old(friends) + Elements(found)
      ensures Distinct(audience) && forall u :: u in audience <==> u in friends
      ensures out == old(out) + if linkUp then FriendPushes(found) + Repeat(LoggedOnEvent(user.value), Hits(server.usernames, audience, id)) else []
      ensures forall i :: i in server.connections && i != id ==>
                server.connections[i].out == old(server.connections[i].out)
                  + if server.connections[i].linkUp then Repeat(LoggedOnEvent(user.value), Hits(server.usernames, audience, i)) else []
    {
      var names := server.FindFriends(user.value);
      found := names;
      Adopt(names);
      audience := Announce(LoggedOnEvent(user.value));
    }

    /** `addFriend(String)` for each of `names`, in order. */
    method Adopt(names: seq<string>)
      modifies this`friends, this`out
      ensures friends == old(friends) + Elements(names)
      ensures out == old(out) + if linkUp then FriendPushes(names) else []
    {
      var k := 0;
      while k < |names|
        invariant 0 <= k <= |names|
        invariant friends == old(friends) + Elements(names[..k])
        invariant out == old(out) + if linkUp then FriendPushes(names[..k]) else []
      {
        ElementsStep(names, k);
        FriendPushesStep(names, k);
        AddFriend(names[k]);
        k := k + 1;
      }
      assert names[..k] == names;
    }

    /**
     * `logoff`: tell each of this session's conversations that the user
     * left (Event 704) and leave it, tell every friend the user went
     * offline (Event 701), drop the connection and its login, and close the
     * socket.  The registry stays consistent.
     */
    method Logoff()
      requires Registered()
      modifies this`closed, server`conversations, server`usernames, server`connections, server.connections.Values`out
      ensures closed && server.Valid()
      ensures server.conversations == Departed(old(server.conversations), conversations, user.GetOr(""))
      ensures server.usernames == if user.Some? then old(server.usernames) - {user.value} else old(server.usernames)
      ensures server.connections == old(server.connections) - {id}
    {
      var name := user.GetOr("");
      LeaveAll(name);
      ghost var audience := Announce(LoggedOffEvent(name));
      server.LogoffConnection(this);
      closed := true;
    }

    /** The conversation loop of `logoff`: an Event 704 to each conversation, then leave it. */
    method LeaveAll(name: string)
      requires Registered()
      modifies server`conversations, server.connections.Values`out
      ensures Registered()
      ensures server.conversations == Departed(old(server.conversations), conversations, name)
    {
      ghost var before := server.conversations;
      var rest := conversations;
      ghost var left: set<int> := {};
      DepartedStep(before, left, 0, name);
      while rest != {}
        invariant rest <= conversations && left == conversations - rest
        invariant Registered()
        invariant server.conversations == Departed(before, left, name)
        decreases rest
      {
        var cid := Pick(rest);
        var unreached;
        ghost var members;
        unreached, members := server.PushMessageToConversation(cid, LeftEvent(cid, name));
        server.LeaveConversation(cid, name);
        DepartedStep(before, left, cid, name);
        left := left + {cid};
        rest := rest - {cid};
      }
    }

    /**
     * `handleConnection`: read one request (None when reading fails, which
     * moves the session to LOGOFF), answer it, and write the reply.
     * `writeFailed` is the IOException of that write.  The reply is the
     * one `Answer` gives.
     */
    method HandleConnection(request: Option<Message>) returns (reply: Option<Message>, writeFailed: bool)
      requires Registered()
      modifies this`state, this`user, this`friends, this`conversations, this`out,
               server`conversations, server`usernames, server`connections,
               server.connections.Values`friends, server.connections.Values`conversations, server.connections.Values`out
      ensures Registered() && server.connections == old(server.connections)
      ensures request.None? ==> reply.None? && state == LOGOFF
      ensures request.Some? && request.value.kind.None? ==> reply.None? && state == old(state)
      ensures request.Some? && request.value.kind.Some? && Dispatch(request.value.kind.value) == Unknown ==>
                reply == Some(InvalidCommand()) && state == old(state)
      ensures request.Some? && request.value.kind.Some? && Guarded(Dispatch(request.value.kind.value)) && old(state) == BEGIN ==>
                reply == CheckState(BEGIN) && state == BEGIN
                && server.conversations == old(server.conversations) && server.usernames == old(server.usernames)
      ensures old(state) == IDLE ==> state == IDLE || state == LOGOFF
      ensures writeFailed <==> reply.Some? && !linkUp
      ensures reply.Some? && linkUp ==> |out| > 0 && out[|out| - 1] == reply.value
      ensures request.Some? ==>
                Answered(request.value, old(state), user, old(friends), old(conversations), old(server.conversations),
                         old(server.usernames), state, reply)
    {
      writeFailed := false;
      if request.None? {
        state := LOGOFF;
        return None, false;
      }
      ghost var s0, known, mine, convs, names0 := state, friends, conversations, server.conversations, server.usernames;
      reply := Answer(request.value);
      writeFailed := Respond(reply, request.value, s0, known, mine, convs, names0);
    }

    /** Write the reply, if any, to the client; the write fails exactly when the link is down. */
    method Respond(reply: Option<Message>, ghost request: Message, ghost s0: State, ghost known: set<string>,
                   ghost mine: set<int>, ghost convs: map<int, set<string>>, ghost names0: map<string, int>)
      returns (writeFailed: bool)
      requires Registered()
      requires Answered(request, s0, user, known, mine, convs, names0, state, reply)
      modifies this`out
      ensures Registered()
      ensures Answered(request, s0, user, known, mine, convs, names0, state, reply)
      ensures writeFailed <==> reply.Some? && !linkUp
      ensures out == old(out) + if reply.Some? && linkUp then [reply.value] else []
    {
      writeFailed := false;
      if reply.Some? {
        var ok := Write(reply.value);
        writeFailed := !ok;
      }
    }

    /**
     * The reply `handleConnection`'s switch gives to `request`, from the
     * session state `s0`, friends `known`, conversations `mine` and the
     * registry's conversations `convs` and logins `names0` before it; `s1`
     * is the session state after it.
     */
    ghost predicate Answered(request: Message, s0: State, me: Option<string>, known: set<string>, mine: set<int>,
                             convs: map<int, set<string>>, names0: map<string, int>, s1: State, reply: Option<Message>)
      reads server, server.connections.Values`linkUp
    {
      if request.kind.None? then reply.None? && s1 == s0
      else
        match Dispatch(request.kind.value)
        case LoginHandler =>
          reply == Some(LoginReply(s0, request.user, Accepts(names0, id, request.user)))
          && s1 == LoginState(s0, request.user, Accepts(names0, id, request.user))
        case LogoutHandler => reply == Some(LogoutReply(me)) && s1 == LOGOFF
        case Unknown => reply == Some(InvalidCommand()) && s1 == s0
        case _ =>
          if s0 != IDLE then reply == CheckState(s0) && s1 == s0
          else me.Some? && ServedInIdle(Dispatch(request.kind.value), request, me.value, known, mine, convs, reply)
    }

    /**
     * The switch of `handleConnection`: the handler the request's type
     * selects computes the reply.  A request without a type makes Java
     * throw, and it gets no reply; Response and Error requests get 505.
     * The reply is the one `Answered` describes: login and logout answer
     * as their handlers do, the other handlers as `Serve` says.
     */
    method Answer(request: Message) returns (reply: Option<Message>)
      requires Registered()
      modifies this`state, this`user, this`friends, this`conversations,
               server`conversations, server`usernames, server`connections,
               server.connections.Values`friends, server.connections.Values`conversations, server.connections.Values`out
      ensures Registered() && server.connections == old(server.connections)
      ensures request.kind.None? ==> reply.None? && state == old(state)
      ensures request.kind.Some? && Dispatch(request.kind.value) == Unknown ==> reply == Some(InvalidCommand()) && state == old(state)
      ensures request.kind.Some? && Guarded(Dispatch(request.kind.value)) && old(state) == BEGIN ==>
                reply == CheckState(BEGIN) && state == BEGIN
                && server.conversations == old(server.conversations) && server.usernames == old(server.usernames)
      ensures old(state) == IDLE ==> state == IDLE || state == LOGOFF
      ensures Answered(request, old(state), user, old(friends), old(conversations), old(server.conversations),
                       old(server.usernames), state, reply)
    {
      if request.kind.None? {
        return None;
      }
      match Dispatch(request.kind.value)
      case LoginHandler =>
        var r := Login(request);
        reply := Some(r);
      case LogoutHandler =>
        var r := Logout();
        reply := Some(r);
      case Unknown =>
        reply := Some(InvalidCommand());
      case _ =>
        reply := Serve(request);
    }

    /**
     * The reply handler `h` gives in IDLE to `request` from user `me`,
     * given this handler's friends (`known`) and conversations (`mine`)
     * and the registry's conversations (`convs`) before the request; the
     * logins and links are read afterwards, since no handler behind the
     * guard changes them.
     */
    ghost predicate ServedInIdle(h: Handler, request: Message, me: string, known: set<string>, mine: set<int>,
                                 convs: map<int, set<string>>, reply: Option<Message>)
      reads server, server.connections.Values`linkUp
    {
      match h
      case FriendsHandler =>
        reply.Some? &&
        if |request.user| > 0 then
          reply.value == FriendReply(request.user in known, request.user, request.user in server.usernames)
        else if |request.friends| > 0 then
          reply.value == FriendsBatchReply(|FirstNew(request.friends, known)|,
                                           LoggedOnAmong(server.usernames, FirstNew(request.friends, known)))
        else reply.value == MissingError()
      case StartHandler =>
        reply.Some? &&
        if forall k :: 0 <= k < MaxConversations ==> k in convs then reply.value == BusyError()
        else exists c :: 0 <= c < MaxConversations && c !in convs && (forall k :: 0 <= k < c ==> k in convs)
                         && reply.value == AddReply(request, c, server.usernames, true)
      case SendHandler =>
        (match SendVerdict(IDLE, mine, request)
         case Answer(m) => reply == Some(m)
         case Silent => reply.None?
         case Pass =>
           var cid := request.conversationId.value;
           if cid !in server.conversations then reply == Some(SendFailure(cid))
           else exists f :: reply == Some(SendReply(cid, f))
                            && Missed(f, server.conversations[cid], me, server.usernames, server.Live()))
      case AddHandler =>
        if request.conversationId.None? then reply.None?
        else reply == Some(AddReply(request, request.conversationId.value, server.usernames, request.conversationId.value in convs))
      case EventHandler =>
        (match EventVerdict(IDLE, mine, request)
         case Answer(m) => reply == Some(m)
         case Silent => reply.None?
         case Pass => reply == Some(request.(user := me)))
      case _ => false
    }

    /**
     * The handlers behind the state guard: outside IDLE each answers the
     * guard's error and keeps the state; in IDLE the one the request type
     * selects answers as `ServedInIdle` says (both stated by `Answered`).
     */
    method Serve(request: Message) returns (reply: Option<Message>)
      requires Registered() && request.kind.Some? && Guarded(Dispatch(request.kind.value))
      modifies this`state, this`friends, this`conversations,
               server`conversations, server`connections,
               server.connections.Values`friends, server.connections.Values`conversations, server.connections.Values`out
      ensures Registered() && server.connections == old(server.connections)
      ensures old(state) == BEGIN ==>
                reply == CheckState(BEGIN) && state == BEGIN && server.conversations == old(server.conversations)
      ensures old(state) == IDLE ==> state == IDLE || state == LOGOFF
      ensures Answered(request, old(state), user, old(friends), old(conversations), old(server.conversations),
                       old(server.usernames), state, reply)
    {
      if Dispatch(request.kind.value) in {SendHandler, EventHandler} {
        reply := ServeRelay(request);
      } else {
        reply := ServeMembership(request);
      }
    }

    /** The guarded handlers that relay a message: text messages and events. */
    method ServeRelay(request: Message) returns (reply: Option<Message>)
      requires Registered() && request.kind.Some? && Dispatch(request.kind.value) in {SendHandler, EventHandler}
      modifies this`conversations, server`conversations, server`connections, server.connections.Values`out
      ensures Registered() && server.connections == old(server.connections) && state == old(state)
      ensures old(state) == BEGIN ==> reply == CheckState(BEGIN) && server.conversations == old(server.conversations)
      ensures Answered(request, old(state), user, old(friends), old(conversations), old(server.conversations),
                       old(server.usernames), state, reply)
    {
      if Dispatch(request.kind.value) == SendHandler {
        ghost var failed;
        reply, failed := Send(request);
      } else {
        ghost var audience;
        reply, audience := Event(request);
      }
    }

    /** The guarded handlers that change friendships or conversation membership. */
    method ServeMembership(request: Message) returns (reply: Option<Message>)
      requires Registered() && request.kind.Some? && Dispatch(request.kind.value) in {FriendsHandler, StartHandler, AddHandler}
      modifies this`state, this`friends, this`conversations, server`conversations,
               server.connections.Values`friends, server.connections.Values`conversations, server.connections.Values`out
      ensures Registered()
      ensures old(state) == BEGIN ==>
                reply == CheckState(BEGIN) && state == BEGIN && server.conversations == old(server.conversations)
      ensures old(state) == IDLE ==> state == IDLE || state == LOGOFF
      ensures Answered(request, old(state), user, old(friends), old(conversations), old(server.conversations),
                       old(server.usernames), state, reply)
    {
      match Dispatch(request.kind.value)
      case FriendsHandler =>
        var r := Friends(request);
        reply := Some(r);
      case StartHandler =>
        var r;
        ghost var cid;
        r, cid := Start(request);
        reply := Some(r);
      case AddHandler =>
        reply := Add(request);
    }

    /**
     * One pass of the run loop: the FRIENDS step when due, then one
     * request; a session in LOGOFF afterwards, or whose reply could not be
     * written, is logged off and closed.
     */
    method Step(request: Option<Message>) returns (reply: Option<Message>)
      requires Registered() && state != LOGOFF && !closed
      modifies this, server, server.connections.Values
      ensures server.Valid()
      ensures closed <==> id !in server.connections
      ensures !closed ==> Registered() && state != LOGOFF
      ensures old(state) != BEGIN && !closed ==> state == IDLE
      ensures request.None? ==> reply.None? && closed
      ensures reply.Some? && !linkUp ==> closed
    {
      if state == FRIENDS {
        ghost var found, audience := Greet();
      }
      var failed;
      reply, failed := HandleConnection(request);
      if failed || state == LOGOFF {
        Logoff();
      }
    }
  }
}
