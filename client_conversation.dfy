/**
 * One conversation as the client keeps it (main/ClientConversation.java):
 * the transcript text and the status line shown next to each member.
 */
module ClientConversations {

  /** The text a received chat line adds to the transcript. */
  function Line(user: string, text: string): string {
    "\n" + user + ": " + text
  }

  /** The transcript after the given (user, text) lines were received, in order. */
  function Transcript(lines: seq<(string, string)>): string {
    if lines == [] then ""
    else Transcript(lines[..|lines| - 1]) + Line(lines[|lines| - 1].0, lines[|lines| - 1].1)
  }

  /** How many line breaks `s` holds. */
  function Breaks(s: string): nat {
    if s == [] then 0 else Breaks(s[..|s| - 1]) + (if s[|s| - 1] == '\n' then 1 else 0)
  }

  lemma {:induction false} BreaksAppend(s: string, t: string)
    ensures Breaks(s + t) == Breaks(s) + Breaks(t)
    decreases |t|
  {
    if t == [] {
      assert s + t == s;
    } else {
      var init := t[..|t| - 1];
      BreaksAppend(s, init);
      assert (s + t)[..|s + t| - 1] == s + init;
    }
  }

  /**
   * When neither names nor texts contain a line break, the transcript has
   * exactly one line break per received line, so the lines can be told apart.
   */
  lemma {:induction false} TranscriptBreaks(lines: seq<(string, string)>)
    requires forall i :: 0 <= i < |lines| ==> Breaks(lines[i].0) == 0 && Breaks(lines[i].1) == 0
    ensures Breaks(Transcript(lines)) == |lines|
    decreases |lines|
  {
    if lines != [] {
      var init, last := lines[..|lines| - 1], lines[|lines| - 1];
      TranscriptBreaks(init);
      BreaksAppend(Transcript(init), Line(last.0, last.1));
      BreaksAppend("\n" + last.0, ": ");
      BreaksAppend("\n" + last.0 + ": ", last.1);
      BreaksAppend("\n", last.0);
      assert Breaks(": ") == 0 by {
        assert ": "[..1] == ":";
        assert ":"[..0] == "";
      }
      assert Breaks("\n") == 1 by {
        assert "\n"[..0] == "";
      }
    }
  }

  /** Every earlier transcript is a prefix of a later one: received text is never rewritten. */
  lemma {:induction false} TranscriptGrows(lines: seq<(string, string)>, k: nat)
    requires k <= |lines|
    ensures Transcript(lines[..k]) <= Transcript(lines)
    decreases |lines| - k
  {
    if k < |lines| {
      TranscriptGrows(lines, k + 1);
      assert lines[..k + 1][..k] == lines[..k];
    } else {
      assert lines[..k] == lines;
    }
  }

  /**
   * The member statuses after `names` were added one by one: a new member
   * starts with the empty status, a present one keeps the status it has.
   */
  function Welcome(statuses: map<string, string>, names: seq<string>): (r: map<string, string>)
    ensures forall u :: u in r <==> u in statuses || u in names
    ensures forall u :: u in statuses ==> r[u] == statuses[u]
    ensures forall u :: u in r && u !in statuses ==> r[u] == ""
  {
    if names == [] then statuses
    else
      var before := Welcome(statuses, names[..|names| - 1]);
      var u := names[|names| - 1];
      if u in before then before else before[u := ""]
  }

  lemma WelcomeStep(statuses: map<string, string>, names: seq<string>, k: nat)
    requires k < |names|
    ensures Welcome(statuses, names[..k + 1])
            == var before := Welcome(statuses, names[..k]);
               if names[k] in before then before else before[names[k] := ""]
  {
    assert names[..k + 1][..k] == names[..k];
  }

  class ClientConversation {
    var buff: string
    var userStatus: map<string, string>

    /** A new conversation: every listed member with an empty status, and no text yet. */
    constructor (users: seq<string>)
      ensures buff == ""
      ensures forall u :: u in userStatus <==> u in users
      ensures forall u :: u in userStatus ==> userStatus[u] == ""
    {
      var statuses := map[];
      var k := 0;
      while k < |users|
        invariant 0 <= k <= |users|
        invariant forall u :: u in statuses <==> u in users[..k]
        invariant forall u :: u in statuses ==> statuses[u] == ""
      {
        assert users[..k + 1] == users[..k] + [users[k]];
        statuses := statuses[users[k] := ""];
        k := k + 1;
      }
      assert users[..k] == users;
      buff := "";
      userStatus := statuses;
    }

    /** Adds a member with an empty status; a member already present keeps their status. */
    method AddUser(user: string)
      modifies this`userStatus
      ensures userStatus == Welcome(old(userStatus), [user])
      ensures user in old(userStatus) ==> userStatus == old(userStatus)
    {
      assert [user][..0] == [];
      if user !in userStatus {
        userStatus := userStatus[user := ""];
      }
    }

    /** Drops one member; the others keep their statuses. */
    method RemoveUser(user: string)
      modifies this`userStatus
      ensures userStatus == old(userStatus) - {user}
    {
      userStatus := userStatus - {user};
    }

    /** Appends one received line; the earlier text is kept as it was. */
    method UpdateConversation(user: string, text: string)
      modifies this`buff
      ensures buff == old(buff) + Line(user, text)
      ensures old(buff) <= buff
    {
      buff := buff + Line(user, text);
    }

    /** Sets one member's status (adding the member if absent); the others keep theirs. */
    method ChangeStatus(user: string, status: string)
      modifies this`userStatus
      ensures userStatus == old(userStatus)[user := status]
    {
      userStatus := userStatus[user := status];
    }
  }
}
