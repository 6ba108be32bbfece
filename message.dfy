/**
 * The wire record exchanged between chat clients and the server
 * (main/Message.java): its fields and defaults, the setters, the
 * exception-guarded `equals`, and the `toString` rendering that the server
 * tests compare replies against character by character.
 */
module Messages {
  import opened Wrappers

  /** Message.Type, the discriminator of a message. */
  datatype MsgType = Login | Logout | Friends | Start | Status | Event | Add | Message | Response | Error

  /**
   * One message. `kind` is the Java field `type`, which stays null (None)
   * until a setter fills it; `conversationId` is the boxed Integer
   * ConversationID, null (None) unless the message is conversation-scoped.
   */
  datatype Message = Message(
    kind: Option<MsgType>,
    conversationId: Option<int>,
    user: string,
    code: int,
    status: string,
    friends: seq<string>)

  /** `new Message()`: every field at its declared default. */
  function Fresh(): Message {
    Message.Message(None, None, "", 0, "", [])
  }

  // ---------------------------------------------------------------------
  // Setters and getters. Each Java setter overwrites one field in place;
  // here it returns the record with that field replaced.
  // ---------------------------------------------------------------------

  function SetId(m: Message, id: Option<int>): Message { m.(conversationId := id) }
  function SetUser(m: Message, user: string): Message { m.(user := user) }
  function SetStatus(m: Message, status: string): Message { m.(status := status) }
  function SetFriends(m: Message, friends: seq<string>): Message { m.(friends := friends) }
  function SetType(m: Message, t: MsgType): Message { m.(kind := Some(t)) }
  function SetCode(m: Message, code: int): Message { m.(code := code) }

  /**
   * `getID` returns a primitive int by unboxing ConversationID, so it is
   * defined only when the field is non-null (otherwise Java throws).
   */
  function GetId(m: Message): int
    requires m.conversationId.Some?
  {
    m.conversationId.value
  }

  /** Each setter is read back by its getter and leaves every other field alone. */
  lemma SettersRoundTrip(m: Message, id: int, u: string, s: string, fs: seq<string>, t: MsgType, c: int)
    ensures GetId(SetId(m, Some(id))) == id
    ensures SetId(m, Some(id)).(conversationId := m.conversationId) == m
    ensures SetUser(m, u).user == u && SetUser(m, u).(user := m.user) == m
    ensures SetStatus(m, s).status == s && SetStatus(m, s).(status := m.status) == m
    ensures SetFriends(m, fs).friends == fs && SetFriends(m, fs).(friends := m.friends) == m
    ensures SetType(m, t).kind == Some(t) && SetType(m, t).(kind := m.kind) == m
    ensures SetCode(m, c).code == c && SetCode(m, c).(code := m.code) == m
  {
  }

  // ---------------------------------------------------------------------
  // Type names: Enum.toString and Type.valueOf.
  // ---------------------------------------------------------------------

  /** The constant's name, as Java prints an enum. */
  function TypeName(t: MsgType): string {
    match t
    case Login => "Login"
    case Logout => "Logout"
    case Friends => "Friends"
    case Start => "Start"
    case Status => "Status"
    case Event => "Event"
    case Add => "Add"
    case Message => "Message"
    case Response => "Response"
    case Error => "Error"
  }

  /** String concatenation prints a null type as "null". */
  function TypeText(k: Option<MsgType>): string {
    match k
    case Some(t) => TypeName(t)
    case None => "null"
  }

  /** `Type.valueOf(s)`; None where Java throws IllegalArgumentException. */
  function ParseType(s: string): Option<MsgType> {
    if s == "Login" then Some(MsgType.Login)
    else if s == "Logout" then Some(MsgType.Logout)
    else if s == "Friends" then Some(MsgType.Friends)
    else if s == "Start" then Some(MsgType.Start)
    else if s == "Status" then Some(MsgType.Status)
    else if s == "Event" then Some(MsgType.Event)
    else if s == "Add" then Some(MsgType.Add)
    else if s == "Message" then Some(MsgType.Message)
    else if s == "Response" then Some(MsgType.Response)
    else if s == "Error" then Some(MsgType.Error)
    else None
  }

  /** `setType(String)`: None where `valueOf` throws and the message is left as it was. */
  function SetTypeByName(m: Message, s: string): Option<Message> {
    match ParseType(s)
    case Some(t) => Some(SetType(m, t))
    case None => None
  }

  /** Parsing a name gives back exactly the constant that prints as that name. */
  lemma ParseTypeInvertsTypeName(t: MsgType, s: string)
    ensures ParseType(TypeName(t)) == Some(t)
    ensures ParseType(s) == Some(t) <==> s == TypeName(t)
  {
  }

  // ---------------------------------------------------------------------
  // equals
  // ---------------------------------------------------------------------

  /**
   * `equals(Message)`. Java compares the Friends arrays by reference, which
   * a value cannot express: `sameFriendsArray` says whether the two messages
   * hold the very same array object (which then has the same contents).
   * Any exception inside the comparison (a null type on the receiver, a null
   * ConversationID on either side) makes the result false.
   */
  function Equals(a: Message, b: Message, sameFriendsArray: bool): (r: bool)
    requires sameFriendsArray ==> a.friends == b.friends
    ensures r ==> a == b
    ensures a.conversationId.None? || b.conversationId.None? ==> !r
    ensures a == b && a.kind.Some? && a.conversationId.Some? && sameFriendsArray ==> r
  {
    if a.kind.None? then false                 // this.type.equals(..) throws
    else if a.conversationId.None? then false  // this.ConversationID.equals(..) throws
    else if b.conversationId.None? then false  // message.getID() throws on unboxing
    else
      a.kind == b.kind && a.conversationId == b.conversationId && a.user == b.user
      && a.code == b.code && a.status == b.status && sameFriendsArray
  }

  /** A freshly constructed message equals nothing, not even another fresh one. */
  lemma NothingEqualsFresh(m: Message, same: bool)
    requires same ==> m.friends == []
    ensures !Equals(m, Fresh(), same) && !Equals(Fresh(), m, same)
  {
  }

  // ---------------------------------------------------------------------
  // Decimal rendering of integers (Integer.toString), with its inverse.
  // ---------------------------------------------------------------------

  predicate IsDigit(c: char) { '0' <= c <= '9' }

  function DigitChar(d: int): (c: char)
    requires 0 <= d < 10
    ensures IsDigit(c) && c as int - '0' as int == d
  {
    "0123456789"[d]
  }

  /** The shortest decimal spelling of a natural number. */
  function NatToString(n: nat): (s: string)
    ensures |s| >= 1 && IsDigit(s[0])
    ensures s[0] == '0' ==> n == 0
    decreases n
  {
    if n < 10 then [DigitChar(n)] else NatToString(n / 10) + [DigitChar(n % 10)]
  }

  /** Java's decimal rendering of an int: a minus sign and the magnitude. */
  function IntToString(n: int): string {
    if n < 0 then "-" + NatToString(-n) else NatToString(n)
  }

  /** The value the decimal digits s[lo..hi] denote. */
  function DigitsValue(s: string, lo: nat, hi: nat): int
    requires lo <= hi <= |s|
    decreases hi - lo
  {
    if hi == lo then 0 else DigitsValue(s, lo, hi - 1) * 10 + (s[hi - 1] as int - '0' as int)
  }

  /** Integer.parseInt on the strings IntToString produces: an optional minus sign, then digits. */
  function ParseInt(s: string): int {
    if |s| > 0 && s[0] == '-' then 0 - DigitsValue(s, 1, |s|) else DigitsValue(s, 0, |s|)
  }

  /** Appending a character leaves the value of the earlier digits alone. */
  lemma {:induction false} DigitsValueAppend(s: string, c: char, hi: nat)
    requires hi <= |s|
    ensures DigitsValue(s + [c], 0, hi) == DigitsValue(s, 0, hi)
    decreases hi
  {
    if hi > 0 {
      assert (s + [c])[hi - 1] == s[hi - 1];
      DigitsValueAppend(s, c, hi - 1);
    }
  }

  /** Digits after a leading minus sign have the value they have on their own. */
  lemma {:induction false} DigitsValueAfterSign(s: string, hi: nat)
    requires hi <= |s|
    ensures DigitsValue("-" + s, 1, hi + 1) == DigitsValue(s, 0, hi)
    decreases hi
  {
    if hi > 0 {
      assert ("-" + s)[hi] == s[hi - 1];
      DigitsValueAfterSign(s, hi - 1);
    }
  }

  lemma {:induction false} NatToStringRoundTrip(n: nat)
    ensures DigitsValue(NatToString(n), 0, |NatToString(n)|) == n
    decreases n
  {
    if n >= 10 {
      var init := NatToString(n / 10);
      NatToStringRoundTrip(n / 10);
      DigitsValueAppend(init, DigitChar(n % 10), |init|);
    }
  }

  /** A leading minus sign appears exactly for negative numbers. */
  lemma IntToStringSign(n: int)
    ensures |IntToString(n)| >= 1 && (IntToString(n)[0] == '-' <==> n < 0)
  {
  }

  /** Rendering an int in decimal loses nothing: parsing gives the number back. */
  lemma IntToStringRoundTrip(n: int)
    ensures ParseInt(IntToString(n)) == n
  {
    if n < 0 {
      NegativeRoundTrip(n);
    } else {
      IntToStringSign(n);
      NatToStringRoundTrip(n);
    }
  }

  /** A negative number is "-" and its magnitude's digits, which parse back negated. */
  lemma NegativeRoundTrip(n: int)
    requires n < 0
    ensures ParseInt(IntToString(n)) == n
  {
    var m: nat := -n;
    NatToStringRoundTrip(m);
    DigitsValueAfterSign(NatToString(m), |NatToString(m)|);
  }

  // ---------------------------------------------------------------------
  // toString
  // ---------------------------------------------------------------------

  /** The Friends entries as `toString` accumulates them: each one followed by ", ". */
  function FriendsText(fs: seq<string>): string
    decreases |fs|
  {
    if fs == [] then "" else FriendsText(fs[..|fs| - 1]) + (fs[|fs| - 1] + ", ")
  }

  /** Rendering a list is rendering its parts one after the other. */
  lemma {:induction false} FriendsTextAppend(a: seq<string>, b: seq<string>)
    ensures FriendsText(a + b) == FriendsText(a) + FriendsText(b)
    decreases |b|
  {
    if b == [] {
      assert a + b == a;
    } else {
      var b', last := b[..|b| - 1], b[|b| - 1];
      assert (a + b)[..|a + b| - 1] == a + b';
      assert (a + b)[|a + b| - 1] == last;
      calc {
        FriendsText(a + b);
        FriendsText(a + b') + (last + ", ");
        { FriendsTextAppend(a, b'); }
        FriendsText(a) + FriendsText(b') + (last + ", ");
        FriendsText(a) + (FriendsText(b') + (last + ", "));
      }
    }
  }

  /** Rendering one more entry of a list appends that entry and ", ". */
  lemma FriendsTextStep(fs: seq<string>, i: nat)
    requires i < |fs|
    ensures FriendsText(fs[..i + 1]) == FriendsText(fs[..i]) + (fs[i] + ", ")
  {
    assert fs[..i + 1][..i] == fs[..i];
  }

  /** Each entry appears verbatim, immediately followed by ", ", in list order. */
  lemma FriendsTextOfEntries(x: string, y: string)
    ensures FriendsText([x]) == x + ", "
    ensures FriendsText([x, y]) == x + ", " + y + ", "
  {
    FriendsTextAppend([x], [y]);
  }

  /**
   * The specification of `toString`: the type, then each optional field
   * only when present (non-null id, non-empty user, positive code,
   * non-empty status), then the Friends list when non-empty, then " }".
   */
  function Render(m: Message): string {
    Head(m) + FriendsPart(m.friends) + " }"
  }

  /** Everything `toString` prints before the Friends list. */
  function Head(m: Message): string {
    "MESSAGE { Type: " + TypeText(m.kind) + IdPart(m) + UserPart(m) + CodePart(m) + StatusPart(m)
  }

  function IdPart(m: Message): string {
    if m.conversationId.Some? then ", Conversation ID: " + IntToString(m.conversationId.value) else ""
  }

  function UserPart(m: Message): string {
    if |m.user| > 0 then ", User: " + m.user else ""
  }

  function CodePart(m: Message): string {
    if m.code > 0 then ", Code: " + IntToString(m.code) else ""
  }

  function StatusPart(m: Message): string {
    if |m.status| > 0 then ", Status: " + m.status else ""
  }

  /** The Friends field in braces, or nothing for an empty array. */
  function FriendsPart(fs: seq<string>): string {
    if |fs| > 0 then ", Friends: {" + FriendsText(fs) + "}" else ""
  }

  /** Every rendering opens with the type and closes with " }". */
  lemma RenderBrackets(m: Message)
    ensures var r := Render(m); var head := "MESSAGE { Type: " + TypeText(m.kind);
      |r| >= |head| + 2 && r[..|head|] == head && r[|r| - 2..] == " }"
  {
    var head := "MESSAGE { Type: " + TypeText(m.kind);
    var x := head;
    assert x[..|head|] == head;
    PrefixKept(x, IdPart(m), head);
    x := x + IdPart(m);
    PrefixKept(x, UserPart(m), head);
    x := x + UserPart(m);
    PrefixKept(x, CodePart(m), head);
    x := x + CodePart(m);
    PrefixKept(x, StatusPart(m), head);
    x := x + StatusPart(m);
    PrefixKept(x, FriendsPart(m.friends), head);
    x := x + FriendsPart(m.friends);
    PrefixKept(x, " }", head);
    SuffixKept(x, " }");
  }

  /** Appending keeps a prefix. */
  lemma PrefixKept(x: string, y: string, p: string)
    requires |p| <= |x| && x[..|p|] == p
    ensures |p| <= |x + y| && (x + y)[..|p|] == p
  {
    assert (x + y)[..|p|] == x[..|p|];
  }

  /** The appended part is the suffix. */
  lemma SuffixKept(x: string, y: string)
    ensures (x + y)[|x + y| - |y|..] == y
  {
  }

  /** A message with nothing set prints as the bare header. */
  lemma RenderFresh()
    ensures Render(Fresh()) == "MESSAGE { Type: null }"
  {
  }

  /** Messages that compare equal print identically. */
  lemma EqualsRendersAlike(a: Message, b: Message, same: bool)
    requires same ==> a.friends == b.friends
    requires Equals(a, b, same)
    ensures Render(a) == Render(b)
  {
  }

  /** Regrouping a four-part concatenation, as `res += a + b` builds it. */
  lemma ConcatRegroup(a: string, b: string, c: string, d: string)
    ensures a + b + c + d == a + (b + c + d)
  {
  }

  /** The loop of `toString` that lists the friends, each followed by ", ". */
  method AppendFriends(prefix: string, fs: seq<string>) returns (res: string)
    ensures res == prefix + FriendsText(fs)
  {
    res := prefix;
    var i := 0;
    while i < |fs|
      invariant 0 <= i <= |fs|
      invariant res == prefix + FriendsText(fs[..i])
    {
      FriendsTextStep(fs, i);
      res := res + (fs[i] + ", ");
      i := i + 1;
    }
    assert fs[..i] == fs;
  }

  /** `toString`, accumulating the rendering in `res`. */
  method ToString(m: Message) returns (res: string)
    ensures res == Render(m)
  {
    var start := "MESSAGE { Type: " + TypeText(m.kind);
    res := start;
    if m.conversationId.Some? {
      res := res + (", Conversation ID: " + IntToString(m.conversationId.value));
    }
    assert res == start + IdPart(m);
    if |m.user| > 0 {
      res := res + (", User: " + m.user);
    }
    assert res == start + IdPart(m) + UserPart(m);
    if m.code > 0 {
      res := res + (", Code: " + IntToString(m.code));
    }
    assert res == start + IdPart(m) + UserPart(m) + CodePart(m);
    if |m.status| > 0 {
      res := res + (", Status: " + m.status);
    }
    assert res == Head(m);
    if |m.friends| > 0 {
      res := AppendFriends(res + ", Friends: {", m.friends);
      res := res + "}";
      ConcatRegroup(Head(m), ", Friends: {", FriendsText(m.friends), "}");
    }
    assert res == Head(m) + FriendsPart(m.friends);
    res := res + " }";
  }
}
