/** The WebSocket gateway: the user-to-sockets index its handlers keep, the rooms they join, and the routing of
    messages from the Redis channels. */
module Sockets {
  import opened Text

  // ---------------------------------------------------------------- values

  /** The integers JavaScript's numbers hold exactly, and show in decimal. */
  type SafeInteger = n: int | -0x20_0000_0000_0000 < n < 0x20_0000_0000_0000

  /** A parsed JSON value, or JavaScript's undefined. */
  datatype Value =
    | Undefined
    | Null
    | Flag(b: bool)
    | Number(n: SafeInteger)
    | Str(s: string)
    | Object(fields: map<string, Value>)

  predicate Truthy(v: Value) {
    match v
    case Undefined => false
    case Null => false
    case Flag(b) => b
    case Number(n) => n != 0
    case Str(s) => s != ""
    case Object(_) => true
  }

  function Digit(d: nat): char
    requires d < 10
  {
    ('0' as int + d) as char
  }

  function Decimal(n: nat): (s: string)
    ensures s != "" && forall i | 0 <= i < |s| :: '0' <= s[i] <= '9'
  {
    if n < 10 then [Digit(n)] else Decimal(n / 10) + [Digit(n % 10)]
  }

  /** A value inside a template literal. */
  function Shown(v: Value): string {
    match v
    case Undefined => "undefined"
    case Null => "null"
    case Flag(b) => if b then "true" else "false"
    case Number(n) => if n < 0 then "-" + Decimal(-n) else Decimal(n)
    case Str(s) => s
    case Object(_) => "[object Object]"
  }

  /** The property `name` of a value; None where reading it throws. */
  function Property(v: Value, name: string): Option<Value> {
    match v
    case Undefined => None
    case Null => None
    case Object(fields) => Some(if name in fields then fields[name] else Undefined)
    case _ => Some(Undefined)
  }

  function RoomOf(user: string): string {
    "user:" + user
  }

  /** The number a string of digits stands for. */
  function ReadDecimal(s: string): nat
    requires forall i | 0 <= i < |s| :: '0' <= s[i] <= '9'
  {
    if s == "" then 0 else 10 * ReadDecimal(s[..|s| - 1]) + (s[|s| - 1] as int - '0' as int)
  }

  /** The decimal form of a number is read back as that number, and has no leading zero. */
  lemma {:induction false} DecimalIsReadBack(n: nat)
    ensures ReadDecimal(Decimal(n)) == n
    ensures n > 0 ==> Decimal(n)[0] != '0'
  {
    var s := Decimal(n);
    if n < 10 {
      assert s[..|s| - 1] == "";
    } else {
      DecimalIsReadBack(n / 10);
      assert s[..|s| - 1] == Decimal(n / 10);
    }
  }

  lemma {:induction false} DecimalIsInjective(a: nat, b: nat)
    requires Decimal(a) == Decimal(b)
    ensures a == b
  {
    var x, y := Decimal(a), Decimal(b);
    assert x[|x| - 1] == Digit(a % 10) && y[|y| - 1] == Digit(b % 10);
    if a >= 10 && b >= 10 {
      assert x[..|x| - 1] == Decimal(a / 10) && y[..|y| - 1] == Decimal(b / 10);
      DecimalIsInjective(a / 10, b / 10);
    }
  }

  /** Two numeric ids lead to the same room exactly when they are the same number; and a number leads to the room of
      the user whose id is its decimal form. */
  lemma NumbersNameTheirUsers(a: SafeInteger, b: SafeInteger, user: string)
    ensures RoomOf(Shown(Number(a))) == RoomOf(Shown(Number(b))) <==> a == b
    ensures RoomOf(Shown(Number(a))) == RoomOf(user) <==> user == Shown(Number(a))
  {
    RoomsAreDistinct(Shown(Number(a)), Shown(Number(b)));
    RoomsAreDistinct(Shown(Number(a)), user);
    if Shown(Number(a)) == Shown(Number(b)) {
      ShownIsInjective(a, b);
    }
  }

  lemma ShownIsInjective(a: SafeInteger, b: SafeInteger)
    requires Shown(Number(a)) == Shown(Number(b))
    ensures a == b
  {
    var x, y := Shown(Number(a)), Shown(Number(b));
    assert a < 0 <==> x[0] == '-';
    assert b < 0 <==> y[0] == '-';
    if a < 0 {
      assert x[1..] == Decimal(-a) && y[1..] == Decimal(-b);
      DecimalIsInjective(-a, -b);
    } else {
      DecimalIsInjective(a, b);
    }
  }

  lemma RoomsAreDistinct(u: string, v: string)
    ensures RoomOf(u) == RoomOf(v) <==> u == v
  {
    assert RoomOf(u)[5..] == u && RoomOf(v)[5..] == v;
  }

  // ---------------------------------------------------------------- the index

  /** The open connections grouped by user. */
  function Grouped(open: map<string, string>): map<string, set<string>> {
    map u | u in open.Values :: SocketsOf(open, u)
  }

  function SocketsOf(open: map<string, string>, user: string): set<string> {
    set s | s in open && open[s] == user
  }

  /** Who is in which room: every open socket in the one room of its user. */
  function RoomsOf(open: map<string, string>): set<(string, string)> {
    set s | s in open :: (RoomOf(open[s]), s)
  }

  function Members(rooms: set<(string, string)>, room: string): set<string> {
    set m | m in rooms && m.0 == room :: m.1
  }

  lemma UserRoomHoldsUserSockets(open: map<string, string>, user: string)
    ensures Members(RoomsOf(open), RoomOf(user)) == SocketsOf(open, user)
  {
    forall s | s in open
      ensures RoomOf(open[s]) == RoomOf(user) <==> open[s] == user
    {
      RoomsAreDistinct(open[s], user);
    }
    forall s | s in SocketsOf(open, user)
      ensures s in Members(RoomsOf(open), RoomOf(user))
    {
      assert (RoomOf(open[s]), s) in RoomsOf(open);
    }
  }

  lemma JoinedRoom(open: map<string, string>, user: string, id: string)
    requires id !in open
    ensures RoomsOf(open) + {(RoomOf(user), id)} == RoomsOf(open[id := user])
  {
    forall s | s in open
      ensures (RoomOf(open[s]), s) in RoomsOf(open[id := user])
    {
      assert s in open[id := user] && open[id := user][s] == open[s];
    }
    assert id in open[id := user] && open[id := user][id] == user;
  }

  lemma LeftRooms(open: map<string, string>, id: string)
    ensures (set m | m in RoomsOf(open) && m.1 != id) == RoomsOf(open - {id})
  {
    forall s | s in open && s != id
      ensures (RoomOf(open[s]), s) in RoomsOf(open - {id})
    {
      assert s in open - {id};
    }
  }

  /** What the connection handler does to the index. */
  function Joined(index: map<string, set<string>>, user: string, id: string): map<string, set<string>> {
    index[user := (if user in index then index[user] else {}) + {id}]
  }

  /** What the disconnect handler does to it. */
  function Left(index: map<string, set<string>>, user: string, id: string): map<string, set<string>> {
    if user !in index then index
    else
      var rest := index[user] - {id};
      if rest == {} then index - {user} else index[user := rest]
  }

  lemma JoinedGroups(open: map<string, string>, user: string, id: string)
    requires id !in open
    ensures Joined(Grouped(open), user, id) == Grouped(open[id := user])
  {
    var after := open[id := user];
    assert after.Values == open.Values + {user} by {
      forall u | u in open.Values
        ensures u in after.Values
      {
        var s :| s in open && open[s] == u;
        assert after[s] == u;
      }
      assert after[id] == user;
    }
    forall u | u in after.Values
      ensures Joined(Grouped(open), user, id)[u] == SocketsOf(after, u)
    {
      if u == user && u !in open.Values {
        assert SocketsOf(open, u) == {};
      }
    }
  }

  lemma LeftGroups(open: map<string, string>, id: string)
    requires id in open
    ensures Left(Grouped(open), open[id], id) == Grouped(open - {id})
  {
    var user, after := open[id], open - {id};
    assert SocketsOf(after, user) == SocketsOf(open, user) - {id};
    forall u | u != user
      ensures SocketsOf(after, u) == SocketsOf(open, u)
    {
    }
    forall u
      ensures u in after.Values <==> u in open.Values && SocketsOf(after, u) != {}
    {
      if u in after.Values {
        var s :| s in after && after[s] == u;
        assert s in SocketsOf(after, u) && open[s] == u;
      }
      if s :| s in SocketsOf(after, u) {
        assert after[s] == u;
      }
    }
    forall u | u in open.Values && u != user
      ensures SocketsOf(open, u) != {}
    {
      var s :| s in open && open[s] == u;
      assert s in SocketsOf(open, u);
    }
  }

  // ---------------------------------------------------------------- runs

  datatype Event = Connected(id: string, user: string) | Disconnected(id: string, user: string)

  function OpenAfter(events: seq<Event>): map<string, string> {
    if events == [] then map[]
    else
      var before := OpenAfter(events[..|events| - 1]);
      match events[|events| - 1]
      case Connected(id, user) => before[id := user]
      case Disconnected(id, _) => before - {id}
  }

  function IndexAfter(events: seq<Event>): map<string, set<string>> {
    if events == [] then map[]
    else
      var before := IndexAfter(events[..|events| - 1]);
      match events[|events| - 1]
      case Connected(id, user) => Joined(before, user, id)
      case Disconnected(id, user) => Left(before, user, id)
  }

  /** Socket ids are fresh, and only an open socket disconnects, under the user it connected with. */
  predicate Possible(events: seq<Event>) {
    events == [] || (
      var init := events[..|events| - 1];
      && Possible(init)
      && match events[|events| - 1]
         case Connected(id, _) => id !in OpenAfter(init)
         case Disconnected(id, user) => id in OpenAfter(init) && OpenAfter(init)[id] == user)
  }

  /** After any run of connects and disconnects the index is the grouping of the open connections by user. */
  lemma {:induction false} IndexIsTheGrouping(events: seq<Event>)
    requires Possible(events)
    ensures IndexAfter(events) == Grouped(OpenAfter(events))
  {
    if events != [] {
      var init := events[..|events| - 1];
      IndexIsTheGrouping(init);
      match events[|events| - 1]
      case Connected(id, user) => JoinedGroups(OpenAfter(init), user, id);
      case Disconnected(id, user) => LeftGroups(OpenAfter(init), id);
    }
  }

  /** The sizes of all the index's sets together. */
  ghost function Total(index: map<string, set<string>>): nat {
    if index == map[] then 0
    else
      var u :| u in index;
      |index[u]| + Total(index - {u})
  }

  lemma NoGroupsNoSockets(open: map<string, string>)
    ensures Grouped(open) == map[] <==> open == map[]
  {
    if open != map[] {
      var s :| s in open;
      assert open[s] in Grouped(open);
    }
  }

  lemma {:induction false} TotalOfGrouping(open: map<string, string>)
    ensures Total(Grouped(open)) == |open|
    decreases |open|
  {
    var index := Grouped(open);
    if index == map[] {
      NoGroupsNoSockets(open);
    } else {
      var u :| u in index && Total(index) == |index[u]| + Total(index - {u});
      var mine := SocketsOf(open, u);
      var rest := open - mine;
      assert rest.Keys == open.Keys - mine;
      var s :| s in open && open[s] == u;
      assert s in mine;
      assert |rest.Keys| == |open.Keys| - |mine|;
      GroupingWithout(open, u);
      TotalOfGrouping(rest);
    }
  }

  lemma GroupingWithout(open: map<string, string>, u: string)
    ensures Grouped(open - SocketsOf(open, u)) == Grouped(open) - {u}
  {
    var rest := open - SocketsOf(open, u);
    forall v | v != u
      ensures SocketsOf(rest, v) == SocketsOf(open, v)
      ensures v in rest.Values <==> v in open.Values
    {
      if v in open.Values {
        var s :| s in open && open[s] == v;
        assert rest[s] == v;
      }
    }
    assert u !in rest.Values;
  }

  /** After any such run: every user is kept with exactly the sockets they have open, no user without sockets, no socket
      for two users; the sizes add up to the number of open connections, and the users kept are those with one. */
  lemma IndexIsExact(events: seq<Event>)
    requires Possible(events)
    ensures var index, open := IndexAfter(events), OpenAfter(events);
      && (forall u | u in index :: index[u] != {})
      && (forall u, v | u in index && v in index && u != v :: index[u] !! index[v])
      && Total(index) == |open|
      && index.Keys == open.Values
      && (forall u, s | u in index :: s in index[u] <==> s in open && open[s] == u)
  {
    IndexIsTheGrouping(events);
    var open := OpenAfter(events);
    TotalOfGrouping(open);
    forall u | u in open.Values
      ensures SocketsOf(open, u) != {}
    {
      var s :| s in open && open[s] == u;
      assert s in SocketsOf(open, u);
    }
  }

  // ---------------------------------------------------------------- deliveries

  datatype Delivery = Delivery(socket: string, event: string, payload: Value)

  /** One delivery to each of the sockets. */
  function Each(sockets: set<string>, event: string, payload: Value): multiset<Delivery> {
    multiset(set s | s in sockets :: Delivery(s, event, payload))
  }

  /** The open sockets of the user a field of the message names; none if it is falsy or cannot be read. */
  function Addressed(open: map<string, string>, message: Option<Value>, field: string): set<string> {
    if message.None? then {}
    else
      var id := Property(message.value, field);
      if id.None? || !Truthy(id.value) then {} else SocketsOf(open, Shown(id.value))
  }

  /** `{...data, userType}`. */
  function WithUserType(message: Option<Value>, userType: string): Value {
    match message
    case Some(Object(fields)) => Object(fields["userType" := Str(userType)])
    case _ => Object(map["userType" := Str(userType)])
  }

  function Notification(data: Value, timestamp: string): Value {
    var f := (name: string) => var p := Property(data, name); if p.None? then Undefined else p.value;
    Object(map[
      "id" := f("id"), "type" := f("type"), "title" := f("title"), "message" := f("message"),
      "data" := if Truthy(f("data")) then f("data") else Object(map[]),
      "created_at" := f("created_at"), "timestamp" := Str(timestamp)])
  }

  lemma EachOneMore(sockets: set<string>, s: string, event: string, payload: Value)
    requires s !in sockets
    ensures Each(sockets + {s}, event, payload) == Each(sockets, event, payload) + multiset{Delivery(s, event, payload)}
  {
    var all := set x | x in sockets + {s} :: Delivery(x, event, payload);
    var some := set x | x in sockets :: Delivery(x, event, payload);
    assert Delivery(s, event, payload) !in some;
    assert all == some + {Delivery(s, event, payload)};
  }

  lemma {:induction false} EachIsOnce(sockets: set<string>, event: string, payload: Value)
    ensures |Each(sockets, event, payload)| == |sockets|
  {
    if sockets != {} {
      var s :| s in sockets;
      EachIsOnce(sockets - {s}, event, payload);
      EachOneMore(sockets - {s}, s, event, payload);
      assert sockets - {s} + {s} == sockets;
    }
  }

  /** The two deliveries to one who is both old and new owner can be told apart. */
  lemma UserTypesDiffer(message: Value)
    ensures WithUserType(Some(message), "old_owner") != WithUserType(Some(message), "new_owner")
  {
    assert WithUserType(Some(message), "old_owner").fields["userType"] == Str("old_owner");
    assert WithUserType(Some(message), "new_owner").fields["userType"] == Str("new_owner");
  }

  /** What reaches the open sockets when a message arrives on a channel. */
  function Deliveries(
    open: map<string, string>, channel: string, message: Option<Value>, timestamp: string): multiset<Delivery>
  {
    if message.None? then multiset{}
    else if channel == "user-status" then
      Each(Addressed(open, message, "user_id"), "user-status-changed", message.value)
    else if channel == "feature-status" then
      Each(Addressed(open, message, "old_owner_id"), "feature-status-changed", WithUserType(message, "old_owner"))
      + Each(Addressed(open, message, "new_owner_id"), "feature-status-changed", WithUserType(message, "new_owner"))
    else if channel == "notifications" then
      Each(Addressed(open, message, "user_id"), "notification-received", Notification(message.value, timestamp))
    else multiset{}
  }

  /** A value names a user by what it shows as, unless it is falsy: undefined, null, false, zero, or empty text. */
  predicate NamesUser(id: Value, user: string) {
    match id
    case Undefined => false
    case Null => false
    case Flag(b) => b && user == "true"
    case Number(n) => n != 0 && user == (if n < 0 then "-" + Decimal(-n) else Decimal(n))
    case Str(s) => s != "" && user == s
    case Object(_) => user == "[object Object]"
  }

  /** The open sockets of the user that a field of the message names; a message without fields names nobody. */
  function OpenSocketsNamed(open: map<string, string>, message: Value, field: string): set<string> {
    match message
    case Object(fields) => if field !in fields then {} else set s | s in open && NamesUser(fields[field], open[s])
    case _ => {}
  }

  lemma AddressedAreNamed(open: map<string, string>, message: Value, field: string)
    ensures Addressed(open, Some(message), field) == OpenSocketsNamed(open, message, field)
  {
  }

  /** `deliveries` are one to each of the sockets, of that event with that payload, and no others. */
  ghost predicate ReachesEachOnce(
    deliveries: multiset<Delivery>, sockets: set<string>, event: string, payload: Value)
  {
    && |deliveries| == |sockets|
    && forall d :: deliveries[d] == (if d.socket in sockets && d.event == event && d.payload == payload then 1 else 0)
  }

  lemma EachReachesEachOnce(sockets: set<string>, event: string, payload: Value)
    ensures ReachesEachOnce(Each(sockets, event, payload), sockets, event, payload)
  {
    EachIsOnce(sockets, event, payload);
  }

  /** A status change and a notification reach exactly the open sockets of the user they name, each once, the one with
      the message itself and the other with what is made of it; a feature change makes one delivery for each socket of
      the old owner and one for each of the new, so two when they are the same user. Nothing else is delivered. */
  lemma EveryAddressedSocketIsReached(open: map<string, string>, message: Value, timestamp: string)
    ensures ReachesEachOnce(
      Deliveries(open, "user-status", Some(message), timestamp),
      OpenSocketsNamed(open, message, "user_id"), "user-status-changed", message)
    ensures ReachesEachOnce(
      Deliveries(open, "notifications", Some(message), timestamp),
      OpenSocketsNamed(open, message, "user_id"), "notification-received", Notification(message, timestamp))
    ensures exists toOld, toNew ::
      && Deliveries(open, "feature-status", Some(message), timestamp) == toOld + toNew
      && ReachesEachOnce(
        toOld, OpenSocketsNamed(open, message, "old_owner_id"), "feature-status-changed",
        WithUserType(Some(message), "old_owner"))
      && ReachesEachOnce(
        toNew, OpenSocketsNamed(open, message, "new_owner_id"), "feature-status-changed",
        WithUserType(Some(message), "new_owner"))
  {
    AddressedAreNamed(open, message, "user_id");
    AddressedAreNamed(open, message, "old_owner_id");
    AddressedAreNamed(open, message, "new_owner_id");
    var user := OpenSocketsNamed(open, message, "user_id");
    EachReachesEachOnce(user, "user-status-changed", message);
    EachReachesEachOnce(user, "notification-received", Notification(message, timestamp));
    var oldOwner := OpenSocketsNamed(open, message, "old_owner_id");
    var newOwner := OpenSocketsNamed(open, message, "new_owner_id");
    EachReachesEachOnce(oldOwner, "feature-status-changed", WithUserType(Some(message), "old_owner"));
    EachReachesEachOnce(newOwner, "feature-status-changed", WithUserType(Some(message), "new_owner"));
  }

  /** Nothing is delivered on any other channel, nor when the message does not parse. */
  lemma NothingElseIsDelivered(
    open: map<string, string>, channel: string, message: Option<Value>, timestamp: string)
    requires message.None? || channel !in {"user-status", "feature-status", "notifications"}
    ensures Deliveries(open, channel, message, timestamp) == multiset{}
  {
  }

  function FieldOf(message: Value, name: string): Value {
    if message.Object? && name in message.fields then message.fields[name] else Undefined
  }

  /** The payloads: a feature change carries the message with the receiver's part in it, and a notification seven
      fields, of which `data` is never falsy and the time is that of the delivery. */
  lemma PayloadsCarry(message: Value, userType: string, timestamp: string)
    ensures var f := WithUserType(Some(message), userType);
      && f.Object? && FieldOf(f, "userType") == Str(userType)
      && forall name | name != "userType" :: FieldOf(f, name) == FieldOf(message, name)
    ensures var f := Notification(message, timestamp);
      && f.Object?
      && f.fields.Keys == {"id", "type", "title", "message", "data", "created_at", "timestamp"}
      && (forall name | name in {"id", "type", "title", "message", "created_at"} ::
            FieldOf(f, name) == FieldOf(message, name))
      && FieldOf(f, "data") == (
        if Truthy(FieldOf(message, "data")) then FieldOf(message, "data") else Object(map[]))
      && FieldOf(f, "timestamp") == Str(timestamp)
  {
  }

  /** Reading a property throws of undefined and null only, and finds nothing in other values without fields. */
  lemma PropertyIs(message: Value, name: string)
    ensures Property(message, name).None? <==> message in {Undefined, Null}
    ensures Property(message, name).Some? ==> Property(message, name).value == FieldOf(message, name)
  {
  }

  /** Falsy values. */
  lemma FalsyValues(v: Value)
    ensures !Truthy(v) <==> v in {Undefined, Null, Flag(false), Number(0), Str("")}
  {
  }

  class Gateway {
    var userSockets: map<string, set<string>>
    // socket.io's own state
    var open: map<string, string>
    var rooms: set<(string, string)>
    /** Everything that has happened so far. */
    ghost var events: seq<Event>

    ghost predicate Valid()
      reads this
    {
      && Possible(events)
      && open == OpenAfter(events)
      && userSockets == IndexAfter(events)
      && userSockets == Grouped(open)
      && rooms == RoomsOf(open)
    }

    constructor ()
      ensures Valid() && events == []
    {
      userSockets, open, rooms, events := map[], map[], {}, [];
    }

    method Connect(id: string, user: string)
      requires Valid() && id !in open
      modifies this
      ensures Valid() && events == old(events) + [Connected(id, user)]
      ensures open == old(open)[id := user]
    {
      ghost var history := events + [Connected(id, user)];
      assert history[..|events|] == events;
      JoinedGroups(open, user, id);
      JoinedRoom(open, user, id);
      open := open[id := user];
      Remember(user, id);
      rooms := rooms + {(RoomOf(user), id)};
      events := history;
    }

    /** The connection handler's part in the index. */
    method Remember(user: string, id: string)
      modifies this`userSockets
      ensures userSockets == Joined(old(userSockets), user, id)
    {
      if user !in userSockets {
        userSockets := userSockets[user := {}];
      }
      userSockets := userSockets[user := userSockets[user] + {id}];
    }

    method Disconnect(id: string)
      requires Valid() && id in open
      modifies this
      ensures Valid() && events == old(events) + [Disconnected(id, old(open)[id])]
      ensures open == old(open) - {id}
    {
      var user := open[id];
      ghost var history := events + [Disconnected(id, user)];
      assert history[..|events|] == events;
      LeftGroups(open, id);
      LeftRooms(open, id);
      rooms := set m | m in rooms && m.1 != id;
      open := open - {id};
      Forget(user, id);
      events := history;
    }

    /** The disconnect handler. */
    method Forget(user: string, id: string)
      modifies this`userSockets
      ensures userSockets == Left(old(userSockets), user, id)
    {
      if user in userSockets {
        userSockets := userSockets[user := userSockets[user] - {id}];
        if |userSockets[user]| == 0 {
          userSockets := userSockets - {user};
        }
      }
    }

    /** io.to(room).emit(event, payload). */
    method Emit(room: string, event: string, payload: Value) returns (deliveries: multiset<Delivery>)
      ensures deliveries == Each(Members(rooms, room), event, payload)
    {
      deliveries := multiset{};
      var todo := Members(rooms, room);
      while todo != {}
        invariant todo <= Members(rooms, room)
        invariant deliveries == Each(Members(rooms, room) - todo, event, payload)
      {
        var s :| s in todo;
        EachOneMore(Members(rooms, room) - todo, s, event, payload);
        deliveries := deliveries + multiset{Delivery(s, event, payload)};
        todo := todo - {s};
        assert Members(rooms, room) - todo == Members(rooms, room) - todo - {s} + {s};
      }
    }

    /** The subscriber's handler; a message that does not parse, or whose fields cannot be read, reaches nobody. */
    method HandleMessage(
      channel: string, message: Option<Value>, timestamp: string)
      returns (deliveries: multiset<Delivery>)
      requires Valid()
      ensures deliveries == Deliveries(open, channel, message, timestamp)
    {
      deliveries := multiset{};
      if message.None? {
        return;
      }
      var data := message.value;
      if data.Undefined? || data.Null? {
        return;
      }
      if channel == "user-status" {
        var id := Property(data, "user_id").value;
        if Truthy(id) {
          UserRoomHoldsUserSockets(open, Shown(id));
          deliveries := Emit(RoomOf(Shown(id)), "user-status-changed", data);
        }
      } else if channel == "feature-status" {
        var oldOwner := Property(data, "old_owner_id").value;
        if Truthy(oldOwner) {
          UserRoomHoldsUserSockets(open, Shown(oldOwner));
          deliveries := Emit(RoomOf(Shown(oldOwner)), "feature-status-changed", WithUserType(message, "old_owner"));
        }
        var newOwner := Property(data, "new_owner_id").value;
        if Truthy(newOwner) {
          UserRoomHoldsUserSockets(open, Shown(newOwner));
          var more := Emit(RoomOf(Shown(newOwner)), "feature-status-changed", WithUserType(message, "new_owner"));
          deliveries := deliveries + more;
        }
      } else if channel == "notifications" {
        var id := Property(data, "user_id").value;
        if Truthy(id) {
          UserRoomHoldsUserSockets(open, Shown(id));
          deliveries := Emit(RoomOf(Shown(id)), "notification-received", Notification(data, timestamp));
        }
      }
    }
  }
}
