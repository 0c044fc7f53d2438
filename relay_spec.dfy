/**
 The relay of websocket/server.js as a state machine on values. `State` holds
 the module-level variables of the server; each `On…` function is one event
 handler, giving the next state and the `send` calls the handler makes, in the
 order it makes them. The class in relay.dfy runs the same handlers in place
 and is proved to agree with these functions.
 */
module RelaySpec {
  import opened Messages
  import opened Email

  /** `MAX_HISTORY`. */
  const MaxHistory: nat := 1000

  datatype State = State(
    nextId: nat,               // clientIdCounter: the last id handed out
    order: seq<nat>,           // the keys of `clients`, in the Map's insertion order
    roster: map<nat, Entry>,   // `clients`
    live: set<nat>,            // connections whose socket's readyState is OPEN
    closed: set<nat>,          // connections whose `close` event has fired
    history: seq<DrawOp>,      // canvasHistory
    ledger: seq<Registration>) // registrations

  /** What a handler leaves behind: the new state and its sends, in order. */
  datatype Step = Step(next: State, out: seq<Send>)

  /** What the `connection` handler leaves behind: the new state and the new id. */
  datatype Accept = Accept(next: State, id: nat)

  /** The state when the process starts. */
  const Initial: State := State(0, [], map[], {}, {}, [], [])

  predicate Distinct(xs: seq<nat>) {
    forall i, j :: 0 <= i < j < |xs| ==> xs[i] != xs[j]
  }

  predicate DistinctEmails(ledger: seq<Registration>) {
    forall i, j :: 0 <= i < j < |ledger| ==> ledger[i].email != ledger[j].email
  }

  /** `id` has been handed out by the `connection` handler. */
  predicate Issued(s: State, id: nat) {
    1 <= id <= s.nextId
  }

  /** Every key in the insertion order has a roster entry. */
  predicate Keyed(s: State) {
    forall k :: 0 <= k < |s.order| ==> s.order[k] in s.roster
  }

  /** The invariant every reachable state keeps. */
  predicate Valid(s: State) {
    && |s.history| <= MaxHistory
    && Distinct(s.order)
    && Keyed(s)
    && (forall id :: id in s.roster ==> id in s.order)
    && (forall id :: id in s.roster ==> Issued(s, id) && id !in s.closed && s.roster[id].username != "")
    && (forall id :: id in s.live ==> Issued(s, id) && id !in s.closed)
    && (forall id :: id in s.closed ==> Issued(s, id))
    && (forall k :: 0 <= k < |s.history| ==> Issued(s, s.history[k].clientId))
    && (forall k :: 0 <= k < |s.ledger| ==> IsEmail(s.ledger[k].email))
    && DistinctEmails(s.ledger)
  }

  /** A connection whose callbacks can still fire: handed out and not closed. */
  predicate Connected(s: State, id: nat) {
    Issued(s, id) && id !in s.closed
  }

  /** The joined connections whose socket is OPEN. */
  function OpenJoined(s: State): set<nat> {
    set id | id in s.roster && id in s.live
  }

  /**
   `broadcast(frame, exclude)`: one send of `m` to each key of `clients`, in Map
   order, whose socket is OPEN and which is not the excluded one.
   */
  function Fanout(order: seq<nat>, live: set<nat>, exclude: Option<nat>, m: Outbound): seq<Send>
    decreases |order|
  {
    if order == [] then []
    else
      var last := order[|order| - 1];
      Fanout(order[..|order| - 1], live, exclude, m)
        + (if last in live && exclude != Some(last) then [Send(last, m)] else [])
  }

  /** `Map.delete` on the insertion order. */
  function Delete(order: seq<nat>, id: nat): (r: seq<nat>)
    ensures forall x :: x in r <==> x in order && x != id
    ensures Distinct(order) ==> Distinct(r)
  {
    if order == [] then []
    else if order[0] == id then Delete(order[1..], id)
    else
      var rest := Delete(order[1..], id);
      assert Distinct(order) ==> Distinct([order[0]] + rest) by {
        if Distinct(order) {
          assert order[0] !in order[1..];
          assert forall i :: 0 < i < |order| ==> order[1..][i - 1] == order[i];
        }
      }
      [order[0]] + rest
  }

  /** The `users` array of `broadcastUserList`, in Map order. */
  function UserList(order: seq<nat>, roster: map<nat, Entry>): seq<UserInfo>
    requires forall k :: 0 <= k < |order| ==> order[k] in roster
  {
    seq(|order|, k requires 0 <= k < |order| => UserInfo(order[k], roster[order[k]].platform, roster[order[k]].username))
  }

  /** The roster frame: the user list and its length. */
  function UsersFrame(s: State): Outbound
    requires Keyed(s)
  {
    var users := UserList(s.order, s.roster);
    Users(users, |users|)
  }

  /** `broadcastUserList()`: the roster frame to every joined OPEN connection. */
  function BroadcastUsers(s: State): seq<Send>
    requires Keyed(s)
  {
    Fanout(s.order, s.live, None, UsersFrame(s))
  }

  /** The decimal digits of `n`, as a template literal prints a number. */
  function Decimal(n: nat): (r: string)
    ensures |r| > 0
    ensures forall k :: 0 <= k < |r| ==> '0' <= r[k] <= '9'
    ensures n == 0 ==> r == "0"
    ensures n > 0 ==> r[0] != '0'
    decreases n
  {
    var digit := [(('0' as int) + n % 10) as char];
    if n < 10 then digit else Decimal(n / 10) + digit
  }

  /** The number a string of decimal digits spells, most significant digit first. */
  function DigitsValue(r: string): int
    decreases |r|
  {
    if r == [] then 0 else DigitsValue(r[..|r| - 1]) * 10 + (r[|r| - 1] as int - '0' as int)
  }

  /** `data.username || \`User${clientId}\``. */
  function DisplayName(username: Option<string>, id: nat): (r: string)
    ensures r != ""
  {
    OrElse(username, "User" + Decimal(id))
  }

  /** `canvasHistory.push(op)`, then `shift()` when over `MAX_HISTORY`. */
  function Record(history: seq<DrawOp>, op: DrawOp): seq<DrawOp> {
    var pushed := history + [op];
    if |pushed| > MaxHistory then pushed[1..] else pushed
  }

  /** `registrations.find(r => r.email === email)` found something. */
  predicate IsRegistered(ledger: seq<Registration>, email: string) {
    exists k :: 0 <= k < |ledger| && ledger[k].email == email
  }

  // ---------------------------------------------------------------- handlers

  /** The `connection` handler: `++clientIdCounter`; the new socket is OPEN. */
  function OnConnect(s: State): Accept {
    var id := s.nextId + 1;
    Accept(s.(nextId := id, live := s.live + {id}), id)
  }

  /** The state after `clients.set(clientId, {...})` in `case 'join'`. */
  function Joined(s: State, id: nat, platform: string, username: Option<string>): State {
    var order := if id in s.roster then s.order else s.order + [id];
    s.(order := order, roster := s.roster[id := Entry(platform, DisplayName(username, id))])
  }

  /** `case 'join'`. */
  function OnJoin(s: State, id: nat, platform: string, username: Option<string>): Step
    requires Valid(s) && Connected(s, id)
  {
    var next := Joined(s, id, platform, username);
    assert Keyed(next);
    Step(next, [Send(id, History(s.history))] + BroadcastUsers(next))
  }

  /** `case 'draw'`. */
  function OnDraw(s: State, id: nat, x: real, y: real, color: string, size: real, platform: string): Step
    requires Valid(s) && Connected(s, id)
  {
    var op := DrawOp(x, y, color, size, platform, id);
    Step(s.(history := Record(s.history, op)), Fanout(s.order, s.live, Some(id), DrawRelay(op)))
  }

  /** `case 'clear'`. */
  function OnClear(s: State, id: nat, platform: string): Step
    requires Valid(s) && Connected(s, id)
  {
    Step(s.(history := []), Fanout(s.order, s.live, Some(id), ClearRelay(platform, id)))
  }

  /** `case 'register'`; `now` stands for `new Date().toISOString()`. */
  function OnRegister(s: State, id: nat, email: string, platform: string, timestamp: Option<string>, now: string): Step
    requires Valid(s) && Connected(s, id)
  {
    var registration := Registration(email, platform, OrElse(timestamp, now));
    if !IsEmail(email) then
      Step(s, [Send(id, RegistrationError(InvalidEmailMessage))])
    else if IsRegistered(s.ledger, email) then
      Step(s, [Send(id, RegistrationError(DuplicateEmailMessage))])
    else
      Step(s.(ledger := s.ledger + [registration]),
           [Send(id, RegistrationSuccess)] + Fanout(s.order, s.live, None, NewRegistration(registration)))
  }

  /** `case 'get_registrations'`. */
  function OnGetRegistrations(s: State, id: nat): Step
    requires Valid(s) && Connected(s, id)
  {
    Step(s, [Send(id, RegistrationsList(s.ledger))])
  }

  /** The `message` handler: the switch on `data.type`, inside its try/catch. */
  function Dispatch(s: State, id: nat, msg: Inbound, now: string): Step
    requires Valid(s) && Connected(s, id)
  {
    match msg
    case Join(platform, username) => OnJoin(s, id, platform, username)
    case Draw(x, y, color, size, platform) => OnDraw(s, id, x, y, color, size, platform)
    case Clear(platform) => OnClear(s, id, platform)
    case Register(email, platform, timestamp) => OnRegister(s, id, email, platform, timestamp, now)
    case GetRegistrations => OnGetRegistrations(s, id)
    case Unrecognised => Step(s, [])
    case Malformed => Step(s, [])
  }

  /** The state after `clients.delete(clientId)`; the socket is no longer OPEN. */
  function Removed(s: State, id: nat): State {
    s.(order := Delete(s.order, id), roster := s.roster - {id}, live := s.live - {id}, closed := s.closed + {id})
  }

  /** The `close` handler: `clients.delete(clientId)`, then `broadcastUserList()`. */
  function OnClose(s: State, id: nat): Step
    requires Valid(s) && Connected(s, id)
  {
    var next := Removed(s, id);
    assert Keyed(next) by {
      forall k | 0 <= k < |next.order| ensures next.order[k] in next.roster {
        assert next.order[k] in next.order;
      }
    }
    Step(next, BroadcastUsers(next))
  }

  /** The socket of `id` leaves readyState OPEN before its `close` event fires. */
  function OnSocketClosing(s: State, id: nat): State
    requires Connected(s, id)
  {
    s.(live := s.live - {id})
  }
}
