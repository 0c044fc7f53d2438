/**
 The relay as the server runs it: the module-level variables of
 websocket/server.js become the fields of one `Relay` object, each event
 handler a method that updates them in place and returns the `send` calls it
 makes. Every method is proved to do exactly what its RelaySpec handler says,
 so the properties proved in RelayProperties hold of it.
 */
module RelayServer {
  import opened Messages
  import opened Email
  import opened RelaySpec
  import RelayProperties

  class Relay {
    var nextId: nat                // clientIdCounter
    var order: seq<nat>            // insertion order of the keys of `clients`
    var roster: map<nat, Entry>    // clients
    var live: set<nat>             // sockets whose readyState is OPEN
    var closed: set<nat>           // connections whose `close` event has fired
    var history: seq<DrawOp>       // canvasHistory
    var ledger: seq<Registration>  // registrations

    /** The fields as a RelaySpec state. */
    function Abs(): State
      reads this
    {
      State(nextId, order, roster, live, closed, history, ledger)
    }

    ghost predicate Valid()
      reads this
    {
      RelaySpec.Valid(Abs())
    }

    /** The server at start-up: no connections, empty history and ledger. */
    constructor ()
      ensures Valid() && Abs() == Initial
    {
      nextId, order, roster, live, closed, history, ledger := 0, [], map[], {}, {}, [], [];
    }

    /** `wss.on('connection')`: `const clientId = ++clientIdCounter`. */
    method Connect() returns (id: nat)
      requires Valid()
      modifies this
      ensures Valid()
      ensures Accept(Abs(), id) == OnConnect(old(Abs()))
    {
      RelayProperties.ConnectKeepsValid(Abs());
      nextId := nextId + 1;
      id := nextId;
      live := live + {id};
    }

    /** `ws.on('message')` for connection `id`; `now` is the server clock's ISO string. */
    method Handle(id: nat, msg: Inbound, now: string) returns (out: seq<Send>)
      requires Valid() && Connected(Abs(), id)
      modifies this
      ensures Valid()
      ensures Step(Abs(), out) == Dispatch(old(Abs()), id, msg, now)
    {
      RelayProperties.DispatchKeepsValid(Abs(), id, msg, now);
      match msg
      case Join(platform, username) =>
        out := HandleJoin(id, platform, username);
      case Draw(x, y, color, size, platform) =>
        out := HandleDraw(id, x, y, color, size, platform);
      case Clear(platform) =>
        out := HandleClear(id, platform);
      case Register(email, platform, timestamp) =>
        out := HandleRegister(id, email, platform, timestamp, now);
      case GetRegistrations =>
        out := [Send(id, RegistrationsList(ledger))];
      case Unrecognised =>
        out := [];
      case Malformed =>
        out := [];
    }

    /** `case 'join'`: store the entry, reply with the history, announce the roster. */
    method HandleJoin(id: nat, platform: string, username: Option<string>) returns (out: seq<Send>)
      requires Valid() && Connected(Abs(), id)
      modifies this
      ensures Valid()
      ensures Step(Abs(), out) == OnJoin(old(Abs()), id, platform, username)
    {
      RelayProperties.JoinKeepsValid(Abs(), id, platform, username);
      if id !in roster {
        order := order + [id];
      }
      roster := roster[id := Entry(platform, DisplayName(username, id))];
      assert Abs() == Joined(old(Abs()), id, platform, username);
      out := [Send(id, History(history))];
      var users := BroadcastUserList();
      out := out + users;
    }

    /** `case 'draw'`: push the stamped record, shift when over the cap, relay to the others. */
    method HandleDraw(id: nat, x: real, y: real, color: string, size: real, platform: string) returns (out: seq<Send>)
      requires Valid() && Connected(Abs(), id)
      modifies this
      ensures Valid()
      ensures Step(Abs(), out) == OnDraw(old(Abs()), id, x, y, color, size, platform)
    {
      RelayProperties.DrawKeepsValid(Abs(), id, x, y, color, size, platform);
      var op := DrawOp(x, y, color, size, platform, id);
      history := history + [op];
      if |history| > MaxHistory {
        history := history[1..];
      }
      out := Broadcast(DrawRelay(op), Some(id));
    }

    /** `case 'clear'`: `canvasHistory.length = 0`, relay to the others. */
    method HandleClear(id: nat, platform: string) returns (out: seq<Send>)
      requires Valid() && Connected(Abs(), id)
      modifies this
      ensures Valid()
      ensures Step(Abs(), out) == OnClear(old(Abs()), id, platform)
    {
      RelayProperties.DispatchKeepsValid(Abs(), id, Clear(platform), "");
      history := [];
      out := Broadcast(ClearRelay(platform, id), Some(id));
    }

    /** `case 'register'`: validate, look for the email, then append and announce. */
    method HandleRegister(id: nat, email: string, platform: string, timestamp: Option<string>, now: string)
      returns (out: seq<Send>)
      requires Valid() && Connected(Abs(), id)
      modifies this
      ensures Valid()
      ensures Step(Abs(), out) == OnRegister(old(Abs()), id, email, platform, timestamp, now)
    {
      RelayProperties.RegisterKeepsValid(Abs(), id, email, platform, timestamp, now);
      var registration := Registration(email, platform, OrElse(timestamp, now));
      if !IsEmail(email) {
        return [Send(id, RegistrationError(InvalidEmailMessage))];
      }
      var duplicate := FindRegistration(email);
      if duplicate {
        return [Send(id, RegistrationError(DuplicateEmailMessage))];
      }
      ledger := ledger + [registration];
      out := [Send(id, RegistrationSuccess)];
      var announced := Broadcast(NewRegistration(registration), None);
      out := out + announced;
    }

    /** `ws.on('close')`: `clients.delete(clientId)`, then `broadcastUserList()`. */
    method Close(id: nat) returns (out: seq<Send>)
      requires Valid() && Connected(Abs(), id)
      modifies this
      ensures Valid()
      ensures Step(Abs(), out) == OnClose(old(Abs()), id)
    {
      RelayProperties.CloseKeepsValid(Abs(), id);
      order := Delete(order, id);
      roster := roster - {id};
      live := live - {id};
      closed := closed + {id};
      out := BroadcastUserList();
    }

    /** The socket of `id` leaves readyState OPEN; its `close` event is still to come. */
    method SocketClosing(id: nat)
      requires Valid() && Connected(Abs(), id)
      modifies this
      ensures Valid()
      ensures Abs() == OnSocketClosing(old(Abs()), id)
    {
      RelayProperties.SocketClosingKeepsValid(Abs(), id);
      live := live - {id};
    }

    /** `broadcast(data, excludeClientId)`: the `clients.forEach` loop. */
    method Broadcast(m: Outbound, exclude: Option<nat>) returns (out: seq<Send>)
      ensures out == Fanout(order, live, exclude, m)
    {
      out := [];
      var i := 0;
      while i < |order|
        invariant 0 <= i <= |order|
        invariant out == Fanout(order[..i], live, exclude, m)
      {
        var id := order[i];
        if id in live && exclude != Some(id) {
          out := out + [Send(id, m)];
        }
        assert order[..i + 1][..i] == order[..i];
        i := i + 1;
      }
      assert order[..i] == order;
    }

    /** `broadcastUserList()`: the roster frame to every joined OPEN connection. */
    method BroadcastUserList() returns (out: seq<Send>)
      requires Keyed(Abs())
      ensures out == BroadcastUsers(Abs())
    {
      var users := UserList(order, roster);
      out := Broadcast(Users(users, |users|), None);
    }

    /** `registrations.find(r => r.email === email)`, as a search loop. */
    method FindRegistration(email: string) returns (found: bool)
      ensures found == IsRegistered(ledger, email)
    {
      var k := 0;
      while k < |ledger|
        invariant 0 <= k <= |ledger|
        invariant forall j :: 0 <= j < k ==> ledger[j].email != email
      {
        if ledger[k].email == email {
          return true;
        }
        k := k + 1;
      }
      return false;
    }
  }
}
