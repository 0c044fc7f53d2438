/**
 What the relay promises, proved of the handlers in RelaySpec: the invariant
 every handler keeps, fresh ids, the history bound with FIFO eviction, the
 recipients of each fan-out, the registration rules and the roster frame.
 */
module RelayProperties {
  import opened Messages
  import opened Email
  import opened RelaySpec

  // ------------------------------------------------------------ fan-out

  lemma TargetsConcat(a: seq<Send>, b: seq<Send>)
    ensures Targets(a + b) == Targets(a) + Targets(b)
  {
    var ab := a + b;
    forall x | x in Targets(ab) ensures x in Targets(a) + Targets(b) {
      var k :| 0 <= k < |ab| && ab[k].to == x;
      if k < |a| { assert a[k] == ab[k]; } else { assert b[k - |a|] == ab[k]; }
    }
    forall x | x in Targets(a) + Targets(b) ensures x in Targets(ab) {
      if x in Targets(a) {
        var k :| 0 <= k < |a| && a[k].to == x;
        assert ab[k] == a[k];
      } else {
        var k :| 0 <= k < |b| && b[k].to == x;
        assert ab[|a| + k] == b[k];
      }
    }
  }

  /**
   `broadcast` sends the one frame it is given, exactly once to each key of
   `clients` that is OPEN and not excluded, and to no one else.
   */
  lemma {:induction false} FanoutSends(order: seq<nat>, live: set<nat>, exclude: Option<nat>, m: Outbound)
    ensures AllCarry(Fanout(order, live, exclude, m), m)
    ensures Targets(Fanout(order, live, exclude, m)) == set x | x in order && x in live && exclude != Some(x)
    ensures Distinct(order) ==> Once(Fanout(order, live, exclude, m))
    decreases |order|
  {
    if order != [] {
      var init, last := order[..|order| - 1], order[|order| - 1];
      assert order == init + [last];
      FanoutSends(init, live, exclude, m);
      var a := Fanout(init, live, exclude, m);
      var b := if last in live && exclude != Some(last) then [Send(last, m)] else [];
      assert Fanout(order, live, exclude, m) == a + b;
      TargetsConcat(a, b);
      assert Targets(b) == if b == [] then {} else {last} by {
        if b != [] { assert b[0].to == last; }
      }
      forall x ensures (x in order && x in live && exclude != Some(x))
                   <==> (x in init && x in live && exclude != Some(x)) || x in Targets(b) {
        assert x in order <==> x in init || x == last;
      }
      if Distinct(order) {
        assert Distinct(init) by {
          forall i, j | 0 <= i < j < |init| ensures init[i] != init[j] {
            assert init[i] == order[i] && init[j] == order[j];
          }
        }
        assert forall k :: 0 <= k < |init| ==> init[k] == order[k] != order[|order| - 1];
        assert last !in init;
        forall i, j | 0 <= i < j < |a + b| ensures (a + b)[i].to != (a + b)[j].to {
          if j >= |a| {
            assert (a + b)[j].to == last;
            assert (a + b)[i] == a[i];
          }
        }
      }
    }
  }

  /** `broadcast` over a valid state reaches every joined OPEN client but the excluded one. */
  lemma FanoutReachesOpenJoined(s: State, exclude: Option<nat>, m: Outbound)
    requires Valid(s)
    ensures AllCarry(Fanout(s.order, s.live, exclude, m), m)
    ensures Targets(Fanout(s.order, s.live, exclude, m))
         == OpenJoined(s) - (if exclude.Some? then {exclude.value} else {})
    ensures Once(Fanout(s.order, s.live, exclude, m))
  {
    FanoutSends(s.order, s.live, exclude, m);
    forall x | x in s.order ensures x in s.roster {
      var k :| 0 <= k < |s.order| && s.order[k] == x;
    }
  }

  // ------------------------------------------------------------ roster frame

  /** The set of elements of `xs`. */
  function Elements(xs: seq<nat>): set<nat> {
    set x | x in xs
  }

  lemma {:induction false} DistinctSize(xs: seq<nat>)
    requires Distinct(xs)
    ensures |Elements(xs)| == |xs|
    decreases |xs|
  {
    if xs != [] {
      var init, last := xs[..|xs| - 1], xs[|xs| - 1];
      assert xs == init + [last];
      assert Distinct(init) by {
        forall i, j | 0 <= i < j < |init| ensures init[i] != init[j] {
          assert init[i] == xs[i] && init[j] == xs[j];
        }
      }
      DistinctSize(init);
      assert forall k :: 0 <= k < |init| ==> init[k] == xs[k] != xs[|xs| - 1];
      assert last !in init;
      var before := Elements(init);
      forall x ensures x in Elements(xs) <==> x in before + {last} {
        assert x in xs <==> x in init || x == last;
      }
      assert Elements(xs) == before + {last};
      assert last !in before;
    }
  }

  /**
   The `users` frame lists every roster entry once, each with the platform and
   username the roster holds, and its `count` is the number of roster entries.
   */
  lemma UsersFrameListsRoster(s: State)
    requires Valid(s)
    ensures UsersFrame(s).count == |UsersFrame(s).users| == |s.roster|
    ensures forall k :: 0 <= k < |UsersFrame(s).users| ==>
      var u := UsersFrame(s).users[k]; u.id in s.roster && s.roster[u.id] == Entry(u.platform, u.username)
    ensures forall id :: id in s.roster <==> exists k :: 0 <= k < |UsersFrame(s).users| && UsersFrame(s).users[k].id == id
  {
    DistinctSize(s.order);
    assert s.roster.Keys == Elements(s.order) by {
      forall x | x in s.order ensures x in s.roster {
        var k :| 0 <= k < |s.order| && s.order[k] == x;
      }
    }
    var users := UsersFrame(s).users;
    forall id | id in s.roster ensures exists k :: 0 <= k < |users| && users[k].id == id {
      var k :| 0 <= k < |s.order| && s.order[k] == id;
      assert users[k].id == id;
    }
  }

  /** `out` is one roster frame of `s` to each joined OPEN connection of `s`. */
  ghost predicate AnnouncesRoster(out: seq<Send>, s: State) {
    Keyed(s) && AllCarry(out, UsersFrame(s)) && Targets(out) == OpenJoined(s) && Once(out)
  }

  lemma BroadcastUsersAnnounces(s: State)
    requires Valid(s)
    ensures AnnouncesRoster(BroadcastUsers(s), s)
    ensures UsersFrame(s).count == |s.roster|
  {
    FanoutReachesOpenJoined(s, None, UsersFrame(s));
    UsersFrameListsRoster(s);
  }

  // ------------------------------------------------------------ history

  /** The newest `MaxHistory` entries of `h`, oldest first. */
  function Newest(h: seq<DrawOp>): (r: seq<DrawOp>) {
    if |h| <= MaxHistory then h else h[|h| - MaxHistory..]
  }

  /** The history after the draws `ops`, in order, starting from `h`. */
  function RecordAll(h: seq<DrawOp>, ops: seq<DrawOp>): seq<DrawOp>
    decreases |ops|
  {
    if ops == [] then h else RecordAll(Record(h, ops[0]), ops[1..])
  }

  /**
   One draw: the record becomes the last entry; below the cap nothing is lost,
   at the cap exactly the oldest entry goes; the bound is kept.
   */
  lemma RecordEvictsOldest(h: seq<DrawOp>, op: DrawOp)
    requires |h| <= MaxHistory
    ensures |Record(h, op)| <= MaxHistory
    ensures Record(h, op)[|Record(h, op)| - 1] == op
    ensures |h| < MaxHistory ==> Record(h, op) == h + [op]
    ensures |h| == MaxHistory ==> Record(h, op) == h[1..] + [op]
  {
  }

  lemma {:induction false} NewestOfNewest(h: seq<DrawOp>, t: seq<DrawOp>)
    ensures Newest(Newest(h) + t) == Newest(h + t)
  {
    if |h| > MaxHistory {
      var b := h + t;
      var a := Newest(h) + t;
      assert a == b[|h| - MaxHistory..];
      assert Newest(a) == a[|t|..];
      assert a[|t|..] == b[|h| - MaxHistory + |t|..];
    }
  }

  /**
   FIFO eviction: after any run of draws the history is exactly the newest
   `MaxHistory` entries of the old history followed by the new records.
   */
  lemma {:induction false} DrawsKeepNewest(h: seq<DrawOp>, ops: seq<DrawOp>)
    requires |h| <= MaxHistory
    ensures RecordAll(h, ops) == Newest(h + ops)
    ensures |RecordAll(h, ops)| <= MaxHistory
    decreases |ops|
  {
    if ops != [] {
      var h1 := Record(h, ops[0]);
      assert h1 == Newest(h + [ops[0]]);
      DrawsKeepNewest(h1, ops[1..]);
      NewestOfNewest(h + [ops[0]], ops[1..]);
      assert h + [ops[0]] + ops[1..] == h + ops;
    }
  }

  // ------------------------------------------------------------ invariant

  lemma ConnectKeepsValid(s: State)
    requires Valid(s)
    ensures Valid(OnConnect(s).next)
  {
  }

  lemma JoinKeepsValid(s: State, id: nat, platform: string, username: Option<string>)
    requires Valid(s) && Connected(s, id)
    ensures Valid(OnJoin(s, id, platform, username).next)
  {
    JoinedValid(s, id, platform, username);
  }

  lemma JoinedValid(s: State, id: nat, platform: string, username: Option<string>)
    requires Valid(s) && Connected(s, id)
    ensures Valid(Joined(s, id, platform, username))
  {
    var next := Joined(s, id, platform, username);
    assert next == s.(order := next.order, roster := next.roster);
    JoinedOrderKeyed(s, id, platform, username);
    JoinedEntriesNamed(s, id, platform, username);
  }

  /** The Map order after `join` stays duplicate-free and in step with the keys. */
  lemma JoinedOrderKeyed(s: State, id: nat, platform: string, username: Option<string>)
    requires Valid(s) && Connected(s, id)
    ensures Distinct(Joined(s, id, platform, username).order)
    ensures Keyed(Joined(s, id, platform, username))
    ensures forall x :: x in Joined(s, id, platform, username).roster ==> x in Joined(s, id, platform, username).order
  {
    var next := Joined(s, id, platform, username);
    if id !in s.roster {
      assert id !in s.order;
      assert next.order == s.order + [id];
      assert Distinct(next.order) by {
        forall i, j | 0 <= i < j < |next.order| ensures next.order[i] != next.order[j] {
          if j == |s.order| { assert next.order[i] == s.order[i]; }
        }
      }
      assert Keyed(next) by {
        forall k | 0 <= k < |next.order| ensures next.order[k] in next.roster {
          if k < |s.order| { assert next.order[k] == s.order[k]; }
        }
      }
    }
  }

  /** Every roster entry after `join` belongs to a connected id and has a non-empty name. */
  lemma JoinedEntriesNamed(s: State, id: nat, platform: string, username: Option<string>)
    requires Valid(s) && Connected(s, id)
    ensures forall x :: x in Joined(s, id, platform, username).roster ==>
      Connected(s, x) && Joined(s, id, platform, username).roster[x].username != ""
  {
    var next := Joined(s, id, platform, username);
    forall x | x in next.roster
      ensures Connected(s, x) && next.roster[x].username != ""
    {
      if x == id {
        assert next.roster[x].username == DisplayName(username, id);
      } else {
        assert next.roster[x] == s.roster[x];
      }
    }
  }

  lemma DrawKeepsValid(s: State, id: nat, x: real, y: real, color: string, size: real, platform: string)
    requires Valid(s) && Connected(s, id)
    ensures Valid(OnDraw(s, id, x, y, color, size, platform).next)
  {
    var op := DrawOp(x, y, color, size, platform, id);
    var h := Record(s.history, op);
    var pushed := s.history + [op];
    assert forall k :: 0 <= k < |pushed| ==> Issued(s, pushed[k].clientId);
    assert forall k :: 0 <= k < |h| ==> Issued(s, h[k].clientId) by {
      if |pushed| > MaxHistory {
        forall k | 0 <= k < |h| ensures Issued(s, h[k].clientId) {
          assert h[k] == pushed[k + 1];
        }
      }
    }
  }

  lemma RegisterKeepsValid(s: State, id: nat, email: string, platform: string, timestamp: Option<string>, now: string)
    requires Valid(s) && Connected(s, id)
    ensures Valid(OnRegister(s, id, email, platform, timestamp, now).next)
  {
    if IsEmail(email) && !IsRegistered(s.ledger, email) {
      var l := OnRegister(s, id, email, platform, timestamp, now).next.ledger;
      assert l == s.ledger + [l[|l| - 1]];
      assert DistinctEmails(l) by {
        forall i, j | 0 <= i < j < |l| ensures l[i].email != l[j].email {
          if j == |s.ledger| { assert l[i] == s.ledger[i]; }
        }
      }
    }
  }

  /** Every message handler keeps the invariant, so the history bound and unique emails always hold. */
  lemma DispatchKeepsValid(s: State, id: nat, msg: Inbound, now: string)
    requires Valid(s) && Connected(s, id)
    ensures Valid(Dispatch(s, id, msg, now).next)
  {
    match msg
    case Join(platform, username) => JoinKeepsValid(s, id, platform, username);
    case Draw(x, y, color, size, platform) => DrawKeepsValid(s, id, x, y, color, size, platform);
    case Clear(platform) =>
    case Register(email, platform, timestamp) => RegisterKeepsValid(s, id, email, platform, timestamp, now);
    case GetRegistrations =>
    case Unrecognised =>
    case Malformed =>
  }

  lemma CloseKeepsValid(s: State, id: nat)
    requires Valid(s) && Connected(s, id)
    ensures Valid(OnClose(s, id).next)
  {
    var next := Removed(s, id);
    assert OnClose(s, id).next == next;
    forall x | x in next.roster ensures x in next.order {
      assert x in s.order;
    }
    forall k | 0 <= k < |next.order| ensures next.order[k] in next.roster {
      assert next.order[k] in next.order;
    }
  }

  lemma SocketClosingKeepsValid(s: State, id: nat)
    requires Valid(s) && Connected(s, id)
    ensures Valid(OnSocketClosing(s, id))
  {
  }

  // ------------------------------------------------------------ connect

  /**
   A new connection gets `clientIdCounter + 1`, an id no roster entry, socket,
   closed connection or history record has carried before.
   */
  lemma ConnectGivesFreshId(s: State)
    requires Valid(s)
    ensures OnConnect(s).id == s.nextId + 1 == OnConnect(s).next.nextId
    ensures OnConnect(s).id !in s.roster && OnConnect(s).id !in s.live && OnConnect(s).id !in s.closed
    ensures forall k :: 0 <= k < |s.history| ==> s.history[k].clientId != OnConnect(s).id
    ensures OnConnect(s).next == s.(nextId := OnConnect(s).id, live := s.live + {OnConnect(s).id})
  {
  }

  // ------------------------------------------------------------ join

  /** The digits of the `User<id>` default spell the connection's id. */
  lemma {:induction false} DecimalValue(n: nat)
    ensures DigitsValue(Decimal(n)) == n
    decreases n
  {
    if n >= 10 {
      var r := Decimal(n);
      DecimalValue(n / 10);
      assert r[..|r| - 1] == Decimal(n / 10);
    }
  }

  /**
   `join` writes the sender's roster entry (username defaulting to `User<id>`),
   appending the id to the Map order only when it was not yet a key, and
   leaves everything else as it was.
   */
  lemma JoinWritesEntry(s: State, id: nat, platform: string, username: Option<string>)
    requires Valid(s) && Connected(s, id)
    ensures Valid(OnJoin(s, id, platform, username).next)
    ensures OnJoin(s, id, platform, username).next
         == s.(order := if id in s.roster then s.order else s.order + [id],
               roster := s.roster[id := Entry(platform, OrElse(username, "User" + Decimal(id)))])
    ensures UsersFrame(OnJoin(s, id, platform, username).next).count == |s.roster| + (if id in s.roster then 0 else 1)
  {
    var next := Joined(s, id, platform, username);
    assert OnJoin(s, id, platform, username).next == next;
    JoinKeepsValid(s, id, platform, username);
    BroadcastUsersAnnounces(next);
    assert |next.roster| == |s.roster| + (if id in s.roster then 0 else 1);
  }

  /**
   `join` replies with the unchanged history, then sends the new roster to
   every joined OPEN connection, the sender among them when its socket is OPEN.
   */
  lemma JoinReplaysAndAnnounces(s: State, id: nat, platform: string, username: Option<string>)
    requires Valid(s) && Connected(s, id)
    ensures |OnJoin(s, id, platform, username).out| >= 1
    ensures OnJoin(s, id, platform, username).out[0] == Send(id, History(s.history))
    ensures AnnouncesRoster(OnJoin(s, id, platform, username).out[1..], OnJoin(s, id, platform, username).next)
    ensures id in s.live ==> id in Targets(OnJoin(s, id, platform, username).out[1..])
  {
    var r := OnJoin(s, id, platform, username);
    var next := Joined(s, id, platform, username);
    assert r.next == next;
    JoinKeepsValid(s, id, platform, username);
    assert r.out == [Send(id, History(s.history))] + BroadcastUsers(next);
    assert r.out[1..] == BroadcastUsers(next);
    BroadcastUsersAnnounces(next);
    assert id in s.live ==> id in OpenJoined(next);
  }

  // ------------------------------------------------------------ draw

  /**
   `draw` appends the stamped record as the newest history entry, keeps the
   bound, and relays it once to every joined OPEN connection but the sender.
   */
  lemma DrawRecordsAndRelays(s: State, id: nat, x: real, y: real, color: string, size: real, platform: string)
    requires Valid(s) && Connected(s, id)
    ensures var op := DrawOp(x, y, color, size, platform, id);
      var r := OnDraw(s, id, x, y, color, size, platform);
      && r.next == s.(history := Record(s.history, op))
      && |r.next.history| <= MaxHistory
      && r.next.history[|r.next.history| - 1] == op
      && AllCarry(r.out, DrawRelay(op))
      && Targets(r.out) == OpenJoined(s) - {id}
      && Once(r.out)
  {
    var op := DrawOp(x, y, color, size, platform, id);
    RecordEvictsOldest(s.history, op);
    FanoutReachesOpenJoined(s, Some(id), DrawRelay(op));
  }

  // ------------------------------------------------------------ clear

  /**
   `clear` empties the history without recording itself, and relays
   `{clear, platform, clientId}` to every joined OPEN connection but the sender.
   */
  lemma ClearEmptiesAndRelays(s: State, id: nat, platform: string)
    requires Valid(s) && Connected(s, id)
    ensures OnClear(s, id, platform).next == s.(history := [])
    ensures AllCarry(OnClear(s, id, platform).out, ClearRelay(platform, id))
    ensures Targets(OnClear(s, id, platform).out) == OpenJoined(s) - {id}
    ensures Once(OnClear(s, id, platform).out)
  {
    FanoutReachesOpenJoined(s, Some(id), ClearRelay(platform, id));
  }

  /** A connection that joins after a `clear` is sent an empty history. */
  lemma JoinAfterClearSeesEmptyHistory(s: State, a: nat, platform: string, b: nat, joinPlatform: string, username: Option<string>)
    requires Valid(s) && Connected(s, a) && Connected(s, b)
    ensures Valid(OnClear(s, a, platform).next)
    ensures OnJoin(OnClear(s, a, platform).next, b, joinPlatform, username).out[0] == Send(b, History([]))
  {
    DispatchKeepsValid(s, a, Clear(platform), "");
  }

  // ------------------------------------------------------------ register

  /** A malformed email is refused with `Invalid email format` to the sender alone; nothing changes. */
  lemma RegisterRefusesMalformed(s: State, id: nat, email: string, platform: string, timestamp: Option<string>, now: string)
    requires Valid(s) && Connected(s, id) && !IsEmail(email)
    ensures OnRegister(s, id, email, platform, timestamp, now)
         == Step(s, [Send(id, RegistrationError("Invalid email format"))])
  {
  }

  /** An email already in the ledger is refused with `This email is already registered`; nothing changes. */
  lemma RegisterRefusesDuplicate(s: State, id: nat, k: nat, platform: string, timestamp: Option<string>, now: string)
    requires Valid(s) && Connected(s, id) && k < |s.ledger|
    ensures OnRegister(s, id, s.ledger[k].email, platform, timestamp, now)
         == Step(s, [Send(id, RegistrationError("This email is already registered"))])
  {
  }

  /**
   A well-formed new email appends exactly one registration (with the client's
   timestamp, or the server's when it is missing or empty), replies
   `registration_success`, and sends `new_registration` to every joined OPEN
   connection, the sender too when it has joined and is OPEN.
   */
  lemma RegisterAppendsAndAnnounces(s: State, id: nat, email: string, platform: string, timestamp: Option<string>, now: string)
    requires Valid(s) && Connected(s, id) && IsEmail(email)
    requires forall k :: 0 <= k < |s.ledger| ==> s.ledger[k].email != email
    ensures var reg := Registration(email, platform, OrElse(timestamp, now));
      var r := OnRegister(s, id, email, platform, timestamp, now);
      && r.next == s.(ledger := s.ledger + [reg])
      && |r.out| >= 1 && r.out[0] == Send(id, RegistrationSuccess)
      && AllCarry(r.out[1..], NewRegistration(reg))
      && Targets(r.out[1..]) == OpenJoined(s)
      && Once(r.out[1..])
  {
    var reg := Registration(email, platform, OrElse(timestamp, now));
    FanoutReachesOpenJoined(s, None, NewRegistration(reg));
    var r := OnRegister(s, id, email, platform, timestamp, now);
    assert r.out[1..] == Fanout(s.order, s.live, None, NewRegistration(reg));
  }

  /**
   Two registrations of one email: whatever the first did, the second is
   refused and changes nothing, so at most one of them is in the ledger.
   */
  lemma SameEmailTwice(s: State, a: nat, b: nat, email: string, p1: string, p2: string,
                       t1: Option<string>, t2: Option<string>, n1: string, n2: string)
    requires Valid(s) && Connected(s, a) && Connected(s, b)
    ensures Valid(OnRegister(s, a, email, p1, t1, n1).next)
    ensures var s1 := OnRegister(s, a, email, p1, t1, n1).next;
      var r := OnRegister(s1, b, email, p2, t2, n2);
      && r.next == s1
      && r.out == [Send(b, RegistrationError(if IsEmail(email) then DuplicateEmailMessage else InvalidEmailMessage))]
  {
    RegisterKeepsValid(s, a, email, p1, t1, n1);
    var s1 := OnRegister(s, a, email, p1, t1, n1).next;
    if IsEmail(email) && !IsRegistered(s.ledger, email) {
      assert s1.ledger[|s.ledger|].email == email;
    }
  }

  // ------------------------------------------------------------ the rest

  /** `get_registrations` replies with the whole ledger; unknown and unparsable frames do nothing. */
  lemma QueriesChangeNothing(s: State, id: nat, now: string)
    requires Valid(s) && Connected(s, id)
    ensures Dispatch(s, id, GetRegistrations, now) == Step(s, [Send(id, RegistrationsList(s.ledger))])
    ensures Dispatch(s, id, Unrecognised, now) == Step(s, [])
    ensures Dispatch(s, id, Malformed, now) == Step(s, [])
  {
  }

  /**
   `close` removes the connection from the roster (nothing else if it never
   joined) and sends the remaining joined OPEN connections a roster without it.
   */
  lemma CloseRemovesAndAnnounces(s: State, id: nat)
    requires Valid(s) && Connected(s, id)
    ensures Valid(OnClose(s, id).next)
    ensures OnClose(s, id).next.roster == s.roster - {id}
    ensures id !in OnClose(s, id).next.order
    ensures OnClose(s, id).next.history == s.history && OnClose(s, id).next.ledger == s.ledger
    ensures AnnouncesRoster(OnClose(s, id).out, OnClose(s, id).next)
    ensures Targets(OnClose(s, id).out) == OpenJoined(s) - {id}
    ensures UsersFrame(OnClose(s, id).next).count == |s.roster| - (if id in s.roster then 1 else 0)
    ensures forall k :: 0 <= k < |UsersFrame(OnClose(s, id).next).users| ==> UsersFrame(OnClose(s, id).next).users[k].id != id
  {
    CloseKeepsValid(s, id);
    var next := OnClose(s, id).next;
    BroadcastUsersAnnounces(next);
    UsersFrameListsRoster(next);
    assert OpenJoined(next) == OpenJoined(s) - {id};
  }

  // ------------------------------------------------------------ runs

  /** The events the transport delivers to the relay. */
  datatype Event =
    | Open                                       // `wss.on('connection')`
    | Message(id: nat, msg: Inbound, now: string) // `ws.on('message')`
    | SocketClosing(id: nat)                     // readyState leaves OPEN
    | Closed(id: nat)                            // `ws.on('close')`

  /** Only connected sockets produce events; a new connection can always arrive. */
  predicate Admissible(s: State, e: Event) {
    match e
    case Open => true
    case Message(id, _, _) => Connected(s, id)
    case SocketClosing(id) => Connected(s, id)
    case Closed(id) => Connected(s, id)
  }

  function Apply(s: State, e: Event): State
    requires Valid(s) && Admissible(s, e)
  {
    match e
    case Open => OnConnect(s).next
    case Message(id, msg, now) => Dispatch(s, id, msg, now).next
    case SocketClosing(id) => OnSocketClosing(s, id)
    case Closed(id) => OnClose(s, id).next
  }

  lemma ApplyKeepsValid(s: State, e: Event)
    requires Valid(s) && Admissible(s, e)
    ensures Valid(Apply(s, e))
    ensures Apply(s, e).nextId == s.nextId + (if e.Open? then 1 else 0)
  {
    match e
    case Open => ConnectKeepsValid(s);
    case Message(id, msg, now) => DispatchKeepsValid(s, id, msg, now);
    case SocketClosing(id) => SocketClosingKeepsValid(s, id);
    case Closed(id) => CloseKeepsValid(s, id);
  }

  /** The final state of a run, and the ids its connections were given, in order. */
  datatype Trace = Trace(final: State, ids: seq<nat>)

  /** Runs the events in order; an event the transport could not deliver is skipped. */
  function Run(s: State, events: seq<Event>): Trace
    requires Valid(s)
    decreases |events|
  {
    if events == [] then Trace(s, [])
    else if !Admissible(s, events[0]) then Run(s, events[1..])
    else
      var next := Apply(s, events[0]);
      assert Valid(next) by { ApplyKeepsValid(s, events[0]); }
      var rest := Run(next, events[1..]);
      Trace(rest.final, (if events[0].Open? then [next.nextId] else []) + rest.ids)
  }

  /**
   Along any run the invariant holds at the end, and the ids handed out are
   strictly increasing and larger than any id handed out before: never reused.
   */
  lemma {:induction false} RunKeepsValidAndFreshIds(s: State, events: seq<Event>)
    requires Valid(s)
    ensures Valid(Run(s, events).final)
    ensures s.nextId <= Run(s, events).final.nextId
    ensures forall i, j :: 0 <= i < j < |Run(s, events).ids| ==> Run(s, events).ids[i] < Run(s, events).ids[j]
    ensures forall k :: 0 <= k < |Run(s, events).ids| ==> s.nextId < Run(s, events).ids[k] <= Run(s, events).final.nextId
    decreases |events|
  {
    if events != [] {
      if !Admissible(s, events[0]) {
        RunKeepsValidAndFreshIds(s, events[1..]);
      } else {
        var next := Apply(s, events[0]);
        ApplyKeepsValid(s, events[0]);
        RunKeepsValidAndFreshIds(next, events[1..]);
      }
    }
  }
}
