/**
 A session against the relay, told through the contracts of `Relay` and the
 lemmas of RelayProperties alone: A joins from "go", B from "rust"; A draws,
 and only B hears of it; A clears, and C, joining afterwards, is sent an empty
 history; a malformed email and a repeated one are both refused.
 */
module Scenario {
  import opened Messages
  import opened RelaySpec
  import opened RelayProperties
  import opened RelayServer

  /** The state after A (id 1) and B (id 2) have joined. */
  ghost predicate TwoJoined(relay: Relay, a: nat, b: nat)
    reads relay
  {
    && relay.Valid() && a == 1 && b == 2 && relay.nextId == 2
    && relay.roster.Keys == {a, b} && relay.live == {a, b} && relay.closed == {}
  }

  /** A joins and B joins: both are in the roster and OPEN. */
  method TwoPlatformsJoin() returns (relay: Relay, a: nat, b: nat)
    ensures fresh(relay) && TwoJoined(relay, a, b) && relay.history == [] && relay.ledger == []
  {
    relay := new Relay();
    var first, second;
    a, first := FirstJoin(relay);
    b, second := SecondJoin(relay, a);
  }

  /** A joins a fresh relay, is sent an empty history and a roster of one. */
  method FirstJoin(relay: Relay) returns (a: nat, out: seq<Send>)
    requires relay.Valid() && relay.Abs() == Initial
    modifies relay
    ensures relay.Valid() && a == 1 && relay.nextId == 1
    ensures relay.roster.Keys == {a} && relay.live == {a} && relay.closed == {}
    ensures relay.history == [] && relay.ledger == []
    ensures |out| >= 1 && out[0] == Send(a, History([]))
    ensures Targets(out[1..]) == {a} && AllCarry(out[1..], UsersFrame(relay.Abs()))
    ensures UsersFrame(relay.Abs()).count == 1
  {
    a := relay.Connect();
    ghost var s := relay.Abs();
    JoinWritesEntry(s, a, "go", None);
    JoinReplaysAndAnnounces(s, a, "go", None);
    out := relay.Handle(a, Join("go", None), "t0");
    assert relay.roster.Keys == {a} && relay.live == {a};
    assert OpenJoined(relay.Abs()) == {a};
  }

  /** B joins beside A; both are sent a roster of two. */
  method SecondJoin(relay: Relay, a: nat) returns (b: nat, out: seq<Send>)
    requires relay.Valid() && a == 1 && relay.nextId == 1
    requires relay.roster.Keys == {a} && relay.live == {a} && relay.closed == {}
    modifies relay
    ensures TwoJoined(relay, a, b)
    ensures relay.history == old(relay.history) && relay.ledger == old(relay.ledger)
    ensures |out| >= 1 && out[0] == Send(b, History(old(relay.history)))
    ensures Targets(out[1..]) == {a, b} && AllCarry(out[1..], UsersFrame(relay.Abs()))
    ensures UsersFrame(relay.Abs()).count == 2
  {
    b := relay.Connect();
    SecondJoinAnnounces(relay.Abs(), a, b);
    out := relay.Handle(b, Join("rust", None), "t1");
  }

  /** The join of B, on states: B's entry is added and the roster of two goes to A and B. */
  lemma SecondJoinAnnounces(s: State, a: nat, b: nat)
    requires Valid(s) && a == 1 && b == 2 && s.nextId == 2
    requires s.roster.Keys == {a} && s.live == {a, b} && s.closed == {}
    ensures var r := OnJoin(s, b, "rust", None);
      && Valid(r.next) && r.next.nextId == 2
      && r.next.roster.Keys == {a, b} && r.next.live == {a, b} && r.next.closed == {}
      && r.next.history == s.history && r.next.ledger == s.ledger
      && |r.out| >= 1 && r.out[0] == Send(b, History(s.history))
      && Targets(r.out[1..]) == {a, b} && AllCarry(r.out[1..], UsersFrame(r.next))
      && UsersFrame(r.next).count == 2
  {
    JoinWritesEntry(s, b, "rust", None);
    JoinReplaysAndAnnounces(s, b, "rust", None);
    var next := OnJoin(s, b, "rust", None).next;
    assert next.roster.Keys == {a, b};
    assert OpenJoined(next) == {a, b};
  }

  /** A draws: the record, stamped with A's id, goes to B alone. */
  method ADraws(relay: Relay, a: nat, b: nat) returns (out: seq<Send>)
    requires TwoJoined(relay, a, b) && relay.history == []
    modifies relay
    ensures TwoJoined(relay, a, b) && relay.history == [DrawOp(1.0, 2.0, "#fff", 3.0, "go", a)]
    ensures Targets(out) == {b} && AllCarry(out, DrawRelay(DrawOp(1.0, 2.0, "#fff", 3.0, "go", a)))
  {
    ghost var s := relay.Abs();
    DrawRecordsAndRelays(s, a, 1.0, 2.0, "#fff", 3.0, "go");
    out := relay.Handle(a, Draw(1.0, 2.0, "#fff", 3.0, "go"), "t2");
    assert OpenJoined(s) - {a} == {b};
  }

  /** A clears: B is told; C, joining afterwards, is sent an empty history. */
  method AClearsThenCJoins(relay: Relay, a: nat, b: nat) returns (relayed: seq<Send>, c: nat, joined: seq<Send>)
    requires TwoJoined(relay, a, b)
    modifies relay
    ensures Targets(relayed) == {b} && AllCarry(relayed, ClearRelay("go", a))
    ensures |joined| >= 1 && joined[0] == Send(c, History([]))
  {
    relayed := AClears(relay, a, b);
    c, joined := CJoins(relay);
  }

  /** A clears: the history is emptied and B alone is told. */
  method AClears(relay: Relay, a: nat, b: nat) returns (relayed: seq<Send>)
    requires TwoJoined(relay, a, b)
    modifies relay
    ensures relay.Valid() && relay.history == []
    ensures Targets(relayed) == {b} && AllCarry(relayed, ClearRelay("go", a))
  {
    ghost var s := relay.Abs();
    ClearEmptiesAndRelays(s, a, "go");
    relayed := relay.Handle(a, Clear("go"), "t3");
    assert OpenJoined(s) - {a} == {b};
  }

  /** A connection joining a relay with an empty history is sent an empty history. */
  method CJoins(relay: Relay) returns (c: nat, joined: seq<Send>)
    requires relay.Valid() && relay.history == []
    modifies relay
    ensures |joined| >= 1 && joined[0] == Send(c, History([]))
  {
    c := relay.Connect();
    ghost var s := relay.Abs();
    JoinReplaysAndAnnounces(s, c, "python", None);
    joined := relay.Handle(c, Join("python", None), "t4");
  }

  /** An address the email check refuses is answered with `Invalid email format`; the ledger stays as it was. */
  method MalformedEmailRefused(relay: Relay, a: nat, b: nat, email: string) returns (out: seq<Send>)
    requires TwoJoined(relay, a, b) && !Email.IsEmail(email)
    modifies relay
    ensures out == [Send(a, RegistrationError("Invalid email format"))] && relay.ledger == old(relay.ledger)
  {
    ghost var s := relay.Abs();
    RegisterRefusesMalformed(s, a, email, "go", None, "t5");
    out := relay.Handle(a, Register(email, "go", None), "t5");
  }

  /** "not-an-email" is such an address. */
  method NotAnEmailRefused(relay: Relay, a: nat, b: nat) returns (out: seq<Send>)
    requires TwoJoined(relay, a, b)
    modifies relay
    ensures out == [Send(a, RegistrationError("Invalid email format"))]
  {
    Email.NotAnEmailRefused();
    out := MalformedEmailRefused(relay, a, b, "not-an-email");
  }

  /** "a@b.co" from A is taken; the same address from B is refused as a duplicate. */
  method SecondRegistrationRefused(relay: Relay, a: nat, b: nat) returns (first: seq<Send>, second: seq<Send>)
    requires TwoJoined(relay, a, b) && relay.ledger == []
    modifies relay
    ensures |first| >= 1 && first[0] == Send(a, RegistrationSuccess)
    ensures second == [Send(b, RegistrationError("This email is already registered"))]
    ensures relay.ledger == [Registration("a@b.co", "go", "t6")]
  {
    Email.ShortAddressAccepted();
    ghost var s := relay.Abs();
    SameEmailTwice(s, a, b, "a@b.co", "go", "rust", None, None, "t6", "t7");
    RegisterAppendsAndAnnounces(s, a, "a@b.co", "go", None, "t6");
    first := relay.Handle(a, Register("a@b.co", "go", None), "t6");
    second := relay.Handle(b, Register("a@b.co", "rust", None), "t7");
  }
}
