/**
 The records the relay keeps and the frames it exchanges with clients. Each
 frame is a JSON object with a `type` field; here each `type` is a constructor,
 and decoding and encoding JSON are outside the model.
 */
module Messages {

  datatype Option<+T> = None | Some(value: T)

  /**
   JavaScript's `value || fallback` on an optional string field: a missing
   field and the empty string are both falsy and give the fallback.
   */
  function OrElse(field: Option<string>, fallback: string): string {
    if field.Some? && field.value != "" then field.value else fallback
  }

  /** One entry of the canvas history: a draw frame stamped with its sender's id. */
  datatype DrawOp = DrawOp(x: real, y: real, color: string, size: real, platform: string, clientId: nat)

  /** One entry of the registration ledger. */
  datatype Registration = Registration(email: string, platform: string, timestamp: string)

  /** What the `clients` map holds for a joined connection (its socket aside). */
  datatype Entry = Entry(platform: string, username: string)

  /** One element of the `users` array of a roster frame. */
  datatype UserInfo = UserInfo(id: nat, platform: string, username: string)

  /** A frame received from a client, after `JSON.parse`. */
  datatype Inbound =
    | Join(platform: string, username: Option<string>)
    | Draw(x: real, y: real, color: string, size: real, platform: string)
    | Clear(platform: string)
    | Register(email: string, platform: string, timestamp: Option<string>)
    | GetRegistrations
    | Unrecognised  // a `type` no case of the switch names
    | Malformed     // a frame whose parsing threw; the `catch` only logs it

  /** A frame the relay sends. */
  datatype Outbound =
    | History(history: seq<DrawOp>)
    | Users(users: seq<UserInfo>, count: nat)
    | DrawRelay(op: DrawOp)
    | ClearRelay(platform: string, clientId: nat)
    | RegistrationSuccess
    | RegistrationError(message: string)
    | NewRegistration(registration: Registration)
    | RegistrationsList(registrations: seq<Registration>)

  /** One `send` call: the connection it targets and the frame. */
  datatype Send = Send(to: nat, msg: Outbound)

  const InvalidEmailMessage := "Invalid email format"
  const DuplicateEmailMessage := "This email is already registered"

  /** The set of connections a sequence of sends targets. */
  function Targets(out: seq<Send>): set<nat> {
    set k | 0 <= k < |out| :: out[k].to
  }

  /** Every send carries the frame `m`. */
  predicate AllCarry(out: seq<Send>, m: Outbound) {
    forall k :: 0 <= k < |out| ==> out[k].msg == m
  }

  /** No connection is sent to twice. */
  predicate Once(out: seq<Send>) {
    forall i, j :: 0 <= i < j < |out| ==> out[i].to != out[j].to
  }
}
