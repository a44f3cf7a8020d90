/** The shared room table kept in Redis: which SFU node each meeting is routed to, and how many
    meetings each node carries. */
module RouteStore {

  const MAX_ATTEMPTS := 3

  /** `rooms[m]` is the node field of hash `room:m` ("" when the hash has no node); `version[m]` counts
      the writes to that hash, which is what WATCH observes. */
  datatype Store = Store(rooms: map<string, string>, version: map<string, nat>,
                         address: map<string, string>, load: map<string, int>)

  const EMPTY := Store(map[], map[], map[], map[])

  function NodeOf(s: Store, m: string): string {
    if m in s.rooms then s.rooms[m] else ""
  }

  function Version(s: Store, m: string): nat {
    if m in s.version then s.version[m] else 0
  }

  function LoadOf(s: Store, n: string): int {
    if n in s.load then s.load[n] else 0
  }

  /** The number of meetings routed to `n`. */
  function Assigned(s: Store, n: string): nat {
    |set m | m in s.rooms && s.rooms[m] == n|
  }

  // ----- effects of the Redis transactions -----

  function AddLoad(load: map<string, int>, n: string, delta: int): map<string, int> {
    if n == "" then load else load[n := (if n in load then load[n] else 0) + delta]
  }

  function MoveLoad(load: map<string, int>, from: string, to: string): map<string, int> {
    if from == to then load else AddLoad(AddLoad(load, from, -1), to, 1)
  }

  /** The transaction of an upsert that earlier read `prev` as the meeting's node. */
  function ApplyUpsert(s: Store, m: string, prev: string, node: string, addr: string): Store {
    Store(s.rooms[m := node], s.version[m := Version(s, m) + 1],
          if addr != "" then s.address[m := addr] else s.address, MoveLoad(s.load, prev, node))
  }

  function ApplySwitch(s: Store, m: string, cur: string, next: string, addr: string): Store {
    Store(s.rooms[m := next], s.version[m := Version(s, m) + 1],
          if addr != "" then s.address[m := addr] else s.address - {m}, MoveLoad(s.load, cur, next))
  }

  /** Deleting an absent hash does not disturb a WATCH. */
  function ApplyDelete(s: Store, m: string, prev: string): Store {
    Store(s.rooms - {m}, if m in s.rooms then s.version[m := Version(s, m) + 1] else s.version,
          s.address - {m}, AddLoad(s.load, prev, -1))
  }

  /** Host transfer and mute-all write other fields of the same hash. */
  function ApplyTouch(s: Store, m: string): Store {
    s.(rooms := s.rooms[m := NodeOf(s, m)], version := s.version[m := Version(s, m) + 1])
  }

  // ----- one SwitchRoomRoute call -----

  /** A command either runs, fails without effect, or takes effect although its reply is lost. */
  datatype Fault = NoFault | NotApplied | ReplyLost

  datatype SwitchPc = Watch(attempt: nat) | Exec(attempt: nat, cur: string, seen: nat)

  datatype SwitchResult = Continue(pc: SwitchPc) | Returned(switched: bool) | Failed

  function SwitchStep(s: Store, m: string, expected: string, next: string, addr: string,
                      pc: SwitchPc, fault: Fault): (Store, SwitchResult)
  {
    match pc
    case Watch(attempt) =>
      if fault != NoFault then (s, Failed)
      else if expected != "" && NodeOf(s, m) != expected then (s, Returned(false))
      else (s, Continue(Exec(attempt, NodeOf(s, m), Version(s, m))))
    case Exec(attempt, cur, seen) =>
      if fault == NotApplied then (s, Failed)
      else if Version(s, m) != seen then
        if fault == ReplyLost then (s, Failed)
        else if attempt + 1 < MAX_ATTEMPTS then (s, Continue(Watch(attempt + 1)))
        else (s, Returned(false))
      else (ApplySwitch(s, m, cur, next, addr), if fault == ReplyLost then Failed else Returned(true))
  }
}
