/** SFU failover: any number of recovery runs, on any number of signaling nodes, interleaved step by
    step over the shared route table and the rooms the SFU servers hold. No lock is modelled: the
    safety results below hold without the recovery locks. */
module Failover {
  import opened RouteStore

  /** A server reached by RPC. Node `n` is served by `home(n)`; several nodes may share a server. */
  type Server = string

  /** A room on a server: who created it, and whether its creator has handed it to the route. */
  datatype Room = Room(creator: nat, named: bool)

  type Rooms = map<(Server, string), Room>

  /** What happens to one RPC: it is answered; it never arrives; it runs but its reply is lost; the
      client gives up while it is still on its way; or the SFU client is disabled. */
  datatype Rpc = Answered | Dropped | Unheard | InFlight | Disabled

  datatype Message = LateCreate(run: nat, server: Server, meeting: string)
                   | LateDestroy(run: nat, server: Server, meeting: string)

  datatype Candidate = Candidate(node: string, address: string)

  /** Where a run stands. In a `Holding` state it has created the room on its candidate and has
      neither handed it to the route nor given it up. */
  datatype Pc = Begin                                   // about to read the meeting's metadata
              | Picking(expected: string)
              | Holding(expected: string, stage: Stage)
              | Retrying(expected: string)              // one more AddPublisher on the latest route
              | Blind(expected: string)                 // an allocation without a client: UpsertRoom is next
              | Ended

  datatype Stage = Adding                               // AddPublisher on the candidate
                 | Swapping(pc: SwitchPc)               // inside SwitchRoomRoute
                 | Inspecting                           // reads the latest route after losing
                 | RollingBack(retry: bool)             // about to send DestroyRoom
                 | Naming                               // a meeting being created: UpsertRoom is next

  /** `creating` runs allocate the first room of a meeting, the others recover one. */
  datatype RunState = RunState(meeting: string, creating: bool, rest: seq<Candidate>, pc: Pc)

  /** `blind` is history: the meetings last routed by an allocation whose client was disabled, to a
      server without a room handed to the route. Nothing reads it. */
  datatype System = System(store: Store, rooms: Rooms, runs: map<nat, RunState>, mail: set<Message>, blind: set<string>)

  datatype Action = Start(id: nat, meeting: string, creating: bool, candidates: seq<Candidate>)
                  | Step(id: nat, rpc: Rpc, fault: Fault)
                  | Deliver(msg: Message)
                  | Lose(msg: Message)
                  | Touch(meeting: string)      // host transfer, mute-all
                  | Unroute(meeting: string)    // DeleteRoom of the route entry

  const INITIAL := System(EMPTY, map[], map[], {}, {})

  function Goto(r: RunState, pc: Pc): RunState {
    r.(pc := pc)
  }

  function NextCandidate(r: RunState): RunState {
    if r.rest == [] then Goto(r, Ended) else r.(rest := r.rest[1..], pc := Picking(ExpectedOf(r)))
  }

  function ExpectedOf(r: RunState): string {
    if r.pc.Begin? || r.pc.Ended? then "" else r.pc.expected
  }

  /** RoomManager::CreateRoom: an existing room is never replaced. */
  function CreateRoom(rooms: Rooms, s: Server, m: string, id: nat): (Rooms, bool) {
    if m == "" || (s, m) in rooms then (rooms, false) else (rooms[(s, m) := Room(id, false)], true)
  }

  function DestroyRoom(rooms: Rooms, s: Server, m: string): Rooms {
    rooms - {(s, m)}
  }

  function Name(rooms: Rooms, s: Server, m: string): Rooms {
    if (s, m) in rooms then rooms[(s, m) := rooms[(s, m)].(named := true)] else rooms
  }

  /** One attempt to create the room on the next candidate. */
  function TryCreate(sys: System, id: nat, s: Server, rpc: Rpc): System
    requires id in sys.runs && sys.runs[id].pc.Picking?
  {
    var r := sys.runs[id];
    var (rooms', inserted) := CreateRoom(sys.rooms, s, r.meeting, id);
    match rpc
    case Disabled => sys.(runs := sys.runs[id := Goto(r, if r.creating then Blind(r.pc.expected) else Ended)])
    case Dropped => sys.(runs := sys.runs[id := NextCandidate(r)])
    case InFlight => sys.(mail := sys.mail + {LateCreate(id, s, r.meeting)}, runs := sys.runs[id := NextCandidate(r)])
    case Unheard => sys.(rooms := rooms', runs := sys.runs[id := NextCandidate(r)])
    case Answered =>
      var stage := if r.creating then Naming else Adding;
      sys.(rooms := rooms',
           runs := sys.runs[id := if inserted then Goto(r, Holding(r.pc.expected, stage)) else NextCandidate(r)])
  }

  function StepRun(sys: System, home: string -> Server, id: nat, rpc: Rpc, fault: Fault): System
    requires id in sys.runs
  {
    var r := sys.runs[id];
    var m := r.meeting;
    match r.pc
    case Begin =>
      if r.creating then sys.(runs := sys.runs[id := Goto(r, Picking(""))])
      else if m == "" || fault != NoFault || m !in sys.store.rooms then sys.(runs := sys.runs[id := Goto(r, Ended)])
      else sys.(runs := sys.runs[id := Goto(r, Picking(NodeOf(sys.store, m)))])
    case Picking(expected) =>
      if r.rest == [] then sys.(runs := sys.runs[id := Goto(r, Ended)])
      else
        var c := r.rest[0];
        if !r.creating && (c.node == "" || c.address == "" || (expected != "" && c.node == expected)) then
          sys.(runs := sys.runs[id := NextCandidate(r)])
        else TryCreate(sys, id, home(c.node), rpc)
    case Retrying(expected) =>
      sys.(runs := sys.runs[id := if rpc == Answered || rpc == Disabled then Goto(r, Ended) else NextCandidate(r)])
    case Ended => sys
    case Blind(expected) => if r.rest == [] then sys else StepBlind(sys, home, id, fault)
    case Holding(expected, stage) => if r.rest == [] then sys else StepHolding(sys, home, id, rpc, fault)
  }

  predicate HandedOver(rooms: Rooms, s: Server, m: string) {
    (s, m) in rooms && rooms[(s, m)].named
  }

  /** An allocation that found its client disabled routes the meeting all the same. */
  function StepBlind(sys: System, home: string -> Server, id: nat, fault: Fault): System
    requires id in sys.runs && sys.runs[id].rest != []
  {
    var r := sys.runs[id];
    var m, c := r.meeting, r.rest[0];
    var sys' := sys.(runs := sys.runs[id := Goto(r, Ended)]);
    if fault == NotApplied then sys'
    else sys'.(store := ApplyUpsert(sys.store, m, NodeOf(sys.store, m), c.node, c.address),
               blind := if HandedOver(sys.rooms, home(c.node), m) then sys.blind - {m} else sys.blind + {m})
  }

  function StepHolding(sys: System, home: string -> Server, id: nat, rpc: Rpc, fault: Fault): System
    requires id in sys.runs && sys.runs[id].pc.Holding? && sys.runs[id].rest != []
  {
    var r := sys.runs[id];
    var m, c, expected := r.meeting, r.rest[0], r.pc.expected;
    match r.pc.stage
    case Naming =>
      var store' := if fault == NotApplied then sys.store
                    else ApplyUpsert(sys.store, m, NodeOf(sys.store, m), c.node, c.address);
      sys.(store := store', rooms := if fault == NotApplied then sys.rooms else Name(sys.rooms, home(c.node), m),
           blind := if fault == NotApplied then sys.blind else sys.blind - {m},
           runs := sys.runs[id := Goto(r, Ended)])
    case Adding =>
      sys.(runs := sys.runs[id :=
             if rpc == Disabled then Goto(r, Ended)
             else if rpc == Answered then Goto(r, Holding(expected, Swapping(Watch(0))))
             else Goto(r, Holding(expected, RollingBack(false)))])
    case Swapping(pc) =>
      var (store', result) := SwitchStep(sys.store, m, expected, c.node, c.address, pc, fault);
      sys.(store := store',
           rooms := if store' == sys.store then sys.rooms else Name(sys.rooms, home(c.node), m),
           blind := if store' == sys.store then sys.blind else sys.blind - {m},
           runs := sys.runs[id :=
             match result
             case Continue(pc') => Goto(r, Holding(expected, Swapping(pc')))
             case Failed => NextCandidate(r)
             case Returned(true) => Goto(r, Ended)
             case Returned(false) => Goto(r, Holding(expected, Inspecting))])
    case Inspecting =>
      sys.(runs := sys.runs[id :=
             if fault == NoFault && NodeOf(sys.store, m) != "" && NodeOf(sys.store, m) != c.node
             then Goto(r, Holding(expected, RollingBack(true)))
             else Goto(r, Retrying(expected))])
    case RollingBack(retry) =>
      var r' := if retry then Goto(r, Retrying(expected)) else NextCandidate(r);
      match rpc
      case Answered => sys.(rooms := DestroyRoom(sys.rooms, home(c.node), m), runs := sys.runs[id := r'])
      case Unheard => sys.(rooms := DestroyRoom(sys.rooms, home(c.node), m), runs := sys.runs[id := r'])
      case InFlight => sys.(mail := sys.mail + {LateDestroy(id, home(c.node), m)}, runs := sys.runs[id := r'])
      case _ => sys.(runs := sys.runs[id := r'])
  }

  function Do(sys: System, home: string -> Server, a: Action): System {
    match a
    case Start(id, m, creating, cands) =>
      if id in sys.runs then sys else sys.(runs := sys.runs[id := RunState(m, creating, cands, Begin)])
    case Step(id, rpc, fault) => if id in sys.runs then StepRun(sys, home, id, rpc, fault) else sys
    case Deliver(msg) =>
      if msg !in sys.mail then sys
      else sys.(mail := sys.mail - {msg},
                rooms := if msg.LateCreate? then CreateRoom(sys.rooms, msg.server, msg.meeting, msg.run).0
                         else DestroyRoom(sys.rooms, msg.server, msg.meeting))
    case Lose(msg) => sys.(mail := sys.mail - {msg})
    case Touch(m) => sys.(store := ApplyTouch(sys.store, m))
    case Unroute(m) => sys.(store := ApplyDelete(sys.store, m, NodeOf(sys.store, m)), blind := sys.blind - {m})
  }

  function Run(home: string -> Server, acts: seq<Action>): System {
    if acts == [] then INITIAL else Do(Run(home, acts[..|acts| - 1]), home, acts[|acts| - 1])
  }

  /** The run behind an action. */
  function Actor(a: Action): nat {
    match a
    case Start(id, _, _, _) => id
    case Step(id, _, _) => id
    case Deliver(msg) => msg.run
    case Lose(msg) => msg.run
    case _ => 0
  }

  // ----- invariant -----

  predicate Names(sys: System, home: string -> Server, s: Server, m: string) {
    NodeOf(sys.store, m) != "" && home(NodeOf(sys.store, m)) == s
  }

  /** Run `id` still owns the room it made on `s`. */
  predicate Owns(sys: System, home: string -> Server, id: nat, s: Server, m: string) {
    && id in sys.runs && sys.runs[id].pc.Holding? && sys.runs[id].meeting == m
    && sys.runs[id].rest != [] && home(sys.runs[id].rest[0].node) == s
  }

  /** The server a meeting is routed to holds the room its creator handed over, exactly if the meeting
      was not routed blindly. */
  ghost predicate RouteHasRoom(sys: System, home: string -> Server) {
    forall m | NodeOf(sys.store, m) != "" :: HandedOver(sys.rooms, home(NodeOf(sys.store, m)), m) <==> m !in sys.blind
  }

  ghost predicate OwnersHoldRooms(sys: System, home: string -> Server) {
    forall id | id in sys.runs && sys.runs[id].pc.Holding? ::
      var r := sys.runs[id];
      r.rest != [] && (var k := (home(r.rest[0].node), r.meeting); k in sys.rooms && sys.rooms[k] == Room(id, false))
  }

  ghost predicate MailHoldsRooms(sys: System, home: string -> Server) {
    forall id, s, m | LateDestroy(id, s, m) in sys.mail ::
      (s, m) in sys.rooms && sys.rooms[(s, m)] == Room(id, false) && !Owns(sys, home, id, s, m)
  }

  ghost predicate Inv(sys: System, home: string -> Server) {
    RouteHasRoom(sys, home) && OwnersHoldRooms(sys, home) && MailHoldsRooms(sys, home)
  }

  /** A run that changes only its own state keeps the invariant if it stays on its room or lets go. */
  lemma MoveKeepsInv(sys: System, home: string -> Server, id: nat, r': RunState)
    requires Inv(sys, home) && id in sys.runs
    requires r'.pc.Holding? ==>
             sys.runs[id].pc.Holding? && r'.rest == sys.runs[id].rest && r'.meeting == sys.runs[id].meeting
    ensures Inv(sys.(runs := sys.runs[id := r']), home)
  {
    var sys' := sys.(runs := sys.runs[id := r']);
    forall i, s, m | LateDestroy(i, s, m) in sys'.mail ensures !Owns(sys', home, i, s, m) {
      assert !Owns(sys, home, i, s, m);
    }
  }

  /** The state after run `id` hands its room to the route. */
  function HandOver(sys: System, home: string -> Server, id: nat, r': RunState, store': Store): System
    requires id in sys.runs && sys.runs[id].rest != []
  {
    var r := sys.runs[id];
    sys.(store := store', rooms := Name(sys.rooms, home(r.rest[0].node), r.meeting), blind := sys.blind - {r.meeting},
         runs := sys.runs[id := r'])
  }

  lemma HandOverKeepsInv(sys: System, home: string -> Server, id: nat, r': RunState, store': Store)
    requires Inv(sys, home) && id in sys.runs && sys.runs[id].pc.Holding? && !r'.pc.Holding? && sys.runs[id].rest != []
    requires NodeOf(store', sys.runs[id].meeting) == sys.runs[id].rest[0].node
    requires forall k | k != sys.runs[id].meeting :: NodeOf(store', k) == NodeOf(sys.store, k)
    ensures Inv(HandOver(sys, home, id, r', store'), home)
  {
    var r := sys.runs[id];
    var key := (home(r.rest[0].node), r.meeting);
    assert sys.rooms[key] == Room(id, false);
    var sys' := HandOver(sys, home, id, r', store');
    assert sys'.rooms == sys.rooms[key := Room(id, true)];
    forall i, s, m | LateDestroy(i, s, m) in sys'.mail
      ensures (s, m) in sys'.rooms && sys'.rooms[(s, m)] == Room(i, false) && !Owns(sys', home, i, s, m)
    {
      assert !Owns(sys, home, i, s, m);
      assert Owns(sys, home, id, key.0, key.1);
    }
  }

  /** Destroying the owned room, now or through a late message. */
  lemma DestroyKeepsInv(sys: System, home: string -> Server, id: nat, r': RunState, late: bool)
    requires Inv(sys, home) && id in sys.runs && sys.runs[id].pc.Holding? && !r'.pc.Holding?
    ensures var r := sys.runs[id];
            var s := home(r.rest[0].node);
            Inv(if late then sys.(mail := sys.mail + {LateDestroy(id, s, r.meeting)}, runs := sys.runs[id := r'])
                else sys.(rooms := DestroyRoom(sys.rooms, s, r.meeting), runs := sys.runs[id := r']), home)
  {
    var r := sys.runs[id];
    var key := (home(r.rest[0].node), r.meeting);
    assert Owns(sys, home, id, key.0, key.1) && sys.rooms[key] == Room(id, false);
    var sys' := if late then sys.(mail := sys.mail + {LateDestroy(id, key.0, r.meeting)}, runs := sys.runs[id := r'])
                else sys.(rooms := DestroyRoom(sys.rooms, key.0, r.meeting), runs := sys.runs[id := r']);
    forall i, s, m | LateDestroy(i, s, m) in sys'.mail
      ensures (s, m) in sys'.rooms && sys'.rooms[(s, m)] == Room(i, false) && !Owns(sys', home, i, s, m)
    {
      assert LateDestroy(i, s, m) in sys.mail ==> !Owns(sys, home, i, s, m);
    }
  }

  lemma SwapKeepsInv(sys: System, home: string -> Server, id: nat, rpc: Rpc, fault: Fault)
    requires Inv(sys, home) && id in sys.runs && sys.runs[id].rest != []
    requires sys.runs[id].pc.Holding? && (sys.runs[id].pc.stage.Swapping? || sys.runs[id].pc.stage.Naming?)
    ensures Inv(StepHolding(sys, home, id, rpc, fault), home)
  {
    var sys' := StepHolding(sys, home, id, rpc, fault);
    if sys'.store != sys.store {
      HandOverKeepsInv(sys, home, id, sys'.runs[id], sys'.store);
    } else {
      MoveKeepsInv(sys, home, id, sys'.runs[id]);
    }
  }

  lemma HoldingKeepsInv(sys: System, home: string -> Server, id: nat, rpc: Rpc, fault: Fault)
    requires Inv(sys, home) && id in sys.runs && sys.runs[id].pc.Holding? && sys.runs[id].rest != []
    ensures Inv(StepHolding(sys, home, id, rpc, fault), home)
  {
    var r' := StepHolding(sys, home, id, rpc, fault).runs[id];
    match sys.runs[id].pc.stage
    case Swapping(_) => SwapKeepsInv(sys, home, id, rpc, fault);
    case Naming => SwapKeepsInv(sys, home, id, rpc, fault);
    case RollingBack(_) =>
      if rpc in {Answered, Unheard, InFlight} {
        DestroyKeepsInv(sys, home, id, r', rpc == InFlight);
      } else {
        MoveKeepsInv(sys, home, id, r');
      }
    case Adding => MoveKeepsInv(sys, home, id, r');
    case Inspecting => MoveKeepsInv(sys, home, id, r');
  }

  lemma BlindKeepsInv(sys: System, home: string -> Server, id: nat, fault: Fault)
    requires Inv(sys, home) && id in sys.runs && sys.runs[id].pc.Blind? && sys.runs[id].rest != []
    ensures Inv(StepBlind(sys, home, id, fault), home)
  {
    var r' := Goto(sys.runs[id], Ended);
    MoveKeepsInv(sys, home, id, r');
    var mid, sys' := sys.(runs := sys.runs[id := r']), StepBlind(sys, home, id, fault);
    forall i, s, m | LateDestroy(i, s, m) in sys'.mail ensures !Owns(sys', home, i, s, m) {
      assert !Owns(mid, home, i, s, m);
    }
  }

  lemma CreateKeepsInv(sys: System, home: string -> Server, id: nat, s: Server, rpc: Rpc)
    requires Inv(sys, home) && id in sys.runs && sys.runs[id].pc.Picking?
    requires sys.runs[id].rest != [] && s == home(sys.runs[id].rest[0].node)
    ensures Inv(TryCreate(sys, id, s, rpc), home)
  {
    var r, sys' := sys.runs[id], TryCreate(sys, id, s, rpc);
    forall i, s', m | LateDestroy(i, s', m) in sys'.mail ensures !Owns(sys', home, i, s', m) {
      assert LateDestroy(i, s', m) in sys.mail && !Owns(sys, home, i, s', m);
    }
  }

  lemma DeliverKeepsInv(sys: System, home: string -> Server, msg: Message)
    requires Inv(sys, home)
    ensures Inv(Do(sys, home, Deliver(msg)), home)
  {
    var sys' := Do(sys, home, Deliver(msg));
    forall i, s, m | LateDestroy(i, s, m) in sys'.mail
      ensures (s, m) in sys'.rooms && sys'.rooms[(s, m)] == Room(i, false) && !Owns(sys', home, i, s, m)
    {
      assert LateDestroy(i, s, m) in sys.mail && !Owns(sys, home, i, s, m);
    }
    if msg in sys.mail && msg.LateDestroy? {
      assert !Owns(sys, home, msg.run, msg.server, msg.meeting);
      forall i | i in sys.runs && sys.runs[i].pc.Holding?
        ensures (home(sys.runs[i].rest[0].node), sys.runs[i].meeting) != (msg.server, msg.meeting)
      {
        assert Owns(sys, home, i, home(sys.runs[i].rest[0].node), sys.runs[i].meeting);
      }
    }
  }

  /** A step that takes mail or routes away, or starts a run, endangers nothing. */
  lemma QuietKeepsInv(sys: System, home: string -> Server, a: Action)
    requires Inv(sys, home) && !a.Step? && !a.Deliver?
    ensures Inv(Do(sys, home, a), home)
  {
    var sys' := Do(sys, home, a);
    assert forall k :: NodeOf(sys'.store, k) == NodeOf(sys.store, k) || NodeOf(sys'.store, k) == "";
    forall i, s, k | LateDestroy(i, s, k) in sys'.mail ensures !Owns(sys', home, i, s, k) {
      assert !Owns(sys, home, i, s, k);
    }
  }

  lemma RunKeepsInv(sys: System, home: string -> Server, id: nat, rpc: Rpc, fault: Fault)
    requires Inv(sys, home) && id in sys.runs
    ensures Inv(StepRun(sys, home, id, rpc, fault), home)
  {
    var r, sys' := sys.runs[id], StepRun(sys, home, id, rpc, fault);
    if r.pc.Holding? {
      HoldingKeepsInv(sys, home, id, rpc, fault);
    } else if r.pc.Blind? && r.rest != [] {
      BlindKeepsInv(sys, home, id, fault);
    } else if r.pc.Picking? && r.rest != [] && sys' == TryCreate(sys, id, home(r.rest[0].node), rpc) {
      CreateKeepsInv(sys, home, id, home(r.rest[0].node), rpc);
    } else {
      MoveKeepsInv(sys, home, id, sys'.runs[id]);
      assert sys' == sys.(runs := sys.runs[id := sys'.runs[id]]);
    }
  }

  lemma StepKeepsInv(sys: System, home: string -> Server, a: Action)
    requires Inv(sys, home)
    ensures Inv(Do(sys, home, a), home)
  {
    var sys' := Do(sys, home, a);
    match a
    case Step(id, rpc, fault) =>
      if id in sys.runs {
        RunKeepsInv(sys, home, id, rpc, fault);
      }
    case Deliver(msg) => DeliverKeepsInv(sys, home, msg);
    case _ => QuietKeepsInv(sys, home, a);
  }

  lemma {:induction false} Reachable(home: string -> Server, acts: seq<Action>)
    ensures Inv(Run(home, acts), home)
  {
    if acts != [] {
      Reachable(home, acts[..|acts| - 1]);
      StepKeepsInv(Run(home, acts[..|acts| - 1]), home, acts[|acts| - 1]);
    }
  }

  // ----- safety -----

  /** In every reachable state the server of the node a meeting is routed to holds the room that was
      handed to the route, if and only if the meeting was not routed blindly. */
  lemma RoutedRoomExists(home: string -> Server, acts: seq<Action>, m: string)
    requires NodeOf(Run(home, acts).store, m) != ""
    ensures var sys := Run(home, acts);
            m !in sys.blind <==> HandedOver(sys.rooms, home(NodeOf(sys.store, m)), m)
  {
    Reachable(home, acts);
  }

  /** What removes a room is a rollback, or a late one, of the run that created it. */
  lemma RollbackRemovesOwn(sys: System, home: string -> Server, id: nat, rpc: Rpc, fault: Fault, s: Server, m: string)
    requires Inv(sys, home) && id in sys.runs
    requires (s, m) in sys.rooms && (s, m) !in StepRun(sys, home, id, rpc, fault).rooms
    ensures sys.rooms[(s, m)] == Room(id, false) && StepRun(sys, home, id, rpc, fault).store == sys.store
  {
    var r := sys.runs[id];
    assert r.pc.Holding? && r.pc.stage.RollingBack?;
    assert (s, m) == (home(r.rest[0].node), r.meeting);
  }

  lemma DeliveryRemovesOwn(sys: System, home: string -> Server, msg: Message, s: Server, m: string)
    requires Inv(sys, home)
    requires (s, m) in sys.rooms && (s, m) !in Do(sys, home, Deliver(msg)).rooms
    ensures sys.rooms[(s, m)] == Room(msg.run, false)
  {
    assert msg == LateDestroy(msg.run, s, m);
  }

  /** Whatever step makes a room disappear, in any interleaving: that room was created by the very run
      behind the step, which had not handed it to the route; and the route names it, before or after,
      only if the meeting was routed blindly. */
  lemma RollbackIsSafe(home: string -> Server, acts: seq<Action>, a: Action, s: Server, m: string)
    requires (s, m) in Run(home, acts).rooms && (s, m) !in Do(Run(home, acts), home, a).rooms
    ensures var sys, sys' := Run(home, acts), Do(Run(home, acts), home, a);
            && sys.rooms[(s, m)] == Room(Actor(a), false) && sys'.store == sys.store && sys'.blind == sys.blind
            && (m !in sys.blind ==> !Names(sys, home, s, m))
  {
    Reachable(home, acts);
    var sys := Run(home, acts);
    match a
    case Step(id, rpc, fault) => RollbackRemovesOwn(sys, home, id, rpc, fault, s, m);
    case Deliver(msg) => DeliveryRemovesOwn(sys, home, msg, s, m);
    case _ =>
  }

  /** A meeting is routed only by a run on its current candidate, which holds the room there or routes
      blindly. */
  lemma OnlyCandidatesRoute(sys: System, home: string -> Server, a: Action, m: string)
    requires Inv(sys, home)
    requires NodeOf(Do(sys, home, a).store, m) != NodeOf(sys.store, m) && NodeOf(Do(sys, home, a).store, m) != ""
    ensures a.Step? && a.id in sys.runs && (sys.runs[a.id].pc.Holding? || sys.runs[a.id].pc.Blind?)
    ensures sys.runs[a.id].meeting == m && sys.runs[a.id].rest != []
    ensures NodeOf(Do(sys, home, a).store, m) == sys.runs[a.id].rest[0].node
    ensures Do(sys, home, a).rooms ==
            if sys.runs[a.id].pc.Blind? then sys.rooms else Name(sys.rooms, home(sys.runs[a.id].rest[0].node), m)
  {
    assert a.Step? && a.id in sys.runs && (sys.runs[a.id].pc.Holding? || sys.runs[a.id].pc.Blind?);
    var r := sys.runs[a.id];
    assert r.rest != [];
    if r.pc.Blind? {
      assert Do(sys, home, a) == StepBlind(sys, home, a.id, a.fault);
    } else {
      assert Do(sys, home, a) == StepHolding(sys, home, a.id, a.rpc, a.fault);
    }
  }

  /** Whatever step routes a meeting to a node: a recovery, or an allocation with a client, lands on the
      room it created there itself; an allocation without a client lands on a room handed to the route
      exactly if one was there before. */
  lemma RoutingLandsOnRoom(home: string -> Server, acts: seq<Action>, a: Action, m: string)
    requires var sys, sys' := Run(home, acts), Do(Run(home, acts), home, a);
             NodeOf(sys'.store, m) != NodeOf(sys.store, m) && NodeOf(sys'.store, m) != ""
    ensures a.Step? && a.id in Run(home, acts).runs
    ensures var sys, sys' := Run(home, acts), Do(Run(home, acts), home, a);
            var k := (home(NodeOf(sys'.store, m)), m);
            if sys.runs[a.id].pc.Blind? then HandedOver(sys'.rooms, k.0, m) <==> HandedOver(sys.rooms, k.0, m)
            else && k in sys.rooms && sys.rooms[k] == Room(a.id, false)
                 && k in sys'.rooms && sys'.rooms[k] == Room(a.id, true)
  {
    Reachable(home, acts);
    OnlyCandidatesRoute(Run(home, acts), home, a, m);
  }

  // ----- what a disabled client does -----

  lemma RunSnoc(home: string -> Server, acts: seq<Action>, i: nat)
    requires i < |acts|
    ensures Run(home, acts[..i + 1]) == Do(Run(home, acts[..i]), home, acts[i])
  {
    assert acts[..i + 1][..i] == acts[..i];
  }

  lemma RunAppend(home: string -> Server, acts: seq<Action>, a: Action)
    ensures Run(home, acts + [a]) == Do(Run(home, acts), home, a)
  {
    assert (acts + [a])[..|acts|] == acts;
  }

  lemma AllocationPicks(home: string -> Server, acts: seq<Action>, id: nat, m: string, c: Candidate)
    requires id !in Run(home, acts).runs
    ensures var sys := Run(home, acts);
            Run(home, acts + [Start(id, m, true, [c])] + [Step(id, Answered, NoFault)]) ==
            sys.(runs := sys.runs[id := RunState(m, true, [c], Picking(""))])
  {
    RunAppend(home, acts, Start(id, m, true, [c]));
    RunAppend(home, acts + [Start(id, m, true, [c])], Step(id, Answered, NoFault));
  }

  lemma AllocationIsDisabled(home: string -> Server, acts: seq<Action>, id: nat, m: string, c: Candidate)
    requires var sys := Run(home, acts); id in sys.runs && sys.runs[id] == RunState(m, true, [c], Picking(""))
    ensures var sys := Run(home, acts);
            var sys' := Run(home, acts + [Step(id, Disabled, NoFault)] + [Step(id, Answered, NoFault)]);
            && NodeOf(sys'.store, m) == c.node && sys'.rooms == sys.rooms
            && (m in sys'.blind <==> !HandedOver(sys.rooms, home(c.node), m))
            && sys'.runs == sys.runs[id := RunState(m, true, [c], Ended)]
  {
    RunAppend(home, acts, Step(id, Disabled, NoFault));
    RunAppend(home, acts + [Step(id, Disabled, NoFault)], Step(id, Answered, NoFault));
    var mid := Run(home, acts + [Step(id, Disabled, NoFault)]);
    assert mid.runs[id] == RunState(m, true, [c], Blind(""));
  }

  /** The steps of an allocation that finds its client disabled. */
  function DisabledAllocation(id: nat, m: string, c: Candidate): seq<Action> {
    [Start(id, m, true, [c]), Step(id, Answered, NoFault), Step(id, Disabled, NoFault), Step(id, Answered, NoFault)]
  }

  /** From any state such an allocation routes its meeting and makes no room: it lands on a room handed to
      the route exactly if the server had one. */
  lemma DisabledAllocationMakesNoRoom(home: string -> Server, acts: seq<Action>, id: nat, m: string, c: Candidate)
    requires id !in Run(home, acts).runs
    ensures var sys, sys' := Run(home, acts), Run(home, acts + DisabledAllocation(id, m, c));
            && NodeOf(sys'.store, m) == c.node && sys'.rooms == sys.rooms
            && (m in sys'.blind <==> !HandedOver(sys.rooms, home(c.node), m))
            && sys'.runs == sys.runs[id := RunState(m, true, [c], Ended)]
  {
    AllocationPicks(home, acts, id, m, c);
    var picked := acts + [Start(id, m, true, [c])] + [Step(id, Answered, NoFault)];
    AllocationIsDisabled(home, picked, id, m, c);
    assert acts + DisabledAllocation(id, m, c) ==
           picked + [Step(id, Disabled, NoFault)] + [Step(id, Answered, NoFault)];
  }

  /** So there is a reachable state in which the routed server holds no room. */
  lemma DisabledAllocationHasNoRoom(home: string -> Server)
    ensures var sys := Run(home, DisabledAllocation(0, "m", Candidate("n", "a")));
            NodeOf(sys.store, "m") == "n" && sys.rooms == map[]
  {
    var c := Candidate("n", "a");
    DisabledAllocationMakesNoRoom(home, [], 0, "m", c);
    assert [] + DisabledAllocation(0, "m", c) == DisabledAllocation(0, "m", c);
  }

  const ON_N := Candidate("n", "a")

  /** A recovery up to where it holds its room on n, and one failed AddPublisher. */
  const RECOVERY := [Touch("m"), Start(1, "m", false, [ON_N]), Step(1, Answered, NoFault), Step(1, Answered, NoFault),
                     Step(1, Dropped, NoFault)]

  lemma RecoveryPicks(home: string -> Server)
    ensures Run(home, RECOVERY[..3]) ==
            INITIAL.(store := ApplyTouch(EMPTY, "m"), runs := map[1 := RunState("m", false, [ON_N], Picking(""))])
  {
    var acts := RECOVERY;
    assert acts[..0] == [];
    RunSnoc(home, acts, 0);
    RunSnoc(home, acts, 1);
    assert Run(home, acts[..2]).runs == map[1 := RunState("m", false, [ON_N], Begin)];
    RunSnoc(home, acts, 2);
  }

  lemma RecoveryAboutToRollBack(home: string -> Server)
    ensures var sys := Run(home, RECOVERY);
            && sys.rooms == map[(home("n"), "m") := Room(1, false)]
            && sys.runs == map[1 := RunState("m", false, [ON_N], Holding("", RollingBack(false)))]
  {
    var acts := RECOVERY;
    RecoveryPicks(home);
    assert acts[..5] == acts;
    RunSnoc(home, acts, 3);
    assert Run(home, acts[..4]).runs == map[1 := RunState("m", false, [ON_N], Holding("", Adding))];
    RunSnoc(home, acts, 4);
  }

  /** And a rollback can remove the room that a blind route names, even with one server for each node: the
      allocation names n while a recovery of the same meeting is about to give n up. */
  lemma RollbackCanHitBlindRoute(home: string -> Server)
    ensures var sys := Run(home, RECOVERY + DisabledAllocation(0, "m", ON_N));
            && (home("n"), "m") in sys.rooms && Names(sys, home, home("n"), "m")
            && (home("n"), "m") !in Do(sys, home, Step(1, Answered, NoFault)).rooms
  {
    RecoveryAboutToRollBack(home);
    DisabledAllocationMakesNoRoom(home, RECOVERY, 0, "m", ON_N);
  }
}
