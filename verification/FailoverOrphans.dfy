/** Which outcomes of a recovery or allocation leave a room behind that nobody will give up or hand over. */
module FailoverOrphans {
  import opened RouteStore
  import opened Failover

  /** A room its creator has neither handed over nor still holds, and no late request is about to remove. */
  predicate Orphan(sys: System, home: string -> Server, s: Server, m: string) {
    && (s, m) in sys.rooms && !sys.rooms[(s, m)].named
    && !Owns(sys, home, sys.rooms[(s, m)].creator, s, m)
    && LateDestroy(sys.rooms[(s, m)].creator, s, m) !in sys.mail
  }

  /** Run `id` is about to create its room on `s`, which has none. */
  predicate Creates(sys: System, home: string -> Server, id: nat, s: Server, m: string) {
    && id in sys.runs && sys.runs[id].pc.Picking? && sys.runs[id].meeting == m && m != "" && (s, m) !in sys.rooms
    && sys.runs[id].rest != [] && home(sys.runs[id].rest[0].node) == s
    && var r, c := sys.runs[id], sys.runs[id].rest[0];
       r.creating || !(c.node == "" || c.address == "" || (r.pc.expected != "" && c.node == r.pc.expected))
  }

  /** How a run that holds its room lets go of it: the client is disabled when it adds the publisher, the
      switch or the upsert fails without taking effect, the route names no other node after a lost switch, or
      the rollback never reaches the server. */
  predicate LetsGo(sys: System, home: string -> Server, id: nat, rpc: Rpc, fault: Fault)
    requires id in sys.runs && sys.runs[id].pc.Holding? && sys.runs[id].rest != []
  {
    var r := sys.runs[id];
    var m, c := r.meeting, r.rest[0];
    match r.pc.stage
    case Adding => rpc == Disabled
    case Swapping(pc) =>
      SwitchStep(sys.store, m, r.pc.expected, c.node, c.address, pc, fault) == (sys.store, Failed)
    case Inspecting => !(fault == NoFault && NodeOf(sys.store, m) != "" && NodeOf(sys.store, m) != c.node)
    case RollingBack(_) => rpc == Dropped || rpc == Disabled
    case Naming => fault == NotApplied
  }

  /** The outcomes that make an orphan of (s, m): a create whose reply is lost or that arrives late, a run that
      lets go, a late rollback that is lost. */
  predicate Abandons(sys: System, home: string -> Server, a: Action, s: Server, m: string) {
    match a
    case Step(id, rpc, fault) =>
      || (Creates(sys, home, id, s, m) && rpc == Unheard)
      || (Owns(sys, home, id, s, m) && LetsGo(sys, home, id, rpc, fault))
    case Deliver(msg) =>
      msg in sys.mail && msg.LateCreate? && msg.server == s && msg.meeting == m && m != "" && (s, m) !in sys.rooms
    case Lose(msg) => msg in sys.mail && msg.LateDestroy? && msg.server == s && msg.meeting == m
    case _ => false
  }

  lemma CreateOrphanIff(sys: System, home: string -> Server, id: nat, rpc: Rpc, s: Server, m: string)
    requires Inv(sys, home) && id in sys.runs && sys.runs[id].pc.Picking? && sys.runs[id].rest != []
    requires !Orphan(sys, home, s, m)
    ensures var k := home(sys.runs[id].rest[0].node);
            Orphan(TryCreate(sys, id, k, rpc), home, s, m) <==>
            k == s && sys.runs[id].meeting == m && m != "" && (s, m) !in sys.rooms && rpc == Unheard
  {
  }

  predicate OwnKey(sys: System, home: string -> Server, id: nat, s: Server, m: string)
    requires id in sys.runs && sys.runs[id].rest != []
  {
    (s, m) == (home(sys.runs[id].rest[0].node), sys.runs[id].meeting)
  }

  /** A run that holds a room touches no room but that one. */
  lemma HoldingElsewhere(sys: System, home: string -> Server, id: nat, rpc: Rpc, fault: Fault, s: Server, m: string)
    requires Inv(sys, home) && id in sys.runs && sys.runs[id].pc.Holding? && sys.runs[id].rest != []
    requires !OwnKey(sys, home, id, s, m)
    ensures var sys' := StepHolding(sys, home, id, rpc, fault);
            && ((s, m) in sys'.rooms <==> (s, m) in sys.rooms)
            && ((s, m) in sys.rooms ==> sys'.rooms[(s, m)] == sys.rooms[(s, m)])
            && (forall i :: LateDestroy(i, s, m) in sys'.mail <==> LateDestroy(i, s, m) in sys.mail)
  {
  }

  lemma OwnersElsewhere(sys: System, home: string -> Server, id: nat, rpc: Rpc, fault: Fault, i: nat, s: Server,
                        m: string)
    requires Inv(sys, home) && id in sys.runs && sys.runs[id].pc.Holding? && sys.runs[id].rest != []
    requires !OwnKey(sys, home, id, s, m)
    ensures Owns(StepHolding(sys, home, id, rpc, fault), home, i, s, m) <==> Owns(sys, home, i, s, m)
  {
  }

  lemma SameElsewhere(sys: System, home: string -> Server, id: nat, rpc: Rpc, fault: Fault, s: Server, m: string)
    requires Inv(sys, home) && id in sys.runs && sys.runs[id].pc.Holding? && sys.runs[id].rest != []
    requires !OwnKey(sys, home, id, s, m)
    ensures Orphan(StepHolding(sys, home, id, rpc, fault), home, s, m) <==> Orphan(sys, home, s, m)
  {
    HoldingElsewhere(sys, home, id, rpc, fault, s, m);
    if (s, m) in sys.rooms {
      OwnersElsewhere(sys, home, id, rpc, fault, sys.rooms[(s, m)].creator, s, m);
    }
  }

  /** What becomes of the room a run holds. */
  lemma OwnRoomAfter(sys: System, home: string -> Server, id: nat, rpc: Rpc, fault: Fault)
    requires Inv(sys, home) && id in sys.runs && sys.runs[id].pc.Holding? && sys.runs[id].rest != []
    ensures var r := sys.runs[id]; var k := (home(r.rest[0].node), r.meeting);
            var sys' := StepHolding(sys, home, id, rpc, fault);
            LetsGo(sys, home, id, rpc, fault) <==>
            && k in sys'.rooms && !sys'.rooms[k].named && !Owns(sys', home, id, k.0, k.1)
            && LateDestroy(id, k.0, k.1) !in sys'.mail
  {
    var r := sys.runs[id];
    var k := (home(r.rest[0].node), r.meeting);
    assert Owns(sys, home, id, k.0, k.1) && sys.rooms[k] == Room(id, false);
    assert LateDestroy(id, k.0, k.1) !in sys.mail;
    match r.pc.stage
    case Adding =>
    case Inspecting =>
    case RollingBack(_) =>
    case Naming =>
    case Swapping(_) => OwnRoomAfterSwap(sys, home, id, rpc, fault);
  }

  lemma OwnRoomAfterSwap(sys: System, home: string -> Server, id: nat, rpc: Rpc, fault: Fault)
    requires Inv(sys, home) && id in sys.runs && sys.runs[id].pc.Holding? && sys.runs[id].rest != []
    requires sys.runs[id].pc.stage.Swapping?
    ensures var r := sys.runs[id]; var k := (home(r.rest[0].node), r.meeting);
            var sys' := StepHolding(sys, home, id, rpc, fault);
            && k in sys'.rooms && sys'.mail == sys.mail
            && (LetsGo(sys, home, id, rpc, fault) <==> !sys'.rooms[k].named && !Owns(sys', home, id, k.0, k.1))
  {
    var r := sys.runs[id];
    assert sys.rooms[(home(r.rest[0].node), r.meeting)] == Room(id, false);
  }

  lemma OwnRoomKeepsCreator(sys: System, home: string -> Server, id: nat, rpc: Rpc, fault: Fault)
    requires Inv(sys, home) && id in sys.runs && sys.runs[id].pc.Holding? && sys.runs[id].rest != []
    ensures var r := sys.runs[id]; var k := (home(r.rest[0].node), r.meeting);
            var sys' := StepHolding(sys, home, id, rpc, fault);
            k in sys.rooms && sys.rooms[k].creator == id && (k in sys'.rooms ==> sys'.rooms[k].creator == id)
  {
  }

  lemma HoldingOrphanIff(sys: System, home: string -> Server, id: nat, rpc: Rpc, fault: Fault, s: Server, m: string)
    requires Inv(sys, home) && id in sys.runs && sys.runs[id].pc.Holding? && sys.runs[id].rest != []
    requires !Orphan(sys, home, s, m)
    ensures Orphan(StepHolding(sys, home, id, rpc, fault), home, s, m) <==>
            Owns(sys, home, id, s, m) && LetsGo(sys, home, id, rpc, fault)
  {
    if OwnKey(sys, home, id, s, m) {
      OwnRoomAfter(sys, home, id, rpc, fault);
      OwnRoomKeepsCreator(sys, home, id, rpc, fault);
    } else {
      SameElsewhere(sys, home, id, rpc, fault, s, m);
    }
  }

  lemma StepOrphanIff(sys: System, home: string -> Server, id: nat, rpc: Rpc, fault: Fault, s: Server, m: string)
    requires Inv(sys, home) && id in sys.runs && !Orphan(sys, home, s, m)
    ensures Orphan(StepRun(sys, home, id, rpc, fault), home, s, m) <==> Abandons(sys, home, Step(id, rpc, fault), s, m)
  {
    var r := sys.runs[id];
    if r.pc.Holding? {
      HoldingOrphanIff(sys, home, id, rpc, fault, s, m);
    } else if r.pc.Picking? && r.rest != [] {
      CreateOrphanIff(sys, home, id, rpc, s, m);
    }
  }

  /** A step makes an orphan of a room if and only if it is one of those outcomes. */
  lemma OrphanIff(home: string -> Server, acts: seq<Action>, a: Action, s: Server, m: string)
    requires !Orphan(Run(home, acts), home, s, m)
    ensures Orphan(Do(Run(home, acts), home, a), home, s, m) <==> Abandons(Run(home, acts), home, a, s, m)
  {
    Reachable(home, acts);
    ActionOrphanIff(Run(home, acts), home, a, s, m);
  }

  lemma ActionOrphanIff(sys: System, home: string -> Server, a: Action, s: Server, m: string)
    requires Inv(sys, home) && !Orphan(sys, home, s, m)
    ensures Orphan(Do(sys, home, a), home, s, m) <==> Abandons(sys, home, a, s, m)
  {
    if a.Step? && a.id in sys.runs {
      StepOrphanIff(sys, home, a.id, a.rpc, a.fault, s, m);
    }
  }

  /** And then it stays: no later step of any run hands it over or removes it. */
  lemma OrphanStays(home: string -> Server, acts: seq<Action>, a: Action, s: Server, m: string)
    requires Orphan(Run(home, acts), home, s, m)
    ensures Orphan(Do(Run(home, acts), home, a), home, s, m)
  {
    Reachable(home, acts);
    ActionKeepsOrphan(Run(home, acts), home, a, s, m);
  }

  lemma ActionKeepsOrphan(sys: System, home: string -> Server, a: Action, s: Server, m: string)
    requires Inv(sys, home) && Orphan(sys, home, s, m)
    ensures Orphan(Do(sys, home, a), home, s, m)
  {
    if a.Step? && a.id in sys.runs && sys.runs[a.id].pc.Holding? {
      HoldingKeepsOrphan(sys, home, a.id, a.rpc, a.fault, s, m);
    }
  }

  lemma HoldingKeepsOrphan(sys: System, home: string -> Server, id: nat, rpc: Rpc, fault: Fault, s: Server, m: string)
    requires Inv(sys, home) && id in sys.runs && sys.runs[id].pc.Holding? && Orphan(sys, home, s, m)
    ensures sys.runs[id].rest != [] && Orphan(StepHolding(sys, home, id, rpc, fault), home, s, m)
  {
    OwnRoomKeepsCreator(sys, home, id, rpc, fault);
    assert Owns(sys, home, id, home(sys.runs[id].rest[0].node), sys.runs[id].meeting);
    SameElsewhere(sys, home, id, rpc, fault, s, m);
  }
}
