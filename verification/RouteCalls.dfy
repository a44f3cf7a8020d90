/** Concurrent calls on the room table. Each call is a small state machine over its Redis commands, so
    any number of calls interleave in any order; the node load counters are what is at stake. */
module RouteCalls {
  import opened RouteStore

  datatype Request = Upsert(meeting: string, node: string, addr: string)
                   | Delete(meeting: string)
                   | Switch(meeting: string, expected: string, next: string, addr: string)

  datatype Call = Fresh(req: Request)
                | Read(req: Request, prev: string)        // upsert or delete, node already read
                | Switching(req: Request, pc: SwitchPc)
                | Done(req: Request, switched: bool)
                | Broken(req: Request)                     // returned an error

  datatype System = System(store: Store, calls: map<nat, Call>)

  datatype Action = Start(id: nat, req: Request) | Step(id: nat, fault: Fault) | Touch(meeting: string)

  const INITIAL := System(EMPTY, map[])

  function StepCall(s: Store, c: Call, fault: Fault): (Store, Call) {
    match c
    case Fresh(Switch(m, e, n, a)) =>
      if m == "" then (s, Done(c.req, true)) else (s, Switching(c.req, Watch(0)))
    case Fresh(req) =>
      if req.meeting == "" then (s, Read(req, ""))
      else if fault != NoFault then (s, Broken(req)) else (s, Read(req, NodeOf(s, req.meeting)))
    case Read(req, prev) =>
      if fault == NotApplied || req.Switch? then (s, Broken(req))
      else
        (if req.Upsert? then ApplyUpsert(s, req.meeting, prev, req.node, req.addr)
         else ApplyDelete(s, req.meeting, prev),
         if fault == ReplyLost then Broken(req) else Done(req, false))
    case Switching(req, pc) =>
      if !req.Switch? then (s, Broken(req))
      else
        var (s', r) := SwitchStep(s, req.meeting, req.expected, req.next, req.addr, pc, fault);
        (s', match r
             case Continue(pc') => Switching(req, pc')
             case Returned(b) => Done(req, b)
             case Failed => Broken(req))
    case _ => (s, c)
  }

  function Do(sys: System, a: Action): System {
    match a
    case Start(id, req) =>
      if id in sys.calls then sys else sys.(calls := sys.calls[id := Fresh(req)])
    case Step(id, fault) =>
      if id !in sys.calls then sys
      else
        var (s', c') := StepCall(sys.store, sys.calls[id], fault);
        System(s', sys.calls[id := c'])
    case Touch(m) => sys.(store := ApplyTouch(sys.store, m))
  }

  function Run(sys: System, acts: seq<Action>): System {
    if acts == [] then sys else Do(Run(sys, acts[..|acts| - 1]), acts[|acts| - 1])
  }

  // ----- invariant: an unchanged version means an unchanged node -----

  /** What a call that has read may rely on. */
  ghost predicate CallOk(s: Store, c: Call) {
    c.Switching? ==>
      && c.req.Switch? && c.req.meeting != ""
      && (c.pc.Exec? ==>
            && c.pc.seen <= Version(s, c.req.meeting)
            && (c.req.expected != "" ==> c.pc.cur == c.req.expected)
            && (c.pc.seen == Version(s, c.req.meeting) ==> c.pc.cur == NodeOf(s, c.req.meeting)))
  }

  ghost predicate Inv(sys: System) {
    forall id | id in sys.calls :: CallOk(sys.store, sys.calls[id])
  }

  /** Versions only grow, and a meeting changes node only together with its version. */
  ghost predicate Tracks(s: Store, s': Store) {
    forall m :: Version(s, m) <= Version(s', m) && (Version(s, m) == Version(s', m) ==> NodeOf(s, m) == NodeOf(s', m))
  }

  lemma StepTracks(sys: System, a: Action)
    ensures Tracks(sys.store, Do(sys, a).store)
  {
  }

  lemma StepCallOk(s: Store, c: Call, fault: Fault)
    requires CallOk(s, c)
    ensures CallOk(StepCall(s, c, fault).0, StepCall(s, c, fault).1)
  {
  }

  lemma InvPreserved(sys: System, a: Action)
    requires Inv(sys)
    ensures Inv(Do(sys, a))
  {
    StepTracks(sys, a);
    var sys' := Do(sys, a);
    forall id | id in sys'.calls ensures CallOk(sys'.store, sys'.calls[id]) {
      if a.Step? && id == a.id {
        StepCallOk(sys.store, sys.calls[id], a.fault);
      }
    }
  }

  lemma {:induction false} Reachable(acts: seq<Action>)
    ensures Inv(Run(INITIAL, acts))
  {
    if acts != [] {
      Reachable(acts[..|acts| - 1]);
      InvPreserved(Run(INITIAL, acts[..|acts| - 1]), acts[|acts| - 1]);
    }
  }

  // ----- conservation of the load counters -----

  ghost predicate Conserved(s: Store) {
    forall n | n != "" :: LoadOf(s, n) == Assigned(s, n)
  }

  /** How far the counter of `n` is ahead of the truth. */
  function Drift(s: Store, n: string): int {
    LoadOf(s, n) - Assigned(s, n)
  }

  function Is(a: string, n: string): int {
    if a == n then 1 else 0
  }

  function On(rooms: map<string, string>, n: string): set<string> {
    set m | m in rooms && rooms[m] == n
  }

  lemma SetMembers(rooms: map<string, string>, m: string, node: string, n: string)
    ensures On(rooms[m := node], n) == if node == n then On(rooms, n) + {m} else On(rooms, n) - {m}
  {
  }

  lemma AssignedAfterSet(s: Store, m: string, node: string, n: string)
    requires n != ""
    ensures Assigned(s.(rooms := s.rooms[m := node]), n) == Assigned(s, n) + Is(node, n) - Is(NodeOf(s, m), n)
  {
    assert m in On(s.rooms, n) <==> NodeOf(s, m) == n;
    SetMembers(s.rooms, m, node, n);
  }

  lemma AssignedAfterDelete(s: Store, m: string, n: string)
    requires n != ""
    ensures Assigned(s.(rooms := s.rooms - {m}), n) == Assigned(s, n) - Is(NodeOf(s, m), n)
  {
    assert m in On(s.rooms, n) <==> NodeOf(s, m) == n;
    assert On(s.rooms - {m}, n) == On(s.rooms, n) - {m};
  }

  lemma MovedLoad(s: Store, from: string, to: string, n: string)
    requires n != ""
    ensures LoadOf(s.(load := MoveLoad(s.load, from, to)), n) == LoadOf(s, n) + Is(to, n) - Is(from, n)
  {
  }

  lemma UpsertDrift(s: Store, m: string, prev: string, node: string, addr: string, n: string)
    requires n != ""
    ensures Drift(ApplyUpsert(s, m, prev, node, addr), n) == Drift(s, n) + Is(NodeOf(s, m), n) - Is(prev, n)
  {
    AssignedAfterSet(s, m, node, n);
    MovedLoad(s, prev, node, n);
    assert ApplyUpsert(s, m, prev, node, addr).rooms == s.rooms[m := node];
  }

  lemma SwitchDrift(s: Store, m: string, cur: string, next: string, addr: string, n: string)
    requires n != ""
    ensures Drift(ApplySwitch(s, m, cur, next, addr), n) == Drift(s, n) + Is(NodeOf(s, m), n) - Is(cur, n)
  {
    AssignedAfterSet(s, m, next, n);
    MovedLoad(s, cur, next, n);
    assert ApplySwitch(s, m, cur, next, addr).rooms == s.rooms[m := next];
  }

  lemma DeleteDrift(s: Store, m: string, prev: string, n: string)
    requires n != ""
    ensures Drift(ApplyDelete(s, m, prev), n) == Drift(s, n) + Is(NodeOf(s, m), n) - Is(prev, n)
  {
    AssignedAfterDelete(s, m, n);
    assert ApplyDelete(s, m, prev).rooms == s.rooms - {m};
  }

  lemma TouchDrift(s: Store, m: string, n: string)
    requires n != ""
    ensures Drift(ApplyTouch(s, m), n) == Drift(s, n)
  {
    AssignedAfterSet(s, m, NodeOf(s, m), n);
  }

  /** The node a step believes the meeting is on when it commits, if it commits. */
  datatype Commit = NoCommit | Commit(meeting: string, believed: string)

  function CommitOf(sys: System, a: Action): Commit {
    if !a.Step? || a.id !in sys.calls then NoCommit
    else match sys.calls[a.id]
         case Read(req, prev) =>
           if a.fault == NotApplied || req.Switch? then NoCommit else Commit(req.meeting, prev)
         case Switching(req, Exec(_, cur, seen)) =>
           if a.fault == NotApplied || !req.Switch? || Version(sys.store, req.meeting) != seen then NoCommit
           else Commit(req.meeting, cur)
         case _ => NoCommit
  }

  /** A commit is fresh when the node it read is still the meeting's node. */
  predicate FreshCommit(sys: System, a: Action) {
    var c := CommitOf(sys, a);
    c.Commit? ==> c.believed == NodeOf(sys.store, c.meeting)
  }

  /** Every commit moves the drift by exactly the difference between the meeting's node and the node
      the call believed; every other step leaves it alone. */
  lemma DriftLaw(sys: System, a: Action, n: string)
    requires n != ""
    ensures var c := CommitOf(sys, a);
            Drift(Do(sys, a).store, n) - Drift(sys.store, n) ==
            if c.Commit? then Is(NodeOf(sys.store, c.meeting), n) - Is(c.believed, n) else 0
  {
    var s, c := sys.store, CommitOf(sys, a);
    if c.Commit? {
      match sys.calls[a.id].req
      case Upsert(m, node, addr) => UpsertDrift(s, m, c.believed, node, addr, n);
      case Delete(m) => DeleteDrift(s, m, c.believed, n);
      case Switch(m, _, next, addr) => SwitchDrift(s, m, c.believed, next, addr, n);
    } else if a.Touch? {
      TouchDrift(s, a.meeting, n);
    } else {
      assert Do(sys, a).store == s;
    }
  }

  /** From exact counters a step keeps them exact if and only if its commit, if any, is fresh. */
  lemma ConservedIffFresh(sys: System, a: Action)
    requires Conserved(sys.store)
    ensures Conserved(Do(sys, a).store) <==> FreshCommit(sys, a)
  {
    forall n | n != "" ensures Drift(sys.store, n) == 0 { }
    var s', c := Do(sys, a).store, CommitOf(sys, a);
    forall n | n != ""
      ensures Drift(s', n) == if c.Commit? then Is(NodeOf(sys.store, c.meeting), n) - Is(c.believed, n) else 0
    {
      DriftLaw(sys, a, n);
    }
    if c.Commit? && c.believed != NodeOf(sys.store, c.meeting) {
      var n := if c.believed != "" then c.believed else NodeOf(sys.store, c.meeting);
      assert Drift(s', n) != 0;
      assert LoadOf(s', n) != Assigned(s', n);
    }
    if FreshCommit(sys, a) {
      forall n | n != "" ensures LoadOf(s', n) == Assigned(s', n) { assert Drift(s', n) == 0; }
    }
  }

  /** A route switch always commits fresh: WATCH guards what the call read. */
  lemma SwitchCommitsFresh(sys: System, a: Action)
    requires Inv(sys) && a.Step? && a.id in sys.calls && sys.calls[a.id].Switching?
    ensures FreshCommit(sys, a)
  {
  }

  /** Upserts and deletes are the only stale committers. */
  ghost predicate FreshRun(acts: seq<Action>) {
    forall i | 0 <= i < |acts| ::
      var sys := Run(INITIAL, acts[..i]);
      (acts[i].Step? && acts[i].id in sys.calls && sys.calls[acts[i].id].Read?) ==> FreshCommit(sys, acts[i])
  }

  /** Over every interleaving in which no upsert or delete commits a stale read, the counters are
      exact in every reachable state, however the switches interleave, retry, conflict or lose replies. */
  lemma {:induction false} LoadConserved(acts: seq<Action>)
    requires FreshRun(acts)
    ensures Conserved(Run(INITIAL, acts).store)
  {
    if acts == [] {
      forall n | n != "" ensures LoadOf(EMPTY, n) == Assigned(EMPTY, n) {
        var none: map<string, string> := EMPTY.rooms;
        assert none.Keys == {};
      }
    } else {
      var front, a := acts[..|acts| - 1], acts[|acts| - 1];
      forall i | 0 <= i < |front| ensures front[..i] == acts[..i] { }
      LoadConserved(front);
      Reachable(front);
      var sys := Run(INITIAL, front);
      if a.Step? && a.id in sys.calls && sys.calls[a.id].Switching? {
        SwitchCommitsFresh(sys, a);
      }
      ConservedIffFresh(sys, a);
    }
  }

  /** An upsert or delete whose commit directly follows its read commits fresh. */
  lemma AtomicPairIsFresh(sys: System, id: nat, fault: Fault)
    requires id in sys.calls && sys.calls[id].Fresh? && !sys.calls[id].req.Switch? && sys.calls[id].req.meeting != ""
    ensures FreshCommit(Do(sys, Step(id, NoFault)), Step(id, fault))
  {
  }

  /** A schedule in which upserts and deletes are atomic: each names a meeting, and each commits in the
      step right after its own read. */
  ghost predicate AtomicRun(acts: seq<Action>) {
    forall i | 0 <= i < |acts| && Commits(Run(INITIAL, acts[..i]), acts[i]) :: ReadsJustBefore(acts, i)
  }

  /** An upsert or delete that has read is about to commit. */
  predicate Commits(sys: System, a: Action) {
    a.Step? && a.id in sys.calls && sys.calls[a.id].Read?
  }

  predicate ReadsJustBefore(acts: seq<Action>, i: nat)
    requires i < |acts|
  {
    && i > 0 && acts[i].Step? && acts[i - 1] == Step(acts[i].id, NoFault)
    && var sys := Run(INITIAL, acts[..i - 1]);
       acts[i].id in sys.calls && sys.calls[acts[i].id].Fresh? && sys.calls[acts[i].id].req.meeting != ""
  }

  /** With atomic upserts and deletes the counters are exact in every reachable state, however the
      switches' reads, retries and commits interleave with them. */
  lemma AtomicCallsConserve(acts: seq<Action>)
    requires AtomicRun(acts)
    ensures Conserved(Run(INITIAL, acts).store)
  {
    forall i | 0 <= i < |acts| && Commits(Run(INITIAL, acts[..i]), acts[i])
      ensures FreshCommit(Run(INITIAL, acts[..i]), acts[i])
    {
      CommitAfterReadIsFresh(acts, i);
    }
    LoadConserved(acts);
  }

  lemma CommitAfterReadIsFresh(acts: seq<Action>, i: nat)
    requires i < |acts| && Commits(Run(INITIAL, acts[..i]), acts[i]) && ReadsJustBefore(acts, i)
    ensures FreshCommit(Run(INITIAL, acts[..i]), acts[i])
  {
    RunSnoc(acts, i - 1);
    AtomicPairIsFresh(Run(INITIAL, acts[..i - 1]), acts[i].id, acts[i].fault);
  }

  const NAMELESS := [Start(0, Upsert("", "a", "")), Step(0, NoFault), Step(0, NoFault),
                     Start(1, Upsert("", "b", "")), Step(1, NoFault), Step(1, NoFault)]

  /** An upsert without a meeting never reads its node, so two of them drift even one after the other. */
  lemma NamelessUpsertsDrift()
    ensures LoadOf(Run(INITIAL, NAMELESS).store, "a") == 1 && Assigned(Run(INITIAL, NAMELESS).store, "a") == 0
  {
    NamelessSecondReads();
    RunSnoc(NAMELESS, 5);
    var first := ApplyUpsert(EMPTY, "", "", "a", "");
    assert NAMELESS[..6] == NAMELESS;
    var both := ApplyUpsert(first, "", "", "b", "");
    assert (set m | m in both.rooms && both.rooms[m] == "a") == {};
  }

  lemma NamelessSecondReads()
    ensures Run(INITIAL, NAMELESS[..5]) ==
            System(ApplyUpsert(EMPTY, "", "", "a", ""),
                   map[0 := Done(Upsert("", "a", ""), false), 1 := Read(Upsert("", "b", ""), "")])
  {
    NamelessFirst();
    RunSnoc(NAMELESS, 3);
    RunSnoc(NAMELESS, 4);
  }

  lemma NamelessFirst()
    ensures Run(INITIAL, NAMELESS[..3]) ==
            System(ApplyUpsert(EMPTY, "", "", "a", ""), map[0 := Done(Upsert("", "a", ""), false)])
  {
    assert NAMELESS[..0] == [];
    RunSnoc(NAMELESS, 0);
    RunSnoc(NAMELESS, 1);
    assert Run(INITIAL, NAMELESS[..2]) == System(EMPTY, map[0 := Read(Upsert("", "a", ""), "")]);
    RunSnoc(NAMELESS, 2);
  }

  const R0 := Upsert("m", "a", "")
  const R1 := Upsert("m", "b", "")
  const BOTH_READ := System(EMPTY, map[0 := Read(R0, ""), 1 := Read(R1, "")])
  const RACE := [Start(0, R0), Start(1, R1), Step(0, NoFault), Step(1, NoFault), Step(0, NoFault), Step(1, NoFault)]

  lemma RaceToBothRead()
    ensures Run(INITIAL, RACE[..4]) == BOTH_READ
  {
    assert RACE[..0] == [];
    RunSnoc(RACE, 0);
    RunSnoc(RACE, 1);
    assert Run(INITIAL, RACE[..2]) == System(EMPTY, map[0 := Fresh(R0), 1 := Fresh(R1)]);
    RunSnoc(RACE, 2);
    RunSnoc(RACE, 3);
  }

  /** Two upserts of one meeting that both read before either commits lose a count for good:
      upsert and delete read outside their transaction. */
  lemma StaleUpsertsDrift()
    ensures LoadOf(Run(INITIAL, RACE).store, "a") == 1 && Assigned(Run(INITIAL, RACE).store, "a") == 0
  {
    RaceToBothRead();
    RunSnoc(RACE, 4);
    RunSnoc(RACE, 5);
    assert RACE[..6] == RACE;
    var first := ApplyUpsert(EMPTY, "m", "", "a", "");
    assert Run(INITIAL, RACE[..5]) == System(first, map[0 := Done(R0, false), 1 := Read(R1, "")]);
    var both := ApplyUpsert(first, "m", "", "b", "");
    assert (set m | m in both.rooms && both.rooms[m] == "a") == {};
  }

  lemma RunSnoc(acts: seq<Action>, i: nat)
    requires i < |acts|
    ensures Run(INITIAL, acts[..i + 1]) == Do(Run(INITIAL, acts[..i]), acts[i])
  {
    assert acts[..i + 1][..i] == acts[..i];
  }

  // ----- compare and swap -----

  /** The step on which call `id` returns true. */
  predicate Wins(sys: System, a: Action, m: string, expected: string, next: string) {
    && a.Step? && a.id in sys.calls && sys.calls[a.id].Switching?
    && sys.calls[a.id].req.Switch?
    && sys.calls[a.id].req.meeting == m && sys.calls[a.id].req.expected == expected && sys.calls[a.id].req.next == next
    && Do(sys, a).calls[a.id] == Done(sys.calls[a.id].req, true)
  }

  /** A call that returns true moved its meeting from the expected node to the next one in that one
      step, set the address with it, moved one unit of load, and touched nothing else. */
  lemma WinIsAtomic(acts: seq<Action>, a: Action, m: string, expected: string, next: string)
    requires var sys := Run(INITIAL, acts); Wins(sys, a, m, expected, next)
    ensures var s, s' := Run(INITIAL, acts).store, Do(Run(INITIAL, acts), a).store;
            && m != "" && (expected != "" ==> NodeOf(s, m) == expected)
            && NodeOf(s', m) == next
            && (var addr := Run(INITIAL, acts).calls[a.id].req.addr;
                if addr == "" then m !in s'.address else m in s'.address && s'.address[m] == addr)
            && (forall k | k != m :: NodeOf(s', k) == NodeOf(s, k) && Version(s', k) == Version(s, k))
            && (forall k | k != m ::
                (k in s'.address <==> k in s.address) && (k in s.address ==> s'.address[k] == s.address[k]))
            && (forall n | n != "" :: LoadOf(s', n) == LoadOf(s, n) + Is(next, n) - Is(NodeOf(s, m), n))
  {
    Reachable(acts);
  }

  /** Until it wins, a switch call changes nothing, unless a reply is lost. */
  lemma SwitchHarmlessUntilWin(sys: System, a: Action)
    requires a.Step? && a.id in sys.calls && sys.calls[a.id].Switching? && a.fault != ReplyLost
    requires Do(sys, a).calls[a.id] != Done(sys.calls[a.id].req, true)
    ensures Do(sys, a).store == sys.store
  {
  }

  ghost predicate MovesTo(sys: System, a: Action, m: string, node: string) {
    NodeOf(sys.store, m) != node && NodeOf(Do(sys, a).store, m) == node
  }

  lemma {:induction false} Crossing(acts: seq<Action>, i: nat, j: nat, m: string, node: string)
    requires i <= j <= |acts|
    requires NodeOf(Run(INITIAL, acts[..i]).store, m) != node && NodeOf(Run(INITIAL, acts[..j]).store, m) == node
    ensures exists k :: i <= k < j && MovesTo(Run(INITIAL, acts[..k]), acts[k], m, node)
    decreases j - i
  {
    RunSnoc(acts, i);
    if NodeOf(Run(INITIAL, acts[..i + 1]).store, m) == node {
      assert MovesTo(Run(INITIAL, acts[..i]), acts[i], m, node);
    } else {
      Crossing(acts, i + 1, j, m, node);
    }
  }

  /** Of several calls leaving the same node at most one wins, unless the meeting is moved back to
      that node in between. */
  lemma OneWinner(acts: seq<Action>, i: nat, j: nat, m: string, expected: string, next1: string, next2: string)
    requires i < j < |acts| && expected != "" && next1 != expected
    requires Wins(Run(INITIAL, acts[..i]), acts[i], m, expected, next1)
    requires Wins(Run(INITIAL, acts[..j]), acts[j], m, expected, next2)
    ensures exists k :: i < k < j && MovesTo(Run(INITIAL, acts[..k]), acts[k], m, expected)
  {
    WinIsAtomic(acts[..i], acts[i], m, expected, next1);
    WinIsAtomic(acts[..j], acts[j], m, expected, next2);
    RunSnoc(acts, i);
    Crossing(acts, i + 1, j, m, expected);
  }

  // ----- conflicts -----

  /** The step is a commit of call `id` that the watched version refuses. */
  predicate IsConflict(sys: System, a: Action, id: nat) {
    && a == Step(id, NoFault) && id in sys.calls && sys.calls[id].Switching? && sys.calls[id].req.Switch?
    && sys.calls[id].pc.Exec? && Version(sys.store, sys.calls[id].req.meeting) != sys.calls[id].pc.seen
  }

  /** How many of its commits were refused. */
  function Conflicts(acts: seq<Action>, id: nat): nat {
    if acts == [] then 0
    else
      var front, a := acts[..|acts| - 1], acts[|acts| - 1];
      Conflicts(front, id) + if IsConflict(Run(INITIAL, front), a, id) then 1 else 0
  }

  lemma {:induction false} AttemptsAreConflicts(acts: seq<Action>, id: nat)
    ensures var sys := Run(INITIAL, acts);
            && (id !in sys.calls || sys.calls[id].Fresh? || sys.calls[id].Read? ==> Conflicts(acts, id) == 0)
            && (id in sys.calls && sys.calls[id].Switching? ==>
                sys.calls[id].req.Switch? && sys.calls[id].pc.attempt == Conflicts(acts, id) < 3)
  {
    if acts != [] {
      var front, a := acts[..|acts| - 1], acts[|acts| - 1];
      AttemptsAreConflicts(front, id);
      AttemptStep(Run(INITIAL, front), a, id, Conflicts(front, id));
    }
  }

  lemma AttemptStep(sys: System, a: Action, id: nat, n: nat)
    requires id !in sys.calls || sys.calls[id].Fresh? || sys.calls[id].Read? ==> n == 0
    requires id in sys.calls && sys.calls[id].Switching? ==>
             sys.calls[id].req.Switch? && sys.calls[id].pc.attempt == n < 3
    ensures var sys', n' := Do(sys, a), n + if IsConflict(sys, a, id) then 1 else 0;
            && (id !in sys'.calls || sys'.calls[id].Fresh? || sys'.calls[id].Read? ==> n' == 0)
            && (id in sys'.calls && sys'.calls[id].Switching? ==>
                sys'.calls[id].req.Switch? && sys'.calls[id].pc.attempt == n' < 3)
  {
  }

  /** Over every run: a switch in progress returns false on a step if and only if it reads another node than the
      one it expects, or this is its third commit that is refused; a first or second refusal is tried again. */
  lemma ReturnsFalseIff(acts: seq<Action>, a: Action, id: nat)
    requires id in Run(INITIAL, acts).calls && Run(INITIAL, acts).calls[id].Switching?
    ensures var sys := Run(INITIAL, acts); var c := sys.calls[id];
            && c.req.Switch?
            && (Do(sys, a).calls[id] == Done(c.req, false) <==>
                || (&& a == Step(id, NoFault) && c.pc.Watch? && c.req.expected != ""
                    && NodeOf(sys.store, c.req.meeting) != c.req.expected)
                || (IsConflict(sys, a, id) && Conflicts(acts, id) == 2))
            && (IsConflict(sys, a, id) && Conflicts(acts, id) < 2 ==>
                Do(sys, a).calls[id] == Switching(c.req, Watch(Conflicts(acts, id) + 1)))
  {
    AttemptsAreConflicts(acts, id);
  }

  // ----- upserts and deletes -----

  /** A committing upsert routes its meeting, sets its address if it has one, and leaves all others alone. */
  lemma UpsertLands(sys: System, id: nat, fault: Fault)
    requires id in sys.calls && sys.calls[id].Read? && sys.calls[id].req.Upsert? && fault != NotApplied
    ensures var r, s, s' := sys.calls[id].req, sys.store, Do(sys, Step(id, fault)).store;
            && NodeOf(s', r.meeting) == r.node && Version(s', r.meeting) > Version(s, r.meeting)
            && (r.addr != "" ==> r.meeting in s'.address && s'.address[r.meeting] == r.addr)
            && (r.addr == "" ==> s'.address == s.address)
            && OthersAlone(s, s', r.meeting)
  {
  }

  /** A committing delete removes route and address, and leaves all others alone. */
  lemma DeleteLands(sys: System, id: nat, fault: Fault)
    requires id in sys.calls && sys.calls[id].Read? && sys.calls[id].req.Delete? && fault != NotApplied
    ensures var r, s, s' := sys.calls[id].req, sys.store, Do(sys, Step(id, fault)).store;
            && r.meeting !in s'.rooms && r.meeting !in s'.address
            && (r.meeting in s.rooms ==> Version(s', r.meeting) > Version(s, r.meeting))
            && OthersAlone(s, s', r.meeting)
  {
  }

  ghost predicate OthersAlone(s: Store, s': Store, m: string) {
    forall k | k != m ::
      && (k in s'.rooms <==> k in s.rooms) && NodeOf(s', k) == NodeOf(s, k) && Version(s', k) == Version(s, k)
      && (k in s'.address <==> k in s.address) && (k in s.address ==> s'.address[k] == s.address[k])
  }

  /** A switch without a meeting reports success and does nothing. */
  lemma NamelessSwitchDoesNothing(sys: System, id: nat, fault: Fault)
    requires id in sys.calls && sys.calls[id].Fresh? && sys.calls[id].req.Switch? && sys.calls[id].req.meeting == ""
    ensures Do(sys, Step(id, fault)).calls[id] == Done(sys.calls[id].req, true)
    ensures Do(sys, Step(id, fault)).store == sys.store
  {
  }
}
