/** What a recovery or allocation gets done: it routes the meeting to the first candidate it can use, and rolls
    back, goes on or ends exactly where it should. */
module FailoverProgress {
  import opened RouteStore
  import opened Failover

  /** A recovery tries a candidate that is named, has an address and is not the failed node. */
  predicate Usable(c: Candidate, expected: string) {
    c.node != "" && c.address != "" && (expected == "" || c.node != expected)
  }

  function FirstUsable(rest: seq<Candidate>, expected: string): (i: nat)
    ensures i <= |rest|
    ensures i < |rest| ==> Usable(rest[i], expected)
    ensures forall j | 0 <= j < i :: !Usable(rest[j], expected)
  {
    if rest == [] || Usable(rest[0], expected) then 0 else 1 + FirstUsable(rest[1..], expected)
  }

  /** Run `id` is `n` answered steps away from having routed meeting `m` to candidate `c`. */
  predicate OnTrack(sys: System, home: string -> Server, id: nat, m: string, c: Candidate, n: nat) {
    && id in sys.runs && sys.runs[id].meeting == m && m != ""
    && var r, k := sys.runs[id], (home(c.node), m);
       match r.pc
       case Begin =>
         && k !in sys.rooms
         && if r.creating then r.rest != [] && r.rest[0] == c && n == 3
            else && m in sys.store.rooms
                 && var i := FirstUsable(r.rest, NodeOf(sys.store, m)); i < |r.rest| && r.rest[i] == c && n == i + 5
       case Picking(expected) =>
         && k !in sys.rooms
         && if r.creating then r.rest != [] && r.rest[0] == c && n == 2
            else && (expected == "" || expected == NodeOf(sys.store, m))
                 && var i := FirstUsable(r.rest, expected); i < |r.rest| && r.rest[i] == c && n == i + 4
       case Holding(expected, stage) =>
         && r.rest != [] && r.rest[0] == c && k in sys.rooms && sys.rooms[k] == Room(id, false)
         && Stepping(sys.store, m, expected, stage, n)
       case Ended => n == 0 && NodeOf(sys.store, m) == c.node && k in sys.rooms && sys.rooms[k] == Room(id, true)
       case _ => false
  }

  /** How far a run is once it holds its room. */
  predicate Stepping(store: Store, m: string, expected: string, stage: Stage, n: nat) {
    match stage
    case Naming => n == 1
    case Adding => n == 3 && (expected == "" || expected == NodeOf(store, m))
    case Swapping(Watch(_)) => n == 2 && (expected == "" || expected == NodeOf(store, m))
    case Swapping(Exec(_, _, seen)) => n == 1 && seen == Version(store, m)
    case _ => false
  }

  function Answer(id: nat): Action {
    Step(id, Answered, NoFault)
  }

  lemma SkipUnusable(rest: seq<Candidate>, expected: string)
    requires rest != [] && !Usable(rest[0], expected)
    ensures FirstUsable(rest, expected) == 1 + FirstUsable(rest[1..], expected)
  {
  }

  lemma PickingAnswered(sys: System, home: string -> Server, id: nat, m: string, c: Candidate, n: nat)
    requires OnTrack(sys, home, id, m, c, n) && n > 0 && (sys.runs[id].pc.Begin? || sys.runs[id].pc.Picking?)
    ensures OnTrack(Do(sys, home, Answer(id)), home, id, m, c, n - 1)
  {
    var r := sys.runs[id];
    if r.pc.Picking? && !r.creating && !Usable(r.rest[0], r.pc.expected) {
      SkipUnusable(r.rest, r.pc.expected);
      assert r.rest[FirstUsable(r.rest, r.pc.expected)] == r.rest[1..][FirstUsable(r.rest[1..], r.pc.expected)];
    }
  }

  lemma HoldingAnswered(sys: System, home: string -> Server, id: nat, m: string, c: Candidate, n: nat)
    requires OnTrack(sys, home, id, m, c, n) && n > 0 && sys.runs[id].pc.Holding?
    ensures OnTrack(Do(sys, home, Answer(id)), home, id, m, c, n - 1)
  {
    assert Do(sys, home, Answer(id)) == StepHolding(sys, home, id, Answered, NoFault);
  }

  lemma AnsweredAdvances(sys: System, home: string -> Server, id: nat, m: string, c: Candidate, n: nat)
    requires OnTrack(sys, home, id, m, c, n)
    ensures OnTrack(Do(sys, home, Answer(id)), home, id, m, c, if n > 0 then n - 1 else 0)
  {
    if sys.runs[id].pc.Begin? || sys.runs[id].pc.Picking? {
      PickingAnswered(sys, home, id, m, c, n);
    } else if sys.runs[id].pc.Holding? {
      HoldingAnswered(sys, home, id, m, c, n);
    }
  }

  /** A step leaves the run, the meeting's route entry and its room on the candidate's server alone. */
  predicate LeavesAlone(sys: System, sys': System, home: string -> Server, id: nat, m: string, c: Candidate) {
    && id in sys.runs && id in sys'.runs && sys'.runs[id] == sys.runs[id]
    && NodeOf(sys'.store, m) == NodeOf(sys.store, m) && Version(sys'.store, m) == Version(sys.store, m)
    && (m in sys'.store.rooms <==> m in sys.store.rooms)
    && var k := (home(c.node), m);
       (k in sys'.rooms <==> k in sys.rooms) && (k in sys.rooms ==> sys'.rooms[k] == sys.rooms[k])
  }

  lemma StaysOnTrack(sys: System, sys': System, home: string -> Server, id: nat, m: string, c: Candidate, n: nat)
    requires OnTrack(sys, home, id, m, c, n) && LeavesAlone(sys, sys', home, id, m, c)
    ensures OnTrack(sys', home, id, m, c, n)
  {
  }

  /** Every action of `more` is an answered step of the run, or leaves what it needs alone. */
  ghost predicate Undisturbed(home: string -> Server, acts: seq<Action>, more: seq<Action>, id: nat, m: string,
                              c: Candidate) {
    forall i | 0 <= i < |more| ::
      var sys := Run(home, acts + more[..i]);
      more[i] == Answer(id) || LeavesAlone(sys, Do(sys, home, more[i]), home, id, m, c)
  }

  function OwnSteps(more: seq<Action>, id: nat): nat {
    if more == [] then 0 else OwnSteps(more[..|more| - 1], id) + if more[|more| - 1] == Answer(id) then 1 else 0
  }

  lemma SplitLast(acts: seq<Action>, more: seq<Action>)
    requires more != []
    ensures acts + more == acts + more[..|more| - 1] + [more[|more| - 1]]
  {
  }

  lemma {:induction false} Progresses(home: string -> Server, acts: seq<Action>, more: seq<Action>, id: nat, m: string,
                                      c: Candidate, n: nat)
    requires OnTrack(Run(home, acts), home, id, m, c, n) && Undisturbed(home, acts, more, id, m, c)
    ensures var own := OwnSteps(more, id);
            OnTrack(Run(home, acts + more), home, id, m, c, if own < n then n - own else 0)
  {
    if more == [] {
      assert acts + more == acts;
    } else {
      var front, a := more[..|more| - 1], more[|more| - 1];
      forall i | 0 <= i < |front|
        ensures var sys := Run(home, acts + front[..i]);
                front[i] == Answer(id) || LeavesAlone(sys, Do(sys, home, front[i]), home, id, m, c)
      {
        assert front[..i] == more[..i];
      }
      Progresses(home, acts, front, id, m, c, n);
      SplitLast(acts, more);
      RunAppend(home, acts + front, a);
      ProgressStep(Run(home, acts + front), home, a, id, m, c, if OwnSteps(front, id) < n then n - OwnSteps(front, id)
                   else 0);
    }
  }

  lemma ProgressStep(sys: System, home: string -> Server, a: Action, id: nat, m: string, c: Candidate, n: nat)
    requires OnTrack(sys, home, id, m, c, n)
    requires a == Answer(id) || LeavesAlone(sys, Do(sys, home, a), home, id, m, c)
    ensures OnTrack(Do(sys, home, a), home, id, m, c, if a == Answer(id) && n > 0 then n - 1 else n)
  {
    if a == Answer(id) {
      AnsweredAdvances(sys, home, id, m, c, n);
    } else {
      StaysOnTrack(sys, Do(sys, home, a), home, id, m, c, n);
    }
  }

  /** A recovery switches: from any state in which it starts on a routed or unrouted meeting and its first usable
      candidate has no room, once its steps have been answered, however other steps that leave the route
      entry and that room alone fall in between, the meeting is routed to that candidate and the room there
      is the one the run made and handed over. */
  lemma RecoverySwitches(home: string -> Server, acts: seq<Action>, more: seq<Action>, id: nat, m: string)
    requires id in Run(home, acts).runs
    requires var sys := Run(home, acts); var r := sys.runs[id];
             && r.pc == Begin && !r.creating && r.meeting == m && m != "" && m in sys.store.rooms
             && FirstUsable(r.rest, NodeOf(sys.store, m)) < |r.rest|
    requires var sys := Run(home, acts); var r := sys.runs[id]; var i := FirstUsable(r.rest, NodeOf(sys.store, m));
             && (home(r.rest[i].node), m) !in sys.rooms
             && Undisturbed(home, acts, more, id, m, r.rest[i]) && OwnSteps(more, id) >= i + 5
    ensures var sys, sys' := Run(home, acts), Run(home, acts + more);
            var c := sys.runs[id].rest[FirstUsable(sys.runs[id].rest, NodeOf(sys.store, m))];
            && NodeOf(sys'.store, m) == c.node && (home(c.node), m) in sys'.rooms
            && sys'.rooms[(home(c.node), m)] == Room(id, true) && id in sys'.runs && sys'.runs[id].pc == Ended
  {
    var sys := Run(home, acts);
    var i := FirstUsable(sys.runs[id].rest, NodeOf(sys.store, m));
    Progresses(home, acts, more, id, m, sys.runs[id].rest[i], i + 5);
  }

  /** An allocation routes its meeting to its first candidate, in three answered steps. */
  lemma AllocationRoutes(home: string -> Server, acts: seq<Action>, more: seq<Action>, id: nat, m: string, c: Candidate)
    requires id in Run(home, acts).runs
    requires var sys := Run(home, acts); var r := sys.runs[id];
             && r.pc == Begin && r.creating && r.meeting == m && m != "" && r.rest != [] && r.rest[0] == c
             && (home(c.node), m) !in sys.rooms
    requires Undisturbed(home, acts, more, id, m, c) && OwnSteps(more, id) >= 3
    ensures var sys' := Run(home, acts + more);
            && NodeOf(sys'.store, m) == c.node && (home(c.node), m) in sys'.rooms
            && sys'.rooms[(home(c.node), m)] == Room(id, true)
  {
    Progresses(home, acts, more, id, m, c, 3);
  }

  // ----- when a run rolls back, goes on and ends -----

  predicate RollsBack(sys: System, id: nat) {
    id in sys.runs && sys.runs[id].pc.Holding? && sys.runs[id].pc.stage.RollingBack?
  }

  predicate Inspects(sys: System, id: nat) {
    id in sys.runs && sys.runs[id].pc.Holding? && sys.runs[id].pc.stage.Inspecting?
  }

  /** A rollback begins exactly if adding the publisher was not answered, or the run inspects the route after a
      lost switch and finds another node there. */
  lemma RollbackBeginsIff(sys: System, home: string -> Server, a: Action, id: nat)
    requires !RollsBack(sys, id)
    ensures RollsBack(Do(sys, home, a), id) <==>
            && a.Step? && a.id == id && id in sys.runs && sys.runs[id].pc.Holding? && sys.runs[id].rest != []
            && var r := sys.runs[id];
               || (r.pc.stage == Adding && a.rpc != Answered && a.rpc != Disabled)
               || (r.pc.stage == Inspecting && a.fault == NoFault
                   && NodeOf(sys.store, r.meeting) != "" && NodeOf(sys.store, r.meeting) != r.rest[0].node)
  {
  }

  /** A run inspects the route exactly if its switch found another node than expected or conflicted for the
      third time. */
  lemma InspectionBeginsIff(sys: System, home: string -> Server, a: Action, id: nat)
    requires !Inspects(sys, id)
    ensures Inspects(Do(sys, home, a), id) <==>
            && a.Step? && a.id == id && id in sys.runs && sys.runs[id].pc.Holding? && sys.runs[id].rest != []
            && sys.runs[id].pc.stage.Swapping? && a.fault == NoFault
            && var r := sys.runs[id];
               match r.pc.stage.pc
               case Watch(_) => r.pc.expected != "" && NodeOf(sys.store, r.meeting) != r.pc.expected
               case Exec(attempt, _, seen) => Version(sys.store, r.meeting) != seen && attempt + 1 >= 3
  {
  }

  /** A run moves on to its next candidate exactly if it cannot use this one: it is skipped, the room could not be
      made or not be known to be made, the switch failed, its rollback was sent, or the retry was not answered. */
  lemma NextCandidateIff(sys: System, home: string -> Server, id: nat, rpc: Rpc, fault: Fault)
    requires id in sys.runs && sys.runs[id].rest != []
    ensures var r, r' := sys.runs[id], Do(sys, home, Step(id, rpc, fault)).runs[id]; var c := r.rest[0];
            r'.rest == r.rest[1..] && r'.pc.Picking? <==>
            match r.pc
            case Picking(expected) =>
              || (!r.creating && !Usable(c, expected)) || (rpc != Answered && rpc != Disabled)
              || (rpc == Answered && (r.meeting == "" || (home(c.node), r.meeting) in sys.rooms))
            case Retrying(_) => rpc != Answered && rpc != Disabled
            case Holding(_, stage) =>
              (match stage
               case Swapping(Watch(_)) => fault != NoFault
               case Swapping(Exec(_, _, seen)) =>
                 fault == NotApplied || fault == ReplyLost
               case RollingBack(retry) => !retry
               case _ => false)
            case _ => false
  {
    assert sys.runs[id].rest[1..] != sys.runs[id].rest;
  }

  /** And it ends exactly if it has routed the meeting, has been told that its client is disabled, has added the
      publisher on the latest route, or has nothing left to try. */
  lemma EndsIff(sys: System, home: string -> Server, id: nat, rpc: Rpc, fault: Fault)
    requires id in sys.runs && !sys.runs[id].pc.Ended?
    ensures var r := sys.runs[id];
            Do(sys, home, Step(id, rpc, fault)).runs[id].pc.Ended? <==>
            match r.pc
            case Begin => !r.creating && (r.meeting == "" || fault != NoFault || r.meeting !in sys.store.rooms)
            case Picking(expected) => r.rest == [] || (!r.creating && Usable(r.rest[0], expected) && rpc == Disabled)
            case Retrying(_) => rpc == Answered || rpc == Disabled || r.rest == []
            case Blind(_) => r.rest != []
            case Holding(_, stage) =>
              && r.rest != []
              && (match stage
                  case Adding => rpc == Disabled
                  case Swapping(Exec(_, _, seen)) => fault == NoFault && Version(sys.store, r.meeting) == seen
                  case Naming => true
                  case _ => false)
  {
  }
}
