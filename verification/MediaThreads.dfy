/** Any number of refreshes and removals on any number of threads, interleaved lock by lock. */
module MediaThreads {
  import opened Bytes
  import opened RtpParser
  import opened RtpRouter
  import opened RouteRewrite
  import opened MediaRoutes
  import opened MediaEvents

  /** What a job does next. */
  datatype Stage = ToErase | ToClear | ToAdd | ToNote(sub: Subscriber)     // a refresh
                 | ToSweep | ToUnlink | ToForget                           // a removal
                 | Finished

  /** A refresh or removal of one source. What it has added, and the positions of its events in the log, are
      history: nothing reads them. */
  datatype Job = Job(meeting: Text, source: u32, stage: Stage, firstAt: nat, erasedAt: nat, clearedAt: nat,
                     added: seq<Subscriber>, addedAt: seq<nat>, notedAt: seq<nat>)

  datatype System = System(jobs: map<nat, Job>, log: seq<Event>)

  const IDLE := System(map[], [])

  /** `Advance` takes the next lock of a job; `last` says that no subscriber follows. `Add` goes on with some
      subscriber of some state of the room, as the job finds it. */
  datatype Action = StartRefresh(id: nat, meeting: Text, source: u32)
                  | StartRemoval(id: nat, source: u32)
                  | Advance(id: nat, last: bool)
                  | Add(id: nat, room: Room, owner: Option<Text>, user: Text)
                  | Enter(source: u32)
                  | Arrive(packet: seq<byte>)

  function NewJob(meeting: Text, source: u32, stage: Stage): Job {
    Job(meeting, source, stage, 0, 0, 0, [], [], [])
  }

  function Rest(last: bool): Stage {
    if last then Finished else ToAdd
  }

  /** The next lock of a job, taken when the log has `n` events. */
  function AdvanceJob(j: Job, last: bool, n: nat): Option<(Event, Job)> {
    match j.stage
    case ToErase => Some((Erased(j.source), j.(stage := ToClear, firstAt := n, erasedAt := n)))
    case ToClear => Some((Cleared(j.source), j.(stage := Rest(last), clearedAt := n)))
    case ToNote(sub) => Some((Noted(j.source, sub), j.(stage := Rest(last), notedAt := j.notedAt + [n])))
    case ToSweep => Some((Cleared(j.source), j.(stage := ToUnlink, firstAt := n, clearedAt := n)))
    case ToUnlink => Some((Unlinked(j.source), j.(stage := ToForget, clearedAt := n)))
    case ToForget => Some((Erased(j.source), j.(stage := Finished, erasedAt := n)))
    case _ => None
  }

  function AddJob(j: Job, resolve: Resolver, room: Room, owner: Option<Text>, user: Text, n: nat)
    : Option<(Event, Job)>
  {
    var target := Choose(resolve, j.meeting, room, j.source, owner)(user);
    if j.stage != ToAdd || target.None? then None
    else Some((Added(j.source, target.value),
               j.(stage := ToNote(target.value), added := j.added + [target.value], addedAt := j.addedAt + [n])))
  }

  function JobStep(sys: System, resolve: Resolver, a: Action): Option<(Event, Job)>
    requires (a.Advance? || a.Add?) && a.id in sys.jobs
  {
    if a.Advance? then AdvanceJob(sys.jobs[a.id], a.last, |sys.log|)
    else AddJob(sys.jobs[a.id], resolve, a.room, a.owner, a.user, |sys.log|)
  }

  function Perform(sys: System, resolve: Resolver, a: Action): System {
    match a
    case StartRefresh(id, meeting, source) =>
      if id in sys.jobs || source == 0 then sys else sys.(jobs := sys.jobs[id := NewJob(meeting, source, ToErase)])
    case StartRemoval(id, source) =>
      if id in sys.jobs || source == 0 then sys else sys.(jobs := sys.jobs[id := NewJob([], source, ToSweep)])
    case Enter(source) => sys.(log := sys.log + [Entered(source)])
    case Arrive(packet) => sys.(log := sys.log + [Routed(packet)])
    case _ =>
      if a.id !in sys.jobs then sys
      else match JobStep(sys, resolve, a)
           case None => sys
           case Some((e, j)) => System(sys.jobs[a.id := j], sys.log + [e])
  }

  function Scheduled(resolve: Resolver, acts: seq<Action>): System {
    if acts == [] then IDLE else Perform(Scheduled(resolve, acts[..|acts| - 1]), resolve, acts[|acts| - 1])
  }

  function TablesOf(cap: nat, sys: System): Tables {
    Replay(cap, sys.log)
  }

  // ----- every schedule: the positions a job remembers -----

  predicate IsRemoval(j: Job) {
    j.stage.ToSweep? || j.stage.ToUnlink? || j.stage.ToForget? || (j.stage.Finished? && j.clearedAt < j.erasedAt)
  }

  ghost predicate At(log: seq<Event>, i: nat, e: Event) {
    i < |log| && log[i] == e
  }

  /** A refresh that has cleared: its events stand where it remembers them, in program order. */
  ghost predicate Loops(log: seq<Event>, j: Job) {
    && At(log, j.erasedAt, Erased(j.source)) && j.firstAt == j.erasedAt < j.clearedAt
    && At(log, j.clearedAt, Cleared(j.source))
    && |j.notedAt| <= |j.added| == |j.addedAt|
    && (forall i | 0 <= i < |j.added| ::
        j.clearedAt < j.addedAt[i] && At(log, j.addedAt[i], Added(j.source, j.added[i])))
    && (forall i | 0 <= i < |j.notedAt| ::
          j.addedAt[i] < j.notedAt[i] && At(log, j.notedAt[i], Noted(j.source, j.added[i])))
  }

  ghost predicate Sweeps(log: seq<Event>, j: Job) {
    && j.added == [] && j.addedAt == [] && j.notedAt == []
    && At(log, j.firstAt, Cleared(j.source)) && j.firstAt <= j.clearedAt < |log|
  }

  ghost predicate History(log: seq<Event>, j: Job) {
    && j.source != 0
    && match j.stage
       case ToErase => j == NewJob(j.meeting, j.source, ToErase)
       case ToClear => At(log, j.erasedAt, Erased(j.source)) && j.firstAt == j.erasedAt
                       && j.added == [] && j.addedAt == [] && j.notedAt == []
       case ToAdd => Loops(log, j) && |j.notedAt| == |j.added|
       case ToNote(sub) => Loops(log, j) && |j.notedAt| + 1 == |j.added| && j.added[|j.notedAt|] == sub
       case ToSweep => j == NewJob(j.meeting, j.source, ToSweep)
       case ToUnlink => Sweeps(log, j) && j.clearedAt == j.firstAt
       case ToForget => Sweeps(log, j) && j.firstAt < j.clearedAt && At(log, j.clearedAt, Unlinked(j.source))
       case Finished =>
         || (Loops(log, j) && |j.notedAt| == |j.added|)
         || (Sweeps(log, j) && j.firstAt < j.clearedAt < j.erasedAt
             && At(log, j.clearedAt, Unlinked(j.source)) && At(log, j.erasedAt, Erased(j.source)))
  }

  ghost predicate Historic(sys: System) {
    Accepted(sys.log) && forall id | id in sys.jobs :: History(sys.log, sys.jobs[id])
  }

  lemma HistoryGrows(log: seq<Event>, e: Event, j: Job)
    requires History(log, j)
    ensures History(log + [e], j)
  {
  }

  lemma AdvanceKeepsHistory(log: seq<Event>, j: Job, last: bool)
    requires History(log, j) && AdvanceJob(j, last, |log|).Some?
    ensures var (e, j') := AdvanceJob(j, last, |log|).value; History(log + [e], j') && !e.Added?
  {
    var (e, j') := AdvanceJob(j, last, |log|).value;
    assert (log + [e])[|log|] == e;
  }

  lemma AddedKeepsHistory(log: seq<Event>, j: Job, sub: Subscriber)
    requires History(log, j) && j.stage.ToAdd?
    ensures History(log + [Added(j.source, sub)],
                    j.(stage := ToNote(sub), added := j.added + [sub], addedAt := j.addedAt + [|log|]))
  {
    assert (log + [Added(j.source, sub)])[|log|] == Added(j.source, sub);
  }

  lemma AddKeepsHistory(log: seq<Event>, j: Job, resolve: Resolver, room: Room, owner: Option<Text>, user: Text)
    requires History(log, j) && AddJob(j, resolve, room, owner, user, |log|).Some?
    ensures var (e, j') := AddJob(j, resolve, room, owner, user, |log|).value;
            History(log + [e], j') && e.Added? && e.source != 0 && e.sub.ssrc != 0
  {
    AddedKeepsHistory(log, j, AddJob(j, resolve, room, owner, user, |log|).value.0.sub);
    ChoiceNeverRefused(resolve, j.meeting, room, j.source, owner);
  }

  lemma GrownKeepsHistory(sys: System, e: Event)
    requires Historic(sys) && (e.Added? ==> e.source != 0 && e.sub.ssrc != 0)
    ensures Historic(sys.(log := sys.log + [e]))
  {
    forall id | id in sys.jobs ensures History(sys.log + [e], sys.jobs[id]) {
      HistoryGrows(sys.log, e, sys.jobs[id]);
    }
  }

  lemma StepKeepsHistory(sys: System, resolve: Resolver, a: Action)
    requires Historic(sys)
    ensures Historic(Perform(sys, resolve, a))
  {
    if a.Enter? {
      GrownKeepsHistory(sys, Entered(a.source));
    } else if a.Arrive? {
      GrownKeepsHistory(sys, Routed(a.packet));
    } else if (a.Advance? || a.Add?) && a.id in sys.jobs && JobStep(sys, resolve, a).Some? {
      if a.Advance? {
        AdvanceKeepsHistory(sys.log, sys.jobs[a.id], a.last);
      } else {
        AddKeepsHistory(sys.log, sys.jobs[a.id], resolve, a.room, a.owner, a.user);
      }
      GrownKeepsHistory(sys, JobStep(sys, resolve, a).value.0);
    }
  }

  lemma {:induction false} AlwaysHistoric(resolve: Resolver, acts: seq<Action>)
    ensures Historic(Scheduled(resolve, acts))
  {
    if acts != [] {
      AlwaysHistoric(resolve, acts[..|acts| - 1]);
      StepKeepsHistory(Scheduled(resolve, acts[..|acts| - 1]), resolve, acts[|acts| - 1]);
    }
  }

  // ----- schedules in which nothing disturbs a refresh -----

  /** A refresh between its erase and its last insertion. */
  predicate Busy(j: Job) {
    j.stage.ToClear? || j.stage.ToAdd? || j.stage.ToNote?
  }

  /** A removal between its first step on the router and its erase. */
  predicate Leaving(j: Job) {
    j.stage.ToUnlink? || j.stage.ToForget?
  }

  ghost predicate MidRemoval(sys: System, s: u32) {
    exists id :: id in sys.jobs && sys.jobs[id].source == s && Leaving(sys.jobs[id])
  }

  /** The action is no step of a job whose source another refresh is busy with. */
  ghost predicate Undisturbing(sys: System, a: Action) {
    (a.Advance? || a.Add?) && a.id in sys.jobs ==>
      forall id | id in sys.jobs && id != a.id && Busy(sys.jobs[id]) :: sys.jobs[id].source != sys.jobs[a.id].source
  }

  ghost predicate UndisturbedRun(resolve: Resolver, acts: seq<Action>) {
    forall i | 0 <= i < |acts| :: Undisturbing(Scheduled(resolve, acts[..i]), acts[i])
  }

  /** What a busy refresh finds: no entries until it has cleared; then exactly the subscribers it added. */
  ghost predicate InOrder(t: Tables, j: Job) {
    match j.stage
    case ToClear => forall k | k in t.feedback :: t.feedback[k] != j.source
    case ToAdd => SubscribersOf(t.routes, j.source) == j.added
    case ToNote(sub) => SubscribersOf(t.routes, j.source) == j.added && sub in j.added
    case _ => true
  }

  ghost predicate JobsInOrder(cap: nat, sys: System) {
    forall id | id in sys.jobs :: InOrder(TablesOf(cap, sys), sys.jobs[id])
  }

  ghost predicate BackedButLeaving(cap: nat, sys: System) {
    forall s :: SourceBacked(TablesOf(cap, sys), s) || MidRemoval(sys, s)
  }

  ghost predicate Inv(cap: nat, sys: System) {
    Historic(sys) && JobsInOrder(cap, sys) && BackedButLeaving(cap, sys)
  }

  /** The source an event is about. */
  function About(e: Event): u32 {
    match e
    case Routed(_) => 0
    case _ => e.source
  }

  /** An event leaves the indexes of every other source as they are, but for keys it takes over. */
  lemma OtherSource(t: Tables, cap: nat, e: Event, s: u32)
    requires e.Routed? || e.Entered? || About(e) != s
    ensures SubscribersOf(Effect(t, cap, e).routes, s) == SubscribersOf(t.routes, s)
    ensures forall k | k in Effect(t, cap, e).feedback && Effect(t, cap, e).feedback[k] == s ::
              k in t.feedback && t.feedback[k] == s
  {
  }

  lemma OtherJob(t: Tables, cap: nat, e: Event, j: Job)
    requires InOrder(t, j) && (e.Routed? || e.Entered? || About(e) != j.source)
    ensures InOrder(Effect(t, cap, e), j)
  {
    OtherSource(t, cap, e, j.source);
  }

  lemma OtherBacked(t: Tables, cap: nat, e: Event, s: u32)
    requires SourceBacked(t, s) && (e.Routed? || e.Entered? || About(e) != s)
    ensures SourceBacked(Effect(t, cap, e), s)
  {
    OtherSource(t, cap, e, s);
  }

  lemma AdvanceInOrder(t: Tables, cap: nat, j: Job, last: bool, log: seq<Event>)
    requires History(log, j) && InOrder(t, j) && AdvanceJob(j, last, |log|).Some?
    ensures var (e, j') := AdvanceJob(j, last, |log|).value;
            && About(e) == j.source == j'.source && !e.Routed? && !e.Entered?
            && InOrder(Effect(t, cap, e), j')
            && (SourceBacked(t, j.source) || e.Erased? ==> SourceBacked(Effect(t, cap, e), j.source) || Leaving(j'))
            && (Leaving(j) ==> Leaving(j') || SourceBacked(Effect(t, cap, e), j.source))
  {
  }

  lemma AddInOrder(t: Tables, cap: nat, j: Job, resolve: Resolver, room: Room, owner: Option<Text>, user: Text,
                   log: seq<Event>)
    requires History(log, j) && InOrder(t, j) && AddJob(j, resolve, room, owner, user, |log|).Some?
    ensures var (e, j') := AddJob(j, resolve, room, owner, user, |log|).value;
            && About(e) == j.source == j'.source && e.Added?
            && InOrder(Effect(t, cap, e), j')
            && (SourceBacked(t, j.source) ==> SourceBacked(Effect(t, cap, e), j.source))
  {
    ChoiceNeverRefused(resolve, j.meeting, room, j.source, owner);
  }

  /** One job's step, seen from the job and from its source. */
  lemma OwnStep(cap: nat, sys: System, resolve: Resolver, a: Action)
    requires Inv(cap, sys) && (a.Advance? || a.Add?) && a.id in sys.jobs && JobStep(sys, resolve, a).Some?
    ensures var (e, j') := JobStep(sys, resolve, a).value; var j, t := sys.jobs[a.id], TablesOf(cap, sys);
            && About(e) == j.source == j'.source && !e.Routed? && !e.Entered?
            && InOrder(Effect(t, cap, e), j')
            && (SourceBacked(t, j.source) || e.Erased? ==> SourceBacked(Effect(t, cap, e), j.source) || Leaving(j'))
            && (Leaving(j) ==> Leaving(j') || SourceBacked(Effect(t, cap, e), j.source))
  {
    if a.Advance? {
      AdvanceInOrder(TablesOf(cap, sys), cap, sys.jobs[a.id], a.last, sys.log);
    } else {
      AddInOrder(TablesOf(cap, sys), cap, sys.jobs[a.id], resolve, a.room, a.owner, a.user, sys.log);
    }
  }

  lemma JobStepKeepsInv(cap: nat, sys: System, resolve: Resolver, a: Action)
    requires Inv(cap, sys) && Undisturbing(sys, a)
    requires (a.Advance? || a.Add?) && a.id in sys.jobs && JobStep(sys, resolve, a).Some?
    ensures Inv(cap, Perform(sys, resolve, a))
  {
    StepKeepsHistory(sys, resolve, a);
    var (e, j') := JobStep(sys, resolve, a).value;
    var sys' := System(sys.jobs[a.id := j'], sys.log + [e]);
    assert Perform(sys, resolve, a) == sys';
    ReplayAppend(cap, sys.log, e);
    OwnStep(cap, sys, resolve, a);
    forall id | id in sys'.jobs ensures InOrder(TablesOf(cap, sys'), sys'.jobs[id]) {
      if id != a.id {
        JobAfterStep(cap, sys, resolve, a, id);
      }
    }
    forall r ensures SourceBacked(TablesOf(cap, sys'), r) || MidRemoval(sys', r) {
      SourceAfterStep(cap, sys, resolve, a, r);
    }
  }

  lemma JobAfterStep(cap: nat, sys: System, resolve: Resolver, a: Action, id: nat)
    requires Inv(cap, sys) && Undisturbing(sys, a)
    requires (a.Advance? || a.Add?) && a.id in sys.jobs && JobStep(sys, resolve, a).Some? && id in sys.jobs
             && id != a.id
    ensures InOrder(Effect(TablesOf(cap, sys), cap, JobStep(sys, resolve, a).value.0), sys.jobs[id])
  {
    OwnStep(cap, sys, resolve, a);
    if sys.jobs[id].source != sys.jobs[a.id].source {
      OtherJob(TablesOf(cap, sys), cap, JobStep(sys, resolve, a).value.0, sys.jobs[id]);
    }
  }

  lemma SourceAfterStep(cap: nat, sys: System, resolve: Resolver, a: Action, r: u32)
    requires Inv(cap, sys) && (a.Advance? || a.Add?) && a.id in sys.jobs && JobStep(sys, resolve, a).Some?
    ensures var (e, j') := JobStep(sys, resolve, a).value;
            || SourceBacked(Effect(TablesOf(cap, sys), cap, e), r)
            || MidRemoval(System(sys.jobs[a.id := j'], sys.log + [e]), r)
  {
    OwnStep(cap, sys, resolve, a);
    var (e, j') := JobStep(sys, resolve, a).value;
    var t := TablesOf(cap, sys);
    if SourceBacked(t, r) && r != sys.jobs[a.id].source {
      OtherBacked(t, cap, e, r);
    } else if r == sys.jobs[a.id].source && Leaving(j') {
      StillLeaving(sys, a.id, j', sys.log + [e], a.id);
    } else if !SourceBacked(t, r) {
      assert MidRemoval(sys, r);
      var id :| id in sys.jobs && sys.jobs[id].source == r && Leaving(sys.jobs[id]);
      if id != a.id {
        StillLeaving(sys, a.id, j', sys.log + [e], id);
      }
    }
  }

  lemma StillLeaving(sys: System, id: nat, j: Job, log: seq<Event>, i: nat)
    requires id in sys.jobs && i in sys.jobs
    requires var job := if i == id then j else sys.jobs[i]; Leaving(job)
    ensures MidRemoval(System(sys.jobs[id := j], log), if i == id then j.source else sys.jobs[i].source)
  {
    var sys' := System(sys.jobs[id := j], log);
    assert i in sys'.jobs && Leaving(sys'.jobs[i]);
  }

  lemma StepKeepsInv(cap: nat, sys: System, resolve: Resolver, a: Action)
    requires Inv(cap, sys) && Undisturbing(sys, a)
    ensures Inv(cap, Perform(sys, resolve, a))
  {
    if (a.Advance? || a.Add?) && a.id in sys.jobs && JobStep(sys, resolve, a).Some? {
      JobStepKeepsInv(cap, sys, resolve, a);
    } else if a.Enter? || a.Arrive? {
      var e := if a.Enter? then Entered(a.source) else Routed(a.packet);
      PassiveKeepsInv(cap, sys, e);
    } else {
      StartKeepsInv(cap, sys, resolve, a);
    }
  }

  lemma PassiveKeepsInv(cap: nat, sys: System, e: Event)
    requires Inv(cap, sys) && (e.Entered? || e.Routed?)
    ensures Inv(cap, sys.(log := sys.log + [e]))
  {
    var sys' := sys.(log := sys.log + [e]);
    ReplayAppend(cap, sys.log, e);
    forall id | id in sys.jobs
      ensures History(sys'.log, sys.jobs[id]) && InOrder(TablesOf(cap, sys'), sys.jobs[id])
    {
      HistoryGrows(sys.log, e, sys.jobs[id]);
      OtherJob(TablesOf(cap, sys), cap, e, sys.jobs[id]);
    }
    forall s ensures SourceBacked(TablesOf(cap, sys'), s) || MidRemoval(sys', s) {
      if SourceBacked(TablesOf(cap, sys), s) {
        OtherBacked(TablesOf(cap, sys), cap, e, s);
      } else {
        var id :| id in sys.jobs && sys.jobs[id].source == s && Leaving(sys.jobs[id]);
        assert id in sys'.jobs;
      }
    }
  }

  lemma StartKeepsInv(cap: nat, sys: System, resolve: Resolver, a: Action)
    requires Inv(cap, sys) && Perform(sys, resolve, a).log == sys.log
             && (a.StartRefresh? || a.StartRemoval? || Perform(sys, resolve, a) == sys)
    ensures Inv(cap, Perform(sys, resolve, a))
  {
    StepKeepsHistory(sys, resolve, a);
    var sys' := Perform(sys, resolve, a);
    forall s ensures SourceBacked(TablesOf(cap, sys'), s) || MidRemoval(sys', s) {
      if !SourceBacked(TablesOf(cap, sys), s) {
        var id :| id in sys.jobs && sys.jobs[id].source == s && Leaving(sys.jobs[id]);
        assert id in sys'.jobs && sys'.jobs[id] == sys.jobs[id];
      }
    }
  }

  lemma {:induction false} UndisturbedKeepsInv(cap: nat, resolve: Resolver, acts: seq<Action>)
    requires UndisturbedRun(resolve, acts)
    ensures Inv(cap, Scheduled(resolve, acts))
  {
    if acts != [] {
      var n := |acts| - 1;
      forall i | 0 <= i < n ensures Undisturbing(Scheduled(resolve, acts[..n][..i]), acts[..n][i]) {
        assert acts[..n][..i] == acts[..i];
      }
      UndisturbedKeepsInv(cap, resolve, acts[..n]);
      assert Undisturbing(Scheduled(resolve, acts[..n]), acts[n]);
      StepKeepsInv(cap, Scheduled(resolve, acts[..n]), resolve, acts[n]);
    }
  }

  /** In every state of every schedule in which no step of another refresh or removal of the same source falls
      between a refresh's erase and its last insertion, each feedback entry is matched by a current
      subscriber of its source, unless that source is in the middle of being removed. Different sources
      interleave as they like. */
  lemma FeedbackIsBackedUndisturbed(cap: nat, resolve: Resolver, acts: seq<Action>, endpoint: string, ssrc: u32)
    requires UndisturbedRun(resolve, acts)
    requires (endpoint, ssrc) in TablesOf(cap, Scheduled(resolve, acts)).feedback
    ensures var sys := Scheduled(resolve, acts); var t := TablesOf(cap, sys);
            BackedAt(t.routes, endpoint, ssrc, t.feedback[(endpoint, ssrc)])
              || MidRemoval(sys, t.feedback[(endpoint, ssrc)])
  {
    UndisturbedKeepsInv(cap, resolve, acts);
    var sys := Scheduled(resolve, acts);
    var t := TablesOf(cap, sys);
    var s := t.feedback[(endpoint, ssrc)];
    if SourceBacked(t, s) {
      assert LeadsTo(t.feedback, Subscriber(ssrc, endpoint), s);
    }
  }

  /** When all its jobs are finished such a schedule leaves the indexes in agreement. */
  lemma BackedAtRest(cap: nat, resolve: Resolver, acts: seq<Action>)
    requires UndisturbedRun(resolve, acts)
    requires forall id | id in Scheduled(resolve, acts).jobs :: Scheduled(resolve, acts).jobs[id].stage == Finished
    ensures Backed(TablesOf(cap, Scheduled(resolve, acts)))
  {
    UndisturbedKeepsInv(cap, resolve, acts);
    BackedBySource(TablesOf(cap, Scheduled(resolve, acts)));
  }

  /** Throughout such a schedule the router has, for a source being refreshed, exactly the subscribers that
      refresh has added so far, in order. */
  lemma RoutesAreTheRefreshers(cap: nat, resolve: Resolver, acts: seq<Action>, id: nat)
    requires UndisturbedRun(resolve, acts) && id in Scheduled(resolve, acts).jobs
    requires var j := Scheduled(resolve, acts).jobs[id]; j.stage.ToAdd? || j.stage.ToNote?
    ensures var sys := Scheduled(resolve, acts);
            SubscribersOf(TablesOf(cap, sys).routes, sys.jobs[id].source) == sys.jobs[id].added
  {
    UndisturbedKeepsInv(cap, resolve, acts);
    assert InOrder(TablesOf(cap, Scheduled(resolve, acts)), Scheduled(resolve, acts).jobs[id]);
  }

  /** So the step that finishes a refresh leaves the source with exactly the subscribers it added. */
  lemma FinishedRefreshIsExact(cap: nat, resolve: Resolver, acts: seq<Action>, id: nat)
    requires UndisturbedRun(resolve, acts) && id in Scheduled(resolve, acts).jobs
    requires var j := Scheduled(resolve, acts).jobs[id]; j.stage.ToClear? || j.stage.ToNote?
    ensures var sys := Perform(Scheduled(resolve, acts), resolve, Advance(id, true));
            && id in sys.jobs && sys.jobs[id].stage == Finished
            && SubscribersOf(TablesOf(cap, sys).routes, sys.jobs[id].source) == sys.jobs[id].added
  {
    UndisturbedKeepsInv(cap, resolve, acts);
    FinishIsExact(cap, Scheduled(resolve, acts), resolve, id);
  }

  lemma FinishIsExact(cap: nat, sys: System, resolve: Resolver, id: nat)
    requires Inv(cap, sys) && id in sys.jobs && (sys.jobs[id].stage.ToClear? || sys.jobs[id].stage.ToNote?)
    ensures var sys' := Perform(sys, resolve, Advance(id, true));
            && id in sys'.jobs && sys'.jobs[id].stage == Finished
            && SubscribersOf(TablesOf(cap, sys').routes, sys'.jobs[id].source) == sys'.jobs[id].added
  {
    var (e, j) := AdvanceJob(sys.jobs[id], true, |sys.log|).value;
    ReplayAppend(cap, sys.log, e);
    assert History(sys.log, sys.jobs[id]) && InOrder(TablesOf(cap, sys), sys.jobs[id]);
  }

  /** And a NACK that the feedback index resolves, for a source that is not being removed, is answered with
      the very bytes the router forwards to that endpoint. */
  lemma NackReplyUndisturbed(cap: nat, resolve: Resolver, acts: seq<Action>, from: string, media: u32, q: u16)
    requires UndisturbedRun(resolve, acts) && media != 0
    requires (from, media) in TablesOf(cap, Scheduled(resolve, acts)).feedback
    requires var sys := Scheduled(resolve, acts); var t := TablesOf(cap, sys);
             !MidRemoval(sys, t.feedback[(from, media)]) && Cached(t.routes, t.feedback[(from, media)], q).Some?
    ensures var t := TablesOf(cap, Scheduled(resolve, acts));
            AnswersWithCopy(t.routes, t.feedback[(from, media)], from, media, q)
  {
    FeedbackIsBackedUndisturbed(cap, resolve, acts, from, media);
    var t := TablesOf(cap, Scheduled(resolve, acts));
    CachesAlwaysTruthful(cap, Scheduled(resolve, acts).log);
    BackedReplyIsCopy(t.routes, t.feedback[(from, media)], from, media, q);
  }
}
