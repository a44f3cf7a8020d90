/** What two overlapping operations on one source leave behind. */
module MediaOverlap {
  import opened Bytes
  import opened RtpRouter
  import opened RouteRewrite
  import opened MediaRoutes
  import opened MediaEvents
  import opened MediaThreads

  predicate Concerns(e: Event, s: u32) {
    Erases(e, s) || Clears(e, s) || (e.Added? && e.source == s) || (e.Noted? && e.source == s)
  }

  /** Position `i` of the log is an event of the job. */
  ghost predicate Owns(j: Job, i: nat) {
    i == j.firstAt || i == j.erasedAt || i == j.clearedAt || i in j.addedAt || i in j.notedAt
  }

  /** What a finished job has left in the log. */
  ghost predicate Completed(log: seq<Event>, j: Job) {
    && At(log, j.erasedAt, Erased(j.source)) && j.clearedAt < |log| && Clears(log[j.clearedAt], j.source)
    && j.firstAt <= j.erasedAt && j.firstAt <= j.clearedAt
    && (j.firstAt == j.erasedAt || Clears(log[j.firstAt], j.source))
    && |j.notedAt| == |j.addedAt| == |j.added|
    && forall i | 0 <= i < |j.added| :: Insertion(log, j, i)
  }

  /** Insertion number `i`: added after the job's erase and clear, and noted after that. */
  ghost predicate Insertion(log: seq<Event>, j: Job, i: nat)
    requires |j.notedAt| == |j.addedAt| == |j.added| && i < |j.added|
  {
    && j.erasedAt < j.addedAt[i] && j.clearedAt < j.addedAt[i] < j.notedAt[i]
    && At(log, j.addedAt[i], Added(j.source, j.added[i])) && At(log, j.notedAt[i], Noted(j.source, j.added[i]))
  }

  lemma FinishedIsCompleted(log: seq<Event>, j: Job)
    requires History(log, j) && j.stage == Finished
    ensures Completed(log, j)
  {
  }

  /** Two jobs of one source, refreshes or removals, that have it to themselves from the first event of either
      on. Whatever went before and other sources meanwhile do not matter. */
  ghost predicate Alone(log: seq<Event>, x: Job, y: Job) {
    && x.source == y.source
    && forall i | 0 <= i < |log| && (x.firstAt <= i || y.firstAt <= i) && Concerns(log[i], x.source) ::
         Owns(x, i) || Owns(y, i)
  }

  ghost predicate Pair(log: seq<Event>, x: Job, y: Job) {
    Completed(log, x) && Completed(log, y) && Alone(log, x, y)
  }

  /** Another source takes over a key of `s` after position `n`. */
  ghost predicate Overtaken(log: seq<Event>, n: nat, s: u32, sub: Subscriber) {
    exists i :: n < i < |log| && TakesOver(log[i], s, sub)
  }

  ghost predicate AddedAfter(log: seq<Event>, c: nat, s: u32, sub: Subscriber) {
    exists r: nat :: c < r && At(log, r, Added(s, sub))
  }

  /** An insertion of `x` falls into `y`: it is noted after the erase of `y` but added before the clear of
      `y`, and the key is not taken over by another source. */
  ghost predicate FallsInto(log: seq<Event>, x: Job, i: nat, y: Job)
    requires |x.notedAt| == |x.addedAt| == |x.added| && i < |x.added|
  {
    y.erasedAt < x.notedAt[i] && x.addedAt[i] < y.clearedAt && !Overtaken(log, x.notedAt[i], x.source, x.added[i])
  }

  /** Whatever of `x` falls into `y` is added again after the clear of `y`. */
  ghost predicate Reinstated(log: seq<Event>, x: Job, y: Job)
    requires |x.notedAt| == |x.addedAt| == |x.added|
  {
    forall i | 0 <= i < |x.added| && FallsInto(log, x, i, y) :: AddedAfter(log, y.clearedAt, x.source, x.added[i])
  }

  // ----- positions -----

  lemma ClearsByOwner(log: seq<Event>, j: Job, i: nat)
    requires Completed(log, j) && i < |log| && Owns(j, i) && Clears(log[i], j.source)
    ensures i <= j.clearedAt
  {
    NotAnInsertion(log, j, i);
  }

  lemma ErasesByOwner(log: seq<Event>, j: Job, i: nat)
    requires Completed(log, j) && i < |log| && Owns(j, i) && Erases(log[i], j.source)
    ensures i == j.erasedAt
  {
    NotAnInsertion(log, j, i);
  }

  lemma NotAnInsertion(log: seq<Event>, j: Job, i: nat)
    requires Completed(log, j) && i < |log| && (Clears(log[i], j.source) || Erases(log[i], j.source))
    ensures i !in j.addedAt && i !in j.notedAt
  {
    forall n | 0 <= n < |j.added| ensures j.addedAt[n] != i && j.notedAt[n] != i {
      assert Insertion(log, j, n);
    }
  }

  lemma NotesByOwner(log: seq<Event>, j: Job, n: nat, sub: Subscriber) returns (i: nat)
    requires Completed(log, j) && n < |log| && Owns(j, n) && log[n] == Noted(j.source, sub)
    ensures i < |j.added| && j.notedAt[i] == n && j.added[i] == sub && Insertion(log, j, i)
  {
    forall k | 0 <= k < |j.added| ensures j.addedAt[k] != n {
      assert Insertion(log, j, k);
    }
    assert n in j.notedAt;
    i :| 0 <= i < |j.notedAt| && j.notedAt[i] == n;
    assert Insertion(log, j, i);
  }

  /** An addition after both clears stands. */
  lemma LateAddStands(log: seq<Event>, x: Job, y: Job, r: nat, sub: Subscriber)
    requires Pair(log, x, y) && x.clearedAt < r && y.clearedAt < r && At(log, r, Added(x.source, sub))
    ensures AddStands(log, x.source, sub)
  {
    forall i | r < i < |log| ensures !Clears(log[i], x.source) {
      if Clears(log[i], x.source) {
        assert Concerns(log[i], x.source);
        if Owns(x, i) {
          ClearsByOwner(log, x, i);
        } else {
          ClearsByOwner(log, y, i);
        }
      }
    }
    assert LiveAdd(log, r, x.source, sub);
  }

  /** A note after both erases that nobody takes over stands. */
  lemma LateNoteStands(log: seq<Event>, x: Job, y: Job, n: nat, sub: Subscriber)
    requires Pair(log, x, y) && x.erasedAt < n && y.erasedAt < n
    requires At(log, n, Noted(x.source, sub)) && !Overtaken(log, n, x.source, sub)
    ensures NoteStands(log, x.source, sub)
  {
    forall i | n < i < |log| ensures !Erases(log[i], x.source) && !TakesOver(log[i], x.source, sub) {
      if Erases(log[i], x.source) {
        assert Concerns(log[i], x.source);
        if Owns(x, i) {
          ErasesByOwner(log, x, i);
        } else {
          ErasesByOwner(log, y, i);
        }
      }
    }
    assert LiveNote(log, n, x.source, sub);
  }

  // ----- both halves -----

  lemma BackedHasReinstated(cap: nat, log: seq<Event>, x: Job, y: Job, i: nat)
    requires Accepted(log) && Pair(log, x, y) && SourceBacked(Replay(cap, log), x.source)
    requires i < |x.added| && FallsInto(log, x, i, y)
    ensures AddedAfter(log, y.clearedAt, x.source, x.added[i])
  {
    var sub := x.added[i];
    assert Insertion(log, x, i);
    LateNoteStands(log, x, y, x.notedAt[i], sub);
    SourceBackedIff(cap, log, x.source);
    StandingAddIsLate(log, y, sub);
  }

  lemma StandingAddIsLate(log: seq<Event>, y: Job, sub: Subscriber)
    requires Completed(log, y) && AddStands(log, y.source, sub)
    ensures AddedAfter(log, y.clearedAt, y.source, sub)
  {
    var r: nat :| LiveAdd(log, r, y.source, sub);
    assert At(log, r, Added(y.source, sub)) && y.clearedAt < r;
  }

  lemma StandingNoteHasAdd(log: seq<Event>, x: Job, y: Job, n: nat, sub: Subscriber)
    requires Pair(log, x, y) && Reinstated(log, x, y) && Owns(x, n) && LiveNote(log, n, x.source, sub)
    ensures AddStands(log, x.source, sub)
  {
    var i := NotesByOwner(log, x, n, sub);
    assert y.erasedAt < n && x.addedAt[i] != y.clearedAt;
    if y.clearedAt < x.addedAt[i] {
      LateAddStands(log, x, y, x.addedAt[i], sub);
    } else {
      assert FallsInto(log, x, i, y);
      assert AddedAfter(log, y.clearedAt, x.source, x.added[i]);
      LaterAddStands(log, x, y, sub);
    }
  }

  lemma LaterAddStands(log: seq<Event>, x: Job, y: Job, sub: Subscriber)
    requires Pair(log, x, y) && x.clearedAt < y.clearedAt && AddedAfter(log, y.clearedAt, x.source, sub)
    ensures AddStands(log, x.source, sub)
  {
    var r: nat :| y.clearedAt < r && At(log, r, Added(x.source, sub));
    LateAddStands(log, x, y, r, sub);
  }

  lemma PairSymmetric(log: seq<Event>, x: Job, y: Job)
    requires Pair(log, x, y)
    ensures Pair(log, y, x)
  {
  }

  lemma ReinstatedIsBacked(cap: nat, log: seq<Event>, x: Job, y: Job)
    requires Accepted(log) && Pair(log, x, y) && Reinstated(log, x, y) && Reinstated(log, y, x)
    ensures SourceBacked(Replay(cap, log), x.source)
  {
    var s := x.source;
    forall sub | NoteStands(log, s, sub) ensures AddStands(log, s, sub) {
      var n: nat :| LiveNote(log, n, s, sub);
      assert x.erasedAt < n && Concerns(log[n], s);
      if Owns(x, n) {
        StandingNoteHasAdd(log, x, y, n, sub);
      } else {
        PairSymmetric(log, x, y);
        StandingNoteHasAdd(log, y, x, n, sub);
      }
    }
    SourceBackedIff(cap, log, s);
  }

  lemma OverlapOnLog(cap: nat, log: seq<Event>, x: Job, y: Job)
    requires Accepted(log) && Pair(log, x, y)
    ensures SourceBacked(Replay(cap, log), x.source) <==> Reinstated(log, x, y) && Reinstated(log, y, x)
  {
    PairSymmetric(log, x, y);
    if SourceBacked(Replay(cap, log), x.source) {
      forall i | 0 <= i < |x.added| && FallsInto(log, x, i, y)
        ensures AddedAfter(log, y.clearedAt, x.source, x.added[i])
      {
        BackedHasReinstated(cap, log, x, y, i);
      }
      forall i | 0 <= i < |y.added| && FallsInto(log, y, i, x)
        ensures AddedAfter(log, x.clearedAt, y.source, y.added[i])
      {
        BackedHasReinstated(cap, log, y, x, i);
      }
    }
    if Reinstated(log, x, y) && Reinstated(log, y, x) {
      ReinstatedIsBacked(cap, log, x, y);
    }
  }

  /** The exact condition, over every schedule: after two operations that had a source to themselves its
      entries are backed if and only if every insertion of one that falls between the erase and the clear of
      the other is added again after that clear. A removal counts too; its last clear is the unregistering. */
  lemma OverlapBackedIff(cap: nat, resolve: Resolver, acts: seq<Action>, x: nat, y: nat)
    requires x in Scheduled(resolve, acts).jobs && y in Scheduled(resolve, acts).jobs
    requires var sys := Scheduled(resolve, acts);
             && sys.jobs[x].stage == Finished && sys.jobs[y].stage == Finished
             && Alone(sys.log, sys.jobs[x], sys.jobs[y])
    ensures var sys := Scheduled(resolve, acts);
            && Completed(sys.log, sys.jobs[x]) && Completed(sys.log, sys.jobs[y])
            && (SourceBacked(TablesOf(cap, sys), sys.jobs[x].source) <==>
                Reinstated(sys.log, sys.jobs[x], sys.jobs[y]) && Reinstated(sys.log, sys.jobs[y], sys.jobs[x]))
  {
    AlwaysHistoric(resolve, acts);
    var sys := Scheduled(resolve, acts);
    FinishedIsCompleted(sys.log, sys.jobs[x]);
    FinishedIsCompleted(sys.log, sys.jobs[y]);
    OverlapOnLog(cap, sys.log, sys.jobs[x], sys.jobs[y]);
  }

  // ----- runs in which it fails -----

  /** Some schedule leads to this state. */
  ghost predicate Reachable(resolve: Resolver, sys: System) {
    exists acts :: Scheduled(resolve, acts) == sys
  }

  lemma PerformReaches(resolve: Resolver, sys: System, a: Action)
    requires Reachable(resolve, sys)
    ensures Reachable(resolve, Perform(sys, resolve, a))
  {
    var acts :| Scheduled(resolve, acts) == sys;
    assert (acts + [a])[..|acts|] == acts;
    assert Scheduled(resolve, acts + [a]) == Perform(sys, resolve, a);
  }

  /** Job `id` of source `s` is at a stage. */
  predicate Stands(sys: System, id: nat, s: u32, stage: Stage) {
    id in sys.jobs && sys.jobs[id].source == s && sys.jobs[id].stage == stage
  }

  /** A step of job `id` appends one event and leaves the other jobs alone. */
  ghost predicate Moves(sys: System, sys': System, id: nat, e: Event) {
    && sys'.log == sys.log + [e] && sys'.jobs.Keys == sys.jobs.Keys
    && forall i | i in sys.jobs && i != id :: sys'.jobs[i] == sys.jobs[i]
  }

  lemma Start(resolve: Resolver, sys: System, id: nat, s: u32, removal: bool) returns (sys': System)
    requires Reachable(resolve, sys) && id !in sys.jobs && s != 0
    ensures Reachable(resolve, sys') && sys'.log == sys.log && Stands(sys', id, s, if removal then ToSweep else ToErase)
    ensures sys'.jobs.Keys == sys.jobs.Keys + {id} && forall i | i in sys.jobs :: sys'.jobs[i] == sys.jobs[i]
  {
    var a := if removal then StartRemoval(id, s) else StartRefresh(id, [], s);
    PerformReaches(resolve, sys, a);
    sys' := Perform(sys, resolve, a);
  }

  lemma Go(resolve: Resolver, sys: System, id: nat, last: bool, e: Event, stage: Stage) returns (sys': System)
    requires Reachable(resolve, sys) && id in sys.jobs
    requires var next := AdvanceJob(sys.jobs[id], last, |sys.log|);
             next.Some? && next.value.0 == e && next.value.1.stage == stage
    ensures Reachable(resolve, sys') && Moves(sys, sys', id, e) && Stands(sys', id, sys.jobs[id].source, stage)
  {
    PerformReaches(resolve, sys, Advance(id, last));
    sys' := Perform(sys, resolve, Advance(id, last));
  }

  /** A room with one subscriber and its endpoint. */
  function Watched(endpoint: string): Room {
    Room(1, map[], map[[] := Listener(endpoint, "", "", 0, 0)])
  }

  lemma WatchedTarget(resolve: Resolver, meeting: Text, endpoint: string, s: u32)
    requires endpoint != "" && resolve(endpoint) == Some(endpoint)
    ensures Choose(resolve, meeting, Watched(endpoint), s, None)([]) == Some(Subscriber(s, endpoint))
  {
  }

  lemma GoAdd(resolve: Resolver, sys: System, id: nat, s: u32, endpoint: string) returns (sys': System)
    requires Reachable(resolve, sys) && Stands(sys, id, s, ToAdd) && endpoint != ""
             && resolve(endpoint) == Some(endpoint)
    ensures var sub := Subscriber(s, endpoint);
            Reachable(resolve, sys') && Moves(sys, sys', id, Added(s, sub)) && Stands(sys', id, s, ToNote(sub))
  {
    WatchedTarget(resolve, sys.jobs[id].meeting, endpoint, s);
    PerformReaches(resolve, sys, Add(id, Watched(endpoint), None, []));
    sys' := Perform(sys, resolve, Add(id, Watched(endpoint), None, []));
  }

  /** A refresh has erased and cleared. */
  lemma RefreshUnderWay(resolve: Resolver, s: u32) returns (sys: System)
    requires s != 0
    ensures Reachable(resolve, sys) && sys.log == [Erased(s), Cleared(s)] && sys.jobs.Keys == {1}
            && Stands(sys, 1, s, ToAdd)
  {
    assert Scheduled(resolve, []) == IDLE;
    sys := Start(resolve, IDLE, 1, s, false);
    sys := Go(resolve, sys, 1, false, Erased(s), ToClear);
    sys := Go(resolve, sys, 1, false, Cleared(s), ToAdd);
  }

  /** Thread 1 has read the old endpoint when thread 2, which moves it, erases; thread 1 inserts; thread 2
      clears and inserts the new endpoint. */
  function TwoRefreshes(s: u32, e1: string, e2: string): seq<Event> {
    [Erased(s), Cleared(s), Erased(s), Added(s, Subscriber(s, e1)), Noted(s, Subscriber(s, e1)), Cleared(s),
     Added(s, Subscriber(s, e2)), Noted(s, Subscriber(s, e2))]
  }

  ghost predicate AllFinished(sys: System) {
    forall id | id in sys.jobs :: sys.jobs[id].stage == Finished
  }

  lemma SecondErases(resolve: Resolver, s: u32) returns (sys: System)
    requires s != 0
    ensures Reachable(resolve, sys) && sys.jobs.Keys == {1, 2} && Stands(sys, 1, s, ToAdd) && Stands(sys, 2, s, ToClear)
    ensures sys.log == [Erased(s), Cleared(s), Erased(s)]
  {
    sys := RefreshUnderWay(resolve, s);
    sys := Start(resolve, sys, 2, s, false);
    sys := Go(resolve, sys, 2, false, Erased(s), ToClear);
  }

  lemma FirstInserts(resolve: Resolver, s: u32, e1: string) returns (sys: System)
    requires s != 0 && e1 != "" && resolve(e1) == Some(e1)
    ensures Reachable(resolve, sys) && sys.jobs.Keys == {1, 2} && Stands(sys, 1, s, Finished)
            && Stands(sys, 2, s, ToClear)
    ensures sys.log == [Erased(s), Cleared(s), Erased(s), Added(s, Subscriber(s, e1)), Noted(s, Subscriber(s, e1))]
  {
    var sub := Subscriber(s, e1);
    sys := SecondErases(resolve, s);
    sys := GoAdd(resolve, sys, 1, s, e1);
    sys := Go(resolve, sys, 1, true, Noted(s, sub), Finished);
  }

  lemma TwoRefreshesReachable(resolve: Resolver, s: u32, e1: string, e2: string) returns (sys: System)
    requires s != 0 && e1 != "" && e2 != "" && resolve(e1) == Some(e1) && resolve(e2) == Some(e2)
    ensures Reachable(resolve, sys) && sys.log == TwoRefreshes(s, e1, e2) && AllFinished(sys)
  {
    sys := FirstInserts(resolve, s, e1);
    sys := Go(resolve, sys, 2, false, Cleared(s), ToAdd);
    sys := GoAdd(resolve, sys, 2, s, e2);
    sys := Go(resolve, sys, 2, true, Noted(s, Subscriber(s, e2)), Finished);
  }

  /** Both refreshes are over, and an entry leads from an endpoint where the source has no subscriber. */
  lemma OverlapLeavesUnbackedEntry(cap: nat, resolve: Resolver, s: u32, e1: string, e2: string) returns (sys: System)
    requires s != 0 && e1 != e2 && e1 != "" && e2 != "" && resolve(e1) == Some(e1) && resolve(e2) == Some(e2)
    ensures Reachable(resolve, sys) && AllFinished(sys)
    ensures var t := TablesOf(cap, sys);
            LeadsTo(t.feedback, Subscriber(s, e1), s) && SubscribersOf(t.routes, s) == [Subscriber(s, e2)]
  {
    sys := TwoRefreshesReachable(resolve, s, e1, e2);
    UnbackedLog(cap, s, e1, e2);
  }

  lemma UnbackedLog(cap: nat, s: u32, e1: string, e2: string)
    requires s != 0 && e1 != e2
    ensures var t := Replay(cap, TwoRefreshes(s, e1, e2));
            LeadsTo(t.feedback, Subscriber(s, e1), s) && SubscribersOf(t.routes, s) == [Subscriber(s, e2)]
  {
    var log, sub := TwoRefreshes(s, e1, e2), Subscriber(s, e2);
    assert LiveNote(log, 4, s, Subscriber(s, e1));
    FeedbackLaw(cap, log, s, Subscriber(s, e1));
    var front := log[..5];
    assert log == front + [Cleared(s)] + [Added(s, sub)] + [Noted(s, sub)];
    ReplayAppend(cap, front + [Cleared(s)] + [Added(s, sub)], Noted(s, sub));
    ReplayAppend(cap, front + [Cleared(s)], Added(s, sub));
    ReplayAppend(cap, front, Cleared(s));
  }

  /** A removal runs between a refresh's addition and its note. */
  function RefreshAndRemoval(s: u32, e: string): seq<Event> {
    [Erased(s), Cleared(s), Added(s, Subscriber(s, e)), Cleared(s), Unlinked(s), Erased(s), Noted(s, Subscriber(s, e))]
  }

  lemma RemovalBegins(resolve: Resolver, s: u32, e: string) returns (sys: System)
    requires s != 0 && e != "" && resolve(e) == Some(e)
    ensures Reachable(resolve, sys) && sys.jobs.Keys == {1, 2}
    ensures Stands(sys, 1, s, ToNote(Subscriber(s, e))) && Stands(sys, 2, s, ToUnlink)
    ensures sys.log == [Erased(s), Cleared(s), Added(s, Subscriber(s, e)), Cleared(s)]
  {
    sys := RefreshUnderWay(resolve, s);
    sys := GoAdd(resolve, sys, 1, s, e);
    sys := Start(resolve, sys, 2, s, true);
    sys := Go(resolve, sys, 2, false, Cleared(s), ToUnlink);
  }

  lemma RefreshAndRemovalReachable(resolve: Resolver, s: u32, e: string) returns (sys: System)
    requires s != 0 && e != "" && resolve(e) == Some(e)
    ensures Reachable(resolve, sys) && sys.log == RefreshAndRemoval(s, e) && AllFinished(sys)
  {
    sys := RemovalBegins(resolve, s, e);
    sys := Go(resolve, sys, 2, false, Unlinked(s), ToForget);
    sys := Go(resolve, sys, 2, false, Erased(s), Finished);
    sys := Go(resolve, sys, 1, true, Noted(s, Subscriber(s, e)), Finished);
  }

  /** The source is gone, and an entry still leads to it. */
  lemma RemovalOverlapLeavesEntry(cap: nat, resolve: Resolver, s: u32, e: string) returns (sys: System)
    requires s != 0 && e != "" && resolve(e) == Some(e)
    ensures Reachable(resolve, sys) && AllFinished(sys)
    ensures var t := TablesOf(cap, sys); LeadsTo(t.feedback, Subscriber(s, e), s) && s !in t.routes
  {
    sys := RefreshAndRemovalReachable(resolve, s, e);
    DanglingLog(cap, s, e);
  }

  lemma DanglingLog(cap: nat, s: u32, e: string)
    ensures var t := Replay(cap, RefreshAndRemoval(s, e)); LeadsTo(t.feedback, Subscriber(s, e), s) && s !in t.routes
  {
    var log, sub := RefreshAndRemoval(s, e), Subscriber(s, e);
    assert LiveNote(log, 6, s, sub);
    FeedbackLaw(cap, log, s, sub);
    var front := log[..4];
    assert log == front + [Unlinked(s)] + [Erased(s)] + [Noted(s, sub)];
    ReplayAppend(cap, front + [Unlinked(s)] + [Erased(s)], Noted(s, sub));
    ReplayAppend(cap, front + [Unlinked(s)], Erased(s));
    ReplayAppend(cap, front, Unlinked(s));
  }
}
