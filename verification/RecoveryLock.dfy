/** The reference-counted lock that serialises recovery per meeting. `acquireRecoveryLock` and the
    closure it returns are four atomic steps, each under a mutex; any number of threads interleave. */
module RecoveryLock {

  type Thread = nat

  /** One heap-allocated lock entry: `refs`, and the holder of its mutex. `meeting` is bookkeeping:
      the meeting the entry was allocated for. */
  datatype Entry = Entry(meeting: string, refs: int, holder: Holder)
  datatype Holder = Free | HeldBy(thread: Thread)

  datatype Pc = Waiting      // counted in refs, blocked on the entry's mutex
              | Inside       // holds the entry's mutex
              | Leaving      // unlocked, its reference not yet given back

  /** A thread between entering acquire and leaving release, and the entry it points to. */
  datatype Visit = Visit(meeting: string, entry: nat, pc: Pc)

  /** `heap` holds every entry ever allocated; `table` is the recoveryLocks map. */
  datatype State = State(table: map<string, nat>, heap: seq<Entry>, visits: map<Thread, Visit>)

  datatype Action = Enter(thread: Thread, meeting: string)   // look up or create, refs++
                  | Lock(thread: Thread)
                  | Unlock(thread: Thread)
                  | Leave(thread: Thread)                    // refs--, delete the map entry at zero

  const INITIAL := State(map[], [], map[])

  function Do(s: State, a: Action): State
  {
    match a
    case Enter(t, m) =>
      if m == "" || t in s.visits then s
      else if m in s.table && s.table[m] < |s.heap| then
        var e := s.table[m];
        State(s.table, s.heap[e := s.heap[e].(refs := s.heap[e].refs + 1)], s.visits[t := Visit(m, e, Waiting)])
      else
        var e := |s.heap|;
        State(s.table[m := e], s.heap + [Entry(m, 1, Free)], s.visits[t := Visit(m, e, Waiting)])
    case Lock(t) =>
      if t !in s.visits || s.visits[t].pc != Waiting || s.visits[t].entry >= |s.heap| then s
      else
        var e := s.visits[t].entry;
        if s.heap[e].holder != Free then s
        else s.(heap := s.heap[e := s.heap[e].(holder := HeldBy(t))],
                visits := s.visits[t := s.visits[t].(pc := Inside)])
    case Unlock(t) =>
      if t !in s.visits || s.visits[t].pc != Inside || s.visits[t].entry >= |s.heap| then s
      else
        var e := s.visits[t].entry;
        s.(heap := s.heap[e := s.heap[e].(holder := Free)], visits := s.visits[t := s.visits[t].(pc := Leaving)])
    case Leave(t) =>
      if t !in s.visits || s.visits[t].pc != Leaving || s.visits[t].entry >= |s.heap| then s
      else
        var Visit(m, e, _) := s.visits[t];
        var refs := s.heap[e].refs - 1;
        State(if refs <= 0 then s.table - {m} else s.table, s.heap[e := s.heap[e].(refs := refs)], s.visits - {t})
  }

  function Run(acts: seq<Action>): State {
    if acts == [] then INITIAL else Do(Run(acts[..|acts| - 1]), acts[|acts| - 1])
  }

  /** The threads that hold or wait for the lock of `m`, or are about to give it back. */
  function Users(s: State, m: string): set<Thread> {
    set t | t in s.visits && s.visits[t].meeting == m
  }

  // ----- invariant -----

  /** Every visiting thread points at the one entry the table has for its meeting. */
  ghost predicate OneEntry(s: State) {
    && (forall m | m in s.table :: s.table[m] < |s.heap| && s.heap[s.table[m]].meeting == m)
    && (forall t | t in s.visits :: s.visits[t].meeting in s.table && s.visits[t].entry == s.table[s.visits[t].meeting])
  }

  ghost predicate RefsCount(s: State)
    requires OneEntry(s)
  {
    forall m | m in s.table :: s.heap[s.table[m]].refs == |Users(s, m)| && Users(s, m) != {}
  }

  ghost predicate HoldersInside(s: State) {
    && (forall t | t in s.visits && s.visits[t].pc == Inside ::
          s.visits[t].entry < |s.heap| && s.heap[s.visits[t].entry].holder == HeldBy(t))
    && (forall e | 0 <= e < |s.heap| && s.heap[e].holder.HeldBy? ::
          var t := s.heap[e].holder.thread;
          t in s.visits && s.visits[t].entry == e && s.visits[t].pc == Inside)
  }

  ghost predicate Inv(s: State) {
    OneEntry(s) && RefsCount(s) && HoldersInside(s)
  }

  lemma StepKeepsOneEntry(s: State, a: Action)
    requires OneEntry(s) && !a.Leave?
    ensures OneEntry(Do(s, a))
  {
  }

  lemma StepKeepsHolders(s: State, a: Action)
    requires HoldersInside(s)
    ensures HoldersInside(Do(s, a))
  {
  }

  lemma EnterAddsUser(s: State, t: Thread, m: string, n: string)
    requires m != "" && t !in s.visits
    ensures Users(Do(s, Enter(t, m)), n) == if n == m then Users(s, n) + {t} else Users(s, n)
  {
  }

  lemma LockKeepsUsers(s: State, a: Action, n: string)
    requires a.Lock? || a.Unlock?
    ensures Users(Do(s, a), n) == Users(s, n)
  {
  }

  lemma LeaveRemovesUser(s: State, t: Thread, n: string)
    requires t in s.visits && s.visits[t].pc == Leaving && s.visits[t].entry < |s.heap|
    ensures Users(Do(s, Leave(t)), n) == if n == s.visits[t].meeting then Users(s, n) - {t} else Users(s, n)
  {
  }

  lemma EnterKeepsRefs(s: State, t: Thread, m: string)
    requires OneEntry(s) && RefsCount(s) && OneEntry(Do(s, Enter(t, m))) && m != "" && t !in s.visits
    ensures RefsCount(Do(s, Enter(t, m)))
  {
    var s' := Do(s, Enter(t, m));
    assert m !in s.table ==> Users(s, m) == {};
    forall n | n in s'.table ensures s'.heap[s'.table[n]].refs == |Users(s', n)| && Users(s', n) != {} {
      EnterAddsUser(s, t, m, n);
      assert t !in Users(s, n);
    }
  }

  lemma LockKeepsRefs(s: State, a: Action)
    requires OneEntry(s) && RefsCount(s) && OneEntry(Do(s, a)) && (a.Lock? || a.Unlock?)
    ensures RefsCount(Do(s, a))
  {
    var s' := Do(s, a);
    assert s'.table == s.table && forall e | 0 <= e < |s.heap| :: e < |s'.heap| && s'.heap[e].refs == s.heap[e].refs;
    forall m | m in s'.table ensures s'.heap[s'.table[m]].refs == |Users(s', m)| && Users(s', m) != {} {
      LockKeepsUsers(s, a, m);
    }
  }

  lemma LeaveKeepsRefs(s: State, t: Thread)
    requires OneEntry(s) && RefsCount(s) && t in s.visits && s.visits[t].pc == Leaving
    ensures OneEntry(Do(s, Leave(t))) && RefsCount(Do(s, Leave(t)))
  {
    var s', m := Do(s, Leave(t)), s.visits[t].meeting;
    LeaveRemovesUser(s, t, m);
    assert t in Users(s, m);
    assert |Users(s', m)| == |Users(s, m)| - 1;
    forall u | u in s'.visits ensures s'.visits[u].meeting in s'.table {
      if s'.visits[u].meeting == m {
        assert u in Users(s', m);
      }
    }
    forall n | n in s'.table ensures s'.heap[s'.table[n]].refs == |Users(s', n)| && Users(s', n) != {} {
      LeaveRemovesUser(s, t, n);
    }
  }

  lemma StepKeepsInv(s: State, a: Action)
    requires Inv(s)
    ensures Inv(Do(s, a))
  {
    if a.Leave? {
      if a.thread in s.visits && s.visits[a.thread].pc == Leaving {
        LeaveKeepsRefs(s, a.thread);
      }
    } else {
      StepKeepsOneEntry(s, a);
      if a.Enter? {
        if a.meeting != "" && a.thread !in s.visits {
          EnterKeepsRefs(s, a.thread, a.meeting);
        }
      } else {
        LockKeepsRefs(s, a);
      }
    }
    StepKeepsHolders(s, a);
  }

  lemma {:induction false} Reachable(acts: seq<Action>)
    ensures Inv(Run(acts))
  {
    if acts != [] {
      Reachable(acts[..|acts| - 1]);
      StepKeepsInv(Run(acts[..|acts| - 1]), acts[|acts| - 1]);
    }
  }

  // ----- results -----

  /** Mutual exclusion: in every interleaving at most one thread is inside per meeting. */
  lemma MutualExclusion(acts: seq<Action>, t: Thread, u: Thread)
    requires var s := Run(acts); t in s.visits && u in s.visits
    requires var s := Run(acts);
             s.visits[t].pc == Inside && s.visits[u].pc == Inside && s.visits[t].meeting == s.visits[u].meeting
    ensures t == u
  {
    Reachable(acts);
  }

  /** While anyone uses the lock of `m`, the table holds the one entry all of them share, and its
      count is the number of threads waiting, inside and leaving; otherwise the table has no entry. */
  lemma RefsAreExact(acts: seq<Action>, m: string)
    ensures var s := Run(acts);
            && (m in s.table <==> Users(s, m) != {})
            && (m in s.table ==>
                  && s.table[m] < |s.heap| && s.heap[s.table[m]].refs == |Users(s, m)|
                  && forall t | t in Users(s, m) :: s.visits[t].entry == s.table[m])
  {
    Reachable(acts);
  }

  /** An entry that leaves the table was used by no thread but the one leaving. */
  lemma DeletionIsSafe(acts: seq<Action>, a: Action, m: string)
    requires m in Run(acts).table && m !in Do(Run(acts), a).table
    ensures a.Leave? && Users(Run(acts), m) == {a.thread}
    ensures forall t | t in Do(Run(acts), a).visits :: Do(Run(acts), a).visits[t].entry != Run(acts).table[m]
  {
    Reachable(acts);
    var s, s' := Run(acts), Do(Run(acts), a);
    StepKeepsInv(s, a);
    assert a.thread in Users(s, m) && |Users(s, m)| == 1;
    assert |Users(s, m) - {a.thread}| == 0;
  }

  /** Once every thread has released, nothing remains. */
  lemma NothingLeaks(acts: seq<Action>)
    requires Run(acts).visits == map[]
    ensures Run(acts).table == map[]
  {
    Reachable(acts);
    forall m ensures m !in Run(acts).table { RefsAreExact(acts, m); }
  }

  /** The lock is never stuck: a waiting thread can take the mutex, unless another thread is inside,
      which can unlock. */
  lemma SomeoneCanMove(acts: seq<Action>, t: Thread)
    requires t in Run(acts).visits && Run(acts).visits[t].pc == Waiting
    ensures var s := Run(acts);
            || (t in Do(s, Lock(t)).visits && Do(s, Lock(t)).visits[t].pc == Inside)
            || exists u :: u in s.visits && u != t && s.visits[u].pc == Inside && s.visits[u].entry == s.visits[t].entry
  {
    Reachable(acts);
    var s := Run(acts);
    var e := s.visits[t].entry;
    if s.heap[e].holder.HeldBy? {
      assert s.visits[s.heap[e].holder.thread].pc == Inside;
    }
  }
}
