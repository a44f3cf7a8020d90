/** Refreshes and removals at the granularity of their locks. A refresh erases the source's feedback entries,
    clears its subscribers, and then adds each subscriber and notes its feedback entry, each under a lock of
    its own; a removal clears, unregisters and erases. Two threads may be inside at once, so what counts is
    the log of these events in the order the locks were taken. */
module MediaEvents {
  import opened Bytes
  import opened RtpParser
  import opened RtpRouter
  import opened MediaRoutes

  datatype Event = Erased(source: u32)
                 | Cleared(source: u32)
                 | Unlinked(source: u32)                      // UnregisterPublisher
                 | Added(source: u32, sub: Subscriber)
                 | Noted(source: u32, sub: Subscriber)
                 | Entered(source: u32)                       // RegisterPublisher
                 | Routed(packet: seq<byte>)

  function Effect(t: Tables, cap: nat, e: Event): Tables {
    match e
    case Erased(s) => t.(feedback := Forget(t.feedback, s))
    case Cleared(s) => t.(routes := RemoveSubscribers(t.routes, s))
    case Unlinked(s) => t.(routes := t.routes - {s})
    case Added(s, sub) => t.(routes := AddSubscriber(t.routes, cap, s, sub.ssrc, sub.endpoint))
    case Noted(s, sub) => t.(feedback := t.feedback[(sub.endpoint, sub.ssrc) := s])
    case Entered(s) => t.(routes := Register(t.routes, cap, s))
    case Routed(p) => t.(routes := Route(t.routes, p))
  }

  function Replay(cap: nat, log: seq<Event>): Tables {
    if log == [] then NONE else Effect(Replay(cap, log[..|log| - 1]), cap, log[|log| - 1])
  }

  lemma ReplayAppend(cap: nat, log: seq<Event>, e: Event)
    ensures Replay(cap, log + [e]) == Effect(Replay(cap, log), cap, e)
  {
    assert (log + [e])[..|log|] == log;
  }

  /** The router takes every subscriber it is given. */
  ghost predicate Accepted(log: seq<Event>) {
    forall i | 0 <= i < |log| && log[i].Added? :: log[i].source != 0 && log[i].sub.ssrc != 0
  }

  // ----- what is left of a log -----

  predicate Erases(e: Event, s: u32) {
    e == Erased(s)
  }

  /** Another source takes the same feedback key over. */
  predicate TakesOver(e: Event, s: u32, sub: Subscriber) {
    e.Noted? && e.sub == sub && e.source != s
  }

  predicate Clears(e: Event, s: u32) {
    e == Cleared(s) || e == Unlinked(s)
  }

  /** Note number `n` still stands at the end of the log. */
  ghost predicate LiveNote(log: seq<Event>, n: nat, s: u32, sub: Subscriber) {
    && n < |log| && log[n] == Noted(s, sub)
    && forall j | n < j < |log| :: !Erases(log[j], s) && !TakesOver(log[j], s, sub)
  }

  ghost predicate LiveAdd(log: seq<Event>, p: nat, s: u32, sub: Subscriber) {
    && p < |log| && log[p] == Added(s, sub)
    && forall j | p < j < |log| :: !Clears(log[j], s)
  }

  ghost predicate NoteStands(log: seq<Event>, s: u32, sub: Subscriber) {
    exists n: nat :: LiveNote(log, n, s, sub)
  }

  ghost predicate AddStands(log: seq<Event>, s: u32, sub: Subscriber) {
    exists p: nat :: LiveAdd(log, p, s, sub)
  }

  lemma NoteStep(log: seq<Event>, e: Event, s: u32, sub: Subscriber)
    ensures NoteStands(log + [e], s, sub) <==>
            e == Noted(s, sub) || (NoteStands(log, s, sub) && !Erases(e, s) && !TakesOver(e, s, sub))
  {
    var all := log + [e];
    if n: nat :| LiveNote(all, n, s, sub) {
      if n < |log| {
        assert forall j | n < j < |log| :: all[j] == log[j];
        assert LiveNote(log, n, s, sub) && all[|log|] == e;
      }
    }
    if n: nat :| LiveNote(log, n, s, sub) && !Erases(e, s) && !TakesOver(e, s, sub) {
      assert LiveNote(all, n, s, sub);
    }
    if e == Noted(s, sub) {
      assert LiveNote(all, |log|, s, sub);
    }
  }

  lemma AddStep(log: seq<Event>, e: Event, s: u32, sub: Subscriber)
    ensures AddStands(log + [e], s, sub) <==> e == Added(s, sub) || (AddStands(log, s, sub) && !Clears(e, s))
  {
    var all := log + [e];
    if p: nat :| LiveAdd(all, p, s, sub) {
      if p < |log| {
        assert forall j | p < j < |log| :: all[j] == log[j];
        assert LiveAdd(log, p, s, sub) && all[|log|] == e;
      }
    }
    if p: nat :| LiveAdd(log, p, s, sub) && !Clears(e, s) {
      assert LiveAdd(all, p, s, sub);
    }
    if e == Added(s, sub) {
      assert LiveAdd(all, |log|, s, sub);
    }
  }

  lemma FeedbackStep(t: Tables, cap: nat, e: Event, s: u32, sub: Subscriber)
    ensures LeadsTo(Effect(t, cap, e).feedback, sub, s) <==>
            e == Noted(s, sub) || (LeadsTo(t.feedback, sub, s) && !Erases(e, s) && !TakesOver(e, s, sub))
  {
  }

  lemma RouteStep(t: Tables, cap: nat, e: Event, s: u32, sub: Subscriber)
    requires e.Added? ==> e.source != 0 && e.sub.ssrc != 0
    ensures sub in SubscribersOf(Effect(t, cap, e).routes, s) <==>
            e == Added(s, sub) || (sub in SubscribersOf(t.routes, s) && !Clears(e, s))
  {
  }

  /** The feedback index leads from a key to a source exactly if a note of it still stands. */
  lemma {:induction false} FeedbackLaw(cap: nat, log: seq<Event>, s: u32, sub: Subscriber)
    ensures LeadsTo(Replay(cap, log).feedback, sub, s) <==> NoteStands(log, s, sub)
  {
    if log != [] {
      var front, e := log[..|log| - 1], log[|log| - 1];
      FeedbackLaw(cap, front, s, sub);
      FeedbackStep(Replay(cap, front), cap, e, s, sub);
      NoteStep(front, e, s, sub);
      assert front + [e] == log;
    }
  }

  /** The router has a subscriber of a source exactly if an addition of it still stands. */
  lemma {:induction false} RouteLaw(cap: nat, log: seq<Event>, s: u32, sub: Subscriber)
    requires Accepted(log)
    ensures sub in SubscribersOf(Replay(cap, log).routes, s) <==> AddStands(log, s, sub)
  {
    if log != [] {
      var front, e := log[..|log| - 1], log[|log| - 1];
      RouteLaw(cap, front, s, sub);
      RouteStep(Replay(cap, front), cap, e, s, sub);
      AddStep(front, e, s, sub);
      assert front + [e] == log;
    }
  }

  /** The entries of one source are backed. */
  ghost predicate SourceBacked(t: Tables, s: u32) {
    forall sub | LeadsTo(t.feedback, sub, s) :: sub in SubscribersOf(t.routes, s)
  }

  /** For every log whatever, of any number of threads: the entries of a source are backed if and only if
      each of its notes that still stands has an addition that still stands. */
  lemma SourceBackedIff(cap: nat, log: seq<Event>, s: u32)
    requires Accepted(log)
    ensures SourceBacked(Replay(cap, log), s) <==> forall sub :: NoteStands(log, s, sub) ==> AddStands(log, s, sub)
  {
    forall sub
      ensures LeadsTo(Replay(cap, log).feedback, sub, s) <==> NoteStands(log, s, sub)
      ensures sub in SubscribersOf(Replay(cap, log).routes, s) <==> AddStands(log, s, sub)
    {
      FeedbackLaw(cap, log, s, sub);
      RouteLaw(cap, log, s, sub);
    }
  }

  lemma BackedBySource(t: Tables)
    ensures Backed(t) <==> forall s :: SourceBacked(t, s)
  {
    if Backed(t) {
      forall s ensures SourceBacked(t, s) {
        forall sub | LeadsTo(t.feedback, sub, s) ensures sub in SubscribersOf(t.routes, s) {
          var k := (sub.endpoint, sub.ssrc);
          assert BackedAt(t.routes, k.0, k.1, t.feedback[k]);
        }
      }
    }
    if forall s :: SourceBacked(t, s) {
      forall k | k in t.feedback ensures BackedAt(t.routes, k.0, k.1, t.feedback[k]) {
        assert SourceBacked(t, t.feedback[k]);
        assert LeadsTo(t.feedback, Subscriber(k.1, k.0), t.feedback[k]);
      }
    }
  }

  // ----- a refresh that nothing disturbs -----

  /** The events of one refresh. */
  function RefreshLog(s: u32, subs: seq<Subscriber>): seq<Event> {
    if subs == [] then [Erased(s), Cleared(s)]
    else RefreshLog(s, subs[..|subs| - 1]) + [Added(s, subs[|subs| - 1])] + [Noted(s, subs[|subs| - 1])]
  }

  lemma EraseThenClear(cap: nat, log: seq<Event>, s: u32)
    ensures Replay(cap, log + [Erased(s)] + [Cleared(s)]) == ClearSource(Replay(cap, log), s)
  {
    ReplayAppend(cap, log + [Erased(s)], Cleared(s));
    ReplayAppend(cap, log, Erased(s));
  }

  lemma AddThenNote(cap: nat, log: seq<Event>, s: u32, sub: Subscriber)
    ensures Replay(cap, log + [Added(s, sub)] + [Noted(s, sub)]) == AddTarget(Replay(cap, log), cap, s, sub)
  {
    ReplayAppend(cap, log + [Added(s, sub)], Noted(s, sub));
    ReplayAppend(cap, log, Added(s, sub));
  }

  /** Undisturbed, a refresh does what it would do in one step. */
  lemma {:induction false} UndisturbedRefresh(cap: nat, log: seq<Event>, s: u32, subs: seq<Subscriber>)
    ensures Replay(cap, log + RefreshLog(s, subs)) == AddTargets(ClearSource(Replay(cap, log), s), cap, s, subs)
    decreases |subs|
  {
    if subs == [] {
      assert log + RefreshLog(s, subs) == log + [Erased(s)] + [Cleared(s)];
      EraseThenClear(cap, log, s);
    } else {
      var front, last := subs[..|subs| - 1], subs[|subs| - 1];
      UndisturbedRefresh(cap, log, s, front);
      assert log + RefreshLog(s, subs) == log + RefreshLog(s, front) + [Added(s, last)] + [Noted(s, last)];
      AddThenNote(cap, log + RefreshLog(s, front), s, last);
    }
  }

  /** And so does a removal. */
  lemma UndisturbedRemoval(cap: nat, log: seq<Event>, s: u32)
    requires s != 0
    ensures Replay(cap, log + [Cleared(s), Unlinked(s), Erased(s)]) == RemoveSource(Replay(cap, log), s)
  {
    assert log + [Cleared(s), Unlinked(s), Erased(s)] == log + [Cleared(s)] + [Unlinked(s)] + [Erased(s)];
    ReplayAppend(cap, log + [Cleared(s)] + [Unlinked(s)], Erased(s));
    ReplayAppend(cap, log + [Cleared(s)], Unlinked(s));
    ReplayAppend(cap, log, Cleared(s));
    assert RemoveSubscribers(Replay(cap, log).routes, s) - {s} == Replay(cap, log).routes - {s};
  }

  // ----- caches -----

  lemma EventKeepsTruthful(t: Tables, cap: nat, e: Event)
    requires Truthful(t.routes)
    ensures Truthful(Effect(t, cap, e).routes)
  {
    var r, r' := t.routes, Effect(t, cap, e).routes;
    forall s, q | Cached(r', s, q).Some?
      ensures var p := Parse(Cached(r', s, q).value);
              p.Some? && p.value.header.ssrc == s && p.value.header.sequence == q
    {
      if e.Routed? {
        if Cached(r', s, q) != Cached(r, s, q) {
          StoreKeepsOthers(r[s].nack, Parse(e.packet).value.header.sequence, e.packet, q);
        }
      } else {
        assert Cached(r, s, q) == Cached(r', s, q);
      }
    }
  }

  /** Whatever overlaps, the caches hold what was sent. */
  lemma {:induction false} CachesAlwaysTruthful(cap: nat, log: seq<Event>)
    ensures Truthful(Replay(cap, log).routes)
  {
    if log != [] {
      CachesAlwaysTruthful(cap, log[..|log| - 1]);
      EventKeepsTruthful(Replay(cap, log[..|log| - 1]), cap, log[|log| - 1]);
    }
  }
}
