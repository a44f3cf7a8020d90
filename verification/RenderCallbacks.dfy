/** What a render callback that invalidates the queue does to the frames that follow. */
module RenderCallbacks {
  import opened RenderModel

  /** The drain notes the frame after its callback ran, so an invalidation by the callback leaves the old
      epoch's timestamp behind unless the frame had none. */
  lemma CallbackLeavesTimestamp(w: World, t: Task, tick: Tick)
    requires tick.invalidates
    ensures ShowFrame(w, t, tick).lastPts == -1 <==> !ValidPts(t)
    ensures ValidPts(t) ==> ShowFrame(w, t, tick).lastPts == t.pts
  {
  }

  /** Then a frame of the new epoch is dropped as stale exactly if both timestamps are valid and its own is
      not above the old one. */
  lemma StaleAfterCallbackIff(w: World, t: Task, tick: Tick, u: Task, next: Tick, k: Tuning)
    requires tick.invalidates && u.ticket == ShowFrame(w, t, tick).ticket
    ensures Judge(ShowFrame(w, t, tick), u, next, k) == Stale <==> ValidPts(t) && 0 <= u.pts <= t.pts
  {
  }

  lemma SelectsOne(w: World, k: Tuning, now: int, t: Task)
    requires ValidTuning(k) && w.queue == [t] && t.due <= now
    ensures Selected(w, k, now) == [t] && TakeDue(w, k, now) == w.(queue := [], clock := now)
  {
    assert DueCount([t], now) == 1 && [t][..1] == [t] && [t][..0] == [];
    assert SortDue([]) == [] && SortDue([t]) == [t];
    assert w.trimmed + [] == w.trimmed;
  }

  lemma RoundsOne(l: Loop, t: Task, ticks: nat -> Tick, k: Tuning)
    ensures Rounds(l, [t], ticks, k) == Round(l, t, ticks(0), k)
  {
    assert [t][..0] == [];
    assert Rounds(l, [], ticks, k) == l;
  }

  lemma DrainsOne(w: World, k: Tuning, now: int, ticks: nat -> Tick, t: Task)
    requires ValidTuning(k) && w.queue == [t] && t.due <= now
    ensures Drain(w, k, now, false, ticks) ==
            PutBack(Round(Loop(w.(queue := [], clock := now), []), t, ticks(0), k), k)
  {
    SelectsOne(w, k, now, t);
    RoundsOne(Loop(w.(queue := [], clock := now), []), t, ticks, k);
  }

  lemma EnqueueOne(w: World, k: Tuning, now: int, pts: int)
    requires ValidTuning(k) && w.queue == []
    ensures Enqueue(w, k, now, 0, pts, "").queue == [NewTask(w, k, now, 0, pts, "")]
  {
  }

  const CALLBACK: nat -> Tick := (i: nat) => Tick(1, 2, false, 0, 0, true)
  const PLAIN: nat -> Tick := (i: nat) => Tick(3, 3, false, 0, 0, false)

  /** One frame shown by a callback that invalidates, then one frame of the new epoch. */
  function TwoFrames(p: int, q: int): seq<Op> {
    [OpEnqueue(1, 0, p, ""), OpDrain(1, false, CALLBACK), OpEnqueue(3, 0, q, ""), OpDrain(3, false, PLAIN)]
  }

  lemma RunSnoc(k: Tuning, ops: seq<Op>, i: nat)
    requires i < |ops|
    ensures Run(k, ops[..i + 1]) == Do(Run(k, ops[..i]), k, ops[i])
  {
    assert ops[..i + 1][..i] == ops[..i];
  }

  lemma OneTaskRound(w: World, k: Tuning, now: int, pts: int, ticks: nat -> Tick)
    requires ValidTuning(k) && w.queue == []
    ensures var e, t := Enqueue(w, k, now, 0, pts, ""), NewTask(w, k, now, 0, pts, "");
            Drain(e, k, now, false, ticks) == PutBack(Round(Loop(e.(queue := [], clock := now), []), t, ticks(0), k), k)
  {
    EnqueueOne(w, k, now, pts);
    DrainsOne(Enqueue(w, k, now, 0, pts, ""), k, now, ticks, NewTask(w, k, now, 0, pts, ""));
  }

  lemma FirstFrameShown(k: Tuning, p: int)
    requires ValidTuning(k)
    ensures var w := Drain(Enqueue(INITIAL, k, 1, 0, p, ""), k, 1, false, CALLBACK);
            w.queue == [] && w.stale == [] && w.lastPts == (if p >= 0 then p else -1)
  {
    OneTaskRound(INITIAL, k, 1, p, CALLBACK);
    var l, t := Loop(Enqueue(INITIAL, k, 1, 0, p, "").(queue := [], clock := 1), []), NewTask(INITIAL, k, 1, 0, p, "");
    assert Judge(l.w, t, CALLBACK(0), k) == Show;
  }

  lemma SecondFrameLostIff(w: World, k: Tuning, q: int)
    requires ValidTuning(k) && w.queue == [] && w.stale == []
    ensures Drain(Enqueue(w, k, 3, 0, q, ""), k, 3, false, PLAIN).stale != [] <==> w.lastPts >= 0 && 0 <= q <= w.lastPts
  {
    OneTaskRound(w, k, 3, q, PLAIN);
  }

  lemma FourSteps(k: Tuning, ops: seq<Op>)
    requires |ops| == 4
    ensures Run(k, ops) == Do(Do(Do(Do(INITIAL, k, ops[0]), k, ops[1]), k, ops[2]), k, ops[3])
  {
    assert ops[..0] == [] && ops[..4] == ops;
    RunSnoc(k, ops, 0);
    RunSnoc(k, ops, 1);
    RunSnoc(k, ops, 2);
    RunSnoc(k, ops, 3);
  }

  /** Over that run the new epoch's frame is lost, never shown, exactly if its valid timestamp is not above
      the old one. */
  lemma NewEpochFrameLostIff(k: Tuning, p: int, q: int)
    requires ValidTuning(k)
    ensures Run(k, TwoFrames(p, q)).stale != [] <==> p >= 0 && 0 <= q <= p
  {
    FourSteps(k, TwoFrames(p, q));
    FirstFrameShown(k, p);
    SecondFrameLostIff(Drain(Enqueue(INITIAL, k, 1, 0, p, ""), k, 1, false, CALLBACK), k, q);
  }
}
