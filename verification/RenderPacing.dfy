/** When a frame is shown: against the audio clock, the last frame's cadence and its own delay. */
module RenderPacing {
  import opened RenderModel
  import opened RenderQueues
  import opened RenderRuns

  // ----- the clocks in milliseconds -----

  /** `v` is the whole millisecond of a timestamp of the 90 kHz video clock. */
  predicate VideoTime(pts: int, v: int) {
    0 <= pts && v * 90 <= pts < v * 90 + 90
  }

  /** `a` is the whole millisecond of a count of audio samples. */
  predicate AudioTime(pts: int, rate: int, a: int) {
    0 <= pts && 0 < rate && a * rate <= pts * 1000 < (a + 1) * rate
  }

  lemma VideoMsIs(pts: int, v: int)
    requires VideoTime(pts, v)
    ensures VideoMs(pts) == v
  {
  }

  lemma Quotient(x: int, d: int, q: int)
    requires d > 0 && q * d <= x < (q + 1) * d
    ensures x / d == q
  {
    var e := x / d;
    assert e * d <= x < (e + 1) * d;
    if e < q {
      Scales(e + 1, q, d);
    } else if q < e {
      Scales(q + 1, e, d);
    }
  }

  lemma Scales(a: int, b: int, d: int)
    requires a <= b && d > 0
    ensures a * d <= b * d
  {
  }

  lemma AudioMsIs(pts: int, rate: int, a: int)
    requires AudioTime(pts, rate, a)
    ensures AudioMs(pts, rate) == a
  {
    Quotient(pts * 1000, rate, a);
  }

  /** The audio clock makes a frame wait until the sound has caught up, and no longer than the maximum: a frame
      not ahead of the sound does not wait. */
  lemma DelayAlignsClocks(videoPts: int, audioPts: int, rate: int, max: int, v: int, a: int)
    requires VideoTime(videoPts, v) && AudioTime(audioPts, rate, a) && max > 0
    ensures var d := SuggestDelay(videoPts, audioPts, rate, max);
            (v <= a ==> d == 0) && (0 < v - a < max ==> a + d == v) && (v - a >= max ==> d == max)
  {
    VideoMsIs(videoPts, v);
    AudioMsIs(audioPts, rate, a);
    NonNegative(audioPts * 1000, rate, a);
  }

  lemma NonNegative(x: int, d: int, q: int)
    requires d > 0 && 0 <= x < (q + 1) * d
    ensures q >= 0
  {
    if q < 0 {
      Scales(q + 1, 0, d);
    }
  }

  /** Without a video timestamp or a running audio clock a frame does not wait. */
  lemma NoClockNoDelay(videoPts: int, audioPts: int, rate: int, max: int)
    requires videoPts < 0 || audioPts < 0 || rate <= 0 || max <= 0
    ensures SuggestDelay(videoPts, audioPts, rate, max) == 0
  {
  }

  // ----- what happens to a due frame -----

  function Least(a: int, b: int): int {
    if a < b then a else b
  }

  function Between(x: int, lo: int, hi: int): int {
    if x < lo then lo else Least(x, hi)
  }

  /** The frame is ahead of the sound, and waiting for it does not reach the frame's deadline. */
  predicate Ahead(t: Task, tick: Tick, k: Tuning, v: int, a: int) {
    && tick.hasAudio && t.pts >= 0 && tick.audioPts >= 0 && tick.rate > 0 && v > a
    && !(t.deadline > 0 && tick.check + Least(v - a, k.maxAudioDelay) >= t.deadline)
  }

  /** The last frame was shown less than a cadence ago; `gap` is their distance in milliseconds. */
  predicate TooSoon(w: World, t: Task, tick: Tick, k: Tuning, v: int, last: int, gap: int) {
    && t.pts >= 0 && w.lastPts >= 0 && w.lastAt > 0 && v > last
    && tick.check - w.lastAt < Between(gap, k.minCadence, k.maxCadence)
  }

  /** `v`, `a` and `last` are the times of the frame, the sound and the last frame, where they have one, and
      `gap` is `v - last` cut to 32 bits. */
  predicate Times(w: World, t: Task, tick: Tick, v: int, a: int, last: int, gap: int, q: int) {
    && (t.pts >= 0 ==> VideoTime(t.pts, v))
    && (tick.audioPts >= 0 && tick.rate > 0 ==> AudioTime(tick.audioPts, tick.rate, a))
    && (w.lastPts >= 0 ==> VideoTime(w.lastPts, last))
    && gap == v - last + q * 0x1_0000_0000 && -0x8000_0000 <= gap < 0x8000_0000
  }

  lemma CutTo32(x: int, gap: int, q: int)
    requires gap == x + q * 0x1_0000_0000 && -0x8000_0000 <= gap < 0x8000_0000
    ensures Int32(x) == gap
  {
  }

  lemma ExtraWait(w: World, t: Task, tick: Tick, k: Tuning, v: int, a: int, last: int, gap: int, q: int)
    requires ValidTuning(k) && Times(w, t, tick, v, a, last, gap, q)
    ensures var extra := if tick.hasAudio && t.pts >= 0
                         then SuggestDelay(t.pts, tick.audioPts, tick.rate, k.maxAudioDelay) else 0;
            extra == if tick.hasAudio && t.pts >= 0 && tick.audioPts >= 0 && tick.rate > 0 && v > a
                     then Least(v - a, k.maxAudioDelay) else 0
  {
    if t.pts >= 0 && tick.audioPts >= 0 && tick.rate > 0 {
      DelayAlignsClocks(t.pts, tick.audioPts, tick.rate, k.maxAudioDelay, v, a);
    } else {
      NoClockNoDelay(t.pts, tick.audioPts, tick.rate, k.maxAudioDelay);
    }
  }

  /** Exactly what happens to a due frame, in terms of the clocks: it goes with a stale ticket, is dropped
      unless its timestamp is above the last one, waits while it is ahead of the sound or too soon after the
      last frame, and is shown otherwise. */
  lemma JudgeExactly(w: World, t: Task, tick: Tick, k: Tuning, v: int, a: int, last: int, gap: int, q: int)
    requires ValidTuning(k) && Times(w, t, tick, v, a, last, gap, q)
    ensures var stale := t.pts >= 0 && w.lastPts >= 0 && t.pts <= w.lastPts;
            var ahead, soon := Ahead(t, tick, k, v, a), TooSoon(w, t, tick, k, v, last, gap);
            match Judge(w, t, tick, k)
            case Gone => t.ticket != w.ticket
            case Stale => t.ticket == w.ticket && stale
            case Show => t.ticket == w.ticket && !stale && !ahead && !soon
            case Again(due) =>
              && t.ticket == w.ticket && !stale && (ahead || soon)
              && (ahead ==> due == tick.check + Least(v - a, k.maxAudioDelay))
              && (!ahead && w.lastAt <= tick.check ==> due == w.lastAt + Between(gap, k.minCadence, k.maxCadence))
  {
    ExtraWait(w, t, tick, k, v, a, last, gap, q);
    PaceIs(w, t, tick, k, v, a, last, gap, q);
    if w.lastAt <= tick.check && tick.check - w.lastAt < Cadence(w, t, k) {
      SinceIs(w, t, tick, k);
    }
  }

  lemma PaceIs(w: World, t: Task, tick: Tick, k: Tuning, v: int, a: int, last: int, gap: int, q: int)
    requires Times(w, t, tick, v, a, last, gap, q)
    ensures Paced(w, t) <==> t.pts >= 0 && w.lastPts >= 0 && w.lastAt > 0 && v > last
    ensures Paced(w, t) ==> Cadence(w, t, k) == Between(gap, k.minCadence, k.maxCadence)
  {
    if t.pts >= 0 && w.lastPts >= 0 {
      VideoMsIs(t.pts, v);
      VideoMsIs(w.lastPts, last);
      CutTo32(v - last, gap, q);
    }
  }

  lemma SinceIs(w: World, t: Task, tick: Tick, k: Tuning)
    requires ValidTuning(k) && w.lastAt <= tick.check && tick.check - w.lastAt < Cadence(w, t, k)
    ensures Int32(tick.check - w.lastAt) == tick.check - w.lastAt
  {
  }

  // ----- frames keep their distance -----

  /** Two frames shown one after the other in one epoch, of different milliseconds, are at least their own
      distance apart, within the bounds of the tuning. Distances of 2^31 ms and more are cut. */
  predicate Apart(p: Shown, s: Shown, k: Tuning) {
    p.epoch == s.epoch && p.pts >= 0 && s.pts >= 0 && p.done > 0 && 0 < s.pts / 90 - p.pts / 90 < 0x8000_0000 ==>
      s.at - p.done >= Between(s.pts / 90 - p.pts / 90, k.minCadence, k.maxCadence)
  }

  ghost predicate Spaced(w: World, k: Tuning) {
    && (forall i | 0 < i < |w.rendered| :: Apart(w.rendered[i - 1], w.rendered[i], k))
    && (w.rendered != [] && w.rendered[|w.rendered| - 1].epoch == w.ticket ==>
        var last := w.rendered[|w.rendered| - 1]; w.lastAt == last.done && (last.pts >= 0 ==> w.lastPts == last.pts))
  }

  lemma ShownIsApart(w: World, t: Task, tick: Tick, k: Tuning)
    requires ValidTuning(k) && Spaced(w, k) && Judge(w, t, tick, k) == Show && w.rendered != []
    ensures Apart(w.rendered[|w.rendered| - 1], Shown(t.frame, t.pts, w.ticket, tick.check, tick.after), k)
  {
    var p := w.rendered[|w.rendered| - 1];
    if p.epoch == w.ticket && p.pts >= 0 && t.pts >= 0 {
      VideoMsIs(p.pts, p.pts / 90);
      VideoMsIs(t.pts, t.pts / 90);
    }
  }

  lemma RoundKeepsSpaced(l: Loop, t: Task, tick: Tick, k: Tuning)
    requires ValidTuning(k) && Spaced(l.w, k) && Progress(l.w)
    ensures Spaced(Round(l, t, tick, k).w, k)
  {
    if Judge(l.w, t, tick, k) == Show && l.w.rendered != [] {
      ShownIsApart(l.w, t, tick, k);
    }
  }

  lemma {:induction false} RoundsKeepSpaced(l: Loop, ts: seq<Task>, ticks: nat -> Tick, k: Tuning)
    requires ValidTuning(k) && Spaced(l.w, k) && Progress(l.w)
    ensures Spaced(Rounds(l, ts, ticks, k).w, k)
  {
    if ts != [] {
      RoundsKeepSpaced(l, ts[..|ts| - 1], ticks, k);
      RoundsKeepProgress(l, ts[..|ts| - 1], ticks, k);
      RoundKeepsSpaced(Rounds(l, ts[..|ts| - 1], ticks, k), ts[|ts| - 1], ticks(|ts| - 1), k);
    }
  }

  lemma InvalidateKeepsSpaced(w: World, k: Tuning)
    requires Spaced(w, k) && Progress(w)
    ensures Spaced(Invalidate(w), k)
  {
    if w.rendered != [] {
      assert w.rendered[|w.rendered| - 1] in w.rendered;
    }
  }

  lemma DoKeepsSpaced(w: World, k: Tuning, op: Op)
    requires ValidTuning(k) && Spaced(w, k) && Progress(w)
    ensures Spaced(Do(w, k, op), k)
  {
    InvalidateKeepsSpaced(w, k);
    if op.OpDrain? {
      RoundsKeepSpaced(Loop(TakeDue(w, k, op.now), []), Selected(w, k, op.now), op.ticks, k);
    }
  }

  /** Over every run, whatever the clock does. */
  lemma {:induction false} FramesKeepTheirDistance(k: Tuning, ops: seq<Op>)
    requires ValidTuning(k)
    ensures Spaced(Run(k, ops), k)
  {
    if ops != [] {
      FramesKeepTheirDistance(k, ops[..|ops| - 1]);
      RunKeeps(k, ops[..|ops| - 1]);
      DoKeepsSpaced(Run(k, ops[..|ops| - 1]), k, ops[|ops| - 1]);
    }
  }

  // ----- no frame is early -----

  /** When a frame may first be shown: the time it was enqueued plus its delay, if that is positive. */
  function ReadyAt(o: Origin): int {
    o.now + if o.delay > 0 then o.delay else 0
  }

  predicate RipeTask(t: Task, origins: seq<Origin>) {
    t.frame < |origins| && ReadyAt(origins[t.frame]) <= t.due
  }

  ghost predicate Ripe(w: World, k: Tuning) {
    && (forall o | o in w.origins :: o.deadline == ReadyAt(o) + k.maxAudioDelay)
    && (forall t | t in w.queue :: RipeTask(t, w.origins))
    && (forall s | s in w.rendered :: s.frame < |w.origins| && ReadyAt(w.origins[s.frame]) <= s.at)
  }

  ghost predicate LoopRipe(l: Loop, k: Tuning) {
    Ripe(l.w, k) && forall t | t in l.again :: RipeTask(t, l.w.origins)
  }

  /** A frame that has to wait is due later than it was checked. */
  lemma AgainIsLater(w: World, t: Task, tick: Tick, k: Tuning)
    requires ValidTuning(k) && 0 <= w.lastAt <= tick.check && Judge(w, t, tick, k).Again?
    ensures Judge(w, t, tick, k).due >= tick.check
  {
    if Paced(w, t) && tick.check - w.lastAt < Cadence(w, t, k) {
      assert Int32(tick.check - w.lastAt) == tick.check - w.lastAt;
    }
  }

  lemma RoundKeepsRipe(l: Loop, t: Task, tick: Tick, k: Tuning)
    requires ValidTuning(k) && LoopRipe(l, k) && RipeTask(t, l.w.origins) && t.due <= tick.check
             && 0 <= l.w.lastAt <= tick.check
    ensures LoopRipe(Round(l, t, tick, k), k) && Round(l, t, tick, k).w.origins == l.w.origins
  {
    if Judge(l.w, t, tick, k).Again? {
      AgainIsLater(l.w, t, tick, k);
    }
  }

  lemma {:induction false} RoundsKeepRipe(l: Loop, ts: seq<Task>, ticks: nat -> Tick, k: Tuning)
    requires ValidTuning(k) && LoopRipe(l, k) && LoopPrompt(l, k) && SteadyTicks(l.w.clock, ticks)
    requires forall t | t in ts :: RipeTask(t, l.w.origins) && t.due <= l.w.clock && t.deadline > 0
    ensures LoopRipe(Rounds(l, ts, ticks, k), k) && Rounds(l, ts, ticks, k).w.origins == l.w.origins
  {
    if ts != [] {
      var n := |ts| - 1;
      RoundsKeepRipe(l, ts[..n], ticks, k);
      RoundsKeepPrompt(l, ts[..n], ticks, k);
      assert ts[n] in ts;
      assert l.w.clock <= ticks(0).check <= ticks(n).check by {
        assert n == 0 || ticks(0).after <= ticks(n).check;
      }
      RoundKeepsRipe(Rounds(l, ts[..n], ticks, k), ts[n], ticks(n), k);
    }
  }

  lemma SelectedIsDue(w: World, k: Tuning, now: int, t: Task)
    requires t in Selected(w, k, now)
    ensures t in w.queue && t.due <= now
  {
    var due := w.queue[..DueCount(w.queue, now)];
    SortMembers(due);
    LastOfMembers(SortDue(due), k.maxFrames);
  }

  lemma DrainKeepsRipe(w: World, k: Tuning, now: int, ticks: nat -> Tick)
    requires ValidTuning(k) && Ordered(w) && AllPrompt(w, k) && Ripe(w, k) && w.clock <= now && SteadyTicks(now, ticks)
    ensures Ripe(PutBack(Drained(w, k, now, ticks), k), k)
  {
    DrainKeepsOrder(w, k, now, ticks);
    var l := Loop(TakeDue(w, k, now), []);
    forall t | t in Selected(w, k, now) ensures RipeTask(t, l.w.origins) && t.due <= now && t.deadline > 0 {
      SelectedIsDue(w, k, now, t);
      assert Prompt(t, w.lastAt, k);
    }
    RoundsKeepRipe(l, Selected(w, k, now), ticks, k);
  }

  lemma EnqueueKeepsRipe(w: World, k: Tuning, now: int, delay: int, pts: int, peer: string)
    requires ValidTuning(k) && Ordered(w) && Ripe(w, k)
    ensures Ripe(Enqueue(w, k, now, delay, pts, peer), k)
  {
    EnqueueKeepsOrder(w, k, now, delay, pts, peer);
    var v := Enqueue(w, k, now, delay, pts, peer);
    forall t | t in v.queue ensures RipeTask(t, v.origins) {
      assert t in w.queue ==> RipeTask(t, w.origins);
    }
  }

  lemma DoKeepsRipe(w: World, k: Tuning, op: Op)
    requires ValidTuning(k) && Ordered(w) && AllPrompt(w, k) && Ripe(w, k) && SteadyOp(w, op)
    ensures Ripe(Do(w, k, op), k)
  {
    match op
    case OpEnqueue(now, delay, pts, peer) => EnqueueKeepsRipe(w, k, now, delay, pts, peer);
    case OpDrain(now, sharing, ticks) =>
      if w.queue != [] && !sharing {
        DrainKeepsRipe(w, k, now, ticks);
      }
    case OpInvalidate =>
  }

  lemma {:induction false} SteadyKeepsRipe(k: Tuning, ops: seq<Op>)
    requires ValidTuning(k) && SteadyRun(k, ops)
    ensures Ripe(Run(k, ops), k)
  {
    if ops != [] {
      var n := |ops| - 1;
      forall i | 0 <= i < n ensures SteadyOp(Run(k, ops[..n][..i]), ops[..n][i]) {
        assert ops[..n][..i] == ops[..i];
      }
      SteadyKeepsRipe(k, ops[..n]);
      NeverPostponedBeyondBound(k, ops[..n]);
      RunKeeps(k, ops[..n]);
      assert SteadyOp(Run(k, ops[..n]), ops[n]);
      DoKeepsRipe(Run(k, ops[..n]), k, ops[n]);
    }
  }

  /** Under a clock that never goes back no frame is shown before the time it was enqueued plus its delay, none
      is queued for an earlier time, and none for later than the maximal audio delay after that or one maximal
      cadence after the last frame. */
  lemma FramesAreOnTime(k: Tuning, ops: seq<Op>)
    requires ValidTuning(k) && SteadyRun(k, ops)
    ensures var w := Run(k, ops);
            && (forall s | s in w.rendered :: s.frame < |w.origins| && ReadyAt(w.origins[s.frame]) <= s.at)
            && (forall t | t in w.queue ::
                  && t.frame < |w.origins| && ReadyAt(w.origins[t.frame]) <= t.due
                  && (t.due <= ReadyAt(w.origins[t.frame]) + k.maxAudioDelay || t.due <= w.lastAt + k.maxCadence))
  {
    SteadyKeepsRipe(k, ops);
    NeverPostponedBeyondBound(k, ops);
    RunKeeps(k, ops);
    OnTimeIn(Run(k, ops), k);
  }

  lemma OnTimeIn(w: World, k: Tuning)
    requires Ripe(w, k) && AllPrompt(w, k) && AllRooted(w)
    ensures forall t | t in w.queue ::
              && t.frame < |w.origins| && ReadyAt(w.origins[t.frame]) <= t.due
              && (t.due <= ReadyAt(w.origins[t.frame]) + k.maxAudioDelay || t.due <= w.lastAt + k.maxCadence)
  {
    forall t | t in w.queue
      ensures t.frame < |w.origins| && ReadyAt(w.origins[t.frame]) <= t.due
      ensures t.due <= ReadyAt(w.origins[t.frame]) + k.maxAudioDelay || t.due <= w.lastAt + k.maxCadence
    {
      assert RipeTask(t, w.origins) && Rooted(t, w) && Prompt(t, w.lastAt, k);
      assert w.origins[t.frame] in w.origins;
    }
  }
}
