/** The client's remote-video render scheduler, as functions on one value: a bounded deadline queue with
    audio-clock rescheduling, cadence pacing, stale-PTS drops, caps and ticket-based invalidation. The
    history fields record what became of every frame; nothing in the scheduler reads them. */
module RenderModel {

  datatype Tuning = Tuning(maxDepth: int, maxPerPeer: int, maxAudioDelay: int, maxFrames: int, minCadence: int,
                           maxCadence: int)

  /** The bounds the environment variables are clamped to. */
  predicate ValidTuning(k: Tuning) {
    && 2 <= k.maxDepth <= 32 && 1 <= k.maxPerPeer <= 16 && 10 <= k.maxAudioDelay <= 500 && 1 <= k.maxFrames <= 8
    && 1 <= k.minCadence <= 100 && k.minCadence <= k.maxCadence <= 200
  }

  /** `order` is the enqueue sequence number, `frame` identifies what the render closure shows. */
  datatype Task = Task(due: int, deadline: int, pts: int, order: nat, ticket: nat, peer: string, frame: nat)

  /** How a frame entered; and a frame shown in the epoch of a ticket, when it was checked and when its
      callback had run. */
  datatype Origin = Origin(ticket: nat, pts: int, deadline: int, now: int, delay: int)
  datatype Shown = Shown(frame: nat, pts: int, epoch: nat, at: int, done: int)

  /** `epochs[e]` is how many frames had been taken in when ticket `e` was issued. */
  datatype World = World(queue: seq<Task>, enqSeq: nat, ticket: nat, lastAt: int, lastPts: int,
                         clock: int, origins: seq<Origin>, epochs: seq<nat>, rendered: seq<Shown>,
                         stale: seq<Task>, trimmed: seq<Task>, cleared: seq<Task>)

  const INITIAL := World([], 0, 0, 0, -1, 0, [], [0], [], [], [], [])

  // ----- sequences of tasks -----

  function InsertAt(q: seq<Task>, i: nat, t: Task): seq<Task>
    requires i <= |q|
  {
    q[..i] + [t] + q[i..]
  }

  function RemoveAt(q: seq<Task>, i: nat): seq<Task>
    requires i < |q|
  {
    q[..i] + q[i + 1..]
  }

  function FrameCount(q: seq<Task>, frame: nat): nat {
    if q == [] then 0 else FrameCount(q[..|q| - 1], frame) + if q[|q| - 1].frame == frame then 1 else 0
  }

  function PeerCount(q: seq<Task>, peer: string): nat {
    if q == [] then 0 else PeerCount(q[..|q| - 1], peer) + if q[|q| - 1].peer == peer then 1 else 0
  }

  /** The last `n` tasks, and those before them. */
  function LastOf(q: seq<Task>, n: int): seq<Task> {
    if 0 <= n < |q| then q[|q| - n..] else q
  }

  function AllBut(q: seq<Task>, n: int): seq<Task> {
    if 0 <= n < |q| then q[..|q| - n] else []
  }

  // ----- the deadline queue -----

  predicate Less(a: Task, b: Task) {
    a.due < b.due || (a.due == b.due && a.order < b.order)
  }

  /** Where `t` goes: before the first task it precedes. */
  function Position(q: seq<Task>, t: Task): (i: nat)
    ensures i <= |q|
  {
    if q == [] then 0
    else
      var i := Position(q[..|q| - 1], t);
      if i < |q| - 1 then i else if Less(t, q[|q| - 1]) then |q| - 1 else |q|
  }

  function Insert(q: seq<Task>, t: Task): seq<Task> {
    InsertAt(q, Position(q, t), t)
  }

  /** The first task of a peer. */
  function FirstOf(q: seq<Task>, peer: string): (i: nat)
    ensures i <= |q|
    ensures i < |q| ==> q[i].peer == peer
    ensures forall j | 0 <= j < i :: q[j].peer != peer
  {
    if q == [] then 0 else if q[0].peer == peer then 0 else 1 + FirstOf(q[1..], peer)
  }

  /** The oldest tasks of a peer go until it is within its cap. */
  function TrimPeer(q: seq<Task>, peer: string, cap: int): seq<Task>
    decreases |q|
  {
    var i := FirstOf(q, peer);
    if PeerCount(q, peer) > cap && i < |q| then TrimPeer(RemoveAt(q, i), peer, cap) else q
  }

  /** The tasks `TrimPeer` takes out, in turn. */
  function PeerTrims(q: seq<Task>, peer: string, cap: int): seq<Task>
    decreases |q|
  {
    var i := FirstOf(q, peer);
    if PeerCount(q, peer) > cap && i < |q| then [q[i]] + PeerTrims(RemoveAt(q, i), peer, cap) else []
  }

  function NewTask(w: World, k: Tuning, now: int, delay: int, pts: int, peer: string): Task {
    var due := now + if delay > 0 then delay else 0;
    Task(due, if k.maxAudioDelay > 0 then due + k.maxAudioDelay else 0, pts, w.enqSeq + 1, w.ticket, peer, |w.origins|)
  }

  function Enqueue(w: World, k: Tuning, now: int, delay: int, pts: int, peer: string): World {
    var t := NewTask(w, k, now, delay, pts, peer);
    var grown := Insert(w.queue, t);
    var fair := if peer != "" then TrimPeer(grown, peer, k.maxPerPeer) else grown;
    var unfair := if peer != "" then PeerTrims(grown, peer, k.maxPerPeer) else [];
    w.(queue := LastOf(fair, k.maxDepth), enqSeq := w.enqSeq + 1, clock := now,
       origins := w.origins + [Origin(w.ticket, pts, t.deadline, now, delay)],
       trimmed := w.trimmed + unfair + AllBut(fair, k.maxDepth))
  }

  function Invalidate(w: World): World {
    w.(queue := [], ticket := w.ticket + 1, lastAt := 0, lastPts := -1, epochs := w.epochs + [|w.origins|],
       cleared := w.cleared + w.queue)
  }

  // ----- audio clock -----

  function AudioMs(pts: int, rate: int): int {
    if pts < 0 || rate <= 0 then -1 else pts * 1000 / rate
  }

  function VideoMs(pts: int): int {
    if pts < 0 then -1 else pts * 1000 / 90000
  }

  /** How long the audio clock asks a video frame to wait. */
  function SuggestDelay(videoPts: int, audioPts: int, rate: int, max: int): (d: int)
    ensures 0 <= d && (max > 0 ==> d <= max)
  {
    if max <= 0 || VideoMs(videoPts) < 0 || AudioMs(audioPts, rate) < 0 then 0
    else
      var skew := VideoMs(videoPts) - AudioMs(audioPts, rate);
      if skew <= 0 then 0 else if skew >= max then max else skew
  }

  /** Conversion to a 32-bit signed integer. */
  function Int32(x: int): int {
    (x + 0x8000_0000) % 0x1_0000_0000 - 0x8000_0000
  }

  function Clamp(x: int, lo: int, hi: int): int {
    if x < lo then lo else if x > hi then hi else x
  }

  // ----- draining -----

  /** What one round of the drain loop sees: the clock before and after, the audio clock if there is a
      call, and whether the render callback re-enters and invalidates the queue. */
  datatype Tick = Tick(check: int, after: int, hasAudio: bool, audioPts: int, rate: int, invalidates: bool)

  predicate ValidPts(t: Task) {
    t.pts >= 0
  }

  /** The order due tasks are shown in: valid timestamps first, by timestamp, then by deadline. */
  predicate Comes(a: Task, b: Task) {
    if ValidPts(a) != ValidPts(b) then ValidPts(a)
    else if ValidPts(a) && a.pts != b.pts then a.pts < b.pts
    else Less(a, b)
  }

  function SortPosition(q: seq<Task>, t: Task): (i: nat)
    ensures i <= |q|
  {
    if q == [] then 0
    else
      var i := SortPosition(q[..|q| - 1], t);
      if i < |q| - 1 then i else if Comes(t, q[|q| - 1]) then |q| - 1 else |q|
  }

  /** A stable sort by `Comes`. */
  function SortDue(q: seq<Task>): seq<Task> {
    if q == [] then []
    else
      var s, t := SortDue(q[..|q| - 1]), q[|q| - 1];
      InsertAt(s, SortPosition(s, t), t)
  }

  /** How many tasks at the front are due. */
  function DueCount(q: seq<Task>, now: int): (n: nat)
    ensures n <= |q|
    ensures forall i | 0 <= i < n :: q[i].due <= now
    ensures n < |q| ==> q[n].due > now
  {
    if q == [] || q[0].due > now then 0 else 1 + DueCount(q[1..], now)
  }

  datatype Verdict = Gone | Stale | Again(due: int) | Show

  /** The cadence a frame must keep to the previous one, if there is one to keep. */
  predicate Paced(w: World, t: Task) {
    t.pts >= 0 && w.lastPts >= 0 && w.lastAt > 0 && VideoMs(t.pts) > VideoMs(w.lastPts)
  }

  function Cadence(w: World, t: Task, k: Tuning): int {
    Clamp(Int32(VideoMs(t.pts) - VideoMs(w.lastPts)), k.minCadence, k.maxCadence)
  }

  /** What happens to a due task. */
  function Judge(w: World, t: Task, tick: Tick, k: Tuning): Verdict {
    if t.ticket != w.ticket then Gone
    else if t.pts >= 0 && w.lastPts >= 0 && t.pts <= w.lastPts then Stale
    else
      var extra :=
        if tick.hasAudio && t.pts >= 0 then SuggestDelay(t.pts, tick.audioPts, tick.rate, k.maxAudioDelay) else 0;
      if extra > 0 && !(t.deadline > 0 && tick.check + extra >= t.deadline) then Again(tick.check + extra)
      else if Paced(w, t) && tick.check - w.lastAt < Cadence(w, t, k)
      then Again(tick.check + (Cadence(w, t, k) - Int32(tick.check - w.lastAt)))
      else Show
  }

  /** Showing a frame; its callback may invalidate the queue under the drain. */
  function ShowFrame(w: World, t: Task, tick: Tick): World {
    var shown := w.(rendered := w.rendered + [Shown(t.frame, t.pts, w.ticket, tick.check, tick.after)]);
    var after := if tick.invalidates then Invalidate(shown) else shown;
    after.(lastAt := tick.after, lastPts := if t.pts >= 0 then t.pts else after.lastPts, clock := tick.after)
  }

  /** The drain loop carries the tasks to be queued again. */
  datatype Loop = Loop(w: World, again: seq<Task>)

  function Round(l: Loop, t: Task, tick: Tick, k: Tuning): Loop {
    match Judge(l.w, t, tick, k)
    case Gone => l.(w := l.w.(cleared := l.w.cleared + [t]))
    case Stale => l.(w := l.w.(stale := l.w.stale + [t]))
    case Again(due) =>
      Loop(l.w.(enqSeq := l.w.enqSeq + 1, clock := tick.check), l.again + [t.(due := due, order := l.w.enqSeq + 1)])
    case Show => l.(w := ShowFrame(l.w, t, tick))
  }

  function Rounds(l: Loop, ts: seq<Task>, ticks: nat -> Tick, k: Tuning): Loop {
    if ts == [] then l else Round(Rounds(l, ts[..|ts| - 1], ticks, k), ts[|ts| - 1], ticks(|ts| - 1), k)
  }

  function InsertAll(q: seq<Task>, ts: seq<Task>): seq<Task> {
    if ts == [] then q else Insert(InsertAll(q, ts[..|ts| - 1]), ts[|ts| - 1])
  }

  /** The due tasks that stay when a backlog is cut, in showing order. */
  function Selected(w: World, k: Tuning, now: int): seq<Task> {
    LastOf(SortDue(w.queue[..DueCount(w.queue, now)]), k.maxFrames)
  }

  function TakeDue(w: World, k: Tuning, now: int): World {
    var n := DueCount(w.queue, now);
    w.(queue := w.queue[n..], clock := now, trimmed := w.trimmed + AllBut(SortDue(w.queue[..n]), k.maxFrames))
  }

  function PutBack(l: Loop, k: Tuning): World {
    var q := InsertAll(l.w.queue, l.again);
    l.w.(queue := LastOf(q, k.maxDepth), trimmed := l.w.trimmed + AllBut(q, k.maxDepth))
  }

  function Drain(w: World, k: Tuning, now: int, sharing: bool, ticks: nat -> Tick): World {
    if w.queue == [] then w
    else if sharing then Invalidate(w)
    else PutBack(Rounds(Loop(TakeDue(w, k, now), []), Selected(w, k, now), ticks, k), k)
  }

  // ----- runs -----

  datatype Op = OpEnqueue(now: int, delay: int, pts: int, peer: string)
              | OpDrain(now: int, sharing: bool, ticks: nat -> Tick)
              | OpInvalidate

  function Do(w: World, k: Tuning, op: Op): World {
    match op
    case OpEnqueue(now, delay, pts, peer) => Enqueue(w, k, now, delay, pts, peer)
    case OpDrain(now, sharing, ticks) => Drain(w, k, now, sharing, ticks)
    case OpInvalidate => Invalidate(w)
  }

  function Run(k: Tuning, ops: seq<Op>): World {
    if ops == [] then INITIAL else Do(Run(k, ops[..|ops| - 1]), k, ops[|ops| - 1])
  }

  /** The readings of one drain never go back. */
  ghost predicate SteadyTicks(now: int, ticks: nat -> Tick) {
    && now <= ticks(0).check
    && (forall i: nat :: ticks(i).check <= ticks(i).after)
    && (forall i: nat, j: nat | i < j :: ticks(i).after <= ticks(j).check)
  }

  ghost predicate SteadyOp(w: World, op: Op) {
    match op
    case OpEnqueue(now, _, _, _) => w.clock <= now
    case OpDrain(now, _, ticks) => w.clock <= now && SteadyTicks(now, ticks)
    case OpInvalidate => true
  }

  /** The clock starts at or after 0 and never goes back over the whole run. */
  ghost predicate SteadyRun(k: Tuning, ops: seq<Op>) {
    forall i | 0 <= i < |ops| :: SteadyOp(Run(k, ops[..i]), ops[i])
  }
}
