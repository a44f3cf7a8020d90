/** Facts about the render scheduler's queues of tasks: counting, strict order, trimming and the order
    due frames are shown in. */
module RenderQueues {
  import opened RenderModel

  // ----- counting frames and peers -----

  lemma {:induction false} FrameAppend(a: seq<Task>, b: seq<Task>, f: nat)
    ensures FrameCount(a + b, f) == FrameCount(a, f) + FrameCount(b, f)
  {
    if b == [] {
      assert a + b == a;
    } else {
      FrameAppend(a, b[..|b| - 1], f);
      assert (a + b)[..|a + b| - 1] == a + b[..|b| - 1];
    }
  }

  lemma {:induction false} PeerAppend(a: seq<Task>, b: seq<Task>, peer: string)
    ensures PeerCount(a + b, peer) == PeerCount(a, peer) + PeerCount(b, peer)
  {
    if b == [] {
      assert a + b == a;
    } else {
      PeerAppend(a, b[..|b| - 1], peer);
      assert (a + b)[..|a + b| - 1] == a + b[..|b| - 1];
    }
  }

  lemma FrameInsert(q: seq<Task>, i: nat, t: Task, f: nat)
    requires i <= |q|
    ensures FrameCount(InsertAt(q, i, t), f) == FrameCount(q, f) + if t.frame == f then 1 else 0
  {
    FrameAppend(q[..i] + [t], q[i..], f);
    FrameAppend(q[..i], [t], f);
    FrameAppend(q[..i], q[i..], f);
    assert q[..i] + q[i..] == q;
    assert FrameCount([t], f) == FrameCount([], f) + if t.frame == f then 1 else 0;
  }

  lemma PeerInsert(q: seq<Task>, i: nat, t: Task, peer: string)
    requires i <= |q|
    ensures PeerCount(InsertAt(q, i, t), peer) == PeerCount(q, peer) + if t.peer == peer then 1 else 0
  {
    PeerAppend(q[..i] + [t], q[i..], peer);
    PeerAppend(q[..i], [t], peer);
    PeerAppend(q[..i], q[i..], peer);
    assert q[..i] + q[i..] == q;
    assert PeerCount([t], peer) == PeerCount([], peer) + if t.peer == peer then 1 else 0;
  }

  lemma PeerRemove(q: seq<Task>, i: nat, peer: string)
    requires i < |q|
    ensures PeerCount(q, peer) == PeerCount(RemoveAt(q, i), peer) + if q[i].peer == peer then 1 else 0
  {
    assert InsertAt(RemoveAt(q, i), i, q[i]) == q;
    PeerInsert(RemoveAt(q, i), i, q[i], peer);
  }

  lemma FrameRemove(q: seq<Task>, i: nat, f: nat)
    requires i < |q|
    ensures FrameCount(q, f) == FrameCount(RemoveAt(q, i), f) + if q[i].frame == f then 1 else 0
  {
    assert InsertAt(RemoveAt(q, i), i, q[i]) == q;
    FrameInsert(RemoveAt(q, i), i, q[i], f);
  }

  lemma LastOfMembers(q: seq<Task>, n: int)
    ensures forall t | t in LastOf(q, n) :: t in q
    ensures 0 <= n ==> |LastOf(q, n)| <= n
  {
  }

  lemma LastOfPeers(q: seq<Task>, n: int, peer: string)
    ensures PeerCount(LastOf(q, n), peer) <= PeerCount(q, peer)
  {
    assert q == AllBut(q, n) + LastOf(q, n);
    PeerAppend(AllBut(q, n), LastOf(q, n), peer);
  }

  lemma LastOfFrames(q: seq<Task>, n: int, f: nat)
    ensures FrameCount(AllBut(q, n), f) + FrameCount(LastOf(q, n), f) == FrameCount(q, f)
  {
    assert q == AllBut(q, n) + LastOf(q, n);
    FrameAppend(AllBut(q, n), LastOf(q, n), f);
  }

  lemma InsertMembers(q: seq<Task>, i: nat, t: Task)
    requires i <= |q|
    ensures forall x | x in InsertAt(q, i, t) :: x == t || x in q
    ensures t in InsertAt(q, i, t)
    ensures forall x | x in q :: x in InsertAt(q, i, t)
  {
    var r := InsertAt(q, i, t);
    assert r[i] == t;
    forall x | x in q ensures x in r {
      var j :| 0 <= j < |q| && q[j] == x;
      assert r[if j < i then j else j + 1] == x;
    }
  }

  // ----- strict order by (due time, sequence number) -----

  ghost predicate Sorted(q: seq<Task>) {
    forall i, j | 0 <= i < j < |q| :: Less(q[i], q[j])
  }

  ghost predicate OrdersUpTo(q: seq<Task>, n: nat) {
    forall t | t in q :: t.order <= n
  }

  lemma {:induction false} PositionSplits(q: seq<Task>, t: Task)
    ensures var i := Position(q, t);
      (forall j | 0 <= j < i :: !Less(t, q[j])) && (i < |q| ==> Less(t, q[i]))
  {
    if q != [] {
      PositionSplits(q[..|q| - 1], t);
    }
  }

  /** Putting `t` between a part that precedes it and a part it precedes. */
  lemma SplitSorted(q: seq<Task>, i: nat, t: Task)
    requires Sorted(q) && i <= |q|
    requires (forall j | 0 <= j < i :: Less(q[j], t)) && (forall j | i <= j < |q| :: Less(t, q[j]))
    ensures Sorted(InsertAt(q, i, t))
  {
    var r := InsertAt(q, i, t);
    forall a, b | 0 <= a < b < |r| ensures Less(r[a], r[b]) {
      assert a != i ==> r[a] == q[if a < i then a else a - 1];
      assert b != i ==> r[b] == q[if b < i then b else b - 1];
    }
  }

  lemma InsertSorted(q: seq<Task>, t: Task, n: nat)
    requires Sorted(q) && OrdersUpTo(q, n) && n < t.order
    ensures Sorted(Insert(q, t)) && OrdersUpTo(Insert(q, t), t.order)
  {
    PositionSplits(q, t);
    var i := Position(q, t);
    forall j | 0 <= j < i ensures Less(q[j], t) {
      assert q[j] in q;
    }
    forall j | i <= j < |q| ensures Less(t, q[j]) {
      assert i < j ==> Less(q[i], q[j]);
    }
    SplitSorted(q, i, t);
    InsertMembers(q, i, t);
  }

  lemma RemoveSorted(q: seq<Task>, i: nat)
    requires Sorted(q) && i < |q|
    ensures Sorted(RemoveAt(q, i))
    ensures forall t | t in RemoveAt(q, i) :: t in q
  {
    var r := RemoveAt(q, i);
    assert forall j | 0 <= j < |r| :: r[j] == q[if j < i then j else j + 1];
  }

  // ----- trimming a peer -----

  lemma {:induction false} NoneOf(q: seq<Task>, peer: string)
    requires forall t | t in q :: t.peer != peer
    ensures PeerCount(q, peer) == 0
  {
    if q != [] {
      NoneOf(q[..|q| - 1], peer);
    }
  }

  lemma {:induction false} TrimSorted(q: seq<Task>, peer: string, cap: int)
    requires Sorted(q)
    ensures Sorted(TrimPeer(q, peer, cap)) && forall t | t in TrimPeer(q, peer, cap) :: t in q
    decreases |q|
  {
    var i := FirstOf(q, peer);
    if PeerCount(q, peer) > cap && i < |q| {
      RemoveSorted(q, i);
      TrimSorted(RemoveAt(q, i), peer, cap);
    }
  }

  /** Trimming brings the peer down to its cap and takes nothing from the others. */
  lemma {:induction false} TrimPeers(q: seq<Task>, peer: string, cap: int, other: string)
    requires 0 <= cap
    ensures other != peer ==> PeerCount(TrimPeer(q, peer, cap), other) == PeerCount(q, other)
    ensures other == peer ==>
      PeerCount(TrimPeer(q, peer, cap), peer) == if PeerCount(q, peer) > cap then cap else PeerCount(q, peer)
    decreases |q|
  {
    var i := FirstOf(q, peer);
    if i == |q| {
      NoneOf(q, peer);
    } else if PeerCount(q, peer) > cap {
      PeerRemove(q, i, peer);
      PeerRemove(q, i, other);
      TrimPeers(RemoveAt(q, i), peer, cap, other);
    }
  }

  lemma {:induction false} TrimFrames(q: seq<Task>, peer: string, cap: int, f: nat)
    ensures FrameCount(TrimPeer(q, peer, cap), f) + FrameCount(PeerTrims(q, peer, cap), f) == FrameCount(q, f)
    decreases |q|
  {
    var i := FirstOf(q, peer);
    if PeerCount(q, peer) > cap && i < |q| {
      FrameRemove(q, i, f);
      TrimFrames(RemoveAt(q, i), peer, cap, f);
      FrameAppend([q[i]], PeerTrims(RemoveAt(q, i), peer, cap), f);
      assert FrameCount([q[i]], f) == FrameCount([], f) + if q[i].frame == f then 1 else 0;
    }
  }

  lemma FirstIsEarliest(q: seq<Task>, peer: string, s: Task)
    requires Sorted(q) && FirstOf(q, peer) < |q| && s in RemoveAt(q, FirstOf(q, peer)) && s.peer == peer
    ensures Less(q[FirstOf(q, peer)], s)
  {
    var i := FirstOf(q, peer);
    var rest := RemoveAt(q, i);
    var j :| 0 <= j < |rest| && rest[j] == s;
    assert j >= i && s == q[j + 1];
  }

  lemma OthersRemain(q: seq<Task>, i: nat, t: Task)
    requires i < |q| && t in q && t != q[i]
    ensures t in RemoveAt(q, i)
  {
    var j :| 0 <= j < |q| && q[j] == t;
    assert RemoveAt(q, i)[if j < i then j else j - 1] == t;
  }

  /** What trimming takes from a peer is earlier than all it leaves of that peer. */
  lemma {:induction false} TrimTakesEarliest(q: seq<Task>, peer: string, cap: int, t: Task)
    requires Sorted(q) && t in q && t !in TrimPeer(q, peer, cap)
    ensures t.peer == peer
    ensures forall s | s in TrimPeer(q, peer, cap) && s.peer == peer :: Less(t, s)
    decreases |q|
  {
    var i := FirstOf(q, peer);
    assert PeerCount(q, peer) > cap && i < |q|;
    RemoveSorted(q, i);
    if t == q[i] {
      TrimSorted(RemoveAt(q, i), peer, cap);
      forall s | s in RemoveAt(q, i) && s.peer == peer ensures Less(t, s) {
        FirstIsEarliest(q, peer, s);
      }
    } else {
      OthersRemain(q, i, t);
      TrimTakesEarliest(RemoveAt(q, i), peer, cap, t);
    }
  }

  lemma CutTakesEarliest(q: seq<Task>, n: int, t: Task)
    requires Sorted(q) && t in q && t !in LastOf(q, n)
    ensures forall s | s in LastOf(q, n) :: Less(t, s)
  {
    var cut := |q| - n;
    var kept := q[cut..];
    var j :| 0 <= j < |q| && q[j] == t;
    assert forall m | cut <= m < |q| :: q[m] in kept;
    assert forall m | 0 <= m < n :: kept[m] == q[cut + m];
  }

  lemma LastOfSorted(q: seq<Task>, n: int)
    requires Sorted(q)
    ensures Sorted(LastOf(q, n))
  {
  }

  // ----- the order due frames are shown in -----

  ghost predicate InShowOrder(q: seq<Task>) {
    forall i, j | 0 <= i < j < |q| :: Comes(q[i], q[j])
  }

  lemma {:induction false} SortPositionSplits(q: seq<Task>, t: Task)
    ensures var i := SortPosition(q, t);
      (forall j | 0 <= j < i :: !Comes(t, q[j])) && (i < |q| ==> Comes(t, q[i]))
  {
    if q != [] {
      SortPositionSplits(q[..|q| - 1], t);
    }
  }

  lemma ComesTransitive(a: Task, b: Task, c: Task)
    requires Comes(a, b) && Comes(b, c)
    ensures Comes(a, c)
  {
  }

  lemma SplitShowOrder(q: seq<Task>, i: nat, t: Task)
    requires InShowOrder(q) && i <= |q|
    requires (forall j | 0 <= j < i :: Comes(q[j], t)) && (forall j | i <= j < |q| :: Comes(t, q[j]))
    ensures InShowOrder(InsertAt(q, i, t))
  {
    var r := InsertAt(q, i, t);
    forall a, b | 0 <= a < b < |r| ensures Comes(r[a], r[b]) {
      assert a != i ==> r[a] == q[if a < i then a else a - 1];
      assert b != i ==> r[b] == q[if b < i then b else b - 1];
    }
  }

  lemma SortInsert(q: seq<Task>, t: Task)
    requires InShowOrder(q) && forall x | x in q :: Less(x, t)
    ensures InShowOrder(InsertAt(q, SortPosition(q, t), t))
  {
    SortPositionSplits(q, t);
    var i := SortPosition(q, t);
    forall j | 0 <= j < i ensures Comes(q[j], t) {
      assert q[j] in q;
    }
    forall j | i <= j < |q| ensures Comes(t, q[j]) {
      if i < j {
        ComesTransitive(t, q[i], q[j]);
      }
    }
    SplitShowOrder(q, i, t);
  }

  /** What the showing order means: valid timestamps first, in increasing order, then by due time and number. */
  lemma ComesMeans(a: Task, b: Task)
    requires Comes(a, b)
    ensures b.pts >= 0 ==> 0 <= a.pts <= b.pts
    ensures a.pts == b.pts || (a.pts < 0 && b.pts < 0) ==> a.due < b.due || (a.due == b.due && a.order < b.order)
  {
  }

  lemma {:induction false} SortMembers(q: seq<Task>)
    ensures forall t :: t in SortDue(q) <==> t in q
    ensures |SortDue(q)| == |q|
  {
    if q != [] {
      var p, t := q[..|q| - 1], q[|q| - 1];
      SortMembers(p);
      InsertMembers(SortDue(p), SortPosition(SortDue(p), t), t);
      assert q == p + [t];
    }
  }

  lemma {:induction false} SortFrames(q: seq<Task>, f: nat)
    ensures FrameCount(SortDue(q), f) == FrameCount(q, f)
  {
    if q != [] {
      var s, t := SortDue(q[..|q| - 1]), q[|q| - 1];
      SortFrames(q[..|q| - 1], f);
      FrameInsert(s, SortPosition(s, t), t, f);
    }
  }

  lemma {:induction false} SortPeers(q: seq<Task>, peer: string)
    ensures PeerCount(SortDue(q), peer) == PeerCount(q, peer)
  {
    if q != [] {
      var s, t := SortDue(q[..|q| - 1]), q[|q| - 1];
      SortPeers(q[..|q| - 1], peer);
      PeerInsert(s, SortPosition(s, t), t, peer);
    }
  }

  lemma {:induction false} SortOrders(q: seq<Task>)
    requires Sorted(q)
    ensures InShowOrder(SortDue(q))
  {
    if q != [] {
      var p, t := q[..|q| - 1], q[|q| - 1];
      SortOrders(p);
      SortMembers(p);
      SortInsert(SortDue(p), t);
    }
  }

  lemma CutComesFirst(q: seq<Task>, n: int, t: Task)
    requires InShowOrder(q) && 0 <= n && t in q && t !in LastOf(q, n)
    ensures |LastOf(q, n)| == n && forall s | s in LastOf(q, n) :: Comes(t, s)
  {
    assert n < |q|;
    var cut := |q| - n;
    var kept := q[cut..];
    var j :| 0 <= j < |q| && q[j] == t;
    assert forall m | cut <= m < |q| :: q[m] in kept;
    assert forall m | 0 <= m < n :: kept[m] == q[cut + m];
  }

  // ----- queueing again -----

  /** Tasks to be queued again carry numbers above `base`, in increasing order. */
  ghost predicate Renumbered(again: seq<Task>, base: nat, top: nat) {
    && base <= top
    && (forall i | 0 <= i < |again| :: base < again[i].order <= top)
    && (forall i, j | 0 <= i < j < |again| :: again[i].order < again[j].order)
  }

  lemma {:induction false} InsertAllSorted(q: seq<Task>, ts: seq<Task>, base: nat, top: nat)
    requires Sorted(q) && OrdersUpTo(q, base) && Renumbered(ts, base, top)
    ensures Sorted(InsertAll(q, ts)) && OrdersUpTo(InsertAll(q, ts), if ts == [] then base else ts[|ts| - 1].order)
  {
    if ts != [] {
      var p, t := ts[..|ts| - 1], ts[|ts| - 1];
      InsertAllSorted(q, p, base, top);
      InsertSorted(InsertAll(q, p), t, if p == [] then base else p[|p| - 1].order);
    }
  }

  lemma {:induction false} InsertAllMembers(q: seq<Task>, ts: seq<Task>)
    ensures forall t | t in InsertAll(q, ts) :: t in q || t in ts
  {
    if ts != [] {
      var r := InsertAll(q, ts[..|ts| - 1]);
      InsertAllMembers(q, ts[..|ts| - 1]);
      InsertMembers(r, Position(r, ts[|ts| - 1]), ts[|ts| - 1]);
    }
  }

  lemma {:induction false} InsertAllHolds(q: seq<Task>, ts: seq<Task>, t: Task)
    requires t in q || t in ts
    ensures t in InsertAll(q, ts)
  {
    if ts != [] {
      var front, last := ts[..|ts| - 1], ts[|ts| - 1];
      var r := InsertAll(q, front);
      InsertMembers(r, Position(r, last), last);
      if t != last {
        assert ts == front + [last];
        InsertAllHolds(q, front, t);
      }
    }
  }

  lemma {:induction false} InsertAllPeers(q: seq<Task>, ts: seq<Task>, peer: string)
    ensures PeerCount(InsertAll(q, ts), peer) == PeerCount(q, peer) + PeerCount(ts, peer)
  {
    if ts != [] {
      var p, t := ts[..|ts| - 1], ts[|ts| - 1];
      InsertAllPeers(q, p, peer);
      PeerInsert(InsertAll(q, p), Position(InsertAll(q, p), t), t, peer);
    }
  }

  lemma {:induction false} InsertAllFrames(q: seq<Task>, ts: seq<Task>, f: nat)
    ensures FrameCount(InsertAll(q, ts), f) == FrameCount(q, f) + FrameCount(ts, f)
  {
    if ts != [] {
      var p, t := ts[..|ts| - 1], ts[|ts| - 1];
      InsertAllFrames(q, p, f);
      FrameInsert(InsertAll(q, p), Position(InsertAll(q, p), t), t, f);
    }
  }
}
