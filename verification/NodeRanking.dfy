/** The order in which SFU nodes are tried for a meeting: healthy before quarantined, with room before
    full, least loaded first, and in turn among equals. */
module NodeRanking {

  datatype Node = Node(id: string, rpcAddress: string, maxMeetings: int)

  /** `rank` is the node's distance from the node whose turn it is. */
  datatype Runtime = Runtime(node: Node, load: nat, quarantined: bool, rank: nat)

  function Tier(r: Runtime): nat {
    var under := r.node.maxMeetings <= 0 || r.load < r.node.maxMeetings;
    if !r.quarantined && under then 0 else if !r.quarantined then 1 else if under then 2 else 3
  }

  predicate Before(a: Runtime, b: Runtime) {
    if Tier(a) != Tier(b) then Tier(a) < Tier(b) else if a.load != b.load then a.load < b.load else a.rank < b.rank
  }

  // ----- turns -----

  lemma {:induction false} Grows(n: nat, a: nat, b: nat)
    requires a < b
    ensures n * a + n <= n * b
  {
    assert n * b == n * (b - 1) + n;
    if a < b - 1 {
      Grows(n, a, b - 1);
    }
  }

  lemma Remainder(n: nat, d: nat, m: nat, q: nat, r: nat)
    requires n * d + m == n * q + r && m < n && r < n
    ensures m == r
  {
    if d < q {
      Grows(n, d, q);
    } else if q < d {
      Grows(n, q, d);
    }
  }

  lemma DivMod(x: nat, n: nat)
    requires n > 0
    ensures x == n * (x / n) + x % n && x % n < n
  {
  }

  /** Counting on past the last node starts over. */
  function Turn(a: nat, n: nat): (r: nat)
    requires a < 2 * n
    ensures r == if a < n then a else a - n
  {
    DivMod(a, n);
    if a < n then Remainder(n, a / n, a % n, 0, a); a % n
    else Remainder(n, a / n, a % n, 1, a - n); a % n
  }

  // ----- a stable sort -----

  function Place(rs: seq<Runtime>, r: Runtime): (i: nat)
    ensures i <= |rs|
    ensures forall j | 0 <= j < i :: !Before(r, rs[j])
    ensures i < |rs| ==> Before(r, rs[i])
  {
    if rs == [] || Before(r, rs[0]) then 0 else 1 + Place(rs[1..], r)
  }

  function Sort(rs: seq<Runtime>): seq<Runtime> {
    if rs == [] then []
    else
      var s, r := Sort(rs[..|rs| - 1]), rs[|rs| - 1];
      s[..Place(s, r)] + [r] + s[Place(s, r)..]
  }

  function NodesOf(rs: seq<Runtime>): seq<Node> {
    seq(|rs|, i requires 0 <= i < |rs| => rs[i].node)
  }

  /** What the pipeline read: a load counter counts only when it is positive. */
  function Runtimes(nodes: seq<Node>, start: nat, counters: seq<int>, quarantined: seq<bool>): (rs: seq<Runtime>)
    requires |counters| == |quarantined| == |nodes| && start <= |nodes|
  {
    seq(|nodes|, i requires 0 <= i < |nodes| =>
      Runtime(nodes[i], if counters[i] > 0 then counters[i] else 0, quarantined[i], Turn(i - start + |nodes|, |nodes|)))
  }

  function Rotated(nodes: seq<Node>, start: nat): seq<Node>
    requires start <= |nodes|
  {
    nodes[start..] + nodes[..start]
  }

  // ----- the operations -----

  method RotateNodes(nodes: seq<Node>, start: nat) returns (ordered: seq<Node>)
    requires nodes != [] ==> start < |nodes|
    ensures ordered == if nodes == [] then [] else Rotated(nodes, start)
  {
    ordered := [];
    if nodes == [] { return; }
    for i := 0 to |nodes|
      invariant ordered == Rotated(nodes, start)[..i]
    {
      ordered := ordered + [nodes[Turn(start + i, |nodes|)]];
    }
  }

  /** `index` is the allocation number this call drew. */
  method RankedNodes(nodes: seq<Node>, index: nat, shared: bool, counters: seq<int>, quarantined: seq<bool>)
    returns (ordered: seq<Node>)
    requires |counters| == |quarantined| == |nodes|
    ensures ordered == if nodes == [] then []
                       else if !shared then Rotated(nodes, index % |nodes|)
                       else NodesOf(Sort(Runtimes(nodes, index % |nodes|, counters, quarantined)))
  {
    if nodes == [] { return []; }
    var start := index % |nodes|;
    if !shared {
      ordered := RotateNodes(nodes, start);
      return;
    }
    var runtimes := ReadRuntimes(nodes, start, counters, quarantined);
    ordered := ListNodes(Sort(runtimes));
  }

  method ReadRuntimes(nodes: seq<Node>, start: nat, counters: seq<int>, quarantined: seq<bool>)
    returns (runtimes: seq<Runtime>)
    requires |counters| == |quarantined| == |nodes| && start < |nodes|
    ensures runtimes == Runtimes(nodes, start, counters, quarantined)
  {
    runtimes := [];
    for i := 0 to |nodes|
      invariant runtimes == Runtimes(nodes, start, counters, quarantined)[..i]
    {
      var load: nat := 0;
      if counters[i] > 0 { load := counters[i]; }
      runtimes := runtimes + [Runtime(nodes[i], load, quarantined[i], Turn(i - start + |nodes|, |nodes|))];
    }
  }

  method ListNodes(runtimes: seq<Runtime>) returns (ordered: seq<Node>)
    ensures ordered == NodesOf(runtimes)
  {
    ordered := [];
    for i := 0 to |runtimes|
      invariant ordered == NodesOf(runtimes)[..i]
    {
      ordered := ordered + [runtimes[i].node];
    }
  }

  // ----- what the order is -----

  ghost predicate InOrder(rs: seq<Runtime>) {
    forall i, j | 0 <= i < j < |rs| :: Before(rs[i], rs[j])
  }

  ghost predicate Distinct(rs: seq<Runtime>) {
    forall i, j | 0 <= i < j < |rs| :: rs[i].rank != rs[j].rank
  }

  lemma {:induction false} SortPermutes(rs: seq<Runtime>)
    ensures multiset(Sort(rs)) == multiset(rs)
  {
    if rs != [] {
      var s, r := Sort(rs[..|rs| - 1]), rs[|rs| - 1];
      SortPermutes(rs[..|rs| - 1]);
      assert rs == rs[..|rs| - 1] + [r];
      assert s == s[..Place(s, r)] + s[Place(s, r)..];
    }
  }

  lemma InsertInOrder(s: seq<Runtime>, r: Runtime)
    requires InOrder(s) && forall x | x in s :: x.rank != r.rank
    ensures InOrder(s[..Place(s, r)] + [r] + s[Place(s, r)..])
  {
    var i := Place(s, r);
    var t := s[..i] + [r] + s[i..];
    forall a, b | 0 <= a < b < |t| ensures Before(t[a], t[b]) {
      assert a != i ==> t[a] == s[if a < i then a else a - 1] && t[a] in s;
      assert b != i ==> t[b] == s[if b < i then b else b - 1];
      if a == i && i < b - 1 {
        assert Before(s[i], s[b - 1]);
      }
    }
  }

  lemma {:induction false} SortOrders(rs: seq<Runtime>)
    requires Distinct(rs)
    ensures InOrder(Sort(rs))
  {
    if rs != [] {
      var front, r := rs[..|rs| - 1], rs[|rs| - 1];
      SortOrders(front);
      SortPermutes(front);
      forall x | x in Sort(front) ensures x.rank != r.rank {
        assert x in multiset(Sort(front));
        assert x in front;
      }
      InsertInOrder(Sort(front), r);
    }
  }

  lemma RanksDistinct(nodes: seq<Node>, start: nat, counters: seq<int>, quarantined: seq<bool>)
    requires |counters| == |quarantined| == |nodes| && start < |nodes|
    ensures Distinct(Runtimes(nodes, start, counters, quarantined))
  {
    var rs := Runtimes(nodes, start, counters, quarantined);
    forall i, j | 0 <= i < j < |rs| ensures rs[i].rank != rs[j].rank {
      var ri, rj := Turn(i - start + |nodes|, |nodes|), Turn(j - start + |nodes|, |nodes|);
      assert rs[i].rank == ri && rs[j].rank == rj;
    }
  }

  /** The ranking is a permutation of what was read about the nodes, strictly ordered: no tie is left
      to the sort, a healthy node with room is never behind another, a lighter one never behind a
      heavier one of its tier. */
  lemma RankingIsStrict(nodes: seq<Node>, index: nat, counters: seq<int>, quarantined: seq<bool>)
    requires nodes != [] && |counters| == |quarantined| == |nodes|
    ensures var rs := Runtimes(nodes, index % |nodes|, counters, quarantined);
            multiset(Sort(rs)) == multiset(rs) && InOrder(Sort(rs))
  {
    var rs := Runtimes(nodes, index % |nodes|, counters, quarantined);
    RanksDistinct(nodes, index % |nodes|, counters, quarantined);
    SortPermutes(rs);
    SortOrders(rs);
  }

  /** A node can take another meeting. */
  predicate HasPlace(r: Runtime) {
    r.node.maxMeetings <= 0 || r.load < r.node.maxMeetings
  }

  /** What the order means: healthy nodes before quarantined ones, then nodes with a place before full ones,
      then the lighter before the heavier, then in turn. */
  lemma HealthyRoomyLightFirst(nodes: seq<Node>, index: nat, counters: seq<int>, quarantined: seq<bool>, i: nat, j: nat)
    requires |counters| == |quarantined| == |nodes| && i < j < |nodes|
    ensures var rs := Sort(Runtimes(nodes, index % |nodes|, counters, quarantined));
            && |rs| == |nodes|
            && (!rs[j].quarantined ==> !rs[i].quarantined)
            && (rs[i].quarantined == rs[j].quarantined && HasPlace(rs[j]) ==> HasPlace(rs[i]))
            && (rs[i].quarantined == rs[j].quarantined && HasPlace(rs[i]) == HasPlace(rs[j]) ==>
                rs[i].load < rs[j].load || (rs[i].load == rs[j].load && rs[i].rank < rs[j].rank))
  {
    var rs := Runtimes(nodes, index % |nodes|, counters, quarantined);
    RankingIsStrict(nodes, index, counters, quarantined);
    assert |multiset(Sort(rs))| == |multiset(rs)|;
    assert Before(Sort(rs)[i], Sort(rs)[j]);
  }

  /** What was read about each node: its counter if positive, its quarantine, and its distance from the node
      whose turn it is. */
  lemma RuntimeOf(nodes: seq<Node>, index: nat, counters: seq<int>, quarantined: seq<bool>, d: nat)
    requires |counters| == |quarantined| == |nodes| && d < |nodes|
    ensures var start := index % |nodes|;
            var i := if start + d < |nodes| then start + d else start + d - |nodes|;
            var r := Runtimes(nodes, start, counters, quarantined)[i];
            && r.node == nodes[i] && r.quarantined == quarantined[i] && r.rank == d
            && (counters[i] > 0 ==> r.load == counters[i]) && (counters[i] <= 0 ==> r.load == 0)
  {
    var start := index % |nodes|;
    var i := if start + d < |nodes| then start + d else start + d - |nodes|;
    var rank := Turn(i - start + |nodes|, |nodes|);
    assert Runtimes(nodes, start, counters, quarantined)[i].rank == rank;
  }

  /** Two strict orders of the same runtimes are the same order. */
  lemma {:induction false} OrderIsUnique(a: seq<Runtime>, b: seq<Runtime>)
    requires InOrder(a) && InOrder(b) && multiset(a) == multiset(b)
    ensures a == b
    decreases |a|
  {
    if a == [] || b == [] {
      assert |multiset(a)| == |multiset(b)|;
    } else {
      FirstIsFirst(a, b);
      assert a == [a[0]] + a[1..] && b == [b[0]] + b[1..];
      assert multiset(a[1..]) == multiset(a) - multiset{a[0]};
      assert multiset(b[1..]) == multiset(b) - multiset{b[0]};
      OrderIsUnique(a[1..], b[1..]);
    }
  }

  lemma FirstIsFirst(a: seq<Runtime>, b: seq<Runtime>)
    requires InOrder(a) && InOrder(b) && multiset(a) == multiset(b) && a != [] && b != []
    ensures a[0] == b[0]
  {
    assert a[0] in multiset(b) && b[0] in multiset(a);
    var i :| 0 <= i < |b| && b[i] == a[0];
    var j :| 0 <= j < |a| && a[j] == b[0];
    assert i > 0 ==> Before(b[0], a[0]);
    assert j > 0 ==> Before(a[0], b[0]);
  }

  lemma TurnedRank(nodes: seq<Node>, start: nat, counters: seq<int>, quarantined: seq<bool>, i: nat)
    requires |counters| == |quarantined| == |nodes| && start < |nodes| && i < |nodes|
    ensures var rs := Runtimes(nodes, start, counters, quarantined);
            var t := (rs[start..] + rs[..start])[i];
            t in rs && t.rank == i && t.node == Rotated(nodes, start)[i]
  {
    var rs, at := Runtimes(nodes, start, counters, quarantined), Turn(start + i, |nodes|);
    assert rs[at].rank == Turn(at - start + |nodes|, |nodes|);
    assert (rs[start..] + rs[..start])[i] == rs[at];
  }

  predicate Even(rs: seq<Runtime>) {
    forall i, j | 0 <= i < |rs| && 0 <= j < |rs| :: Tier(rs[i]) == Tier(rs[j]) && rs[i].load == rs[j].load
  }

  lemma EvenInOrder(rs: seq<Runtime>, turned: seq<Runtime>)
    requires Even(rs) && forall i | 0 <= i < |turned| :: turned[i] in rs && turned[i].rank == i
    ensures InOrder(turned)
  {
  }

  /** Where all nodes are equally healthy and loaded the shared ranking is the plain rotation that a
      node without Redis uses. */
  lemma EvenLoadRotates(nodes: seq<Node>, index: nat, counters: seq<int>, quarantined: seq<bool>)
    requires nodes != [] && |counters| == |quarantined| == |nodes|
    requires Even(Runtimes(nodes, index % |nodes|, counters, quarantined))
    ensures NodesOf(Sort(Runtimes(nodes, index % |nodes|, counters, quarantined))) == Rotated(nodes, index % |nodes|)
  {
    var start := index % |nodes|;
    var rs := Runtimes(nodes, start, counters, quarantined);
    var turned := rs[start..] + rs[..start];
    forall i | 0 <= i < |turned|
      ensures turned[i] in rs && turned[i].rank == i && turned[i].node == Rotated(nodes, start)[i]
    {
      TurnedRank(nodes, start, counters, quarantined, i);
    }
    EvenInOrder(rs, turned);
    SamePart(rs, start);
    RankingIsStrict(nodes, index, counters, quarantined);
    OrderIsUnique(Sort(rs), turned);
  }

  lemma SamePart(rs: seq<Runtime>, start: nat)
    requires start <= |rs|
    ensures multiset(rs[start..] + rs[..start]) == multiset(rs)
  {
    assert rs == rs[..start] + rs[start..];
  }

  /** The node that leads the rotation of each of the next `n` allocations. */
  function Leaders(nodes: seq<Node>, index: nat, n: nat): seq<Node>
    requires nodes != []
  {
    seq(n, d requires 0 <= d < n => Rotated(nodes, (index + d) % |nodes|)[0])
  }

  lemma NextStart(index: nat, d: nat, n: nat)
    requires n > 0 && d < n
    ensures (index + d) % n == if index % n + d < n then index % n + d else index % n + d - n
  {
    var q, r := index / n, index % n;
    DivMod(index, n);
    DivMod(index + d, n);
    if r + d < n {
      Remainder(n, (index + d) / n, (index + d) % n, q, r + d);
    } else {
      assert n * (q + 1) == n * q + n;
      Remainder(n, (index + d) / n, (index + d) % n, q + 1, r + d - n);
    }
  }

  /** Every node leads exactly one of any |nodes| consecutive allocations, in the order of the first. */
  lemma EveryNodeLeadsInTurn(nodes: seq<Node>, index: nat)
    requires nodes != []
    ensures Leaders(nodes, index, |nodes|) == Rotated(nodes, index % |nodes|)
    ensures multiset(Leaders(nodes, index, |nodes|)) == multiset(nodes)
  {
    var start := index % |nodes|;
    forall d | 0 <= d < |nodes| ensures Leaders(nodes, index, |nodes|)[d] == Rotated(nodes, start)[d] {
      NextStart(index, d, |nodes|);
      assert Leaders(nodes, index, |nodes|)[d] == Rotated(nodes, (index + d) % |nodes|)[0] ==
             nodes[(index + d) % |nodes|];
    }
    assert Leaders(nodes, index, |nodes|) == Rotated(nodes, start);
    assert nodes == nodes[..start] + nodes[start..];
  }
}
