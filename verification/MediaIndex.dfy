/** The other direction of the two indexes: which routes can be found back. */
module MediaIndex {
  import opened Bytes
  import opened RtpRouter
  import opened RouteRewrite
  import opened MediaRoutes

  function TargetsFor(resolve: Resolver, op: MediaOp): seq<Subscriber>
    requires op.Refresh?
  {
    TargetsOf(Choose(resolve, op.meeting, op.room, op.source, op.owner), op.order)
  }

  /** Since the source's last refresh or removal another source was given the same SSRC at the same endpoint. */
  function TakenOver(resolve: Resolver, ops: seq<MediaOp>, s: u32, sub: Subscriber): bool {
    if ops == [] then false
    else
      var front, op := ops[..|ops| - 1], ops[|ops| - 1];
      if (op.Refresh? || op.Remove?) && op.source == s then false
      else if op.Refresh? && op.source != 0 && sub in TargetsFor(resolve, op) then true
      else TakenOver(resolve, front, s, sub)
  }

  lemma NextIndexed(t: Tables, cap: nat, resolve: Resolver, op: MediaOp, s: u32, sub: Subscriber)
    requires s != 0 && !((op.Refresh? || op.Remove?) && op.source == s)
    ensures SubscribersOf(Apply(t, cap, resolve, op).routes, s) == SubscribersOf(t.routes, s)
    ensures LeadsTo(Apply(t, cap, resolve, op).feedback, sub, s) <==>
            LeadsTo(t.feedback, sub, s) && !(op.Refresh? && op.source != 0 && sub in TargetsFor(resolve, op))
  {
    if op.Refresh? && op.source != 0 {
      ChoiceNeverRefused(resolve, op.meeting, op.room, op.source, op.owner);
      TargetsAccepted(Choose(resolve, op.meeting, op.room, op.source, op.owner), op.order);
      RefreshedRoutes(t, cap, op.source, TargetsFor(resolve, op), s);
      RefreshedFeedback(t, cap, op.source, TargetsFor(resolve, op), sub.endpoint, sub.ssrc);
    }
  }

  lemma OwnIndexed(t: Tables, cap: nat, resolve: Resolver, op: MediaOp, s: u32, sub: Subscriber)
    requires s != 0 && (op.Refresh? || op.Remove?) && op.source == s
    requires sub in SubscribersOf(Apply(t, cap, resolve, op).routes, s)
    ensures LeadsTo(Apply(t, cap, resolve, op).feedback, sub, s)
  {
    if op.Refresh? {
      ChoiceNeverRefused(resolve, op.meeting, op.room, s, op.owner);
      TargetsAccepted(Choose(resolve, op.meeting, op.room, s, op.owner), op.order);
      RefreshedRoutes(t, cap, s, TargetsFor(resolve, op), s);
      RefreshedFeedback(t, cap, s, TargetsFor(resolve, op), sub.endpoint, sub.ssrc);
    }
  }

  /** After any sequence of whole operations a current subscriber's key leads back to its source if and only
      if no other source has taken the key over since. */
  lemma {:induction false} RouteFoundBackIff(cap: nat, resolve: Resolver, ops: seq<MediaOp>, s: u32, sub: Subscriber)
    requires s != 0 && sub in SubscribersOf(MediaRun(cap, resolve, ops).routes, s)
    ensures LeadsTo(MediaRun(cap, resolve, ops).feedback, sub, s) <==> !TakenOver(resolve, ops, s, sub)
  {
    if ops != [] {
      var front, op := ops[..|ops| - 1], ops[|ops| - 1];
      var t := MediaRun(cap, resolve, front);
      if (op.Refresh? || op.Remove?) && op.source == s {
        OwnIndexed(t, cap, resolve, op, s, sub);
      } else {
        NextIndexed(t, cap, resolve, op, s, sub);
        RouteFoundBackIff(cap, resolve, front, s, sub);
      }
    }
  }

  // ----- a route that cannot be found back -----

  /** One publisher of audio, one subscriber. */
  function Solo(a: Text, s: u32, w: Text, l: Listener): Room {
    Room(1, map[a := Publisher(s, 0)], map[w := l])
  }

  lemma SoloTarget(resolve: Resolver, meeting: Text, a: Text, s: u32, w: Text, l: Listener, address: string)
    requires s != 0 && l.audio != 0 && Address(resolve, l, false) == Some(address)
    ensures TargetsFor(resolve, Refresh(meeting, Solo(a, s, w, l), s, Some(a), [w])) == [Subscriber(l.audio, address)]
  {
    var room := Solo(a, s, w, l);
    assert OfKind(room, false) == {a};
    var pick := Choose(resolve, meeting, room, s, Some(a));
    assert pick(w) == Some(Subscriber(l.audio, address));
    assert [w][..0] == [];
    assert TargetsOf(pick, [w]) == TargetsOf(pick, []) + [Subscriber(l.audio, address)];
  }

  /** The same subscriber, with one SSRC of its own, in two rooms; then one of the publishers goes. */
  function SharedKey(a: Text, b: Text, s: u32, r: u32, w: Text, l: Listener): seq<MediaOp> {
    [Refresh([1], Solo(a, s, w, l), s, Some(a), [w]), Refresh([2], Solo(b, r, w, l), r, Some(b), [w]), Remove(r)]
  }

  /** The other publisher still sends there, and no entry leads back to it. */
  lemma SharedKeyLosesEntry(cap: nat, resolve: Resolver, a: Text, b: Text, s: u32, r: u32, w: Text, l: Listener,
                            address: string)
    requires s != 0 && r != 0 && s != r && l.audio != 0 && Address(resolve, l, false) == Some(address)
    ensures var t := MediaRun(cap, resolve, SharedKey(a, b, s, r, w, l));
            Subscriber(l.audio, address) in SubscribersOf(t.routes, s) && (address, l.audio) !in t.feedback
  {
    var ops, sub := SharedKey(a, b, s, r, w, l), Subscriber(l.audio, address);
    SoloTarget(resolve, [1], a, s, w, l, address);
    SoloTarget(resolve, [2], b, r, w, l, address);
    TwoThenRemove(cap, resolve, ops[0], ops[1], sub);
    assert ops == [ops[0], ops[1], Remove(r)];
  }

  lemma TwoThenRemove(cap: nat, resolve: Resolver, p: MediaOp, q: MediaOp, sub: Subscriber)
    requires p.Refresh? && q.Refresh? && p.source != 0 && q.source != 0 && p.source != q.source
    requires sub.ssrc != 0 && TargetsFor(resolve, p) == [sub] && TargetsFor(resolve, q) == [sub]
    ensures var t := MediaRun(cap, resolve, [p, q, Remove(q.source)]);
            sub in SubscribersOf(t.routes, p.source) && (sub.endpoint, sub.ssrc) !in t.feedback
  {
    var t1 := Apply(NONE, cap, resolve, p);
    var t2 := Apply(t1, cap, resolve, q);
    AfterOne(NONE, cap, resolve, p);
    assert [p, q][..1] == [p] && [p, q, Remove(q.source)][..2] == [p, q];
    RefreshedRoutes(NONE, cap, p.source, [sub], p.source);
    RefreshedRoutes(t1, cap, q.source, [sub], p.source);
    RefreshedFeedback(t1, cap, q.source, [sub], sub.endpoint, sub.ssrc);
    assert MediaRun(cap, resolve, [p, q]) == t2;
  }
}
