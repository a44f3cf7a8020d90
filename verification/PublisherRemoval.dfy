/** What removing a publisher does to the routes that stay. The SFU does not rebuild them, so they go on
    reflecting the room as it was. */
module PublisherRemoval {
  import opened Bytes
  import opened RtpRouter
  import opened RouteRewrite
  import opened MediaRoutes

  function Without(room: Room, u: Text): Room {
    room.(publishers := room.publishers - {u})
  }

  function Slot(room: Room, u: Text, video: bool): u32
    requires u in room.publishers
  {
    if video then room.publishers[u].video else room.publishers[u].audio
  }

  /** No SSRC is published twice. */
  ghost predicate SourcesDistinct(room: Room) {
    forall u, v, a, b | u in room.publishers && v in room.publishers && Slot(room, u, a) != 0 ::
      Slot(room, u, a) == Slot(room, v, b) ==> u == v && a == b
  }

  /** No two subscribers receive media of a kind at the same address. */
  ghost predicate AddressesDistinct(resolve: Resolver, room: Room) {
    forall u, v, video | u in room.subscribers && v in room.subscribers ::
      var a := Address(resolve, room.subscribers[u], video);
      a.Some? && a == Address(resolve, room.subscribers[v], video) ==> u == v
  }

  ghost predicate Plain(resolve: Resolver, room: Room) {
    SourcesDistinct(room) && AddressesDistinct(resolve, room)
  }

  /** Subscriber `w` is sent the media of publisher `v`. */
  predicate Reaches(resolve: Resolver, room: Room, v: Text, video: bool, w: Text) {
    && w in room.subscribers && Address(resolve, room.subscribers[w], video).Some?
    && !(|room.subscribers| > 1 && v == w && w != [])
  }

  /** The one case in which the SSRC for several publishers is the subscriber's own all the same. */
  predicate OneCase(hash: u32, own: u32, source: u32) {
    source == FLIP && hash % TWO_31 == 0 && own == Xor32(FLIP, NUDGE)
  }

  /** Removing `u` does not change what the subscribers of `v` should be sent: the kind's publishers do not
      drop to one, or everyone reached has no SSRC of its own. */
  ghost predicate SourceUnaffected(resolve: Resolver, meeting: Text, room: Room, u: Text, v: Text, video: bool)
    requires v in room.publishers
  {
    var s := Slot(room, v, video);
    || s == 0 || SameKind(room, video) <= 1 || SameKind(Without(room, u), video) > 1
    || forall w | Reaches(resolve, room, v, video, w) ::
         || Own(room.subscribers[w], video) == 0
         || OneCase(Fnv(Key(meeting, w, s, video)), Own(room.subscribers[w], video), s)
  }

  ghost predicate Unaffected(resolve: Resolver, meeting: Text, room: Room, u: Text) {
    forall v, video | v in room.publishers && v != u :: SourceUnaffected(resolve, meeting, room, u, v, video)
  }

  function RemoveBoth(t: Tables, p: Publisher): Tables {
    RemoveSource(RemoveSource(t, p.audio), p.video)
  }

  // ----- targets -----

  lemma {:induction false} TargetsMembers(pick: Chooser, order: seq<Text>, sub: Subscriber)
    ensures sub in TargetsOf(pick, order) <==> exists w :: w in order && pick(w) == Some(sub)
  {
    if order != [] {
      var front, last := order[..|order| - 1], order[|order| - 1];
      TargetsMembers(pick, front, sub);
      assert order == front + [last];
    }
  }

  lemma {:induction false} TargetsEqual(pick: Chooser, pick': Chooser, order: seq<Text>)
    requires forall w | w in order :: pick(w) == pick'(w)
    ensures TargetsOf(pick, order) == TargetsOf(pick', order)
  {
    if order != [] {
      TargetsEqual(pick, pick', order[..|order| - 1]);
    }
  }

  /** What a subscriber is sent for a source that only `v` publishes. */
  lemma ChosenTarget(resolve: Resolver, meeting: Text, room: Room, v: Text, video: bool, w: Text)
    requires SourcesDistinct(room) && v in room.publishers && Slot(room, v, video) != 0
    ensures var s := Slot(room, v, video);
            Choose(resolve, meeting, room, s, Some(v))(w) ==
            if !Reaches(resolve, room, v, video, w) then None
            else var l := room.subscribers[w];
                 Some(Subscriber(ServerSsrc(Fnv(Key(meeting, w, s, video)), SameKind(room, video), Own(l, video), s),
                                 Address(resolve, l, video).value))
  {
    assert Slot(room, v, true) == Slot(room, v, video) ==> video;
  }

  lemma OnlyOwner(room: Room, v: Text, video: bool, owner: Option<Text>)
    requires SourcesDistinct(room) && v in room.publishers && Slot(room, v, video) != 0
    requires IsOwner(room, Slot(room, v, video), owner)
    ensures owner == Some(v)
  {
    assert Publishes(room.publishers[v], Slot(room, v, video));
    if owner.Some? {
      var x := owner.value;
      assert Slot(room, x, true) == Slot(room, v, video) || Slot(room, x, false) == Slot(room, v, video);
    }
  }

  lemma WithoutDistinct(room: Room, u: Text)
    requires SourcesDistinct(room)
    ensures SourcesDistinct(Without(room, u))
  {
    var r := Without(room, u);
    forall x, y, a, b | x in r.publishers && y in r.publishers && Slot(r, x, a) != 0 && Slot(r, x, a) == Slot(r, y, b)
      ensures x == y && a == b
    {
      assert Slot(room, x, a) == Slot(room, y, b);
    }
  }

  lemma OthersUntouched(t: Tables, room: Room, u: Text, v: Text, video: bool)
    requires SourcesDistinct(room) && u in room.publishers && v in room.publishers && u != v
             && Slot(room, v, video) != 0
    ensures SubscribersOf(RemoveBoth(t, room.publishers[u]).routes, Slot(room, v, video)) ==
            SubscribersOf(t.routes, Slot(room, v, video))
  {
    assert Slot(room, u, false) != Slot(room, v, video) && Slot(room, u, true) != Slot(room, v, video);
  }

  // ----- the exact condition -----

  /** Unaffected sources choose the same targets before and after. */
  lemma SameChoice(resolve: Resolver, meeting: Text, room: Room, u: Text, v: Text, video: bool, w: Text)
    requires SourcesDistinct(room) && v in room.publishers && v != u && Slot(room, v, video) != 0
    requires SourceUnaffected(resolve, meeting, room, u, v, video)
             && SameKind(Without(room, u), video) <= SameKind(room, video)
    ensures var s := Slot(room, v, video);
            Choose(resolve, meeting, room, s, Some(v))(w) == Choose(resolve, meeting, Without(room, u), s, Some(v))(w)
  {
    WithoutDistinct(room, u);
    ChosenTarget(resolve, meeting, room, v, video, w);
    ChosenTarget(resolve, meeting, Without(room, u), v, video, w);
    if Reaches(resolve, room, v, video, w) && Own(room.subscribers[w], video) != 0 && SameKind(room, video) > 1 {
      var s := Slot(room, v, video);
      OwnSsrcOnlyInOneCase(Fnv(Key(meeting, w, s, video)), SameKind(room, video), Own(room.subscribers[w], video), s);
    }
  }

  lemma FewerOfKind(room: Room, u: Text, video: bool)
    ensures SameKind(Without(room, u), video) <= SameKind(room, video)
  {
    assert OfKind(Without(room, u), video) == OfKind(room, video) - {u};
  }

  lemma UnaffectedStaysCurrent(t: Tables, resolve: Resolver, meeting: Text, room: Room, u: Text, v: Text, video: bool)
    requires SourcesDistinct(room) && u in room.publishers && v in room.publishers && v != u
             && Slot(room, v, video) != 0
    requires Current(t, resolve, meeting, room, Slot(room, v, video))
             && SourceUnaffected(resolve, meeting, room, u, v, video)
    ensures Current(RemoveBoth(t, room.publishers[u]), resolve, meeting, Without(room, u), Slot(room, v, video))
  {
    var s, room', t' := Slot(room, v, video), Without(room, u), RemoveBoth(t, room.publishers[u]);
    var owner, order :| Reflects(t, resolve, meeting, room, s, owner, order);
    OnlyOwner(room, v, video, owner);
    FewerOfKind(room, u, video);
    OthersUntouched(t, room, u, v, video);
    var pick, pick' := Choose(resolve, meeting, room, s, Some(v)), Choose(resolve, meeting, room', s, Some(v));
    forall w ensures pick(w) == pick'(w) {
      SameChoice(resolve, meeting, room, u, v, video, w);
    }
    TargetsEqual(pick, pick', order);
    assert Reflects(t', resolve, meeting, room', s, Some(v), order);
  }

  lemma SameUsers(order: seq<Text>, users: set<Text>, w: Text)
    requires multiset(order) == multiset(users)
    ensures w in order <==> w in users
  {
    assert w in multiset(order) <==> w in multiset(users);
  }

  /** A subscriber that should now be sent its own SSRC is not. */
  lemma AffectedGoesStale(t: Tables, resolve: Resolver, meeting: Text, room: Room, u: Text, v: Text, video: bool,
                          w: Text)
    requires SourcesDistinct(room) && AddressesDistinct(resolve, room)
    requires u in room.publishers && v in room.publishers && v != u && Slot(room, v, video) != 0
    requires Current(t, resolve, meeting, room, Slot(room, v, video))
    requires SameKind(room, video) > 1 && SameKind(Without(room, u), video) <= 1 && Reaches(resolve, room, v, video, w)
    requires var own, s := Own(room.subscribers[w], video), Slot(room, v, video);
             own != 0 && !OneCase(Fnv(Key(meeting, w, s, video)), own, s)
    ensures !Current(RemoveBoth(t, room.publishers[u]), resolve, meeting, Without(room, u), Slot(room, v, video))
  {
    var s, room', t' := Slot(room, v, video), Without(room, u), RemoveBoth(t, room.publishers[u]);
    if Current(t', resolve, meeting, room', s) {
      var owner, order :| Reflects(t, resolve, meeting, room, s, owner, order);
      var owner', order' :| Reflects(t', resolve, meeting, room', s, owner', order');
      OnlyOwner(room, v, video, owner);
      WithoutDistinct(room, u);
      OnlyOwner(room', v, video, owner');
      OthersUntouched(t, room, u, v, video);
      TargetsDiffer(resolve, meeting, room, u, v, video, w, order, order');
    }
  }

  lemma TargetsDiffer(resolve: Resolver, meeting: Text, room: Room, u: Text, v: Text, video: bool, w: Text,
                      order: seq<Text>, order': seq<Text>)
    requires SourcesDistinct(room) && AddressesDistinct(resolve, room)
    requires v in room.publishers && v != u && Slot(room, v, video) != 0
    requires SameKind(room, video) > 1 && SameKind(Without(room, u), video) <= 1 && Reaches(resolve, room, v, video, w)
    requires var own, s := Own(room.subscribers[w], video), Slot(room, v, video);
             own != 0 && !OneCase(Fnv(Key(meeting, w, s, video)), own, s)
    requires multiset(order') == multiset(room.subscribers.Keys)
    ensures var s := Slot(room, v, video);
            TargetsOf(Choose(resolve, meeting, room, s, Some(v)), order) !=
            TargetsOf(Choose(resolve, meeting, Without(room, u), s, Some(v)), order')
  {
    var s, own := Slot(room, v, video), Own(room.subscribers[w], video);
    var pick := Choose(resolve, meeting, room, s, Some(v));
    var pick' := Choose(resolve, meeting, Without(room, u), s, Some(v));
    var sub := Subscriber(own, Address(resolve, room.subscribers[w], video).value);
    WithoutDistinct(room, u);
    ChosenTarget(resolve, meeting, Without(room, u), v, video, w);
    SameUsers(order', room.subscribers.Keys, w);
    TargetsMembers(pick', order', sub);
    assert sub in TargetsOf(pick', order');
    forall x ensures pick(x) != Some(sub) {
      NobodyGetsOwn(resolve, meeting, room, v, video, w, x);
    }
    TargetsMembers(pick, order, sub);
  }

  /** While there are several publishers nobody is sent the SSRC of `w` at the address of `w`. */
  lemma NobodyGetsOwn(resolve: Resolver, meeting: Text, room: Room, v: Text, video: bool, w: Text, x: Text)
    requires SourcesDistinct(room) && AddressesDistinct(resolve, room)
    requires v in room.publishers && Slot(room, v, video) != 0 && SameKind(room, video) > 1
             && Reaches(resolve, room, v, video, w)
    requires var own, s := Own(room.subscribers[w], video), Slot(room, v, video);
             own != 0 && !OneCase(Fnv(Key(meeting, w, s, video)), own, s)
    ensures Choose(resolve, meeting, room, Slot(room, v, video), Some(v))(x) !=
            Some(Subscriber(Own(room.subscribers[w], video), Address(resolve, room.subscribers[w], video).value))
  {
    var s := Slot(room, v, video);
    ChosenTarget(resolve, meeting, room, v, video, x);
    OwnSsrcOnlyInOneCase(Fnv(Key(meeting, w, s, video)), SameKind(room, video), Own(room.subscribers[w], video), s);
  }

  lemma SourceCurrentIff(t: Tables, resolve: Resolver, meeting: Text, room: Room, u: Text, v: Text, video: bool)
    requires SourcesDistinct(room) && AddressesDistinct(resolve, room)
    requires u in room.publishers && v in room.publishers && v != u
    requires Current(t, resolve, meeting, room, Slot(room, v, video))
    ensures Current(RemoveBoth(t, room.publishers[u]), resolve, meeting, Without(room, u), Slot(room, v, video)) <==>
            SourceUnaffected(resolve, meeting, room, u, v, video)
  {
    if SourceUnaffected(resolve, meeting, room, u, v, video) {
      if Slot(room, v, video) != 0 {
        UnaffectedStaysCurrent(t, resolve, meeting, room, u, v, video);
      }
    } else {
      var s := Slot(room, v, video);
      var w :| Reaches(resolve, room, v, video, w)
        && Own(room.subscribers[w], video) != 0
        && !OneCase(Fnv(Key(meeting, w, s, video)), Own(room.subscribers[w], video), s);
      AffectedGoesStale(t, resolve, meeting, room, u, v, video, w);
    }
  }

  /** From routes that reflect the room: after a publisher is removed the routes still reflect the room if
      and only if no kind of media drops to one publisher whose subscribers have SSRCs of their own. */
  lemma RemovalKeepsCurrentIff(t: Tables, resolve: Resolver, meeting: Text, room: Room, u: Text)
    requires Plain(resolve, room)
    requires u in room.publishers && RoomCurrent(t, resolve, meeting, room)
    ensures RoomCurrent(RemoveBoth(t, room.publishers[u]), resolve, meeting, Without(room, u)) <==>
            Unaffected(resolve, meeting, room, u)
  {
    var room', t' := Without(room, u), RemoveBoth(t, room.publishers[u]);
    forall v, video | v in room.publishers && v != u
      ensures Current(t', resolve, meeting, room', Slot(room, v, video)) <==>
              SourceUnaffected(resolve, meeting, room, u, v, video)
    {
      assert Current(t, resolve, meeting, room, Slot(room, v, video));
      SourceCurrentIff(t, resolve, meeting, room, u, v, video);
    }
    if RoomCurrent(t', resolve, meeting, room') {
      forall v, video | v in room.publishers && v != u ensures SourceUnaffected(resolve, meeting, room, u, v, video) {
        assert v in room'.publishers && room'.publishers[v] == room.publishers[v];
        assert Current(t', resolve, meeting, room', Slot(room, v, video));
      }
    }
    if Unaffected(resolve, meeting, room, u) {
      forall v | v in room'.publishers
        ensures Current(t', resolve, meeting, room', room'.publishers[v].audio)
                && Current(t', resolve, meeting, room', room'.publishers[v].video)
      {
        assert SourceUnaffected(resolve, meeting, room, u, v, false)
               && SourceUnaffected(resolve, meeting, room, u, v, true);
        assert Slot(room, v, false) == room'.publishers[v].audio && Slot(room, v, true) == room'.publishers[v].video;
      }
    }
  }

  // ----- runs in which it fails -----

  /** Users `a` and `b` publish video, `w` watches. */
  function Pair(a: Text, b: Text, w: Text, x: u32, y: u32, l: Listener): Room {
    Room(2, map[a := Publisher(0, x), b := Publisher(0, y)], map[w := l])
  }

  /** The last steps of binding such a room: both sources are refreshed. */
  function Bound(meeting: Text, room: Room, a: Text, b: Text, w: Text, x: u32, y: u32): seq<MediaOp> {
    [Refresh(meeting, room, x, Some(a), [w]), Refresh(meeting, room, y, Some(b), [w])]
  }

  lemma PairIsCurrent(cap: nat, resolve: Resolver, meeting: Text, a: Text, b: Text, w: Text, x: u32, y: u32,
                      l: Listener)
    requires a != b && x != y && x != 0 && y != 0
    ensures var room := Pair(a, b, w, x, y, l);
            RoomCurrent(MediaRun(cap, resolve, Bound(meeting, room, a, b, w, x, y)), resolve, meeting, room)
  {
    var room := Pair(a, b, w, x, y, l);
    var ops := Bound(meeting, room, a, b, w, x, y);
    assert room.subscribers.Keys == {w};
    BothCurrent(cap, resolve, ops[0], ops[1]);
    assert ops == [ops[0], ops[1]];
    var t := MediaRun(cap, resolve, ops);
    assert Current(t, resolve, meeting, room, 0);
    assert Current(t, resolve, meeting, room, x) && Current(t, resolve, meeting, room, y);
  }

  lemma BothCurrent(cap: nat, resolve: Resolver, p: MediaOp, q: MediaOp)
    requires p.Refresh? && p.source != 0 && IsOwner(p.room, p.source, p.owner)
    requires multiset(p.order) == multiset(p.room.subscribers.Keys)
    requires q.Refresh? && q.source != 0 && q.source != p.source && q.room == p.room && q.meeting == p.meeting
    requires IsOwner(q.room, q.source, q.owner) && multiset(q.order) == multiset(q.room.subscribers.Keys)
    ensures var t := MediaRun(cap, resolve, [p, q]);
            Current(t, resolve, p.meeting, p.room, p.source) && Current(t, resolve, p.meeting, p.room, q.source)
  {
    AfterTwo(NONE, cap, resolve, p, q);
    SecondKeepsFirst(NONE, cap, resolve, p, q);
  }

  lemma AfterTwo(t: Tables, cap: nat, resolve: Resolver, p: MediaOp, q: MediaOp)
    ensures After(t, cap, resolve, [p, q]) == Apply(Apply(t, cap, resolve, p), cap, resolve, q)
  {
    AfterOne(t, cap, resolve, p);
    assert [p, q][..1] == [p];
  }

  lemma SecondKeepsFirst(t: Tables, cap: nat, resolve: Resolver, p: MediaOp, q: MediaOp)
    requires p.Refresh? && p.source != 0 && IsOwner(p.room, p.source, p.owner)
    requires multiset(p.order) == multiset(p.room.subscribers.Keys)
    requires q.Refresh? && q.source != 0 && q.source != p.source && q.room == p.room && q.meeting == p.meeting
    requires IsOwner(q.room, q.source, q.owner) && multiset(q.order) == multiset(q.room.subscribers.Keys)
    ensures var t' := Apply(Apply(t, cap, resolve, p), cap, resolve, q);
            Current(t', resolve, p.meeting, p.room, p.source) && Current(t', resolve, p.meeting, p.room, q.source)
  {
    var t1 := Apply(t, cap, resolve, p);
    RefreshMakesCurrent(t, cap, resolve, p);
    KeptByNext(t1, cap, resolve, q, p.source);
  }

  lemma KeptByNext(t: Tables, cap: nat, resolve: Resolver, q: MediaOp, s: u32)
    requires q.Refresh? && q.source != 0 && IsOwner(q.room, q.source, q.owner)
    requires multiset(q.order) == multiset(q.room.subscribers.Keys) && Current(t, resolve, q.meeting, q.room, s)
    ensures Current(Apply(t, cap, resolve, q), resolve, q.meeting, q.room, s)
    ensures Current(Apply(t, cap, resolve, q), resolve, q.meeting, q.room, q.source)
  {
    RefreshMakesCurrent(t, cap, resolve, q);
    OthersStayCurrent(t, Apply(t, cap, resolve, q), resolve, q.meeting, q.room, q.source, s);
  }

  lemma PairDropsToOne(a: Text, b: Text, w: Text, x: u32, y: u32, l: Listener)
    requires a != b && x != 0 && y != 0
    ensures var room := Pair(a, b, w, x, y, l); SameKind(room, true) == 2 && SameKind(Without(room, b), true) == 1
  {
    var room := Pair(a, b, w, x, y, l);
    assert OfKind(room, true) == {a, b};
    assert OfKind(Without(room, b), true) == {a};
  }

  lemma PairIsAffected(resolve: Resolver, meeting: Text, a: Text, b: Text, w: Text, x: u32, y: u32, l: Listener)
    requires a != b && x != 0 && y != 0 && x != FLIP && l.video != 0 && Address(resolve, l, true).Some?
    ensures !Unaffected(resolve, meeting, Pair(a, b, w, x, y, l), b)
  {
    var room := Pair(a, b, w, x, y, l);
    PairDropsToOne(a, b, w, x, y, l);
    assert Reaches(resolve, room, a, true, w);
    assert !SourceUnaffected(resolve, meeting, room, b, a, true);
  }

  lemma AffectedRoomGoesStale(t: Tables, resolve: Resolver, meeting: Text, room: Room, b: Text)
    requires SourcesDistinct(room) && AddressesDistinct(resolve, room) && b in room.publishers
    requires RoomCurrent(t, resolve, meeting, room) && !Unaffected(resolve, meeting, room, b)
    ensures !RoomCurrent(RemoveBoth(t, room.publishers[b]), resolve, meeting, Without(room, b))
  {
    RemovalKeepsCurrentIff(t, resolve, meeting, room, b);
  }

  /** For any two publishers of video and one watching subscriber with an address and a video SSRC of its
      own: after the binds the routes reflect the room, and when one publisher leaves they do not. */
  lemma RemovalLeavesStaleRoutes(cap: nat, resolve: Resolver, meeting: Text, a: Text, b: Text, w: Text,
                                 x: u32, y: u32, l: Listener)
    requires a != b && x != y && x != 0 && y != 0 && x != FLIP && l.video != 0 && Address(resolve, l, true).Some?
    ensures var room := Pair(a, b, w, x, y, l);
            var t := MediaRun(cap, resolve, Bound(meeting, room, a, b, w, x, y));
            && RoomCurrent(t, resolve, meeting, room)
            && !RoomCurrent(RemoveBoth(t, room.publishers[b]), resolve, meeting, Without(room, b))
  {
    var room := Pair(a, b, w, x, y, l);
    PairIsCurrent(cap, resolve, meeting, a, b, w, x, y, l);
    PairIsAffected(resolve, meeting, a, b, w, x, y, l);
    PairIsPlain(resolve, a, b, w, x, y, l);
    AffectedRoomGoesStale(MediaRun(cap, resolve, Bound(meeting, room, a, b, w, x, y)), resolve, meeting, room, b);
  }

  lemma PairIsPlain(resolve: Resolver, a: Text, b: Text, w: Text, x: u32, y: u32, l: Listener)
    requires a != b && x != y && x != 0 && y != 0
    ensures SourcesDistinct(Pair(a, b, w, x, y, l)) && AddressesDistinct(resolve, Pair(a, b, w, x, y, l))
  {
  }
}
