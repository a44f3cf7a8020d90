/** The SFU's media plane as the object that keeps rooms, router and feedback index in step. */
module MediaIngress {
  import opened Bytes
  import opened RtpParser
  import opened RtpRouter
  import opened RouteRewrite
  import opened MediaRoutes
  import opened PublisherRemoval
  import opened MediaPorts

  datatype Kind = AudioOnly | VideoOnly | Both

  function MoveListener(l: Listener, kind: Kind, endpoint: string): Listener {
    match kind
    case AudioOnly => l.(audioEndpoint := endpoint)
    case VideoOnly => l.(videoEndpoint := endpoint)
    case Both => l.(endpoint := endpoint, audioEndpoint := endpoint, videoEndpoint := endpoint)
  }

  /** New SSRCs replace old ones; 0 keeps what was there. */
  function MergePublisher(room: Room, user: Text, audio: u32, video: u32): Publisher {
    var was := if user in room.publishers then room.publishers[user] else Publisher(0, 0);
    Publisher(if audio != 0 then audio else was.audio, if video != 0 then video else was.video)
  }

  function MergeListener(room: Room, user: Text, audio: u32, video: u32): Listener {
    var was := if user in room.subscribers then room.subscribers[user] else Listener("", "", "", 0, 0);
    was.(audio := if audio != 0 then audio else was.audio, video := if video != 0 then video else was.video)
  }

  /** A room takes a publisher with at least one SSRC, if it has it already or has a place left. */
  predicate Admits(room: Room, user: Text, audio: u32, video: u32) {
    && MergePublisher(room, user, audio, video) != Publisher(0, 0)
    && (user in room.publishers || room.maxPublishers == 0 || |room.publishers| < room.maxPublishers)
  }

  /** The steps by which a publisher's SSRCs are exchanged. */
  function Dropped(was: u32, now: u32): seq<MediaOp> {
    if was != 0 && was != now then [Remove(was)] else []
  }

  function Replaced(was: Publisher, now: Publisher): seq<MediaOp> {
    Dropped(was.audio, now.audio) + Dropped(was.video, now.video) + [Registered(now.audio)] + [Registered(now.video)]
  }

  /** What selecting an endpoint does to the routes of both kinds. */
  lemma EndpointSelected(t: Tables, t': Tables, resolve: Resolver, meeting: Text, room: Room, user: Text, kind: Kind,
                         endpoint: string)
    requires user in room.subscribers && endpoint != ""
    requires var moved := MoveListener(room.subscribers[user], kind, endpoint);
             RoomCurrent(t', resolve, meeting, room.(subscribers := room.subscribers[user := moved]))
    ensures resolve(endpoint).Some? ==>
              && (kind != AudioOnly ==> AllSentTo(t', room, user, true, resolve(endpoint).value))
              && (kind != VideoOnly ==> AllSentTo(t', room, user, false, resolve(endpoint).value))
    ensures SourcesDistinct(room) && RoomCurrent(t, resolve, meeting, room) ==>
              var l := room.subscribers[user];
              && (kind == VideoOnly && (l.audioEndpoint != "" || l.endpoint != "") ==> KindStays(t, t', room, false))
              && (kind == AudioOnly && (l.videoEndpoint != "" || l.endpoint != "") ==> KindStays(t, t', room, true))
  {
    var l := room.subscribers[user];
    var room' := room.(subscribers := room.subscribers[user := MoveListener(l, kind, endpoint)]);
    assert room'.subscribers.Keys == room.subscribers.Keys;
    if resolve(endpoint).Some? {
      if kind != AudioOnly {
        RoomSendsTo(t', resolve, meeting, room', user, true);
        SamePublishers(t', room, room', user, true, resolve(endpoint).value);
      }
      if kind != VideoOnly {
        RoomSendsTo(t', resolve, meeting, room', user, false);
        SamePublishers(t', room, room', user, false, resolve(endpoint).value);
      }
    }
    if SourcesDistinct(room) && RoomCurrent(t, resolve, meeting, room) {
      if kind == VideoOnly && (l.audioEndpoint != "" || l.endpoint != "") {
        AudioAddressStays(resolve, l, endpoint);
        RoomKindStays(t, t', resolve, meeting, room, room', user, false);
      }
      if kind == AudioOnly && (l.videoEndpoint != "" || l.endpoint != "") {
        VideoAddressStays(resolve, l, endpoint);
        RoomKindStays(t, t', resolve, meeting, room, room', user, true);
      }
    }
  }

  lemma SamePublishers(t: Tables, room: Room, room': Room, u: Text, video: bool, address: string)
    requires room'.publishers == room.publishers && room'.subscribers.Keys == room.subscribers.Keys
    requires AllSentTo(t, room', u, video, address)
    ensures AllSentTo(t, room, u, video, address)
  {
    assert |room'.subscribers| == |room'.subscribers.Keys| == |room.subscribers.Keys| == |room.subscribers|;
    forall s | (if video then VideoSource(room, s) else AudioSource(room, s)) && !Excluded(room, s, u)
      ensures SentTo(t, s, address)
    {
      assert (if video then VideoSource(room', s) else AudioSource(room', s)) && !Excluded(room', s, u);
    }
  }

  lemma MoveOne(order: seq<Text>, todo: set<Text>, u: Text)
    requires u in todo
    ensures multiset(order + [u]) + multiset(todo - {u}) == multiset(order) + multiset(todo)
  {
    assert todo == (todo - {u}) + {u};
  }

  class Ingress {
    const router: Router
    const resolve: Resolver
    var rooms: map<Text, Room>
    var feedback: Feedback

    function Value(): Tables
      reads this, router
    {
      Tables(router.publishers, feedback)
    }

    /** Every feedback entry has its subscriber, and the caches hold what was sent. */
    ghost predicate Valid()
      reads this, router
    {
      Sound(Value())
    }

    constructor (nackCapacity: nat, resolve: Resolver)
      ensures Valid() && Value() == NONE && rooms == map[] && fresh(router)
    {
      this.router := new Router(nackCapacity);
      this.resolve := resolve;
      rooms, feedback := map[], map[];
    }

    /** RoomManager: an existing room is kept, and a room for no publishers is not made. */
    method CreateRoom(meeting: Text, maxPublishers: nat) returns (ok: bool)
      requires Valid()
      modifies this`rooms
      ensures Valid()
      ensures ok == (meeting != [] && maxPublishers != 0 && meeting !in old(rooms))
      ensures rooms == if ok then old(rooms)[meeting := Room(maxPublishers, map[], map[])] else old(rooms)
    {
      ok := meeting != [] && maxPublishers != 0 && meeting !in rooms;
      if ok { rooms := rooms[meeting := Room(maxPublishers, map[], map[])]; }
    }

    /** Only the room goes; the routes of its publishers stay until their sources are removed. */
    method DestroyRoom(meeting: Text) returns (ok: bool)
      requires Valid()
      modifies this`rooms
      ensures Valid() && ok == (meeting != [] && meeting in old(rooms))
      ensures rooms == if ok then old(rooms) - {meeting} else old(rooms)
    {
      ok := meeting != [] && meeting in rooms;
      if ok { rooms := rooms - {meeting}; }
    }

    /** Rebuilds the routes of one source from the room as it is now. `ops` are the steps of the run. */
    method RefreshPublisherRoutes(meeting: Text, source: u32) returns (ghost ops: seq<MediaOp>)
      requires Valid()
      modifies this`feedback, router
      ensures Valid()
      ensures Value() == After(old(Value()), router.nackCapacity, resolve, ops)
      ensures if source == 0 || meeting !in rooms then ops == []
              else && |ops| == 1 && ops[0].Refresh? && ops[0].meeting == meeting && ops[0].source == source
                   && ops[0].room == rooms[meeting] && IsOwner(rooms[meeting], source, ops[0].owner)
                   && multiset(ops[0].order) == multiset(rooms[meeting].subscribers.Keys)
      ensures meeting in rooms ==> Current(Value(), resolve, meeting, rooms[meeting], source)
      ensures SameElsewhere(old(Value()), Value(), source)
    {
      ops := [];
      if source == 0 || meeting !in rooms { return; }
      var room := rooms[meeting];
      var owner := FindPublisherBySsrc(room, source);
      feedback := Forget(feedback, source);
      router.ClearForwards(source);
      ghost var order := ForwardToAll(room.subscribers.Keys, source, Choose(resolve, meeting, room, source, owner));
      ops := [Refresh(meeting, room, source, owner, order)];
      AfterOne(old(Value()), router.nackCapacity, resolve, ops[0]);
      RefreshMakesCurrent(old(Value()), router.nackCapacity, resolve, ops[0]);
      AfterKeepsSound(old(Value()), router.nackCapacity, resolve, ops);
    }

    /** One route per subscriber that has a usable endpoint, in whatever order the room lists them. */
    method ForwardToAll(users: set<Text>, source: u32, pick: Chooser) returns (ghost order: seq<Text>)
      modifies this`feedback, router
      ensures multiset(order) == multiset(users)
      ensures Value() == AddTargets(old(Value()), router.nackCapacity, source, TargetsOf(pick, order))
    {
      order := [];
      var todo := users;
      while todo != {}
        invariant todo <= users
        invariant multiset(order) + multiset(todo) == multiset(users)
        invariant Value() == AddTargets(old(Value()), router.nackCapacity, source, TargetsOf(pick, order))
        decreases |todo|
      {
        var u :| u in todo;
        MoveOne(order, todo, u);
        todo := todo - {u};
        TargetsSnoc(pick, order, u);
        var target := pick(u);
        if target.Some? {
          AddTargetsSnoc(old(Value()), router.nackCapacity, source, TargetsOf(pick, order), target.value);
          Forward(source, target.value);
        }
        order := order + [u];
      }
    }

    method Forward(source: u32, sub: Subscriber)
      modifies this`feedback, router
      ensures Value() == AddTarget(old(Value()), router.nackCapacity, source, sub)
    {
      var _ := router.AddForward(source, sub.ssrc, sub.endpoint);
      feedback := feedback[(sub.endpoint, sub.ssrc) := source];
    }

    method FindPublisherBySsrc(room: Room, source: u32) returns (owner: Option<Text>)
      ensures IsOwner(room, source, owner)
    {
      var todo := room.publishers.Keys;
      while todo != {}
        invariant todo <= room.publishers.Keys
        invariant forall u | u in room.publishers && u !in todo :: !Publishes(room.publishers[u], source)
        decreases |todo|
      {
        var u :| u in todo;
        todo := todo - {u};
        if Publishes(room.publishers[u], source) { return Some(u); }
      }
      return None;
    }

    /** Rebuilds the routes of every publisher of a room. */
    method RefreshRoomRoutes(meeting: Text) returns (ghost ops: seq<MediaOp>)
      requires Valid()
      modifies this`feedback, router
      ensures Valid()
      ensures Value() == After(old(Value()), router.nackCapacity, resolve, ops)
      ensures meeting in rooms ==> RoomCurrent(Value(), resolve, meeting, rooms[meeting])
    {
      ops := [];
      if meeting !in rooms { return; }
      var room := rooms[meeting];
      var todo := room.publishers.Keys;
      ghost var done := {};
      while todo != {}
        invariant todo <= room.publishers.Keys && rooms == old(rooms) && Valid()
        invariant Value() == After(old(Value()), router.nackCapacity, resolve, ops)
        invariant done == room.publishers.Keys - todo && AllCurrent(meeting, room, done)
        decreases |todo|
      {
        var u :| u in todo;
        todo := todo - {u};
        ghost var more := RefreshPublisher(meeting, room, u, done);
        AfterConcat(old(Value()), router.nackCapacity, resolve, ops, more);
        ops := ops + more;
        done := done + {u};
      }
    }

    ghost predicate AllCurrent(meeting: Text, room: Room, users: set<Text>)
      reads this, router
    {
      forall u | u in users && u in room.publishers ::
        && Current(Value(), resolve, meeting, room, room.publishers[u].audio)
        && Current(Value(), resolve, meeting, room, room.publishers[u].video)
    }

    /** Rebuilds both sources of a publisher; `done` are the publishers already rebuilt. */
    method RefreshPublisher(meeting: Text, room: Room, u: Text, ghost done: set<Text>) returns (ghost ops: seq<MediaOp>)
      requires meeting in rooms && rooms[meeting] == room && u in room.publishers && AllCurrent(meeting, room, done)
      requires Valid()
      modifies this`feedback, router
      ensures Valid()
      ensures Value() == After(old(Value()), router.nackCapacity, resolve, ops)
      ensures AllCurrent(meeting, room, done + {u})
    {
      ops := RefreshSource(meeting, room, room.publishers[u].audio, done);
      label Audio:
      ghost var more := RefreshSource(meeting, room, room.publishers[u].video, done);
      OthersStayCurrent(old@Audio(Value()), Value(), resolve, meeting, room, room.publishers[u].video,
                        room.publishers[u].audio);
      AfterConcat(old(Value()), router.nackCapacity, resolve, ops, more);
      ops := ops + more;
    }

    method RefreshSource(meeting: Text, room: Room, source: u32, ghost done: set<Text>)
      returns (ghost ops: seq<MediaOp>)
      requires meeting in rooms && rooms[meeting] == room && AllCurrent(meeting, room, done)
      requires Valid()
      modifies this`feedback, router
      ensures Valid()
      ensures Value() == After(old(Value()), router.nackCapacity, resolve, ops)
      ensures AllCurrent(meeting, room, done)
      ensures Current(Value(), resolve, meeting, room, source) && SameElsewhere(old(Value()), Value(), source)
    {
      ops := RefreshPublisherRoutes(meeting, source);
      forall v | v in done && v in room.publishers
        ensures Current(Value(), resolve, meeting, room, room.publishers[v].audio)
                && Current(Value(), resolve, meeting, room, room.publishers[v].video)
      {
        OthersStayCurrent(old(Value()), Value(), resolve, meeting, room, source, room.publishers[v].audio);
        OthersStayCurrent(old(Value()), Value(), resolve, meeting, room, source, room.publishers[v].video);
      }
    }

    method RemovePublisherRoutes(source: u32) returns (ghost ops: seq<MediaOp>)
      requires Valid()
      modifies this`feedback, router
      ensures Valid()
      ensures ops == [Remove(source)] && Value() == After(old(Value()), router.nackCapacity, resolve, ops)
      ensures Value() == RemoveSource(old(Value()), source)
    {
      ops := [Remove(source)];
      AfterOne(old(Value()), router.nackCapacity, resolve, Remove(source));
      AfterKeepsSound(old(Value()), router.nackCapacity, resolve, ops);
      if source == 0 { return; }
      router.ClearForwards(source);
      router.UnregisterPublisher(source);
      feedback := Forget(feedback, source);
      assert Value() == RemoveSource(old(Value()), source);
    }

    /** A room has no more publishers than it may have. */
    ghost predicate WithinLimit(meeting: Text)
      reads this
    {
      meeting in rooms ==>
        rooms[meeting].maxPublishers == 0 || |rooms[meeting].publishers| <= rooms[meeting].maxPublishers
    }

    /** Adds a publisher or merges its new SSRCs with the ones it had; routes of replaced SSRCs go, the
        others are rebuilt. */
    method BindPublisher(meeting: Text, user: Text, audio: u32, video: u32) returns (ok: bool, ghost ops: seq<MediaOp>)
      requires Valid()
      modifies this, router
      ensures Valid()
      ensures Value() == After(old(Value()), router.nackCapacity, resolve, ops)
      ensures ok == (meeting != [] && user != [] && meeting in old(rooms)
                     && Admits(old(rooms)[meeting], user, audio, video))
      ensures !ok ==> ops == [] && rooms == old(rooms)
      ensures ok ==> var room := old(rooms)[meeting];
                     var merged := MergePublisher(room, user, audio, video);
                     rooms == old(rooms)[meeting := room.(publishers := room.publishers[user := merged])]
      ensures ok ==> RoomCurrent(Value(), resolve, meeting, rooms[meeting])
      ensures ok ==> var p := rooms[meeting].publishers[user];
                     && (audio != 0 ==> p.audio == audio) && (video != 0 ==> p.video == video)
                     && (p.audio != 0 || p.video != 0)
                     && (user in old(rooms)[meeting].publishers ==>
                         && (audio == 0 ==> p.audio == old(rooms)[meeting].publishers[user].audio)
                         && (video == 0 ==> p.video == old(rooms)[meeting].publishers[user].video))
      ensures ok && old(WithinLimit(meeting)) ==> WithinLimit(meeting)
      ensures ok ==> var room := old(rooms)[meeting];
                     var was := if user in room.publishers then room.publishers[user] else Publisher(0, 0);
                     Replaced(was, MergePublisher(room, user, audio, video)) <= ops
    {
      if meeting == [] || user == [] || meeting !in rooms { return false, []; }
      var room := rooms[meeting];
      var was := if user in room.publishers then room.publishers[user] else Publisher(0, 0);
      var merged := MergePublisher(room, user, audio, video);
      if merged.audio == 0 && merged.video == 0 { return false, []; }
      if user !in room.publishers && room.maxPublishers != 0 && |room.publishers| >= room.maxPublishers {
        return false, [];
      }
      rooms := rooms[meeting := room.(publishers := room.publishers[user := merged])];
      ops := ReplaceSources(was, merged);
      assert Replaced(was, merged) == ops;
      ghost var more := RefreshRoomRoutes(meeting);
      AfterConcat(old(Value()), router.nackCapacity, resolve, ops, more);
      return true, ops + more;
    }

    /** Drops the routes of SSRCs a publisher no longer has and registers those it has now. */
    method ReplaceSources(was: Publisher, now: Publisher) returns (ghost ops: seq<MediaOp>)
      requires Valid()
      modifies this`feedback, router
      ensures Valid()
      ensures ops == Replaced(was, now) && Value() == After(old(Value()), router.nackCapacity, resolve, ops)
    {
      ops := ReplaceSource(was.audio, now.audio);
      ghost var more := ReplaceSource(was.video, now.video);
      AfterConcat(old(Value()), router.nackCapacity, resolve, ops, more);
      ops := ops + more;
      more := RegisterSource(now.audio);
      AfterConcat(old(Value()), router.nackCapacity, resolve, ops, more);
      ops := ops + more;
      more := RegisterSource(now.video);
      AfterConcat(old(Value()), router.nackCapacity, resolve, ops, more);
      ops := ops + more;
    }

    method ReplaceSource(was: u32, now: u32) returns (ghost ops: seq<MediaOp>)
      requires Valid()
      modifies this`feedback, router
      ensures Valid()
      ensures ops == Dropped(was, now)
      ensures Value() == After(old(Value()), router.nackCapacity, resolve, ops)
    {
      ops := [];
      if was != 0 && was != now { ops := RemovePublisherRoutes(was); }
    }

    method RegisterSource(source: u32) returns (ghost ops: seq<MediaOp>)
      requires Valid()
      modifies router
      ensures Valid()
      ensures ops == [Registered(source)] && Value() == After(old(Value()), router.nackCapacity, resolve, ops)
    {
      ops := [Registered(source)];
      AfterOne(old(Value()), router.nackCapacity, resolve, Registered(source));
      AfterKeepsSound(old(Value()), router.nackCapacity, resolve, ops);
      if source != 0 {
        var _ := router.RegisterPublisher(source);
      }
    }

    /** Adds or updates a subscriber, keeping the SSRCs and endpoints it already had. */
    method BindSubscriber(meeting: Text, user: Text, audio: u32, video: u32) returns (ok: bool, ghost ops: seq<MediaOp>)
      requires Valid()
      modifies this, router
      ensures Valid()
      ensures Value() == After(old(Value()), router.nackCapacity, resolve, ops)
      ensures ok == (meeting != [] && user != [] && meeting in old(rooms))
      ensures !ok ==> ops == [] && rooms == old(rooms)
      ensures ok ==> var room := old(rooms)[meeting];
                     var merged := MergeListener(room, user, audio, video);
                     rooms == old(rooms)[meeting := room.(subscribers := room.subscribers[user := merged])]
      ensures ok ==> var l := rooms[meeting].subscribers[user];
                     && (audio != 0 ==> l.audio == audio) && (video != 0 ==> l.video == video)
                     && (user in old(rooms)[meeting].subscribers ==>
                         var was := old(rooms)[meeting].subscribers[user];
                         && (audio == 0 ==> l.audio == was.audio) && (video == 0 ==> l.video == was.video)
                         && l.endpoint == was.endpoint
                         && l.audioEndpoint == was.audioEndpoint && l.videoEndpoint == was.videoEndpoint)
      ensures ok ==> RoomCurrent(Value(), resolve, meeting, rooms[meeting])
    {
      if meeting == [] || user == [] || meeting !in rooms { return false, []; }
      var room := rooms[meeting];
      var merged := MergeListener(room, user, audio, video);
      rooms := rooms[meeting := room.(subscribers := room.subscribers[user := merged])];
      ops := RefreshRoomRoutes(meeting);
      return true, ops;
    }

    method RemovePublisher(meeting: Text, user: Text) returns (ok: bool, ghost ops: seq<MediaOp>)
      requires Valid()
      modifies this, router
      ensures Valid()
      ensures Value() == After(old(Value()), router.nackCapacity, resolve, ops)
      ensures ok == (meeting != [] && user != [] && meeting in old(rooms) && user in old(rooms)[meeting].publishers)
      ensures rooms == if ok then old(rooms)[meeting := Without(old(rooms)[meeting], user)] else old(rooms)
      ensures !ok ==> ops == []
      ensures ok ==> var p := old(rooms)[meeting].publishers[user]; ops == [Remove(p.audio), Remove(p.video)]
      ensures ok ==> Value() == RemoveBoth(old(Value()), old(rooms)[meeting].publishers[user])
      ensures ok && Plain(resolve, old(rooms)[meeting])
              && RoomCurrent(old(Value()), resolve, meeting, old(rooms)[meeting]) ==>
              (RoomCurrent(Value(), resolve, meeting, rooms[meeting]) <==>
               Unaffected(resolve, meeting, old(rooms)[meeting], user))
    {
      if meeting == [] || user == [] || meeting !in rooms || user !in rooms[meeting].publishers { return false, []; }
      var room := rooms[meeting];
      var publisher := room.publishers[user];
      rooms := rooms[meeting := Without(room, user)];
      ops := RemovePublisherRoutes(publisher.audio);
      ghost var more := RemovePublisherRoutes(publisher.video);
      AfterConcat(old(Value()), router.nackCapacity, resolve, ops, more);
      if Plain(resolve, room) && RoomCurrent(old(Value()), resolve, meeting, room) {
        RemovalKeepsCurrentIff(old(Value()), resolve, meeting, room, user);
      }
      return true, ops + more;
    }

    method RemoveSubscriber(meeting: Text, user: Text) returns (ok: bool, ghost ops: seq<MediaOp>)
      requires Valid()
      modifies this, router
      ensures Valid()
      ensures Value() == After(old(Value()), router.nackCapacity, resolve, ops)
      ensures ok == (meeting != [] && user != [] && meeting in old(rooms) && user in old(rooms)[meeting].subscribers)
      ensures !ok ==> rooms == old(rooms)
      ensures ok ==> var room := old(rooms)[meeting];
                     rooms == old(rooms)[meeting := room.(subscribers := room.subscribers - {user})]
      ensures if ok then RoomCurrent(Value(), resolve, meeting, rooms[meeting]) else ops == []
    {
      if meeting == [] || user == [] || meeting !in rooms || user !in rooms[meeting].subscribers { return false, []; }
      var room := rooms[meeting];
      rooms := rooms[meeting := room.(subscribers := room.subscribers - {user})];
      ops := RefreshRoomRoutes(meeting);
      return true, ops;
    }

    /** A STUN check fixes where a subscriber receives `kind`; the room's routes follow. */
    method SelectEndpoint(meeting: Text, user: Text, kind: Kind, endpoint: string) returns (ghost ops: seq<MediaOp>)
      requires Valid()
      modifies this, router
      ensures Valid()
      ensures Value() == After(old(Value()), router.nackCapacity, resolve, ops)
      ensures if meeting in old(rooms) && user in old(rooms)[meeting].subscribers && endpoint != ""
              then var room := old(rooms)[meeting];
                   var moved := MoveListener(room.subscribers[user], kind, endpoint);
                   && rooms == old(rooms)[meeting := room.(subscribers := room.subscribers[user := moved])]
                   && RoomCurrent(Value(), resolve, meeting, rooms[meeting])
              else rooms == old(rooms) && ops == []
      ensures meeting in old(rooms) && user in old(rooms)[meeting].subscribers && endpoint != ""
              && resolve(endpoint).Some? ==>
              && (kind != AudioOnly ==> AllSentTo(Value(), old(rooms)[meeting], user, true, resolve(endpoint).value))
              && (kind != VideoOnly ==> AllSentTo(Value(), old(rooms)[meeting], user, false, resolve(endpoint).value))
      ensures meeting in old(rooms) && user in old(rooms)[meeting].subscribers && endpoint != ""
              && SourcesDistinct(old(rooms)[meeting])
              && RoomCurrent(old(Value()), resolve, meeting, old(rooms)[meeting]) ==>
              var l := old(rooms)[meeting].subscribers[user];
              && (kind == VideoOnly && (l.audioEndpoint != "" || l.endpoint != "") ==>
                  KindStays(old(Value()), Value(), old(rooms)[meeting], false))
              && (kind == AudioOnly && (l.videoEndpoint != "" || l.endpoint != "") ==>
                  KindStays(old(Value()), Value(), old(rooms)[meeting], true))
    {
      ops := [];
      if endpoint == "" || meeting !in rooms || user !in rooms[meeting].subscribers { return; }
      var room := rooms[meeting];
      var moved := MoveListener(room.subscribers[user], kind, endpoint);
      rooms := rooms[meeting := room.(subscribers := room.subscribers[user := moved])];
      ops := RefreshRoomRoutes(meeting);
      EndpointSelected(old(Value()), Value(), resolve, meeting, room, user, kind, endpoint);
    }

    method RouteMedia(packet: seq<byte>) returns (ok: bool, sent: seq<Sent>, ghost ops: seq<MediaOp>)
      requires Valid()
      modifies router
      ensures Valid()
      ensures ops == [Packet(packet)] && Value() == After(old(Value()), router.nackCapacity, resolve, ops)
      ensures sent == Forwarded(old(router.publishers), packet)
      ensures ok == (Parse(packet).Some? && Parse(packet).value.header.ssrc in old(router.publishers))
    {
      ops := [Packet(packet)];
      AfterOne(Value(), router.nackCapacity, resolve, Packet(packet));
      AfterKeepsSound(Value(), router.nackCapacity, resolve, ops);
      ok, sent := router.RoutePacket(packet);
    }

    ghost predicate PublishedSomewhere(media: u32)
      reads this
    {
      exists m, u :: m in rooms && u in rooms[m].publishers && Publishes(rooms[m].publishers[u], media)
    }

    ghost function Resolved(from: string, media: u32): u32
      reads this
    {
      if media == 0 || PublishedSomewhere(media) then media
      else if (from, media) in feedback then feedback[(from, media)] else 0
    }

    /** A NACK names `media`: itself when some room publishes it, else whatever the feedback index says. */
    method ResolveNackSource(from: string, media: u32) returns (source: u32)
      ensures source == Resolved(from, media)
    {
      if media == 0 { return 0; }
      var todo := rooms.Keys;
      while todo != {}
        invariant todo <= rooms.Keys
        invariant forall m, u | m in rooms && m !in todo && u in rooms[m].publishers ::
                  !Publishes(rooms[m].publishers[u], media)
        decreases |todo|
      {
        var m :| m in todo;
        todo := todo - {m};
        var owner := FindPublisherBySsrc(rooms[m], media);
        if owner.Some? { return media; }
      }
      if (from, media) in feedback { return feedback[(from, media)]; }
      return 0;
    }

    /** The retransmissions for one NACK: every cached sequence number asked for, in order, under the SSRC
        the requester knows. */
    method AnswerNack(from: string, media: u32, lost: seq<u16>) returns (source: u32, sent: seq<seq<byte>>)
      ensures source == Resolved(from, media)
      ensures source == 0 ==> sent == []
      ensures source != 0 ==> sent == Replies(router.publishers, media, source, lost)
      ensures Valid() && media != 0 && source != 0 && !PublishedSomewhere(media) ==>
              forall q | q in lost && Cached(router.publishers, source, q).Some? ::
                AnswersWithCopy(router.publishers, source, from, media, q)
    {
      source := ResolveNackSource(from, media);
      sent := [];
      if source == 0 { return; }
      var i := 0;
      while i < |lost|
        invariant 0 <= i <= |lost|
        invariant sent == Replies(router.publishers, media, source, lost[..i])
      {
        assert lost[..i + 1][..i] == lost[..i];
        var packet := Cached(router.publishers, source, lost[i]);
        if packet.Some? && packet.value != [] { sent := sent + [Reply(media, source, packet.value)]; }
        i := i + 1;
      }
      assert lost[..i] == lost;
      if Valid() && media != 0 && !PublishedSomewhere(media) {
        assert BackedAt(router.publishers, from, media, feedback[(from, media)]);
        forall q | q in lost && Cached(router.publishers, source, q).Some?
          ensures AnswersWithCopy(router.publishers, source, from, media, q)
        {
          BackedReplyIsCopy(router.publishers, source, from, media, q);
        }
      }
    }
  }

  function Replies(r: Routes, media: u32, source: u32, lost: seq<u16>): seq<seq<byte>> {
    if lost == [] then []
    else
      var packet := Cached(r, source, lost[|lost| - 1]);
      Replies(r, media, source, lost[..|lost| - 1]) +
      if packet.Some? && packet.value != [] then [Reply(media, source, packet.value)] else []
  }

  /** The reply is the nonempty cached packet of number q under the requester's SSRC. */
  predicate Answers(r: Routes, media: u32, source: u32, q: u16, reply: seq<byte>) {
    var packet := Cached(r, source, q);
    packet.Some? && packet.value != [] && reply == Reply(media, source, packet.value)
  }

  /** The replies are, one for each number asked for that has a nonempty packet in the cache, that packet under
      the requester's SSRC; nothing else is sent. */
  lemma {:induction false} RepliesExactly(r: Routes, media: u32, source: u32, lost: seq<u16>, reply: seq<byte>)
    ensures reply in Replies(r, media, source, lost) <==>
            exists q :: q in lost && Answers(r, media, source, q, reply)
  {
    if lost != [] {
      var front, q := lost[..|lost| - 1], lost[|lost| - 1];
      RepliesExactly(r, media, source, front, reply);
      RepliesGrow(r, media, source, front, q, reply);
      assert lost == front + [q];
    }
  }

  lemma RepliesGrow(r: Routes, media: u32, source: u32, front: seq<u16>, q: u16, reply: seq<byte>)
    ensures reply in Replies(r, media, source, front + [q]) <==>
            reply in Replies(r, media, source, front) || Answers(r, media, source, q, reply)
  {
    assert (front + [q])[..|front|] == front;
  }
}
