/** Where each kind of media is sent, in terms of the endpoints a subscriber has. */
module MediaPorts {
  import opened Bytes
  import opened RtpRouter
  import opened RouteRewrite
  import opened MediaRoutes
  import opened PublisherRemoval

  /** Some publisher sends the source as video, and none as audio only. */
  ghost predicate VideoSource(room: Room, s: u32) {
    && s != 0 && (exists x :: x in room.publishers && room.publishers[x].video == s)
    && forall x | x in room.publishers && room.publishers[x].audio == s :: room.publishers[x].video == s
  }

  /** Some publisher sends the source as audio, and none as video. */
  ghost predicate AudioSource(room: Room, s: u32) {
    && s != 0 && (exists x :: x in room.publishers && room.publishers[x].audio == s)
    && forall x | x in room.publishers :: room.publishers[x].video != s
  }

  /** With several subscribers a publisher is not sent its own media. */
  predicate Excluded(room: Room, s: u32, u: Text) {
    |room.subscribers| > 1 && u != [] && u in room.publishers && Publishes(room.publishers[u], s)
  }

  /** Some subscriber of the source is at the address. */
  ghost predicate SentTo(t: Tables, s: u32, address: string) {
    exists ssrc :: Subscriber(ssrc, address) in SubscribersOf(t.routes, s)
  }

  lemma KindOfSource(room: Room, s: u32, owner: Option<Text>)
    requires IsOwner(room, s, owner)
    ensures VideoSource(room, s) ==> IsVideo(room, s, owner)
    ensures AudioSource(room, s) ==> !IsVideo(room, s, owner)
  {
    if VideoSource(room, s) {
      var x :| x in room.publishers && room.publishers[x].video == s;
      assert Publishes(room.publishers[x], s);
    }
  }

  /** A subscriber that is not excluded is sent the source at the address of its kind. */
  lemma SentToItsAddress(t: Tables, resolve: Resolver, meeting: Text, room: Room, s: u32, u: Text, video: bool)
    requires Current(t, resolve, meeting, room, s) && (if video then VideoSource(room, s) else AudioSource(room, s))
    requires u in room.subscribers && !Excluded(room, s, u) && Address(resolve, room.subscribers[u], video).Some?
    ensures SentTo(t, s, Address(resolve, room.subscribers[u], video).value)
  {
    var owner, order :| Reflects(t, resolve, meeting, room, s, owner, order);
    KindOfSource(room, s, owner);
    var pick, l := Choose(resolve, meeting, room, s, owner), room.subscribers[u];
    assert pick(u).Some? && pick(u).value.endpoint == Address(resolve, l, video).value;
    SameUsers(order, room.subscribers.Keys, u);
    TargetsMembers(pick, order, pick(u).value);
    assert Subscriber(pick(u).value.ssrc, pick(u).value.endpoint) in SubscribersOf(t.routes, s);
  }

  // ----- from the endpoints alone -----

  /** Video goes to the video endpoint. */
  lemma VideoGoesToVideoEndpoint(t: Tables, resolve: Resolver, meeting: Text, room: Room, s: u32, u: Text)
    requires Current(t, resolve, meeting, room, s) && VideoSource(room, s)
    requires u in room.subscribers && !Excluded(room, s, u)
    requires var e := room.subscribers[u].videoEndpoint; e != "" && resolve(e).Some?
    ensures SentTo(t, s, resolve(room.subscribers[u].videoEndpoint).value)
  {
    SentToItsAddress(t, resolve, meeting, room, s, u, true);
  }

  /** Audio goes to the audio endpoint. */
  lemma AudioGoesToAudioEndpoint(t: Tables, resolve: Resolver, meeting: Text, room: Room, s: u32, u: Text)
    requires Current(t, resolve, meeting, room, s) && AudioSource(room, s)
    requires u in room.subscribers && !Excluded(room, s, u)
    requires var e := room.subscribers[u].audioEndpoint; e != "" && resolve(e).Some?
    ensures SentTo(t, s, resolve(room.subscribers[u].audioEndpoint).value)
  {
    SentToItsAddress(t, resolve, meeting, room, s, u, false);
  }

  /** Without an endpoint of its kind media goes to the common endpoint, and without that to the other kind's. */
  lemma FallsBack(t: Tables, resolve: Resolver, meeting: Text, room: Room, s: u32, u: Text, video: bool)
    requires Current(t, resolve, meeting, room, s) && (if video then VideoSource(room, s) else AudioSource(room, s))
    requires u in room.subscribers && !Excluded(room, s, u)
    requires var l := room.subscribers[u]; (if video then l.videoEndpoint else l.audioEndpoint) == ""
    ensures var l := room.subscribers[u];
            && (l.endpoint != "" && resolve(l.endpoint).Some? ==> SentTo(t, s, resolve(l.endpoint).value))
            && (var other := if video then l.audioEndpoint else l.videoEndpoint;
                l.endpoint == "" && other != "" && resolve(other).Some? ==> SentTo(t, s, resolve(other).value))
  {
    if Address(resolve, room.subscribers[u], video).Some? {
      SentToItsAddress(t, resolve, meeting, room, s, u, video);
    }
  }

  /** Nobody is sent its own media when there are others to send it to. */
  lemma NoEcho(t: Tables, resolve: Resolver, meeting: Text, room: Room, s: u32, u: Text, video: bool)
    requires Current(t, resolve, meeting, room, s) && (if video then VideoSource(room, s) else AudioSource(room, s))
    requires Plain(resolve, room) && u in room.subscribers && Excluded(room, s, u)
    requires Address(resolve, room.subscribers[u], video).Some?
    ensures !SentTo(t, s, Address(resolve, room.subscribers[u], video).value)
  {
    var owner, order :| Reflects(t, resolve, meeting, room, s, owner, order);
    KindOfSource(room, s, owner);
    assert Slot(room, u, video) == s;
    OnlyOwner(room, u, video, owner);
    var pick, address := Choose(resolve, meeting, room, s, owner), Address(resolve, room.subscribers[u], video).value;
    forall ssrc ensures Subscriber(ssrc, address) !in SubscribersOf(t.routes, s) {
      TargetsMembers(pick, order, Subscriber(ssrc, address));
      forall w ensures pick(w) != Some(Subscriber(ssrc, address)) {
        ChosenTarget(resolve, meeting, room, u, video, w);
      }
    }
  }

  // ----- moving one endpoint -----

  /** Subscriber `u` has moved, and its address for a kind of media has not. */
  ghost predicate Moved(room: Room, room': Room, u: Text) {
    && u in room.subscribers && room'.publishers == room.publishers && room'.subscribers.Keys == room.subscribers.Keys
    && (forall w | w in room.subscribers && w != u :: room'.subscribers[w] == room.subscribers[w])
    && room'.subscribers[u].audio == room.subscribers[u].audio
    && room'.subscribers[u].video == room.subscribers[u].video
  }

  lemma SameSizes(room: Room, room': Room, u: Text)
    requires Moved(room, room', u)
    ensures |room'.subscribers| == |room.subscribers|
    ensures forall video :: SameKind(room', video) == SameKind(room, video)
  {
    assert |room'.subscribers| == |room'.subscribers.Keys| == |room.subscribers.Keys| == |room.subscribers|;
    forall video ensures SameKind(room', video) == SameKind(room, video) {
      assert OfKind(room', video) == OfKind(room, video);
    }
  }

  lemma MovedDistinct(room: Room, room': Room, u: Text)
    requires Moved(room, room', u) && SourcesDistinct(room)
    ensures SourcesDistinct(room')
  {
    forall x, y, a, b | x in room'.publishers && y in room'.publishers && Slot(room', x, a) != 0
      ensures Slot(room', x, a) == Slot(room', y, b) ==> x == y && a == b
    {
      assert Slot(room, x, a) == Slot(room', x, a) && Slot(room, y, b) == Slot(room', y, b);
    }
  }

  lemma MovedChoice(resolve: Resolver, meeting: Text, room: Room, room': Room, u: Text, v: Text, video: bool, w: Text)
    requires Moved(room, room', u) && SourcesDistinct(room) && v in room.publishers && Slot(room, v, video) != 0
    requires Address(resolve, room'.subscribers[u], video) == Address(resolve, room.subscribers[u], video)
    ensures var s := Slot(room, v, video);
            Choose(resolve, meeting, room, s, Some(v))(w) == Choose(resolve, meeting, room', s, Some(v))(w)
  {
    SameSizes(room, room', u);
    MovedDistinct(room, room', u);
    ChosenTarget(resolve, meeting, room, v, video, w);
    ChosenTarget(resolve, meeting, room', v, video, w);
  }

  /** Then no route of a source of that kind moves. */
  lemma OtherKindStays(t: Tables, t': Tables, resolve: Resolver, meeting: Text, room: Room, room': Room, u: Text,
                       v: Text,
                       video: bool, sub: Subscriber)
    requires Moved(room, room', u) && SourcesDistinct(room) && v in room.publishers && Slot(room, v, video) != 0
    requires Address(resolve, room'.subscribers[u], video) == Address(resolve, room.subscribers[u], video)
    requires Current(t, resolve, meeting, room, Slot(room, v, video))
    requires Current(t', resolve, meeting, room', Slot(room, v, video))
    ensures var s := Slot(room, v, video);
            sub in SubscribersOf(t'.routes, s) <==> sub in SubscribersOf(t.routes, s)
  {
    RoutesAreChoices(t, resolve, meeting, room, v, video, sub);
    MovedDistinct(room, room', u);
    RoutesAreChoices(t', resolve, meeting, room', v, video, sub);
    var s := Slot(room, v, video);
    forall w ensures Choose(resolve, meeting, room, s, Some(v))(w) == Choose(resolve, meeting, room', s, Some(v))(w) {
      MovedChoice(resolve, meeting, room, room', u, v, video, w);
    }
  }

  lemma RoutesAreChoices(t: Tables, resolve: Resolver, meeting: Text, room: Room, v: Text, video: bool, sub: Subscriber)
    requires SourcesDistinct(room) && v in room.publishers && Slot(room, v, video) != 0
    requires Current(t, resolve, meeting, room, Slot(room, v, video))
    ensures var s := Slot(room, v, video);
            sub in SubscribersOf(t.routes, s) <==>
            exists w :: w in room.subscribers && Choose(resolve, meeting, room, s, Some(v))(w) == Some(sub)
  {
    var s := Slot(room, v, video);
    var owner, order :| Reflects(t, resolve, meeting, room, s, owner, order);
    OnlyOwner(room, v, video, owner);
    TargetsMembers(Choose(resolve, meeting, room, s, owner), order, sub);
    forall w ensures w in order <==> w in room.subscribers {
      SameUsers(order, room.subscribers.Keys, w);
    }
  }

  /** The address for a kind follows the endpoint of that kind alone, if that is set, or the common one. */
  lemma AudioAddressStays(resolve: Resolver, l: Listener, e: string)
    requires l.audioEndpoint != "" || l.endpoint != ""
    ensures Address(resolve, l.(videoEndpoint := e), false) == Address(resolve, l, false)
  {
  }

  lemma VideoAddressStays(resolve: Resolver, l: Listener, e: string)
    requires l.videoEndpoint != "" || l.endpoint != ""
    ensures Address(resolve, l.(audioEndpoint := e), true) == Address(resolve, l, true)
  {
  }

  /** Otherwise the other kind moves along. */
  lemma AudioFollowsVideo(resolve: Resolver, l: Listener, e: string)
    requires l.audioEndpoint == "" && l.endpoint == "" && e != ""
    ensures Address(resolve, l.(videoEndpoint := e), false) == resolve(e)
  {
  }

  // ----- the whole room -----

  /** Every source of a kind that the subscriber may be sent is sent to the address. */
  ghost predicate AllSentTo(t: Tables, room: Room, u: Text, video: bool, address: string) {
    forall s | (if video then VideoSource(room, s) else AudioSource(room, s)) && !Excluded(room, s, u) ::
           SentTo(t, s, address)
  }

  lemma RoomSendsTo(t: Tables, resolve: Resolver, meeting: Text, room: Room, u: Text, video: bool)
    requires RoomCurrent(t, resolve, meeting, room) && u in room.subscribers
    requires Address(resolve, room.subscribers[u], video).Some?
    ensures AllSentTo(t, room, u, video, Address(resolve, room.subscribers[u], video).value)
  {
    forall s | (if video then VideoSource(room, s) else AudioSource(room, s)) && !Excluded(room, s, u)
      ensures SentTo(t, s, Address(resolve, room.subscribers[u], video).value)
    {
      assert Current(t, resolve, meeting, room, s);
      SentToItsAddress(t, resolve, meeting, room, s, u, video);
    }
  }

  /** The routes of all sources of a kind are as they were. */
  ghost predicate KindStays(t: Tables, t': Tables, room: Room, video: bool) {
    forall v, sub | v in room.publishers && Slot(room, v, video) != 0 ::
      sub in SubscribersOf(t'.routes, Slot(room, v, video)) <==> sub in SubscribersOf(t.routes, Slot(room, v, video))
  }

  lemma RoomKindStays(t: Tables, t': Tables, resolve: Resolver, meeting: Text, room: Room, room': Room, u: Text,
                      video: bool)
    requires Moved(room, room', u) && SourcesDistinct(room)
    requires Address(resolve, room'.subscribers[u], video) == Address(resolve, room.subscribers[u], video)
    requires RoomCurrent(t, resolve, meeting, room) && RoomCurrent(t', resolve, meeting, room')
    ensures KindStays(t, t', room, video)
  {
    forall v, sub | v in room.publishers && Slot(room, v, video) != 0
      ensures sub in SubscribersOf(t'.routes, Slot(room, v, video)) <==>
              sub in SubscribersOf(t.routes, Slot(room, v, video))
    {
      assert v in room'.publishers && Current(t', resolve, meeting, room', Slot(room, v, video));
      OtherKindStays(t, t', resolve, meeting, room, room', u, v, video, sub);
    }
  }
}
