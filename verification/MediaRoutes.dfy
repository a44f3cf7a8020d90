/** The SFU's two indexes: which subscriber gets which publisher under which SSRC, and the feedback index that
    maps (endpoint, rewritten SSRC) back to the source for NACK, PLI and REMB. */
module MediaRoutes {
  import opened Bytes
  import opened RtpParser
  import opened RtpRouter
  import opened RouteRewrite
  import NackBuffer

  datatype Publisher = Publisher(audio: u32, video: u32)

  datatype Listener = Listener(endpoint: string, audioEndpoint: string, videoEndpoint: string, audio: u32, video: u32)

  datatype Room = Room(maxPublishers: nat, publishers: map<Text, Publisher>, subscribers: map<Text, Listener>)

  type Feedback = map<(string, u32), u32>

  /** The two indexes that must agree. */
  datatype Tables = Tables(routes: Routes, feedback: Feedback)

  /** Text to address, as `ParseEndpoint` does it; `None` when it does not parse. */
  type Resolver = string -> Option<string>

  // ----- who receives what -----

  predicate Publishes(p: Publisher, source: u32) {
    p.audio == source || p.video == source
  }

  /** A publisher of `source`, if the room has one. */
  predicate IsOwner(room: Room, source: u32, owner: Option<Text>) {
    match owner
    case Some(u) => u in room.publishers && Publishes(room.publishers[u], source)
    case None => forall u | u in room.publishers :: !Publishes(room.publishers[u], source)
  }

  predicate IsVideo(room: Room, source: u32, owner: Option<Text>) {
    owner.Some? && owner.value in room.publishers && room.publishers[owner.value].video == source
  }

  function OfKind(room: Room, video: bool): set<Text> {
    set u | u in room.publishers && (if video then room.publishers[u].video else room.publishers[u].audio) != 0
  }

  function SameKind(room: Room, video: bool): nat {
    |OfKind(room, video)|
  }

  function FirstNonEmpty(a: string, b: string, c: string): string {
    if a != "" then a else if b != "" then b else c
  }

  /** Where a subscriber receives media of a kind, and its own SSRC of that kind. */
  function Address(resolve: Resolver, l: Listener, video: bool): Option<string> {
    var text := if video then FirstNonEmpty(l.videoEndpoint, l.endpoint, l.audioEndpoint)
                else FirstNonEmpty(l.audioEndpoint, l.endpoint, l.videoEndpoint);
    if text == "" then None else resolve(text)
  }

  function Own(l: Listener, video: bool): u32 {
    if video then l.video else l.audio
  }

  /** The forwarding target of subscriber `u` for `source`, if it gets one. */
  function Target(resolve: Resolver, meeting: Text, room: Room, source: u32, owner: Option<Text>,
                  u: Text): Option<Subscriber>
    requires u in room.subscribers
  {
    var l, video := room.subscribers[u], IsVideo(room, source, owner);
    if |room.subscribers| > 1 && owner == Some(u) && u != [] then None
    else
      match Address(resolve, l, video)
      case None => None
      case Some(address) =>
        Some(Subscriber(ServerSsrc(Fnv(Key(meeting, u, source, video)), SameKind(room, video), Own(l, video), source),
                        address))
  }

  /** No target is ever refused by the router. */
  lemma TargetIsAccepted(resolve: Resolver, meeting: Text, room: Room, source: u32, owner: Option<Text>, u: Text)
    requires u in room.subscribers && source != 0 && Target(resolve, meeting, room, source, owner, u).Some?
    ensures Target(resolve, meeting, room, source, owner, u).value.ssrc != 0
  {
    var l, video := room.subscribers[u], IsVideo(room, source, owner);
    NeverZero(Fnv(Key(meeting, u, source, video)), SameKind(room, video), Own(l, video), source);
  }

  /** The choice of target for every subscriber of a room. */
  type Chooser = Text -> Option<Subscriber>

  function Choose(resolve: Resolver, meeting: Text, room: Room, source: u32, owner: Option<Text>): Chooser {
    (u: Text) => if u in room.subscribers then Target(resolve, meeting, room, source, owner, u) else None
  }

  ghost predicate NeverRefused(pick: Chooser) {
    forall u :: pick(u).Some? ==> pick(u).value.ssrc != 0
  }

  lemma ChoiceNeverRefused(resolve: Resolver, meeting: Text, room: Room, source: u32, owner: Option<Text>)
    requires source != 0
    ensures NeverRefused(Choose(resolve, meeting, room, source, owner))
  {
    var pick := Choose(resolve, meeting, room, source, owner);
    forall u | pick(u).Some? ensures pick(u).value.ssrc != 0 {
      TargetIsAccepted(resolve, meeting, room, source, owner, u);
    }
  }

  // ----- the steps on the two indexes -----

  function Forget(f: Feedback, source: u32): Feedback {
    map k | k in f && f[k] != source :: f[k]
  }

  function ClearSource(t: Tables, source: u32): Tables {
    Tables(RemoveSubscribers(t.routes, source), Forget(t.feedback, source))
  }

  function AddTarget(t: Tables, cap: nat, source: u32, sub: Subscriber): Tables {
    Tables(AddSubscriber(t.routes, cap, source, sub.ssrc, sub.endpoint), t.feedback[(sub.endpoint, sub.ssrc) := source])
  }

  function AddTargets(t: Tables, cap: nat, source: u32, subs: seq<Subscriber>): Tables {
    if subs == [] then t else AddTarget(AddTargets(t, cap, source, subs[..|subs| - 1]), cap, source, subs[|subs| - 1])
  }

  function RemoveSource(t: Tables, source: u32): Tables {
    if source == 0 then t else Tables(t.routes - {source}, Forget(t.feedback, source))
  }

  /** The feedback index leads from a subscriber's key to the source. */
  predicate LeadsTo(f: Feedback, sub: Subscriber, s: u32) {
    (sub.endpoint, sub.ssrc) in f && f[(sub.endpoint, sub.ssrc)] == s
  }

  /** Every feedback entry is backed by a current subscriber of its source. */
  ghost predicate Backed(t: Tables) {
    forall k | k in t.feedback :: BackedAt(t.routes, k.0, k.1, t.feedback[k])
  }

  predicate BackedAt(r: Routes, endpoint: string, ssrc: u32, source: u32) {
    source in r && Subscriber(ssrc, endpoint) in r[source].subscribers
  }

  lemma ClearKeepsBacked(t: Tables, source: u32)
    requires Backed(t)
    ensures Backed(ClearSource(t, source))
    ensures forall k | k in ClearSource(t, source).feedback :: ClearSource(t, source).feedback[k] != source
  {
  }

  lemma AddKeepsBacked(t: Tables, cap: nat, source: u32, sub: Subscriber)
    requires Backed(t) && source != 0 && sub.ssrc != 0
    ensures Backed(AddTarget(t, cap, source, sub))
  {
    var t' := AddTarget(t, cap, source, sub);
    forall k | k in t'.feedback ensures BackedAt(t'.routes, k.0, k.1, t'.feedback[k]) {
      if k != (sub.endpoint, sub.ssrc) {
        assert BackedAt(t.routes, k.0, k.1, t.feedback[k]);
      }
    }
  }

  predicate AllNonzero(subs: seq<Subscriber>) {
    forall i | 0 <= i < |subs| :: subs[i].ssrc != 0
  }

  lemma {:induction false} AddTargetsKeepsBacked(t: Tables, cap: nat, source: u32, subs: seq<Subscriber>)
    requires Backed(t) && source != 0 && AllNonzero(subs)
    ensures Backed(AddTargets(t, cap, source, subs))
  {
    if subs != [] {
      AddTargetsKeepsBacked(t, cap, source, subs[..|subs| - 1]);
      AddKeepsBacked(AddTargets(t, cap, source, subs[..|subs| - 1]), cap, source, subs[|subs| - 1]);
    }
  }

  function SubscribersOf(r: Routes, source: u32): seq<Subscriber> {
    if source in r then r[source].subscribers else []
  }

  lemma AddTargetExact(t: Tables, cap: nat, source: u32, sub: Subscriber, s: u32)
    requires source != 0 && sub.ssrc != 0
    ensures SubscribersOf(AddTarget(t, cap, source, sub).routes, s) ==
            if s == source then SubscribersOf(t.routes, s) + [sub] else SubscribersOf(t.routes, s)
  {
  }

  lemma {:induction false} AddedRoutes(t: Tables, cap: nat, source: u32, subs: seq<Subscriber>, s: u32)
    requires source != 0 && AllNonzero(subs)
    ensures SubscribersOf(AddTargets(t, cap, source, subs).routes, s) ==
            SubscribersOf(t.routes, s) + if s == source then subs else []
    decreases |subs|
  {
    if subs != [] {
      var n := |subs| - 1;
      AddedRoutes(t, cap, source, subs[..n], s);
      AddTargetExact(AddTargets(t, cap, source, subs[..n]), cap, source, subs[n], s);
      assert SubscribersOf(t.routes, s) + subs == SubscribersOf(t.routes, s) + subs[..n] + [subs[n]];
    }
  }

  /** What a refresh does to the routes: the source's subscribers become exactly the targets, in order,
      and no other source's subscribers change. */
  lemma RefreshedRoutes(t: Tables, cap: nat, source: u32, subs: seq<Subscriber>, s: u32)
    requires source != 0 && AllNonzero(subs)
    ensures SubscribersOf(AddTargets(ClearSource(t, source), cap, source, subs).routes, s) ==
            if s == source then subs else SubscribersOf(t.routes, s)
  {
    AddedRoutes(ClearSource(t, source), cap, source, subs, s);
    assert SubscribersOf(ClearSource(t, source).routes, s) == if s == source then [] else SubscribersOf(t.routes, s);
  }

  /** What a refresh does to the feedback index: exactly the targets lead back to the source, and every
      other entry is as it was. */
  lemma {:induction false} RefreshedFeedback(t: Tables, cap: nat, source: u32, subs: seq<Subscriber>, endpoint: string,
                                             ssrc: u32)
    ensures var f, k := AddTargets(ClearSource(t, source), cap, source, subs).feedback, (endpoint, ssrc);
            && (Subscriber(ssrc, endpoint) in subs <==> k in f && f[k] == source)
            && (Subscriber(ssrc, endpoint) !in subs ==>
                (k in f <==> k in t.feedback && t.feedback[k] != source) && (k in f ==> f[k] == t.feedback[k]))
  {
    if subs != [] {
      var front, last := subs[..|subs| - 1], subs[|subs| - 1];
      RefreshedFeedback(t, cap, source, front, endpoint, ssrc);
      assert subs == front + [last];
      assert Subscriber(ssrc, endpoint) in subs <==>
             Subscriber(ssrc, endpoint) in front || Subscriber(ssrc, endpoint) == last;
    }
  }

  // ----- runs of the media plane -----

  /** A refresh sees an arbitrary snapshot of the room (whatever binds, removals and endpoint changes led
      to it), walks its subscribers in an arbitrary order, and picks an arbitrary owner of the source. */
  datatype MediaOp = Refresh(meeting: Text, room: Room, source: u32, owner: Option<Text>, order: seq<Text>)
              | Remove(source: u32)
              | Registered(source: u32)
              | Packet(bytes: seq<byte>)

  /** The targets of the subscribers in `order`, in that order. */
  function TargetsOf(pick: Chooser, order: seq<Text>): seq<Subscriber> {
    if order == [] then []
    else
      var target := pick(order[|order| - 1]);
      TargetsOf(pick, order[..|order| - 1]) + if target.Some? then [target.value] else []
  }

  function Apply(t: Tables, cap: nat, resolve: Resolver, op: MediaOp): Tables {
    match op
    case Refresh(meeting, room, source, owner, order) =>
      if source == 0 then t
      else AddTargets(ClearSource(t, source), cap, source,
                      TargetsOf(Choose(resolve, meeting, room, source, owner), order))
    case Remove(source) => RemoveSource(t, source)
    case Registered(source) => t.(routes := Register(t.routes, cap, source))
    case Packet(p) => t.(routes := Route(t.routes, p))
  }

  function After(t: Tables, cap: nat, resolve: Resolver, ops: seq<MediaOp>): Tables {
    if ops == [] then t else Apply(After(t, cap, resolve, ops[..|ops| - 1]), cap, resolve, ops[|ops| - 1])
  }

  const NONE := Tables(map[], map[])

  function MediaRun(cap: nat, resolve: Resolver, ops: seq<MediaOp>): Tables {
    After(NONE, cap, resolve, ops)
  }

  lemma TargetsSnoc(pick: Chooser, order: seq<Text>, u: Text)
    ensures TargetsOf(pick, order + [u]) ==
            if pick(u).Some? then TargetsOf(pick, order) + [pick(u).value] else TargetsOf(pick, order)
  {
    assert (order + [u])[..|order|] == order;
  }

  lemma AddTargetsSnoc(t: Tables, cap: nat, source: u32, subs: seq<Subscriber>, sub: Subscriber)
    ensures AddTargets(t, cap, source, subs + [sub]) == AddTarget(AddTargets(t, cap, source, subs), cap, source, sub)
  {
    assert (subs + [sub])[..|subs|] == subs;
  }

  lemma {:induction false} TargetsAccepted(pick: Chooser, order: seq<Text>)
    requires NeverRefused(pick)
    ensures AllNonzero(TargetsOf(pick, order))
  {
    if order != [] {
      TargetsAccepted(pick, order[..|order| - 1]);
      assert pick(order[|order| - 1]).Some? ==> pick(order[|order| - 1]).value.ssrc != 0;
    }
  }

  // ----- routes that reflect the room -----

  /** The subscribers the router has for `source` are the room's, each with a usable endpoint once, under
      the SSRC chosen for it. */
  ghost predicate Reflects(t: Tables, resolve: Resolver, meeting: Text, room: Room, source: u32, owner: Option<Text>,
                           order: seq<Text>) {
    && IsOwner(room, source, owner) && multiset(order) == multiset(room.subscribers.Keys)
    && SubscribersOf(t.routes, source) == TargetsOf(Choose(resolve, meeting, room, source, owner), order)
  }

  ghost predicate Current(t: Tables, resolve: Resolver, meeting: Text, room: Room, source: u32) {
    source == 0 || exists owner, order :: Reflects(t, resolve, meeting, room, source, owner, order)
  }

  /** All routes of a room reflect it. */
  ghost predicate RoomCurrent(t: Tables, resolve: Resolver, meeting: Text, room: Room) {
    forall u | u in room.publishers ::
      && Current(t, resolve, meeting, room, room.publishers[u].audio)
      && Current(t, resolve, meeting, room, room.publishers[u].video)
  }

  ghost predicate SameElsewhere(t: Tables, t': Tables, source: u32) {
    forall s | s != source :: SubscribersOf(t'.routes, s) == SubscribersOf(t.routes, s)
  }

  lemma RefreshMakesCurrent(t: Tables, cap: nat, resolve: Resolver, op: MediaOp)
    requires op.Refresh? && op.source != 0 && IsOwner(op.room, op.source, op.owner)
    requires multiset(op.order) == multiset(op.room.subscribers.Keys)
    ensures Current(Apply(t, cap, resolve, op), resolve, op.meeting, op.room, op.source)
    ensures SameElsewhere(t, Apply(t, cap, resolve, op), op.source)
  {
    var pick := Choose(resolve, op.meeting, op.room, op.source, op.owner);
    ChoiceNeverRefused(resolve, op.meeting, op.room, op.source, op.owner);
    TargetsAccepted(pick, op.order);
    forall s ensures SubscribersOf(Apply(t, cap, resolve, op).routes, s) ==
                     if s == op.source then TargetsOf(pick, op.order) else SubscribersOf(t.routes, s)
    {
      RefreshedRoutes(t, cap, op.source, TargetsOf(pick, op.order), s);
    }
    assert Reflects(Apply(t, cap, resolve, op), resolve, op.meeting, op.room, op.source, op.owner, op.order);
  }

  lemma OthersStayCurrent(t: Tables, t': Tables, resolve: Resolver, meeting: Text, room: Room, source: u32, s: u32)
    requires Current(t', resolve, meeting, room, source) && SameElsewhere(t, t', source)
             && Current(t, resolve, meeting, room, s)
    ensures Current(t', resolve, meeting, room, s)
  {
    if s != source && s != 0 {
      var owner, order :| Reflects(t, resolve, meeting, room, s, owner, order);
      assert Reflects(t', resolve, meeting, room, s, owner, order);
    }
  }

  /** Whatever the caches hold was sent by that source with that number. */
  ghost predicate Truthful(r: Routes) {
    forall s, q | Cached(r, s, q).Some? ::
      var p := Parse(Cached(r, s, q).value); p.Some? && p.value.header.ssrc == s && p.value.header.sequence == q
  }

  lemma StepKeepsBacked(t: Tables, cap: nat, resolve: Resolver, op: MediaOp)
    requires Backed(t)
    ensures Backed(Apply(t, cap, resolve, op))
  {
    match op
    case Refresh(meeting, room, source, owner, order) =>
      if source != 0 {
        ClearKeepsBacked(t, source);
        ChoiceNeverRefused(resolve, meeting, room, source, owner);
        TargetsAccepted(Choose(resolve, meeting, room, source, owner), order);
        AddTargetsKeepsBacked(ClearSource(t, source), cap, source,
                              TargetsOf(Choose(resolve, meeting, room, source, owner), order));
      }
    case Remove(source) =>
    case Registered(source) =>
    case Packet(p) =>
      var t' := Apply(t, cap, resolve, op);
      forall k | k in t'.feedback ensures BackedAt(t'.routes, k.0, k.1, t'.feedback[k]) {
        assert BackedAt(t.routes, k.0, k.1, t.feedback[k]);
      }
  }

  lemma {:induction false} AddTargetsKeepsCaches(t: Tables, cap: nat, source: u32, subs: seq<Subscriber>, s: u32,
                                                 q: u16)
    ensures Cached(AddTargets(t, cap, source, subs).routes, s, q) == Cached(t.routes, s, q)
  {
    if subs != [] {
      AddTargetsKeepsCaches(t, cap, source, subs[..|subs| - 1], s, q);
    }
  }

  lemma StepKeepsTruthful(t: Tables, cap: nat, resolve: Resolver, op: MediaOp)
    requires Truthful(t.routes)
    ensures Truthful(Apply(t, cap, resolve, op).routes)
  {
    var r, r' := t.routes, Apply(t, cap, resolve, op).routes;
    forall s, q | Cached(r', s, q).Some?
      ensures var p := Parse(Cached(r', s, q).value);
              p.Some? && p.value.header.ssrc == s && p.value.header.sequence == q
    {
      match op
      case Refresh(meeting, room, source, owner, order) =>
        if source != 0 {
          AddTargetsKeepsCaches(ClearSource(t, source), cap, source,
                                TargetsOf(Choose(resolve, meeting, room, source, owner), order), s, q);
        }
        assert Cached(r, s, q) == Cached(r', s, q);
      case Packet(p) =>
        if Cached(r', s, q) != Cached(r, s, q) {
          StoreKeepsOthers(r[s].nack, Parse(p).value.header.sequence, p, q);
        }
      case _ => assert Cached(r, s, q) == Cached(r', s, q);
    }
  }

  lemma {:induction false} Reachable(cap: nat, resolve: Resolver, ops: seq<MediaOp>)
    ensures Backed(MediaRun(cap, resolve, ops)) && Truthful(MediaRun(cap, resolve, ops).routes)
  {
    if ops != [] {
      Reachable(cap, resolve, ops[..|ops| - 1]);
      StepKeepsBacked(MediaRun(cap, resolve, ops[..|ops| - 1]), cap, resolve, ops[|ops| - 1]);
      StepKeepsTruthful(MediaRun(cap, resolve, ops[..|ops| - 1]), cap, resolve, ops[|ops| - 1]);
    }
  }

  /** After any sequence of whole refreshes, removals, registrations and packets, every feedback entry is
      matched by a current subscriber of its source, with that SSRC, at that endpoint. */
  lemma FeedbackIsBacked(cap: nat, resolve: Resolver, ops: seq<MediaOp>, endpoint: string, ssrc: u32)
    requires (endpoint, ssrc) in MediaRun(cap, resolve, ops).feedback
    ensures var t := MediaRun(cap, resolve, ops);
            var source := t.feedback[(endpoint, ssrc)];
            source in t.routes && Subscriber(ssrc, endpoint) in t.routes[source].subscribers
  {
    Reachable(cap, resolve, ops);
    var t := MediaRun(cap, resolve, ops);
    assert BackedAt(t.routes, endpoint, ssrc, t.feedback[(endpoint, ssrc)]);
  }

  /** The reply to a NACK from `from` for `media` is what the router forwards there for the cached packet. */
  ghost predicate AnswersWithCopy(r: Routes, source: u32, from: string, media: u32, q: u16)
    requires Cached(r, source, q).Some?
  {
    var packet := Cached(r, source, q).value;
    && Sent(from, Reply(media, source, packet)) in Forwarded(r, packet)
    && Parse(Reply(media, source, packet)).Some?
    && Parse(Reply(media, source, packet)).value.header.ssrc == media
    && Parse(Reply(media, source, packet)).value.header.sequence == q
  }

  lemma BackedReplyIsCopy(r: Routes, source: u32, from: string, media: u32, q: u16)
    requires media != 0 && Truthful(r) && BackedAt(r, from, media, source) && Cached(r, source, q).Some?
    ensures AnswersWithCopy(r, source, from, media, q)
  {
    var packet, subs := Cached(r, source, q).value, r[source].subscribers;
    ReplyIsCopy(media, source, packet);
    RewriteChangesOnlySsrc(media, packet);
    var k :| 0 <= k < |subs| && subs[k] == Subscriber(media, from);
    assert Forwarded(r, packet)[k] == Sent(from, Rewritten(media, packet));
  }

  /** When operations follow one another, a NACK that resolves through the feedback index is answered with
      the very bytes the router forwards to that endpoint for the cached packet. */
  lemma NackReplyIsForwardedCopy(cap: nat, resolve: Resolver, ops: seq<MediaOp>, from: string, media: u32, q: u16)
    requires media != 0 && (from, media) in MediaRun(cap, resolve, ops).feedback
    requires var t := MediaRun(cap, resolve, ops); Cached(t.routes, t.feedback[(from, media)], q).Some?
    ensures var t := MediaRun(cap, resolve, ops); AnswersWithCopy(t.routes, t.feedback[(from, media)], from, media, q)
  {
    Reachable(cap, resolve, ops);
    FeedbackIsBacked(cap, resolve, ops, from, media);
    var t := MediaRun(cap, resolve, ops);
    BackedReplyIsCopy(t.routes, t.feedback[(from, media)], from, media, q);
  }

  // ----- composing steps -----

  lemma {:induction false} AfterConcat(t: Tables, cap: nat, resolve: Resolver, a: seq<MediaOp>, b: seq<MediaOp>)
    ensures After(t, cap, resolve, a + b) == After(After(t, cap, resolve, a), cap, resolve, b)
  {
    if b == [] {
      assert a + b == a;
    } else {
      assert (a + b)[..|a + b| - 1] == a + b[..|b| - 1];
      AfterConcat(t, cap, resolve, a, b[..|b| - 1]);
    }
  }

  lemma AfterOne(t: Tables, cap: nat, resolve: Resolver, op: MediaOp)
    ensures After(t, cap, resolve, [op]) == Apply(t, cap, resolve, op)
  {
    assert [op][..0] == [];
  }

  /** The two indexes agree and the caches are truthful. */
  ghost predicate Sound(t: Tables) {
    Backed(t) && Truthful(t.routes)
  }

  lemma {:induction false} AfterKeepsSound(t: Tables, cap: nat, resolve: Resolver, ops: seq<MediaOp>)
    requires Sound(t)
    ensures Sound(After(t, cap, resolve, ops))
  {
    if ops != [] {
      var mid := After(t, cap, resolve, ops[..|ops| - 1]);
      AfterKeepsSound(t, cap, resolve, ops[..|ops| - 1]);
      StepKeepsBacked(mid, cap, resolve, ops[|ops| - 1]);
      StepKeepsTruthful(mid, cap, resolve, ops[|ops| - 1]);
    }
  }
}
