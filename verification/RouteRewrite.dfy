/** The SSRC a subscriber sees for a publisher. The SFU chooses it when it builds a route and the
    client computes it again to know which stream is whose, so both must agree. */
module RouteRewrite {
  import opened Bytes

  const FNV_OFFSET: u32 := 2166136261
  const FNV_PRIME := 16777619
  const TWO_31 := 0x8000_0000
  const FLIP: u32 := 0x5A5A5A5A
  const FALLBACK: u32 := 0x13572468
  const NUDGE: u32 := 0x01010101

  /** Identifiers are hashed as the bytes they are encoded with. */
  type Text = seq<byte>

  lemma Pow2Of32()
    ensures Pow2(32) == TWO_32
  {
    assert Pow2(8) == 256;
    assert Pow2(12) == 4096;
    assert Pow2(16) == 0x1_0000;
    assert Pow2(20) == 0x10_0000;
    assert Pow2(24) == 0x100_0000;
    assert Pow2(28) == 0x1000_0000;
  }

  function Xor32(x: u32, y: u32): u32 {
    Pow2Of32();
    Xor(x, y, 32)
  }

  lemma Xor32Facts(x: u32, y: u32)
    ensures Xor32(x, y) == 0 <==> x == y
    ensures Xor32(x, y) == x <==> y == 0
  {
    Pow2Of32();
    XorZero(x, y, 32);
    XorMoves(x, y, 32);
  }

  // ----- the hash -----

  function Decimal(n: nat): Text {
    if n < 10 then [48 + n] else Decimal(n / 10) + [48 + n % 10]
  }

  const VIDEO: Text := [118, 105, 100, 101, 111]
  const AUDIO: Text := [97, 117, 100, 105, 111]

  function Key(meeting: Text, user: Text, source: u32, video: bool): Text {
    meeting + [124] + user + [124] + (if video then VIDEO else AUDIO) + [124] + Decimal(source)
  }

  function Mix(hash: u32, ch: byte): u32 {
    Xor32(hash, ch) * FNV_PRIME % TWO_32
  }

  function Fnv(key: Text): u32 {
    if key == [] then FNV_OFFSET else Mix(Fnv(key[..|key| - 1]), key[|key| - 1])
  }

  method Hash(key: Text) returns (hash: u32)
    ensures hash == Fnv(key)
  {
    hash := FNV_OFFSET;
    var i := 0;
    while i < |key|
      invariant 0 <= i <= |key|
      invariant hash == Fnv(key[..i])
    {
      assert key[..i + 1][..i] == key[..i];
      hash := Mix(hash, key[i]);
      i := i + 1;
    }
    assert key[..i] == key;
  }

  /** The hash folded to 31 bits and kept away from 0 and, but for one collision, from the source. */
  function Folded(hash: u32, source: u32): u32 {
    var low := hash % TWO_31;
    var h := if low == 0 || low == source then Xor32(low, FLIP) else low;
    if h == 0 then FALLBACK else h
  }

  // ----- the two sides -----

  /** What the SFU routes with: `preferred` is the subscriber's own SSRC of that kind, `publishers`
      the number of publishers of that kind in the room. */
  function ServerSsrc(hash: u32, publishers: nat, preferred: u32, source: u32): u32 {
    var direct := if preferred != 0 then preferred else source;
    if publishers > 1 && preferred != 0 then
      var h := Folded(hash, source);
      var moved := if h == preferred || h == source then Xor32(h, NUDGE) else h;
      if moved == 0 then Xor32(source, NUDGE) else moved
    else direct
  }

  /** The client builds its key by filling the numbered places of a template, first three at once and then
      the lowest place left; identifiers are filled in as they are. */
  datatype Piece = Literal(text: Text) | Place(number: nat)

  const TEMPLATE := [Place(1), Literal([124]), Place(2), Literal([124]), Place(3), Literal([124]), Place(4)]

  function Fill(pieces: seq<Piece>, first: nat, args: seq<Text>): seq<Piece> {
    seq(|pieces|, i requires 0 <= i < |pieces| =>
      match pieces[i]
      case Place(n) => if first <= n < first + |args| then Literal(args[n - first]) else pieces[i]
      case Literal(_) => pieces[i])
  }

  function LowestPlace(pieces: seq<Piece>): nat {
    if pieces == [] then 99
    else
      var rest := LowestPlace(pieces[1..]);
      if pieces[0].Place? && pieces[0].number < rest then pieces[0].number else rest
  }

  function Render(pieces: seq<Piece>): Text {
    if pieces == [] then [] else (if pieces[0].Literal? then pieces[0].text else []) + Render(pieces[1..])
  }

  function ClientKey(meeting: Text, user: Text, source: u32, video: bool): Text {
    var once := Fill(TEMPLATE, 1, [meeting, user, if video then VIDEO else AUDIO]);
    Render(Fill(once, LowestPlace(once), [Decimal(source)]))
  }

  /** Characters of the client's key are signed; the loop reads each as an unsigned byte again. */
  type Chars = seq<int>

  function Signed(key: Text): Chars {
    seq(|key|, i requires 0 <= i < |key| => if key[i] < 128 then key[i] as int else key[i] as int - 256)
  }

  function ClientFold(key: Chars, hash: u32): u32 {
    if key == [] then hash else ClientFold(key[1..], Xor32(hash, key[0] % 256) * FNV_PRIME % TWO_32)
  }

  function ClientHash(meeting: Text, user: Text, source: u32): u32 {
    if source == 0 then 0 else Folded(ClientFold(Signed(ClientKey(meeting, user, source, true)), FNV_OFFSET), source)
  }

  lemma Render7(a: Text, b: Text, c: Text, d: Text, bar: Text)
    ensures Render([Literal(a), Literal(bar), Literal(b), Literal(bar), Literal(c), Literal(bar), Literal(d)]) ==
            a + bar + b + bar + c + bar + d
  {
    var pieces := [Literal(a), Literal(bar), Literal(b), Literal(bar), Literal(c), Literal(bar), Literal(d)];
    assert pieces[1..][1..] == pieces[2..] && pieces[2..][1..] == pieces[3..] && pieces[3..][1..] == pieces[4..];
    assert pieces[4..][1..] == pieces[5..] && pieces[5..][1..] == pieces[6..] && pieces[6..][1..] == [];
    assert Render(pieces[6..]) == d;
    assert Render(pieces[4..]) == c + (bar + d);
    assert Render(pieces[2..]) == b + (bar + (c + (bar + d)));
  }

  /** Filling the template yields the bytes the SFU concatenates. */
  lemma ClientKeyIsKey(meeting: Text, user: Text, source: u32, video: bool)
    ensures ClientKey(meeting, user, source, video) == Key(meeting, user, source, video)
  {
    var kind, bar: Text := if video then VIDEO else AUDIO, [124];
    var once := Fill(TEMPLATE, 1, [meeting, user, kind]);
    assert once == [Literal(meeting), Literal(bar), Literal(user), Literal(bar), Literal(kind), Literal(bar), Place(4)];
    OnlyPlaceLeft(once);
    assert Fill(once, 4, [Decimal(source)]) ==
           [Literal(meeting), Literal(bar), Literal(user), Literal(bar), Literal(kind), Literal(bar),
            Literal(Decimal(source))];
    Render7(meeting, user, kind, Decimal(source), bar);
  }

  lemma {:induction false} OnlyPlaceLeft(pieces: seq<Piece>)
    requires pieces != [] && pieces[|pieces| - 1] == Place(4)
    requires forall i | 0 <= i < |pieces| - 1 :: pieces[i].Literal?
    ensures LowestPlace(pieces) == 4
  {
    if |pieces| > 1 {
      OnlyPlaceLeft(pieces[1..]);
    } else {
      assert pieces[1..] == [];
    }
  }

  /** Folding signed characters from the left is the SFU's fold over bytes. */
  lemma {:induction false} ClientFoldIsFnv(key: Text, i: nat)
    requires i <= |key|
    ensures ClientFold(Signed(key[i..]), Fnv(key[..i])) == Fnv(key)
    decreases |key| - i
  {
    if i == |key| {
      assert key[..i] == key;
    } else {
      assert Signed(key[i..])[1..] == Signed(key[i + 1..]);
      assert Signed(key[i..])[0] % 256 == key[i];
      assert key[..i + 1][..i] == key[..i];
      ClientFoldIsFnv(key, i + 1);
    }
  }

  lemma ClientHashIsServerHash(meeting: Text, user: Text, source: u32)
    requires source != 0
    ensures ClientHash(meeting, user, source) == Folded(Fnv(Key(meeting, user, source, true)), source)
  {
    var key := ClientKey(meeting, user, source, true);
    ClientKeyIsKey(meeting, user, source, true);
    ClientFoldIsFnv(key, 0);
    assert key[0..] == key && key[..0] == [];
  }

  /** The client's byte loop over its own key. */
  method ClientRewrite(meeting: Text, user: Text, source: u32) returns (hash: u32)
    ensures hash == ClientHash(meeting, user, source)
  {
    if source == 0 { return 0; }
    var key := Signed(ClientKey(meeting, user, source, true));
    hash := FNV_OFFSET;
    var i := 0;
    while i < |key|
      invariant 0 <= i <= |key|
      invariant ClientFold(key[i..], hash) == ClientFold(key, FNV_OFFSET)
    {
      assert key[i..][1..] == key[i + 1..];
      hash := Xor32(hash, key[i] % 256) * FNV_PRIME % TWO_32;
      i := i + 1;
    }
    hash := Folded(hash, source);
  }

  /** What the client expects for a remote participant's video. */
  function ClientSsrc(meeting: Text, user: Text, publishers: nat, own: u32, source: u32): u32 {
    if publishers > 1 && own != 0 then
      var h := ClientHash(meeting, user, source);
      var moved := if h == own || h == source then Xor32(h, NUDGE) else h;
      if moved == 0 then Xor32(source, NUDGE) else moved
    else if own != 0 then own
    else source
  }

  datatype Participant = Participant(user: Text, videoSsrc: u32, videoOn: bool, sharing: bool)

  predicate Counted(p: Participant) {
    p.user != [] && p.videoSsrc != 0
  }

  predicate Expected(p: Participant, self: Text) {
    Counted(p) && p.user != self && (p.videoOn || p.sharing)
  }

  function CountPublishers(items: seq<Participant>): nat {
    if items == [] then 0 else CountPublishers(items[..|items| - 1]) + if Counted(items[|items| - 1]) then 1 else 0
  }

  /** The last expected entry of each participant decides its mapping. */
  function Mappings(items: seq<Participant>, meeting: Text, self: Text, publishers: nat, own: u32): map<Text, u32> {
    if items == [] then map[]
    else MapOne(Mappings(items[..|items| - 1], meeting, self, publishers, own), items[|items| - 1], meeting, self,
                publishers, own)
  }

  function MapOne(front: map<Text, u32>, p: Participant, meeting: Text, self: Text, publishers: nat, own: u32)
    : map<Text, u32>
  {
    var ssrc := ClientSsrc(meeting, self, publishers, own, p.videoSsrc);
    if Expected(p, self) && ssrc != 0 then front[p.user := ssrc] else front
  }

  method RemoteVideoSsrc(meeting: Text, user: Text, publishers: nat, own: u32, source: u32) returns (ssrc: u32)
    requires source != 0
    ensures ssrc == ClientSsrc(meeting, user, publishers, own, source)
  {
    if publishers > 1 && own != 0 {
      ssrc := ClientRewrite(meeting, user, source);
      if ssrc == own || ssrc == source { ssrc := Xor32(ssrc, NUDGE); }
      if ssrc == 0 { ssrc := Xor32(source, NUDGE); }
    } else if own != 0 {
      ssrc := own;
    } else {
      ssrc := source;
    }
  }

  method UpdateRemoteMappings(items: seq<Participant>, meeting: Text, self: Text, own: u32)
    returns (next: map<Text, u32>)
    ensures next == Mappings(items, meeting, self, CountPublishers(items), own)
  {
    var publishers := CountVideoPublishers(items);
    next := map[];
    var i := 0;
    while i < |items|
      invariant 0 <= i <= |items|
      invariant next == Mappings(items[..i], meeting, self, publishers, own)
    {
      assert items[..i + 1][..i] == items[..i];
      next := MapParticipant(next, items[i], meeting, self, publishers, own);
      i := i + 1;
    }
    assert items[..i] == items;
  }

  method MapParticipant(front: map<Text, u32>, p: Participant, meeting: Text, self: Text, publishers: nat, own: u32)
    returns (next: map<Text, u32>)
    ensures next == MapOne(front, p, meeting, self, publishers, own)
  {
    next := front;
    if Expected(p, self) {
      var ssrc := RemoteVideoSsrc(meeting, self, publishers, own, p.videoSsrc);
      if ssrc != 0 { next := front[p.user := ssrc]; }
    }
  }

  method CountVideoPublishers(items: seq<Participant>) returns (publishers: nat)
    ensures publishers == CountPublishers(items)
  {
    publishers := 0;
    var i := 0;
    while i < |items|
      invariant 0 <= i <= |items|
      invariant publishers == CountPublishers(items[..i])
    {
      assert items[..i + 1][..i] == items[..i];
      if Counted(items[i]) { publishers := publishers + 1; }
      i := i + 1;
    }
    assert items[..i] == items;
  }

  // ----- results, for every hash value -----

  /** The folded hash meets its source only when the source is the flip constant and the hash is 0. */
  lemma FoldedMeetsSource(hash: u32, source: u32)
    requires source != 0
    ensures Folded(hash, source) != 0
    ensures Folded(hash, source) == source <==> (source == 0x5A5A5A5A && hash % 0x8000_0000 == 0)
  {
    var low := hash % TWO_31;
    Xor32Facts(low, FLIP);
    if low == 0 {
      Xor32FromZero(FLIP);
      assert Folded(hash, source) == FLIP;
    } else if low == source {
      assert Xor32(low, FLIP) != low;
    } else {
      assert Folded(hash, source) == low;
    }
  }

  lemma Xor32FromZero(y: u32)
    ensures Xor32(0, y) == y
  {
    Pow2Of32();
    XorFromZero(y, 32);
  }

  lemma {:induction false} XorFromZero(y: nat, n: nat)
    requires y < Pow2(n)
    ensures Xor(0, y, n) == y
  {
    if n > 0 {
      XorFromZero(y / 2, n - 1);
    }
  }

  /** The rewritten SSRC is never 0, so the router never refuses the subscriber. */
  lemma NeverZero(hash: u32, publishers: nat, preferred: u32, source: u32)
    requires source != 0
    ensures ServerSsrc(hash, publishers, preferred, source) != 0
  {
    var h := Folded(hash, source);
    FoldedMeetsSource(hash, source);
    Xor32Facts(h, NUDGE);
    Xor32Facts(source, NUDGE);
  }

  /** With several publishers of a kind, the rewritten SSRC is the subscriber's own in exactly one
      case, which needs the source to be the flip constant. */
  lemma OwnSsrcOnlyInOneCase(hash: u32, publishers: nat, preferred: u32, source: u32)
    requires source != 0 && preferred != 0 && publishers > 1
    ensures ServerSsrc(hash, publishers, preferred, source) == preferred <==>
            (source == FLIP && hash % TWO_31 == 0 && preferred == Xor32(FLIP, NUDGE))
  {
    var h := Folded(hash, source);
    FoldedMeetsSource(hash, source);
    Xor32Facts(h, NUDGE);
    Xor32Facts(source, NUDGE);
    if h == preferred && Xor32(h, NUDGE) == 0 && Xor32(source, NUDGE) == preferred {
      Xor32Symmetric(source, NUDGE);
      Xor32Facts(NUDGE, source);
    }
  }

  lemma Xor32Symmetric(x: u32, y: u32)
    ensures Xor32(x, y) == Xor32(y, x)
  {
    XorSymmetric(x, y, 32);
  }

  lemma {:induction false} XorSymmetric(x: nat, y: nat, n: nat)
    ensures Xor(x, y, n) == Xor(y, x, n)
  {
    if n > 0 {
      XorSymmetric(x / 2, y / 2, n - 1);
    }
  }

  /** Client and SFU compute the same SSRC for every video source, given the same publisher count and
      own SSRC, though each builds its key and runs its hash in its own way. */
  lemma ClientAgreesWithServer(meeting: Text, user: Text, publishers: nat, own: u32, source: u32)
    requires source != 0
    ensures ClientSsrc(meeting, user, publishers, own, source) ==
            ServerSsrc(Fnv(Key(meeting, user, source, true)), publishers, own, source)
  {
    ClientHashIsServerHash(meeting, user, source);
  }

  /** A route made for several publishers does not fit a client that counts only one: they meet in one
      case alone, so a route has to be rebuilt when all publishers but one have left. */
  lemma OneLeftNeedsRefresh(meeting: Text, user: Text, publishers: nat, own: u32, source: u32)
    requires source != 0 && own != 0 && publishers > 1
    ensures var hash := Fnv(Key(meeting, user, source, true));
            ClientSsrc(meeting, user, 1, own, source) == ServerSsrc(hash, publishers, own, source) <==>
            (source == FLIP && hash % TWO_31 == 0 && own == Xor32(FLIP, NUDGE))
  {
    OwnSsrcOnlyInOneCase(Fnv(Key(meeting, user, source, true)), publishers, own, source);
  }

  /** The SSRC the SFU sends the participant's video to `self` under. */
  function RoutedSsrc(p: Participant, meeting: Text, self: Text, publishers: nat, own: u32): u32 {
    ServerSsrc(Fnv(Key(meeting, self, p.videoSsrc, true)), publishers, own, p.videoSsrc)
  }

  /** The last expected entry of a participant, if there is one. */
  function LastExpected(items: seq<Participant>, self: Text, user: Text): Option<Participant> {
    if items == [] then None
    else if items[|items| - 1].user == user && Expected(items[|items| - 1], self) then Some(items[|items| - 1])
    else LastExpected(items[..|items| - 1], self, user)
  }

  lemma ExpectedSsrc(p: Participant, meeting: Text, self: Text, publishers: nat, own: u32)
    requires Expected(p, self)
    ensures ClientSsrc(meeting, self, publishers, own, p.videoSsrc) ==
            RoutedSsrc(p, meeting, self, publishers, own) != 0
  {
    ClientAgreesWithServer(meeting, self, publishers, own, p.videoSsrc);
    NeverZero(Fnv(Key(meeting, self, p.videoSsrc, true)), publishers, own, p.videoSsrc);
  }

  /** Exactly the expected participants get a mapping, and it is the SFU's SSRC for their last entry. */
  lemma {:induction false} MappingsAreServerRoutes(items: seq<Participant>, meeting: Text, self: Text, publishers: nat,
                                                   own: u32, user: Text)
    ensures var next, p := Mappings(items, meeting, self, publishers, own), LastExpected(items, self, user);
            && (user in next <==> p.Some?)
            && (user in next ==> next[user] == RoutedSsrc(p.value, meeting, self, publishers, own))
  {
    if items != [] {
      var front, p := items[..|items| - 1], items[|items| - 1];
      MappingsAreServerRoutes(front, meeting, self, publishers, own, user);
      if Expected(p, self) {
        ExpectedSsrc(p, meeting, self, publishers, own);
      }
    }
  }

  lemma {:induction false} LastExpectedIff(items: seq<Participant>, self: Text, user: Text)
    ensures LastExpected(items, self, user).Some? <==>
            exists i :: 0 <= i < |items| && items[i].user == user && user != [] && user != self
                        && items[i].videoSsrc != 0 && (items[i].videoOn || items[i].sharing)
  {
    if items != [] {
      var front := items[..|items| - 1];
      LastExpectedIff(front, self, user);
      assert forall i | 0 <= i < |front| :: front[i] == items[i];
    }
  }

  // ----- the parts of the key and the count -----

  /** The number that decimal digits stand for. */
  function Value(digits: Text): int {
    if digits == [] then 0 else Value(digits[..|digits| - 1]) * 10 + (digits[|digits| - 1] as int - 48)
  }

  /** Digits are written and read back, without leading zeros. */
  lemma {:induction false} DecimalIsRead(n: nat)
    ensures Value(Decimal(n)) == n && Decimal(n) != []
    ensures forall d | d in Decimal(n) :: 48 <= d <= 57
    ensures n > 0 ==> Decimal(n)[0] != 48
  {
    if n >= 10 {
      DecimalIsRead(n / 10);
      assert Decimal(n)[..|Decimal(n)| - 1] == Decimal(n / 10);
    } else {
      assert [48 + n][..0] == [];
    }
  }

  /** The entries with a user and a video SSRC. */
  function Entries(items: seq<Participant>): set<int> {
    set i | 0 <= i < |items| && items[i].user != [] && items[i].videoSsrc != 0
  }

  lemma OneMoreEntry(front: seq<Participant>, p: Participant)
    ensures Entries(front + [p]) == Entries(front) + if p.user != [] && p.videoSsrc != 0 then {|front|} else {}
  {
    var all := front + [p];
    assert forall i | 0 <= i < |front| :: all[i] == front[i];
    assert all[|front|] == p;
  }

  /** The client counts them all, its own included. */
  lemma {:induction false} CountIsEntries(items: seq<Participant>)
    ensures CountPublishers(items) == |Entries(items)|
  {
    if items != [] {
      var front, p := items[..|items| - 1], items[|items| - 1];
      CountIsEntries(front);
      OneMoreEntry(front, p);
      assert front + [p] == items;
    }
  }
}
