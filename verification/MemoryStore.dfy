/** The in-memory meeting store: three maps, a host field and role flags that together must behave like
    one list of members in join order whose head is the host. */
module MemoryStore {

  const DEFAULT_MAX := 16

  datatype User = User(displayName: string, avatarUrl: string)
  datatype Meeting = Meeting(title: string, password: string, host: string, max: nat)
  datatype Participant = Participant(displayName: string, avatarUrl: string, role: int, audioOn: bool, videoOn: bool,
                                     sharing: bool)

  type Members = map<string, Participant>
  type Order = map<string, nat>

  datatype Store = Store(users: map<string, User>, meetings: map<string, Meeting>, participants: map<string, Members>,
                         joinOrder: map<string, Order>, joinSeq: nat)

  datatype Failure = MeetingNotFound | WrongPassword | MeetingFull | UserNotFound

  datatype Outcome = Ok
                   | Left(hostChanged: bool, newHost: string, remaining: nat)
                   | Failed(why: Failure)

  // ----- host succession -----

  /** Byte-wise order on identifiers. */
  predicate Less(a: string, b: string) {
    if b == [] then false
    else if a == [] then true
    else a[0] < b[0] || (a[0] == b[0] && Less(a[1..], b[1..]))
  }

  lemma {:induction false} LessTotal(a: string, b: string)
    ensures a == b || Less(a, b) || Less(b, a)
    ensures !(Less(a, b) && Less(b, a))
  {
    if a != [] && b != [] {
      LessTotal(a[1..], b[1..]);
      assert a == [a[0]] + a[1..] && b == [b[0]] + b[1..];
    }
  }

  lemma {:induction false} LessTransitive(a: string, b: string, c: string)
    requires Less(a, b) && Less(b, c)
    ensures Less(a, c)
  {
    if a != [] && a[0] == b[0] && b[0] == c[0] {
      LessTransitive(a[1..], b[1..], c[1..]);
    }
  }

  function SeqOf(order: Order, u: string): nat {
    if u in order then order[u] else 0
  }

  /** `u` comes before `v` in succession. */
  predicate Before(order: Order, u: string, v: string) {
    SeqOf(order, u) < SeqOf(order, v) || (SeqOf(order, u) == SeqOf(order, v) && Less(u, v))
  }

  ghost predicate IsNextHost(members: Members, order: Order, u: string) {
    u in members && forall v | v in members && v != u :: Before(order, u, v)
  }

  /** There is never more than one successor, so the order a map is walked in cannot matter. */
  lemma NextHostUnique(members: Members, order: Order, u: string, v: string)
    requires IsNextHost(members, order, u) && IsNextHost(members, order, v)
    ensures u == v
  {
    LessTotal(u, v);
  }

  /** The scan, over the members in any order. It finds the successor for any two maps, even when join
      numbers are missing or tied. */
  method PickNextHostParticipant(members: Members, order: Order) returns (best: string)
    ensures if members == map[] then best == "" else IsNextHost(members, order, best)
  {
    if members == map[] { return ""; }
    var todo := members.Keys;
    best :| best in todo;
    todo := todo - {best};
    while todo != {}
      invariant todo <= members.Keys && best in members && best !in todo
      invariant forall v | v in members && v !in todo && v != best :: Before(order, best, v)
      decreases |todo|
    {
      var u :| u in todo;
      todo := todo - {u};
      LessTotal(u, best);
      if Before(order, u, best) {
        forall v | v in members && v !in todo && v != u ensures Before(order, u, v) {
          if v != best && Less(u, best) && Less(best, v) {
            LessTransitive(u, best, v);
          }
        }
        best := u;
      }
    }
  }

  // ----- operations -----

  function NewParticipant(u: User, role: int): Participant {
    Participant(u.displayName, u.avatarUrl, role, true, true, false)
  }

  /** Creating a meeting under `id`, the generated number; a number already in use is taken over. */
  function Create(s: Store, id: string, title: string, password: string, host: string, max: int): (Store, Outcome) {
    if host !in s.users then (s, Failed(UserNotFound))
    else
      (s.(meetings := s.meetings[id := Meeting(title, password, host, if max <= 0 then DEFAULT_MAX else max)],
          participants := s.participants[id := map[host := NewParticipant(s.users[host], 1)]],
          joinOrder := s.joinOrder[id := map[host := s.joinSeq + 1]],
          joinSeq := s.joinSeq + 1), Ok)
  }

  function Join(s: Store, id: string, password: string, u: string): (Store, Outcome) {
    if id !in s.meetings || id !in s.participants then (s, Failed(MeetingNotFound))
    else if s.meetings[id].password != "" && s.meetings[id].password != password then (s, Failed(WrongPassword))
    else if |s.participants[id]| >= s.meetings[id].max then (s, Failed(MeetingFull))
    else if u in s.participants[id] then (s, Ok)
    else if u !in s.users then (s, Failed(UserNotFound))
    else
      var order := if id in s.joinOrder then s.joinOrder[id] else map[];
      (s.(participants := s.participants[id := s.participants[id][u := NewParticipant(s.users[u], 0)]],
          joinOrder := s.joinOrder[id := order[u := s.joinSeq + 1]],
          joinSeq := s.joinSeq + 1), Ok)
  }

  /** Leaving, with `next` the successor the scan found if the host left. */
  ghost predicate Leaves(s: Store, id: string, u: string, s': Store, out: Outcome) {
    if id !in s.meetings || id !in s.participants || id !in s.joinOrder then s' == s && out == Failed(MeetingNotFound)
    else
      var members, order := s.participants[id] - {u}, s.joinOrder[id] - {u};
      if members == map[] then
        s' == s.(meetings := s.meetings - {id}, participants := s.participants - {id}, joinOrder := s.joinOrder - {id})
        && out == Left(false, "", 0)
      else if s.meetings[id].host == u then
        exists next :: IsNextHost(members, order, next)
          && s' == s.(meetings := s.meetings[id := s.meetings[id].(host := next)],
                      participants := s.participants[id := members[next := members[next].(role := 1)]],
                      joinOrder := s.joinOrder[id := order])
          && out == Left(true, next, |members|)
      else
        s' == s.(participants := s.participants[id := members], joinOrder := s.joinOrder[id := order])
        && out == Left(false, "", |members|)
  }

  /** The store as the source keeps it, updated in place under its lock. */
  class MeetingStore {
    var users: map<string, User>
    var meetings: map<string, Meeting>
    var participants: map<string, Members>
    var joinOrder: map<string, Order>
    var joinSeq: nat

    function Value(): Store
      reads this
    {
      Store(users, meetings, participants, joinOrder, joinSeq)
    }

    constructor ()
      ensures Value() == EMPTY
    {
      users, meetings, participants, joinOrder, joinSeq := map[], map[], map[], map[], 0;
    }

    method CreateMeeting(id: string, title: string, password: string, host: string, max: int) returns (out: Outcome)
      modifies this
      ensures (Value(), out) == Create(old(Value()), id, title, password, host, max)
    {
      var limit := max;
      if limit <= 0 { limit := DEFAULT_MAX; }
      if host !in users { return Failed(UserNotFound); }
      meetings := meetings[id := Meeting(title, password, host, limit)];
      participants := participants[id := map[host := NewParticipant(users[host], 1)]];
      joinSeq := joinSeq + 1;
      joinOrder := joinOrder[id := map[host := joinSeq]];
      return Ok;
    }

    method JoinMeeting(id: string, password: string, u: string) returns (out: Outcome)
      modifies this
      ensures (Value(), out) == Join(old(Value()), id, password, u)
    {
      if id !in meetings || id !in participants { return Failed(MeetingNotFound); }
      if meetings[id].password != "" && meetings[id].password != password { return Failed(WrongPassword); }
      if |participants[id]| >= meetings[id].max { return Failed(MeetingFull); }
      if u in participants[id] { return Ok; }
      if u !in users { return Failed(UserNotFound); }
      participants := participants[id := participants[id][u := NewParticipant(users[u], 0)]];
      var order := if id in joinOrder then joinOrder[id] else map[];
      joinSeq := joinSeq + 1;
      joinOrder := joinOrder[id := order[u := joinSeq]];
      return Ok;
    }

    method LeaveMeeting(id: string, u: string) returns (out: Outcome)
      modifies this
      ensures Leaves(old(Value()), id, u, Value(), out)
    {
      if id !in meetings || id !in participants || id !in joinOrder { return Failed(MeetingNotFound); }
      var members, order := participants[id] - {u}, joinOrder[id] - {u};
      if members == map[] {
        participants, joinOrder, meetings := participants - {id}, joinOrder - {id}, meetings - {id};
        return Left(false, "", 0);
      }
      joinOrder := joinOrder[id := order];
      if meetings[id].host == u {
        var next := PickNextHostParticipant(members, order);
        participants := participants[id := members[next := members[next].(role := 1)]];
        meetings := meetings[id := meetings[id].(host := next)];
        return Left(true, next, |members|);
      }
      participants := participants[id := members];
      return Left(false, "", |members|);
    }
  }

  const EMPTY := Store(map[], map[], map[], map[], 0)

  // ----- the simple store: one list per meeting -----

  /** Members in join order; the head is the host. */
  datatype Group = Group(members: seq<string>, max: nat, password: string)

  type Groups = map<string, Group>

  function ListCreate(users: set<string>, g: Groups, id: string, password: string, host: string, max: int)
    : (Groups, Outcome)
  {
    if host !in users then (g, Failed(UserNotFound))
    else (g[id := Group([host], if max <= 0 then DEFAULT_MAX else max, password)], Ok)
  }

  function ListJoin(users: set<string>, g: Groups, id: string, password: string, u: string): (Groups, Outcome) {
    if id !in g then (g, Failed(MeetingNotFound))
    else if g[id].password != "" && g[id].password != password then (g, Failed(WrongPassword))
    else if |g[id].members| >= g[id].max then (g, Failed(MeetingFull))
    else if u in g[id].members then (g, Ok)
    else if u !in users then (g, Failed(UserNotFound))
    else (g[id := g[id].(members := g[id].members + [u])], Ok)
  }

  function Without(s: seq<string>, u: string): seq<string> {
    if s == [] then [] else (if s[0] == u then [] else [s[0]]) + Without(s[1..], u)
  }

  function ListLeave(g: Groups, id: string, u: string): (Groups, Outcome) {
    if id !in g then (g, Failed(MeetingNotFound))
    else
      var rest := Without(g[id].members, u);
      if rest == [] then (g - {id}, Left(false, "", 0))
      else
        var wasHost := g[id].members != [] && g[id].members[0] == u;
        (g[id := g[id].(members := rest)], Left(wasHost, if wasHost then rest[0] else "", |rest|))
  }

  // ----- refinement -----

  ghost predicate Increasing(order: Order, list: seq<string>) {
    forall i, j | 0 <= i < j < |list| :: SeqOf(order, list[i]) < SeqOf(order, list[j])
  }

  /** One meeting's maps represent one list: same members, numbered in list order, head is host, and
      exactly the host has role 1. */
  ghost predicate Represents(m: Meeting, members: Members, order: Order, joinSeq: nat, g: Group) {
    && m.max == g.max && m.password == g.password
    && 1 <= |g.members| <= g.max
    && multiset(g.members) == multiset(members.Keys) && order.Keys == members.Keys
    && Increasing(order, g.members) && (forall u | u in order :: order[u] <= joinSeq)
    && m.host == g.members[0]
    && (forall u | u in members :: members[u].role == if u == m.host then 1 else 0)
  }

  /** Meeting `id` exists in both stores or in neither, and its maps represent its list. */
  ghost predicate RefinesAt(s: Store, g: Groups, id: string) {
    && (id in s.meetings <==> id in g) && (id in s.participants <==> id in g) && (id in s.joinOrder <==> id in g)
    && (id in g ==> Represents(s.meetings[id], s.participants[id], s.joinOrder[id], s.joinSeq, g[id]))
  }

  ghost predicate Refines(s: Store, g: Groups) {
    forall id :: RefinesAt(s, g, id)
  }

  lemma SameMembers(members: Members, list: seq<string>)
    requires multiset(list) == multiset(members.Keys)
    ensures |list| == |members| && forall u :: u in list <==> u in members
  {
    assert |multiset(list)| == |multiset(members.Keys)|;
    forall u ensures u in list <==> u in members {
      assert u in multiset(list) <==> u in multiset(members.Keys);
    }
  }

  lemma RepresentsLater(m: Meeting, members: Members, order: Order, joinSeq: nat, later: nat, g: Group)
    requires Represents(m, members, order, joinSeq, g) && joinSeq <= later
    ensures Represents(m, members, order, later, g)
  {
  }

  /** A step that touches other meetings only, and the join counter. */
  lemma OthersKeep(s: Store, g: Groups, s': Store, g': Groups, id: string)
    requires RefinesAt(s, g, id) && s.joinSeq <= s'.joinSeq
    requires (id in g <==> id in g') && (id in g ==> g[id] == g'[id])
    requires (id in s.meetings <==> id in s'.meetings) && (id in s.meetings ==> s.meetings[id] == s'.meetings[id])
    requires (id in s.participants <==> id in s'.participants)
             && (id in s.participants ==> s.participants[id] == s'.participants[id])
    requires (id in s.joinOrder <==> id in s'.joinOrder) && (id in s.joinOrder ==> s.joinOrder[id] == s'.joinOrder[id])
    ensures RefinesAt(s', g', id)
  {
    if id in g {
      RepresentsLater(s.meetings[id], s.participants[id], s.joinOrder[id], s.joinSeq, s'.joinSeq, g[id]);
    }
  }

  lemma CreateRefines(s: Store, g: Groups, id: string, title: string, password: string, host: string, max: int)
    ensures var (s', out) := Create(s, id, title, password, host, max);
            var (g', out') := ListCreate(s.users.Keys, g, id, password, host, max);
            out == out' && (host in s.users ==> RefinesAt(s', g', id))
  {
    if host in s.users {
      var s' := Create(s, id, title, password, host, max).0;
      assert s'.participants[id].Keys == {host} && s'.joinOrder[id].Keys == {host};
      assert multiset([host]) == multiset({host});
    }
  }

  lemma JoinRepresents(m: Meeting, members: Members, order: Order, joinSeq: nat, g: Group, u: string, p: Participant)
    requires Represents(m, members, order, joinSeq, g) && u !in members && p.role == 0 && |g.members| < g.max
    ensures Represents(m, members[u := p], order[u := joinSeq + 1], joinSeq + 1, g.(members := g.members + [u]))
  {
    SameMembers(members, g.members);
    JoinIncreasing(order, g.members, joinSeq, u);
    assert members[u := p].Keys == members.Keys + {u} && order[u := joinSeq + 1].Keys == order.Keys + {u};
  }

  lemma JoinIncreasing(order: Order, members: seq<string>, joinSeq: nat, u: string)
    requires Increasing(order, members) && u !in members
    requires forall v | v in members :: v in order && order[v] <= joinSeq
    ensures Increasing(order[u := joinSeq + 1], members + [u])
  {
    var list, order' := members + [u], order[u := joinSeq + 1];
    forall i, j | 0 <= i < j < |list| ensures SeqOf(order', list[i]) < SeqOf(order', list[j]) {
      assert list[i] == members[i] && list[i] in members;
      if j < |members| {
        assert list[j] == members[j] && list[j] in members;
      }
    }
  }

  lemma JoinRefines(s: Store, g: Groups, id: string, password: string, u: string)
    requires RefinesAt(s, g, id)
    ensures var (s', out) := Join(s, id, password, u);
            var (g', out') := ListJoin(s.users.Keys, g, id, password, u);
            RefinesAt(s', g', id) && out == out'
  {
    if id in g {
      var m, members, order, grp := s.meetings[id], s.participants[id], s.joinOrder[id], g[id];
      SameMembers(members, grp.members);
      assert u in grp.members <==> u in members;
      if (m.password == "" || m.password == password) && |members| < m.max && u !in members && u in s.users {
        NewMemberRefines(s, g, id, password, u);
      }
    }
  }

  lemma NewMemberRefines(s: Store, g: Groups, id: string, password: string, u: string)
    requires RefinesAt(s, g, id) && id in g && u !in s.participants[id] && u in s.users
    requires (s.meetings[id].password == "" || s.meetings[id].password == password)
             && |s.participants[id]| < s.meetings[id].max
    ensures Join(s, id, password, u).1 == Ok
    ensures RefinesAt(Join(s, id, password, u).0, g[id := g[id].(members := g[id].members + [u])], id)
  {
    var m, members, order := s.meetings[id], s.participants[id], s.joinOrder[id];
    SameMembers(members, g[id].members);
    JoinRepresents(m, members, order, s.joinSeq, g[id], u, NewParticipant(s.users[u], 0));
  }

  lemma {:induction false} WithoutMembers(s: seq<string>, u: string)
    ensures multiset(Without(s, u)) == multiset(s)[u := 0]
    ensures s != [] && s[0] != u ==> Without(s, u) != [] && Without(s, u)[0] == s[0]
  {
    if s != [] {
      assert s == [s[0]] + s[1..];
      WithoutMembers(s[1..], u);
    }
  }

  lemma {:induction false} WithoutIncreasing(s: seq<string>, u: string, order: Order)
    requires Increasing(order, s)
    ensures Increasing(order, Without(s, u))
  {
    if s != [] {
      var rest := s[1..];
      assert Increasing(order, rest);
      WithoutIncreasing(rest, u, order);
      var w := Without(rest, u);
      forall k | 0 <= k < |w| ensures SeqOf(order, s[0]) < SeqOf(order, w[k]) {
        WithoutMembers(rest, u);
        assert w[k] in multiset(w);
        assert w[k] in multiset(rest);
        var i :| 0 <= i < |rest| && rest[i] == w[k];
        assert s[i + 1] == w[k];
      }
    }
  }

  /** The head of a nonempty increasing list is the successor, and only it. */
  lemma HeadIsNextHost(members: Members, order: Order, list: seq<string>, next: string)
    requires list != [] && multiset(list) == multiset(members.Keys) && Increasing(order, list)
    ensures IsNextHost(members, order, next) <==> next == list[0]
  {
    SameMembers(members, list);
    forall v | v in members && v != list[0] ensures Before(order, list[0], v) {
      assert v in list;
      var k :| 0 <= k < |list| && list[k] == v;
    }
    assert list[0] in list;
    assert IsNextHost(members, order, list[0]);
    if IsNextHost(members, order, next) {
      NextHostUnique(members, order, next, list[0]);
    }
  }

  /** What is left of a meeting's maps still agrees with what is left of its list. */
  lemma LeftoverAgrees(members: Members, order: Order, list: seq<string>, u: string)
    requires multiset(list) == multiset(members.Keys) && order.Keys == members.Keys && Increasing(order, list)
    ensures var rest := Without(list, u);
            && multiset(rest) == multiset((members - {u}).Keys) && (order - {u}).Keys == (members - {u}).Keys
            && Increasing(order - {u}, rest) && |rest| == |members - {u}| && |rest| <= |list|
  {
    var rest := Without(list, u);
    WithoutMembers(list, u);
    WithoutIncreasing(list, u, order);
    assert (members - {u}).Keys == members.Keys - {u};
    assert multiset(members.Keys - {u}) == multiset(members.Keys)[u := 0];
    SameMembers(members - {u}, rest);
    assert |multiset(rest)| <= |multiset(list)|;
    forall k | 0 <= k < |rest| ensures SeqOf(order - {u}, rest[k]) == SeqOf(order, rest[k]) {
      assert rest[k] in rest;
    }
  }

  /** A member other than the host leaves. */
  lemma MemberLeaves(m: Meeting, members: Members, order: Order, joinSeq: nat, g: Group, u: string)
    requires Represents(m, members, order, joinSeq, g) && members - {u} != map[] && m.host != u
    ensures Represents(m, members - {u}, order - {u}, joinSeq, g.(members := Without(g.members, u)))
  {
    LeftoverAgrees(members, order, g.members, u);
    SameMembers(members - {u}, Without(g.members, u));
    WithoutMembers(g.members, u);
  }

  /** The host leaves, and the successor the scan found takes over. */
  lemma HostLeaves(m: Meeting, members: Members, order: Order, joinSeq: nat, g: Group, next: string)
    requires Represents(m, members, order, joinSeq, g) && members - {m.host} != map[]
    requires IsNextHost(members - {m.host}, order - {m.host}, next)
    ensures var rest, left := Without(g.members, m.host), members - {m.host};
            && rest != [] && next == rest[0] && next in left
            && Represents(m.(host := next), left[next := left[next].(role := 1)], order - {m.host}, joinSeq,
                          g.(members := rest))
  {
    var rest, left := Without(g.members, m.host), members - {m.host};
    LeftoverAgrees(members, order, g.members, m.host);
    SameMembers(left, rest);
    HeadIsNextHost(left, order - {m.host}, rest, next);
    assert left[next := left[next].(role := 1)].Keys == left.Keys;
  }

  lemma LeaveRefines(s: Store, g: Groups, id: string, u: string, s': Store, out: Outcome)
    requires RefinesAt(s, g, id) && Leaves(s, id, u, s', out)
    ensures var (g', out') := ListLeave(g, id, u); RefinesAt(s', g', id) && out == out'
  {
    if id in g {
      var m, members, order := s.meetings[id], s.participants[id], s.joinOrder[id];
      LeftoverAgrees(members, order, g[id].members, u);
      if members - {u} != map[] {
        if m.host == u {
          HostLeaves(m, members, order, s.joinSeq, g[id], out.newHost);
        } else {
          MemberLeaves(m, members, order, s.joinSeq, g[id], u);
          WithoutMembers(g[id].members, u);
        }
      }
    }
  }

  // ----- runs -----

  datatype Op = OpUser(u: string, user: User)
              | OpCreate(id: string, title: string, password: string, host: string, max: int)
              | OpJoin(id: string, password: string, u: string)
              | OpLeave(id: string, u: string)

  ghost predicate Step(s: Store, op: Op, s': Store, out: Outcome) {
    match op
    case OpUser(u, user) => s' == s.(users := s.users[u := user]) && out == Ok
    case OpCreate(id, title, password, host, max) => (s', out) == Create(s, id, title, password, host, max)
    case OpJoin(id, password, u) => (s', out) == Join(s, id, password, u)
    case OpLeave(id, u) => Leaves(s, id, u, s', out)
  }

  datatype Simple = Simple(users: set<string>, groups: Groups)

  function SimpleStep(t: Simple, op: Op): (Simple, Outcome) {
    match op
    case OpUser(u, user) => (t.(users := t.users + {u}), Ok)
    case OpCreate(id, title, password, host, max) =>
      var (g, out) := ListCreate(t.users, t.groups, id, password, host, max); (t.(groups := g), out)
    case OpJoin(id, password, u) => var (g, out) := ListJoin(t.users, t.groups, id, password, u); (t.(groups := g), out)
    case OpLeave(id, u) => var (g, out) := ListLeave(t.groups, id, u); (t.(groups := g), out)
  }

  function SimpleRun(ops: seq<Op>): Simple {
    if ops == [] then Simple({}, map[]) else SimpleStep(SimpleRun(ops[..|ops| - 1]), ops[|ops| - 1]).0
  }

  ghost predicate IsRun(states: seq<Store>, ops: seq<Op>, outs: seq<Outcome>) {
    && |states| == |ops| + 1 && |outs| == |ops| && states[0] == EMPTY
    && forall i | 0 <= i < |ops| :: Step(states[i], ops[i], states[i + 1], outs[i])
  }

  /** The meeting an operation is about, if it changes one. */
  predicate Concerns(op: Op, id: string) {
    !op.OpUser? && op.id == id
  }

  lemma LeaveOnOthers(s: Store, own: string, u: string, s': Store, out: Outcome, g: Groups, id: string)
    requires Leaves(s, own, u, s', out) && RefinesAt(s, g, id) && id != own
    ensures RefinesAt(s', ListLeave(g, own, u).0, id)
  {
    OthersKeep(s, g, s', ListLeave(g, own, u).0, id);
  }

  lemma StepOnOthers(s: Store, op: Op, s': Store, out: Outcome, t: Simple, id: string)
    requires Step(s, op, s', out) && RefinesAt(s, t.groups, id) && !Concerns(op, id) && s.users.Keys == t.users
    ensures RefinesAt(s', SimpleStep(t, op).0.groups, id)
  {
    var g' := SimpleStep(t, op).0.groups;
    match op
    case OpUser(u, user) => OthersKeep(s, t.groups, s', g', id);
    case OpCreate(own, title, password, host, max) => OthersKeep(s, t.groups, s', g', id);
    case OpJoin(own, password, u) => OthersKeep(s, t.groups, s', g', id);
    case OpLeave(own, u) => LeaveOnOthers(s, own, u, s', out, t.groups, id);
  }

  lemma LeaveOnOwn(s: Store, id: string, u: string, s': Store, out: Outcome, t: Simple)
    requires Leaves(s, id, u, s', out) && RefinesAt(s, t.groups, id)
    ensures var r := SimpleStep(t, OpLeave(id, u));
            RefinesAt(s', r.0.groups, id) && out == r.1 && s'.users == s.users
  {
    LeaveRefines(s, t.groups, id, u, s', out);
  }

  lemma JoinOnOwn(s: Store, id: string, password: string, u: string, t: Simple)
    requires RefinesAt(s, t.groups, id) && s.users.Keys == t.users
    ensures var r, j := SimpleStep(t, OpJoin(id, password, u)), Join(s, id, password, u);
            RefinesAt(j.0, r.0.groups, id) && j.1 == r.1 && j.0.users == s.users
  {
    JoinRefines(s, t.groups, id, password, u);
  }

  lemma StepOnOwn(s: Store, op: Op, s': Store, out: Outcome, t: Simple)
    requires Step(s, op, s', out) && !op.OpUser? && RefinesAt(s, t.groups, op.id) && s.users.Keys == t.users
    ensures RefinesAt(s', SimpleStep(t, op).0.groups, op.id) && out == SimpleStep(t, op).1 && s'.users == s.users
  {
    match op
    case OpCreate(id, title, password, host, max) => CreateRefines(s, t.groups, id, title, password, host, max);
    case OpJoin(id, password, u) => JoinOnOwn(s, id, password, u, t);
    case OpLeave(id, u) => LeaveOnOwn(s, id, u, s', out, t);
  }

  lemma StepRefines(s: Store, op: Op, s': Store, out: Outcome, t: Simple)
    requires Refines(s, t.groups) && s.users.Keys == t.users && Step(s, op, s', out)
    ensures Refines(s', SimpleStep(t, op).0.groups) && s'.users.Keys == SimpleStep(t, op).0.users
            && out == SimpleStep(t, op).1
  {
    if !op.OpUser? {
      assert RefinesAt(s, t.groups, op.id);
      StepOnOwn(s, op, s', out, t);
    }
    forall id ensures RefinesAt(s', SimpleStep(t, op).0.groups, id) {
      assert RefinesAt(s, t.groups, id);
      if !Concerns(op, id) {
        StepOnOthers(s, op, s', out, t, id);
      }
    }
  }

  /** Over every run, whatever order the maps iterate in, the store is the list store: same answers, same
      membership, and in every state each meeting has between 1 and its maximum of members, is hosted by
      the member present longest, and only the host has role 1. */
  lemma {:induction false} StoreRefinesLists(states: seq<Store>, ops: seq<Op>, outs: seq<Outcome>)
    requires IsRun(states, ops, outs)
    ensures Refines(states[|ops|], SimpleRun(ops).groups) && states[|ops|].users.Keys == SimpleRun(ops).users
    ensures forall i | 0 <= i < |ops| :: outs[i] == SimpleStep(SimpleRun(ops[..i]), ops[i]).1
  {
    if ops == [] {
      assert forall id :: RefinesAt(EMPTY, map[], id);
    } else {
      var n := |ops| - 1;
      assert IsRun(states[..|ops|], ops[..n], outs[..n]);
      StoreRefinesLists(states[..|ops|], ops[..n], outs[..n]);
      assert forall i | 0 <= i < n :: ops[..n][..i] == ops[..i];
      StepRefines(states[n], ops[n], states[n + 1], outs[n], SimpleRun(ops[..n]));
    }
  }

  // ----- joining again -----

  predicate PasswordFits(m: Meeting, password: string) {
    m.password == "" || m.password == password
  }

  /** A member who joins again changes nothing, and is welcome exactly if the password fits and the meeting
      is not full: capacity is checked before membership. */
  lemma RejoinIff(s: Store, id: string, password: string, u: string)
    requires id in s.meetings && id in s.participants && u in s.participants[id]
    ensures Join(s, id, password, u).0 == s
    ensures Join(s, id, password, u).1 == Ok <==>
            PasswordFits(s.meetings[id], password) && |s.participants[id]| < s.meetings[id].max
    ensures Join(s, id, password, u).1 == Failed(MeetingFull) <==>
            PasswordFits(s.meetings[id], password) && |s.participants[id]| >= s.meetings[id].max
  {
  }

  /** In every reachable state that is when the meeting has exactly its maximum of members. */
  lemma RejoinFailsExactlyWhenFull(states: seq<Store>, ops: seq<Op>, outs: seq<Outcome>, id: string, password: string,
                                   u: string)
    requires IsRun(states, ops, outs)
    requires var s := states[|ops|];
             && id in s.meetings && id in s.participants && u in s.participants[id]
             && PasswordFits(s.meetings[id], password)
    ensures var s := states[|ops|];
            Join(s, id, password, u).1 ==
              (if |s.participants[id]| == s.meetings[id].max then Failed(MeetingFull) else Ok)
  {
    StoreRefinesLists(states, ops, outs);
    var s, g := states[|ops|], SimpleRun(ops).groups;
    assert RefinesAt(s, g, id);
    SameMembers(s.participants[id], g[id].members);
    RejoinIff(s, id, password, u);
  }

  /** So the host of a meeting for one is refused, whatever the store. */
  lemma SoleHostCannotRejoin(s: Store, id: string, title: string, password: string, host: string)
    requires host in s.users
    ensures Join(Create(s, id, title, password, host, 1).0, id, password, host).1 == Failed(MeetingFull)
  {
    var s' := Create(s, id, title, password, host, 1).0;
    assert s'.participants[id].Keys == {host};
    RejoinIff(s', id, password, host);
  }

  // ----- what members and meetings start with -----

  /** A created meeting has the title and password given and room for 16 unless told otherwise; its host and
      everyone who joins start with the user's own names, sound and picture on and not sharing. */
  lemma StartsAsGiven(s: Store, id: string, title: string, password: string, u: string, max: int)
    requires u in s.users
    ensures var s' := Create(s, id, title, password, u, max).0;
            && s'.meetings[id].title == title && s'.meetings[id].password == password
            && s'.meetings[id].max == (if max <= 0 then 16 else max)
            && StartsFrom(s'.participants[id][u], s.users[u])
    ensures Join(s, id, password, u).1 == Ok && id in s.participants && u !in s.participants[id] ==>
              StartsFrom(Join(s, id, password, u).0.participants[id][u], s.users[u])
  {
  }

  predicate StartsFrom(p: Participant, u: User) {
    p.displayName == u.displayName && p.avatarUrl == u.avatarUrl && p.audioOn && p.videoOn && !p.sharing
  }
}
