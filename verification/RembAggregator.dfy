/** The estimate forwarded to a publisher is the smallest recent one among its subscribers. */
module RembAggregator {
  import opened Bytes

  const TTL_NS := 3_000_000_000

  datatype Sample = Sample(exp: nat, mantissa: nat, bps: u32, at: int)

  type Table = map<u32, map<string, Sample>>

  predicate Recent(s: Sample, now: int) {
    now - s.at <= TTL_NS
  }

  /** The samples of one source after a new one arrived at `now`: stale ones are dropped. */
  function Update(per: map<string, Sample>, endpoint: string, s: Sample, now: int): map<string, Sample> {
    var added := per[endpoint := s];
    map e | e in added && Recent(added[e], now) :: added[e]
  }

  /** The sample picked from a map: one with the least bitrate. */
  ghost predicate IsLeast(per: map<string, Sample>, pick: Sample) {
    (exists e :: e in per && per[e] == pick) && forall e | e in per :: pick.bps <= per[e].bps
  }

  /** Erases the stale samples one by one. */
  method Prune(samples: map<string, Sample>, now: int) returns (per: map<string, Sample>)
    ensures per == map e | e in samples && Recent(samples[e], now) :: samples[e]
  {
    per := samples;
    var todo := per.Keys;
    while todo != {}
      invariant todo <= per.Keys <= samples.Keys
      invariant forall e | e in per :: per[e] == samples[e]
      invariant forall e | e in samples && e !in todo :: e in per <==> Recent(samples[e], now)
      decreases |todo|
    {
      var e :| e in todo;
      todo := todo - {e};
      if !Recent(per[e], now) { per := per - {e}; }
    }
  }

  /** Starts anywhere and moves to a smaller one. */
  method Least(per: map<string, Sample>) returns (selected: Sample)
    requires per != map[]
    ensures IsLeast(per, selected)
  {
    var first :| first in per;
    selected := per[first];
    var todo := per.Keys;
    while todo != {}
      invariant todo <= per.Keys
      invariant exists e :: e in per && per[e] == selected
      invariant forall e | e in per && e !in todo :: selected.bps <= per[e].bps
      decreases |todo|
    {
      var e :| e in todo;
      todo := todo - {e};
      if per[e].bps < selected.bps { selected := per[e]; }
    }
  }

  class Aggregator {
    var bySource: Table

    constructor ()
      ensures bySource == map[]
    {
      bySource := map[];
    }

    /** Stores the sample, prunes the source's stale samples and picks a least one, whatever order the
        maps iterate in. */
    method Select(source: u32, endpoint: string, exp: nat, mantissa: nat, bps: u32, now: int)
      returns (ok: bool, ghost pick: Sample, outExp: nat, outMantissa: nat)
      modifies this
      ensures ok == (source != 0 && endpoint != "")
      ensures !ok ==> bySource == old(bySource)
      ensures ok ==>
        && bySource == Do(old(bySource), Arrived(source, endpoint, Sample(exp, mantissa, bps, now)))
        && IsLeast(bySource[source], pick) && outExp == pick.exp && outMantissa == pick.mantissa
    {
      pick := Sample(exp, mantissa, bps, now);
      outExp, outMantissa := exp, mantissa;
      if source == 0 || endpoint == "" { return false, pick, outExp, outMantissa; }
      var per: map<string, Sample> := if source in bySource then bySource[source] else map[];
      per := Prune(per[endpoint := Sample(exp, mantissa, bps, now)], now);
      assert endpoint in per;
      var selected := Least(per);
      bySource := bySource[source := per];
      ok, pick, outExp, outMantissa := true, selected, selected.exp, selected.mantissa;
    }

    method RemovePublisher(source: u32)
      modifies this
      ensures bySource == Do(old(bySource), Removed(source))
    {
      bySource := bySource - {source};
    }
  }

  // ----- against the log -----

  datatype Event = Arrived(source: u32, endpoint: string, sample: Sample) | Removed(source: u32)

  function Do(t: Table, ev: Event): Table {
    match ev
    case Arrived(source, endpoint, s) =>
      t[source := Update(if source in t then t[source] else map[], endpoint, s, s.at)]
    case Removed(source) => t - {source}
  }

  function Run(log: seq<Event>): Table {
    if log == [] then map[] else Do(Run(log[..|log| - 1]), log[|log| - 1])
  }

  /** The last sample of an endpoint since the source's routes were last removed. */
  function Latest(log: seq<Event>, source: u32, endpoint: string): Option<Sample> {
    if log == [] then None
    else
      var last := log[|log| - 1];
      if last == Removed(source) then None
      else if last.Arrived? && last.source == source && last.endpoint == endpoint then Some(last.sample)
      else Latest(log[..|log| - 1], source, endpoint)
  }

  /** A steady clock never runs backwards. */
  ghost predicate Steady(log: seq<Event>) {
    forall i, j | 0 <= i < j < |log| && log[i].Arrived? && log[j].Arrived? :: log[i].sample.at <= log[j].sample.at
  }

  /** `endpoint`'s last sample counts at time `now`. */
  predicate Live(log: seq<Event>, source: u32, endpoint: string, now: int) {
    var s := Latest(log, source, endpoint);
    s.Some? && Recent(s.value, now)
  }

  function Stored(t: Table, source: u32, endpoint: string): Option<Sample> {
    if source in t && endpoint in t[source] then Some(t[source][endpoint]) else None
  }

  /** What the table holds is the endpoint's last sample; what it has dropped is stale at `now`. */
  predicate Matches(log: seq<Event>, source: u32, endpoint: string, now: int) {
    var held, last := Stored(Run(log), source, endpoint), Latest(log, source, endpoint);
    held == last || (held == None && last.Some? && !Recent(last.value, now))
  }

  lemma {:induction false} TableMatchesLog(log: seq<Event>, source: u32, endpoint: string, now: int)
    requires Steady(log) && forall i | 0 <= i < |log| && log[i].Arrived? :: log[i].sample.at <= now
    ensures Matches(log, source, endpoint, now)
  {
    if log != [] {
      var front, last := log[..|log| - 1], log[|log| - 1];
      TableMatchesLog(front, source, endpoint, now);
    }
  }

  /** At every arrival, under a steady clock, what is left of the source's table is exactly the set of
      live endpoints with their last samples. */
  lemma TableIsLiveSet(log: seq<Event>, source: u32, endpoint: string, s: Sample, e: string)
    requires Steady(log + [Arrived(source, endpoint, s)])
    ensures var log' := log + [Arrived(source, endpoint, s)];
            Stored(Run(log'), source, e) == if Live(log', source, e, s.at) then Latest(log', source, e) else None
  {
    var log' := log + [Arrived(source, endpoint, s)];
    assert log'[..|log|] == log;
    assert log'[|log|] == Arrived(source, endpoint, s) && forall i | 0 <= i < |log| :: log'[i] == log[i];
    TableMatchesLog(log, source, e, s.at);
  }

  /** The rate selected on an arrival is the minimum over the live endpoints' last samples. */
  lemma SelectedIsLogMinimum(log: seq<Event>, source: u32, endpoint: string, s: Sample, pick: Sample)
    requires Steady(log + [Arrived(source, endpoint, s)])
    requires var t := Run(log + [Arrived(source, endpoint, s)]); source in t && IsLeast(t[source], pick)
    ensures var log' := log + [Arrived(source, endpoint, s)];
            && (exists e :: Latest(log', source, e) == Some(pick) && s.at - pick.at <= 3_000_000_000)
            && (forall e | Latest(log', source, e).Some? && s.at - Latest(log', source, e).value.at <= 3_000_000_000 ::
                  pick.bps <= Latest(log', source, e).value.bps)
  {
    var log' := log + [Arrived(source, endpoint, s)];
    var per := Run(log')[source];
    var e0 :| e0 in per && per[e0] == pick;
    TableIsLiveSet(log, source, endpoint, s, e0);
    assert Live(log', source, e0, s.at);
    forall e | Latest(log', source, e).Some? && s.at - Latest(log', source, e).value.at <= 3_000_000_000
      ensures pick.bps <= Latest(log', source, e).value.bps
    {
      assert Live(log', source, e, s.at);
      TableIsLiveSet(log, source, endpoint, s, e);
    }
  }
}
