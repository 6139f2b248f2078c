/** Tracker hit normalisation: every raw tracker hit is copied with its
    Geiger timing entries, entry by entry and channel by channel, then the
    hits are ordered by Geiger-cell number and renumbered with dense ids. */
module Tracker {
  import opened Common
  import opened Red
  import opened Udd
  import opened Ordering

  /** One channel: its tick count and a copy of its origin. */
  function ConvertGgChannel(c: RawGgChannel): UddGgChannel {
    UddGgChannel(c.time.ticks, Origin(c.origin.hitNumber, c.origin.triggerId))
  }

  /** One timing entry: each anode rank and each cathode independently. */
  function ConvertGgTimes(t: RawGgTimes): (u: UddGgTimes)
    ensures forall rank :: u.Anode(rank) == ConvertGgChannel(t.Anode(rank))
  {
    UddGgTimes(
      ConvertGgChannel(t.anodeR0),
      ConvertGgChannel(t.anodeR1),
      ConvertGgChannel(t.anodeR2),
      ConvertGgChannel(t.anodeR3),
      ConvertGgChannel(t.anodeR4),
      ConvertGgChannel(t.bottomCathode),
      ConvertGgChannel(t.topCathode))
  }

  /** All timing entries of a hit, in input order. */
  function ConvertGgTimesList(ts: seq<RawGgTimes>): (us: seq<UddGgTimes>)
    ensures |us| == |ts|
    ensures forall i :: 0 <= i < |ts| ==> us[i] == ConvertGgTimes(ts[i])
  {
    MapSeq(ts, ConvertGgTimes)
  }

  /** One tracker hit: geometry id and raw hit id, then its timing entries. */
  function ConvertTrackerHit(h: RawTrackerHit): (u: UddTrackerHit)
    ensures u.geomId == h.geomId && u.hitId == h.hitId
    ensures |u.times| == |h.times|
    ensures forall i, rank :: 0 <= i < |h.times| ==>
      && u.times[i].Anode(rank).ticks == h.times[i].Anode(rank).time.ticks
      && u.times[i].Anode(rank).origin == h.times[i].Anode(rank).origin
    ensures forall i :: 0 <= i < |h.times| ==>
      && u.times[i].bottomCathode == UddGgChannel(h.times[i].bottomCathode.time.ticks, h.times[i].bottomCathode.origin)
      && u.times[i].topCathode == UddGgChannel(h.times[i].topCathode.time.ticks, h.times[i].topCathode.origin)
  {
    UddTrackerHit(h.geomId, h.hitId, ConvertGgTimesList(h.times))
  }

  /** Every raw timestamp of a timing entry was counted by `clock`. */
  predicate GgTimesClockedBy(t: RawGgTimes, clock: ClockId) {
    && (forall rank :: t.Anode(rank).time.clock == clock)
    && t.bottomCathode.time.clock == clock
    && t.topCathode.time.clock == clock
  }

  predicate TrackerHitClockedBy(h: RawTrackerHit, clock: ClockId) {
    forall i :: 0 <= i < |h.times| ==> GgTimesClockedBy(h.times[i], clock)
  }

  function RestoreGgChannel(c: UddGgChannel, clock: ClockId): RawGgChannel {
    RawGgChannel(RawTimestamp(clock, c.ticks), c.origin)
  }

  function RestoreGgTimes(u: UddGgTimes, clock: ClockId): RawGgTimes {
    RawGgTimes(
      RestoreGgChannel(u.anodeR0, clock),
      RestoreGgChannel(u.anodeR1, clock),
      RestoreGgChannel(u.anodeR2, clock),
      RestoreGgChannel(u.anodeR3, clock),
      RestoreGgChannel(u.anodeR4, clock),
      RestoreGgChannel(u.bottomCathode, clock),
      RestoreGgChannel(u.topCathode, clock))
  }

  /** Rebuild a raw tracker hit from a normalised one, given the clock. */
  function RestoreTrackerHit(u: UddTrackerHit, clock: ClockId): RawTrackerHit {
    RawTrackerHit(u.geomId, u.hitId, MapSeq(u.times, (t: UddGgTimes) => RestoreGgTimes(t, clock)))
  }

  /** When all of a hit's timestamps share one clock, conversion loses
      nothing: no entry is added, dropped, merged or reordered, and every
      channel's ticks and origin come back unchanged. */
  lemma {:induction false} TrackerHitRoundTrip(h: RawTrackerHit, clock: ClockId)
    requires TrackerHitClockedBy(h, clock)
    ensures RestoreTrackerHit(ConvertTrackerHit(h), clock) == h
  {
    var u := ConvertTrackerHit(h);
    var back := RestoreTrackerHit(u, clock);
    forall i | 0 <= i < |h.times|
      ensures back.times[i] == h.times[i]
    {
      var t := h.times[i];
      assert GgTimesClockedBy(t, clock);
      assert t.Anode(R0) == t.anodeR0 && t.Anode(R1) == t.anodeR1 && t.Anode(R2) == t.anodeR2;
      assert t.Anode(R3) == t.anodeR3 && t.Anode(R4) == t.anodeR4;
    }
  }

  /** A hit with its id blanked out, for comparing hits up to their id. */
  function WithoutTrackerId(h: UddTrackerHit): UddTrackerHit {
    h.(hitId := 0)
  }

  predicate TrackerIdsArePositions(s: seq<UddTrackerHit>) {
    forall i :: 0 <= i < |s| ==> s[i].hitId == i
  }

  /** Give every hit its position as id; nothing else changes. */
  function RenumberTrackerHits(s: seq<UddTrackerHit>): (r: seq<UddTrackerHit>)
    ensures |r| == |s|
    ensures TrackerIdsArePositions(r)
    ensures forall i :: 0 <= i < |s| ==> WithoutTrackerId(r[i]) == WithoutTrackerId(s[i])
  {
    seq(|s|, i requires 0 <= i < |s| => s[i].(hitId := i))
  }

  /** The sort key: the Geiger-cell number of the hit's geometry id. */
  function TrackerKey(ggNum: GeomId -> int): UddTrackerHit -> int {
    (h: UddTrackerHit) => ggNum(h.geomId)
  }

  /** Renumbering a sequence sorted by Geiger-cell number keeps it so. */
  lemma RenumberKeepsGgOrder(s: seq<UddTrackerHit>, ggNum: GeomId -> int)
    requires SortedBy(s, TrackerKey(ggNum))
    ensures SortedBy(RenumberTrackerHits(s), TrackerKey(ggNum))
  {
    var r := RenumberTrackerHits(s);
    forall i | 0 <= i < |r|
      ensures r[i].geomId == s[i].geomId
    {
      assert WithoutTrackerId(r[i]) == WithoutTrackerId(s[i]);
    }
  }

  /** Convert, order by Geiger-cell number, renumber. The result is a
      renumbering of a permutation of the converted input hits. */
  function NormaliseTrackerHits(raw: seq<RawTrackerHit>, ggNum: GeomId -> int): (r: seq<UddTrackerHit>)
    ensures |r| == |raw|
    ensures TrackerIdsArePositions(r)
    ensures SortedBy(r, TrackerKey(ggNum))
    ensures exists p :: multiset(p) == multiset(MapSeq(raw, ConvertTrackerHit)) && r == RenumberTrackerHits(p)
  {
    var sorted := SortByKey(MapSeq(raw, ConvertTrackerHit), TrackerKey(ggNum));
    RenumberKeepsGgOrder(sorted, ggNum);
    RenumberTrackerHits(sorted)
  }

  /** Every output hit is, up to its id, the conversion of some input hit. */
  lemma {:induction false} OutputTrackerHitsComeFromInput(raw: seq<RawTrackerHit>, ggNum: GeomId -> int)
    ensures var r := NormaliseTrackerHits(raw, ggNum);
      forall i :: 0 <= i < |r| ==>
        exists j :: 0 <= j < |raw| && WithoutTrackerId(r[i]) == WithoutTrackerId(ConvertTrackerHit(raw[j]))
  {
    var r := NormaliseTrackerHits(raw, ggNum);
    var converted := MapSeq(raw, ConvertTrackerHit);
    var p :| multiset(p) == multiset(converted) && r == RenumberTrackerHits(p);
    PermutationMembers(p, converted);
    forall i | 0 <= i < |r|
      ensures exists j :: 0 <= j < |raw| && WithoutTrackerId(r[i]) == WithoutTrackerId(ConvertTrackerHit(raw[j]))
    {
      assert p[i] in converted;
      var j :| 0 <= j < |converted| && converted[j] == p[i];
      assert converted[j] == ConvertTrackerHit(raw[j]);
      assert WithoutTrackerId(r[i]) == WithoutTrackerId(p[i]);
    }
  }

  /** Every input hit's conversion occurs, up to its id, among the outputs. */
  lemma {:induction false} InputTrackerHitsReachOutput(raw: seq<RawTrackerHit>, ggNum: GeomId -> int)
    ensures var r := NormaliseTrackerHits(raw, ggNum);
      forall j :: 0 <= j < |raw| ==>
        exists i :: 0 <= i < |r| && WithoutTrackerId(r[i]) == WithoutTrackerId(ConvertTrackerHit(raw[j]))
  {
    var r := NormaliseTrackerHits(raw, ggNum);
    var converted := MapSeq(raw, ConvertTrackerHit);
    var p :| multiset(p) == multiset(converted) && r == RenumberTrackerHits(p);
    PermutationMembers(converted, p);
    forall j | 0 <= j < |raw|
      ensures exists i :: 0 <= i < |r| && WithoutTrackerId(r[i]) == WithoutTrackerId(ConvertTrackerHit(raw[j]))
    {
      assert converted[j] in p;
      var i :| 0 <= i < |p| && p[i] == converted[j];
      assert converted[j] == ConvertTrackerHit(raw[j]);
      assert WithoutTrackerId(r[i]) == WithoutTrackerId(p[i]);
    }
  }
}
