/** The time synchroniser: reference tick counts to absolute event times,
    the seconds/picoseconds split of the header timestamp, and the delta
    time to the previous event. All times are integer picoseconds. */
module Timing {
  import opened Common
  import opened Red
  import opened Udd

  const PicosPerSecond: int := 1_000_000_000_000

  /** Time of a raw timestamp after the run synchronisation epoch: its tick
      count times the period of its clock. */
  function ReferenceTime(det: Detector, t: RawTimestamp): int {
    t.ticks * det.clockPeriod(t.clock)
  }

  /** The instant a header timestamp denotes. */
  function TotalPicoseconds(ts: Timestamp): int {
    ts.seconds * PicosPerSecond + ts.picoseconds
  }

  /** A header timestamp is normalised when its picosecond part is a
      fraction of one second. */
  predicate Normalised(ts: Timestamp) {
    0 <= ts.picoseconds < PicosPerSecond
  }

  /** Split an absolute time into floor seconds and the picosecond rest. */
  function Split(t: int): (ts: Timestamp)
    ensures Normalised(ts)
    ensures TotalPicoseconds(ts) == t
  {
    Timestamp(t / PicosPerSecond, t % PicosPerSecond)
  }

  /** The split is the only normalised timestamp denoting `t`, so
      reassembling and splitting again gives back the same timestamp. */
  lemma SplitRoundTrip(ts: Timestamp)
    requires Normalised(ts)
    ensures Split(TotalPicoseconds(ts)) == ts
  {
    var r := Split(TotalPicoseconds(ts));
    assert (r.seconds - ts.seconds) * PicosPerSecond == ts.picoseconds - r.picoseconds;
  }

  /** Delta time from the previous header timestamp to the current one:
      zero when there is no valid previous timestamp, otherwise the seconds
      difference plus the picoseconds difference. A negative result is kept. */
  function DeltaT(previous: Option<Timestamp>, current: Timestamp): (d: int)
    ensures previous.None? ==> d == 0
    ensures previous.Some? ==> d == TotalPicoseconds(current) - TotalPicoseconds(previous.value)
  {
    match previous
    case None => 0
    case Some(p) =>
      (current.seconds - p.seconds) * PicosPerSecond + (current.picoseconds - p.picoseconds)
  }

  /** Between two split event times the delta is exactly their difference,
      negative when the current event is earlier. */
  lemma DeltaOfSplitTimes(t0: int, t1: int)
    ensures DeltaT(Some(Split(t0)), Split(t1)) == t1 - t0
    ensures t1 < t0 ==> DeltaT(Some(Split(t0)), Split(t1)) < 0
  {
  }

  /** A sync epoch of 1000 s and a reference time of 2.5 s give 1002 s and
      500000000000 ps. */
  lemma SplitExample()
    ensures Split(1000 * PicosPerSecond + 2500 * 1_000_000_000) == Timestamp(1002, 500_000_000_000)
  {
  }
}
