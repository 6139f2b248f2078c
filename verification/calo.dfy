/** Calorimeter hit normalisation: field-by-field copy of every raw hit,
    optional waveform suppression, then ordering by optical-module number
    and renumbering with dense ids. */
module Calo {
  import opened Common
  import opened Red
  import opened Udd
  import opened Ordering

  /** Copy one raw calorimeter hit; only the tick count of its reference
      time is kept, and its waveform only when suppression is off. */
  function ConvertCaloHit(h: RawCaloHit, noWaveform: bool): (u: UddCaloHit)
    ensures noWaveform ==> u.waveform.None?
    ensures !noWaveform ==> u.waveform == Some(h.waveform)
  {
    UddCaloHit(
      h.geomId,
      h.hitId,
      h.referenceTime.ticks,
      if noWaveform then None else Some(h.waveform),
      h.lowThresholdOnly,
      h.highThreshold,
      h.fcr,
      h.ltTriggerCounter,
      h.ltTimeCounter,
      h.fwmeasBaseline,
      h.fwmeasPeakAmplitude,
      h.fwmeasPeakCell,
      h.fwmeasCharge,
      h.fwmeasRisingCell,
      h.fwmeasFallingCell,
      Origin(h.origin.hitNumber, h.origin.triggerId))
  }

  /** Rebuild a raw hit from a normalised one, given the clock of its
      reference time; a waveform that was not kept comes back empty. */
  function RestoreCaloHit(u: UddCaloHit, clock: ClockId): RawCaloHit {
    RawCaloHit(
      u.geomId,
      u.hitId,
      RawTimestamp(clock, u.timestamp),
      match u.waveform case Some(w) => w case None => [],
      u.lowThresholdOnly,
      u.highThreshold,
      u.fcr,
      u.ltTriggerCounter,
      u.ltTimeCounter,
      u.fwmeasBaseline,
      u.fwmeasPeakAmplitude,
      u.fwmeasPeakCell,
      u.fwmeasCharge,
      u.fwmeasRisingCell,
      u.fwmeasFallingCell,
      u.origin)
  }

  /** With waveforms kept, conversion loses nothing but the clock id. */
  lemma CaloHitRoundTrip(h: RawCaloHit)
    ensures RestoreCaloHit(ConvertCaloHit(h, false), h.referenceTime.clock) == h
  {
  }

  /** Suppression drops the waveform and nothing else, and what remains
      does not depend on the raw waveform at all. */
  lemma SuppressionDropsOnlyWaveform(h: RawCaloHit, w: seq<Sample>)
    ensures ConvertCaloHit(h, true) == ConvertCaloHit(h, false).(waveform := None)
    ensures ConvertCaloHit(h.(waveform := w), true) == ConvertCaloHit(h, true)
  {
  }

  /** Convert every raw hit, in input order. */
  function ConvertCaloHits(hits: seq<RawCaloHit>, noWaveform: bool): (us: seq<UddCaloHit>)
    ensures |us| == |hits|
    ensures forall i :: 0 <= i < |hits| ==> us[i] == ConvertCaloHit(hits[i], noWaveform)
  {
    seq(|hits|, i requires 0 <= i < |hits| => ConvertCaloHit(hits[i], noWaveform))
  }

  /** A hit with its id blanked out, for comparing hits up to their id. */
  function WithoutCaloId(h: UddCaloHit): UddCaloHit {
    h.(hitId := 0)
  }

  predicate CaloIdsArePositions(s: seq<UddCaloHit>) {
    forall i :: 0 <= i < |s| ==> s[i].hitId == i
  }

  /** Give every hit its position as id; nothing else changes. */
  function RenumberCaloHits(s: seq<UddCaloHit>): (r: seq<UddCaloHit>)
    ensures |r| == |s|
    ensures CaloIdsArePositions(r)
    ensures forall i :: 0 <= i < |s| ==> WithoutCaloId(r[i]) == WithoutCaloId(s[i])
  {
    seq(|s|, i requires 0 <= i < |s| => s[i].(hitId := i))
  }

  /** The sort key: the optical-module number of the hit's geometry id. */
  function CaloKey(omNum: GeomId -> int): UddCaloHit -> int {
    (h: UddCaloHit) => omNum(h.geomId)
  }

  /** Renumbering a sequence sorted by optical-module number keeps it so. */
  lemma RenumberKeepsOmOrder(s: seq<UddCaloHit>, omNum: GeomId -> int)
    requires SortedBy(s, CaloKey(omNum))
    ensures SortedBy(RenumberCaloHits(s), CaloKey(omNum))
  {
    var r := RenumberCaloHits(s);
    forall i | 0 <= i < |r|
      ensures r[i].geomId == s[i].geomId
    {
      assert WithoutCaloId(r[i]) == WithoutCaloId(s[i]);
    }
  }

  /** Convert, order by optical-module number, renumber. The result is a
      renumbering of a permutation of the converted input hits. */
  function NormaliseCaloHits(raw: seq<RawCaloHit>, noWaveform: bool, omNum: GeomId -> int): (r: seq<UddCaloHit>)
    ensures |r| == |raw|
    ensures CaloIdsArePositions(r)
    ensures SortedBy(r, CaloKey(omNum))
    ensures exists p :: multiset(p) == multiset(ConvertCaloHits(raw, noWaveform)) && r == RenumberCaloHits(p)
  {
    var sorted := SortByKey(ConvertCaloHits(raw, noWaveform), CaloKey(omNum));
    RenumberKeepsOmOrder(sorted, omNum);
    RenumberCaloHits(sorted)
  }

  /** Every output hit is, up to its id, the conversion of some input hit. */
  lemma {:induction false} OutputHitsComeFromInput(raw: seq<RawCaloHit>, noWaveform: bool, omNum: GeomId -> int)
    ensures var r := NormaliseCaloHits(raw, noWaveform, omNum);
      forall i :: 0 <= i < |r| ==>
        exists j :: 0 <= j < |raw| && WithoutCaloId(r[i]) == WithoutCaloId(ConvertCaloHit(raw[j], noWaveform))
  {
    var r := NormaliseCaloHits(raw, noWaveform, omNum);
    var converted := ConvertCaloHits(raw, noWaveform);
    var p :| multiset(p) == multiset(converted) && r == RenumberCaloHits(p);
    PermutationMembers(p, converted);
    forall i | 0 <= i < |r|
      ensures exists j :: 0 <= j < |raw| && WithoutCaloId(r[i]) == WithoutCaloId(ConvertCaloHit(raw[j], noWaveform))
    {
      assert p[i] in converted;
      var j :| 0 <= j < |converted| && converted[j] == p[i];
      assert converted[j] == ConvertCaloHit(raw[j], noWaveform);
      assert WithoutCaloId(r[i]) == WithoutCaloId(p[i]);
    }
  }

  /** Every input hit's conversion occurs, up to its id, among the outputs. */
  lemma {:induction false} InputHitsReachOutput(raw: seq<RawCaloHit>, noWaveform: bool, omNum: GeomId -> int)
    ensures var r := NormaliseCaloHits(raw, noWaveform, omNum);
      forall j :: 0 <= j < |raw| ==>
        exists i :: 0 <= i < |r| && WithoutCaloId(r[i]) == WithoutCaloId(ConvertCaloHit(raw[j], noWaveform))
  {
    var r := NormaliseCaloHits(raw, noWaveform, omNum);
    var converted := ConvertCaloHits(raw, noWaveform);
    var p :| multiset(p) == multiset(converted) && r == RenumberCaloHits(p);
    PermutationMembers(converted, p);
    forall j | 0 <= j < |raw|
      ensures exists i :: 0 <= i < |r| && WithoutCaloId(r[i]) == WithoutCaloId(ConvertCaloHit(raw[j], noWaveform))
    {
      assert converted[j] in p;
      var i :| 0 <= i < |p| && p[i] == converted[j];
      assert WithoutCaloId(r[i]) == WithoutCaloId(p[i]);
    }
  }

  /** With suppression on no output hit carries a waveform; with it off
      every output waveform is, sample for sample, the waveform of an input
      hit, and every input waveform is carried by an output hit. */
  lemma {:induction false} WaveformPolicy(raw: seq<RawCaloHit>, noWaveform: bool, omNum: GeomId -> int)
    ensures var r := NormaliseCaloHits(raw, noWaveform, omNum);
      && (noWaveform ==> forall i :: 0 <= i < |r| ==> r[i].waveform.None?)
      && (!noWaveform ==> forall i :: 0 <= i < |r| ==>
            exists j :: 0 <= j < |raw| && r[i].waveform == Some(raw[j].waveform))
      && (!noWaveform ==> forall j :: 0 <= j < |raw| ==>
            exists i :: 0 <= i < |r| && r[i].waveform == Some(raw[j].waveform))
  {
    OutputHitsComeFromInput(raw, noWaveform, omNum);
    InputHitsReachOutput(raw, noWaveform, omNum);
  }
}
