/** The record converter: one raw event record to an event header plus a
    unified digitised data block, or the end-of-window stop signal. */
module Converter {
  import opened Common
  import opened Red
  import opened Udd
  import opened Ordering
  import opened Timing
  import opened Triggers
  import opened Calo
  import opened Tracker

  /** Run-wide settings: waveform suppression, the run synchronisation
      epoch and the end-of-window bound (picoseconds; the bound is relative
      to the epoch). */
  datatype Config = Config(noWaveform: bool, runSyncTime: int, runEndTime: int)

  /** Default end-of-window bound: 365.24 days. */
  const DefaultRunEndTime: int := 31_556_736 * PicosPerSecond

  /** The settings a run starts with: waveforms kept, epoch zero, default
      end-of-window bound. */
  const DefaultConfig: Config := Config(false, 0, DefaultRunEndTime)

  /** Outcome of one conversion. */
  datatype Conversion = Converted(record: EventRecord) | EndOfWindow

  /** The outcome and the previous-event timestamp to carry to the next
      conversion. */
  datatype ConverterStep = ConverterStep(outcome: Conversion, previous: Option<Timestamp>)

  /** Time of the event after the synchronisation epoch. */
  function EventReferenceTime(det: Detector, red: RawEvent): int {
    ReferenceTime(det, red.referenceTime)
  }

  /** Absolute time of the event. */
  function EventTime(cfg: Config, det: Detector, red: RawEvent): int {
    cfg.runSyncTime + EventReferenceTime(det, red)
  }

  /** The header copies the identity of the raw event, is tagged real, and
      carries its properties verbatim and its absolute time. */
  predicate HeaderIdentity(cfg: Config, det: Detector, red: RawEvent, h: EventHeader) {
    && h.runNumber == red.runId
    && h.eventNumber == red.eventId
    && h.generation == Real
    && h.auxiliaries == red.auxiliaries
    && Normalised(h.timestamp)
    && TotalPicoseconds(h.timestamp) == EventTime(cfg, det, red)
  }

  /** The data block copies the identity, the reference tick count and the
      contributing trigger ids of the raw event. */
  predicate UddIdentity(red: RawEvent, u: UnifiedDigitizedData) {
    && u.runId == red.runId
    && u.eventId == red.eventId
    && u.referenceTimestamp == red.referenceTime.ticks
    && u.originTriggerIds == red.originTriggerIds
  }

  /** Convert one raw event given the previous event's timestamp. */
  function ConvertEvent(cfg: Config, det: Detector, previous: Option<Timestamp>, red: RawEvent): (s: ConverterStep)
    ensures s.outcome.EndOfWindow? <==> EventReferenceTime(det, red) > cfg.runEndTime
    ensures s.outcome.EndOfWindow? ==> s.previous == previous
    ensures s.outcome.Converted? ==> s.previous == Some(s.outcome.record.header.timestamp)
    ensures s.outcome.Converted? ==>
      && HeaderIdentity(cfg, det, red, s.outcome.record.header)
      && UddIdentity(red, s.outcome.record.udd)
  {
    var timestamp := Split(EventTime(cfg, det, red));
    if EventReferenceTime(det, red) > cfg.runEndTime then
      ConverterStep(EndOfWindow, previous)
    else
      var header := EventHeader(
        red.runId,
        red.eventId,
        Real,
        timestamp,
        red.auxiliaries,
        DeltaT(previous, timestamp),
        BuildTriggerArrays(red.triggerRecords));
      var udd := UnifiedDigitizedData(
        red.runId,
        red.eventId,
        red.referenceTime.ticks,
        red.originTriggerIds,
        NormaliseCaloHits(red.caloHits, cfg.noWaveform, det.omNum),
        NormaliseTrackerHits(red.trackerHits, det.ggNum));
      ConverterStep(Converted(EventRecord(header, udd)), Some(timestamp))
  }

  /** What a converted event promises about its hit collections and
      trigger arrays, in terms of the raw event alone. */
  lemma ConvertedEventShape(cfg: Config, det: Detector, previous: Option<Timestamp>, red: RawEvent)
    requires EventReferenceTime(det, red) <= cfg.runEndTime
    ensures ConvertEvent(cfg, det, previous, red).outcome.Converted?
    ensures var rec := ConvertEvent(cfg, det, previous, red).outcome.record;
      && |rec.header.triggers.triggerId| == |red.triggerRecords|
      && |rec.header.triggers.triggerDecision| == |red.triggerRecords|
      && |rec.header.triggers.progenitorTriggerId| == |red.triggerRecords|
      && |rec.udd.caloHits| == |red.caloHits|
      && |rec.udd.trackerHits| == |red.trackerHits|
      && CaloIdsArePositions(rec.udd.caloHits)
      && TrackerIdsArePositions(rec.udd.trackerHits)
      && SortedBy(rec.udd.caloHits, CaloKey(det.omNum))
      && SortedBy(rec.udd.trackerHits, TrackerKey(det.ggNum))
      && (cfg.noWaveform ==> forall i :: 0 <= i < |rec.udd.caloHits| ==> rec.udd.caloHits[i].waveform.None?)
  {
    WaveformPolicy(red.caloHits, cfg.noWaveform, det.omNum);
  }

  /** A converted event's trigger arrays and hit collections are exactly
      those the trigger and hit conversions build from the raw event, so
      their contracts carry over to every written record; with suppression
      off every output waveform is the waveform of some raw hit. */
  lemma ConvertedEventContents(cfg: Config, det: Detector, previous: Option<Timestamp>, red: RawEvent)
    requires EventReferenceTime(det, red) <= cfg.runEndTime
    ensures ConvertEvent(cfg, det, previous, red).outcome.Converted?
    ensures var rec := ConvertEvent(cfg, det, previous, red).outcome.record;
      && rec.header.triggers == BuildTriggerArrays(red.triggerRecords)
      && rec.udd.caloHits == NormaliseCaloHits(red.caloHits, cfg.noWaveform, det.omNum)
      && rec.udd.trackerHits == NormaliseTrackerHits(red.trackerHits, det.ggNum)
    ensures var rec := ConvertEvent(cfg, det, previous, red).outcome.record;
      !cfg.noWaveform ==> forall i :: 0 <= i < |rec.udd.caloHits| ==>
        exists j :: 0 <= j < |red.caloHits| && rec.udd.caloHits[i].waveform == Some(red.caloHits[j].waveform)
  {
    WaveformPolicy(red.caloHits, cfg.noWaveform, det.omNum);
  }

  /** The delta time stored for a converted event is zero without a valid
      previous timestamp and otherwise the difference of the two absolute
      times, negative values included. */
  lemma DeltaTimeAgainstPrevious(cfg: Config, det: Detector, previous: Option<Timestamp>, red: RawEvent)
    requires EventReferenceTime(det, red) <= cfg.runEndTime
    ensures ConvertEvent(cfg, det, previous, red).outcome.Converted?
    ensures var d := ConvertEvent(cfg, det, previous, red).outcome.record.header.deltatPreviousEvent;
      && (previous.None? ==> d == 0)
      && (previous.Some? ==> d == EventTime(cfg, det, red) - TotalPicoseconds(previous.value))
  {
  }

  /** A raw event with nothing in it but its reference time. */
  function BareEvent(clock: ClockId, ticks: int): RawEvent {
    RawEvent(0, 0, {}, [], [], [], RawTimestamp(clock, ticks), map[])
  }

  /** Under the default settings and a one-picosecond clock, an event at
      exactly 365.24 days is still converted, with header time 31556736 s
      and 0 ps; one picosecond later the run stops. */
  lemma DefaultWindowEdge(det: Detector, clock: ClockId, previous: Option<Timestamp>)
    requires det.clockPeriod(clock) == 1
    ensures var s := ConvertEvent(DefaultConfig, det, previous, BareEvent(clock, DefaultRunEndTime));
      s.outcome.Converted? && s.outcome.record.header.timestamp == Timestamp(31_556_736, 0)
    ensures ConvertEvent(DefaultConfig, det, previous, BareEvent(clock, DefaultRunEndTime + 1)).outcome.EndOfWindow?
  {
  }
}
