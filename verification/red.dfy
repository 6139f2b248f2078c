/** The raw event data (RED) record as the sequential reader yields it. */
module Red {
  import opened Common

  /** A raw tick count together with the clock that counted it. */
  datatype RawTimestamp = RawTimestamp(clock: ClockId, ticks: int)

  /** One trigger sub-record of a raw event. */
  datatype TriggerRecord = TriggerRecord(
    triggerId: int,
    triggerDecision: bool,
    progenitorTriggerId: Option<int>)

  /** A raw calorimeter hit: the waveform is always present (possibly
      empty), the reference time carries its clock. */
  datatype RawCaloHit = RawCaloHit(
    geomId: GeomId,
    hitId: int,
    referenceTime: RawTimestamp,
    waveform: seq<Sample>,
    lowThresholdOnly: bool,
    highThreshold: bool,
    fcr: int,
    ltTriggerCounter: int,
    ltTimeCounter: int,
    fwmeasBaseline: int,
    fwmeasPeakAmplitude: int,
    fwmeasPeakCell: int,
    fwmeasCharge: int,
    fwmeasRisingCell: int,
    fwmeasFallingCell: int,
    origin: Origin)

  /** One Geiger channel reading: a raw timestamp and where it came from. */
  datatype RawGgChannel = RawGgChannel(time: RawTimestamp, origin: Origin)

  /** One Geiger timing entry: five anode ranks and the two cathodes. */
  datatype RawGgTimes = RawGgTimes(
    anodeR0: RawGgChannel,
    anodeR1: RawGgChannel,
    anodeR2: RawGgChannel,
    anodeR3: RawGgChannel,
    anodeR4: RawGgChannel,
    bottomCathode: RawGgChannel,
    topCathode: RawGgChannel)
  {
    function Anode(rank: AnodeRank): RawGgChannel {
      match rank
      case R0 => anodeR0
      case R1 => anodeR1
      case R2 => anodeR2
      case R3 => anodeR3
      case R4 => anodeR4
    }
  }

  /** A raw tracker hit with its (possibly empty) list of timing entries. */
  datatype RawTrackerHit = RawTrackerHit(
    geomId: GeomId,
    hitId: int,
    times: seq<RawGgTimes>)

  /** A raw event record. */
  datatype RawEvent = RawEvent(
    runId: int,
    eventId: int,
    originTriggerIds: set<int>,
    triggerRecords: seq<TriggerRecord>,
    caloHits: seq<RawCaloHit>,
    trackerHits: seq<RawTrackerHit>,
    referenceTime: RawTimestamp,
    auxiliaries: Properties)
}
