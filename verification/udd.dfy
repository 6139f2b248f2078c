/** The normalised event record: an event header and a unified digitised
    data (UDD) block. */
module Udd {
  import opened Common

  /** Where an event comes from; the converter only produces real data. */
  datatype Generation = Real | Simulated

  /** An absolute time split into whole seconds and picoseconds. */
  datatype Timestamp = Timestamp(seconds: int, picoseconds: int)

  /** The three parallel trigger arrays stored in the header. */
  datatype TriggerArrays = TriggerArrays(
    triggerId: seq<int>,
    triggerDecision: seq<int>,
    progenitorTriggerId: seq<int>)

  /** The event header. The raw auxiliary properties, the delta time to the
      previous event (picoseconds) and the trigger arrays are kept apart. */
  datatype EventHeader = EventHeader(
    runNumber: int,
    eventNumber: int,
    generation: Generation,
    timestamp: Timestamp,
    auxiliaries: Properties,
    deltatPreviousEvent: int,
    triggers: TriggerArrays)

  /** A normalised calorimeter hit; `waveform` is `None` when it was not kept. */
  datatype UddCaloHit = UddCaloHit(
    geomId: GeomId,
    hitId: int,
    timestamp: int,
    waveform: Option<seq<Sample>>,
    lowThresholdOnly: bool,
    highThreshold: bool,
    fcr: int,
    ltTriggerCounter: int,
    ltTimeCounter: int,
    fwmeasBaseline: int,
    fwmeasPeakAmplitude: int,
    fwmeasPeakCell: int,
    fwmeasCharge: int,
    fwmeasRisingCell: int,
    fwmeasFallingCell: int,
    origin: Origin)

  /** A normalised Geiger channel reading: tick count and origin. */
  datatype UddGgChannel = UddGgChannel(ticks: int, origin: Origin)

  /** A normalised Geiger timing entry. */
  datatype UddGgTimes = UddGgTimes(
    anodeR0: UddGgChannel,
    anodeR1: UddGgChannel,
    anodeR2: UddGgChannel,
    anodeR3: UddGgChannel,
    anodeR4: UddGgChannel,
    bottomCathode: UddGgChannel,
    topCathode: UddGgChannel)
  {
    function Anode(rank: AnodeRank): UddGgChannel {
      match rank
      case R0 => anodeR0
      case R1 => anodeR1
      case R2 => anodeR2
      case R3 => anodeR3
      case R4 => anodeR4
    }
  }

  /** A normalised tracker hit. */
  datatype UddTrackerHit = UddTrackerHit(
    geomId: GeomId,
    hitId: int,
    times: seq<UddGgTimes>)

  /** The unified digitised data block. */
  datatype UnifiedDigitizedData = UnifiedDigitizedData(
    runId: int,
    eventId: int,
    referenceTimestamp: int,
    originTriggerIds: set<int>,
    caloHits: seq<UddCaloHit>,
    trackerHits: seq<UddTrackerHit>)

  /** One output event record. */
  datatype EventRecord = EventRecord(header: EventHeader, udd: UnifiedDigitizedData)
}
