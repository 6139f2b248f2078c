/** The driving loop: read raw records in order, convert each, append the
    converted ones to the output, and stop at the end of the input, at the
    record budget or at the first end-of-window event. */
module Bridge {
  import opened Common
  import opened Red
  import opened Udd
  import opened Timing
  import opened Converter

  /** The state carried from one record to the next: the previous event's
      timestamp (`None` until an event is converted) and the counts of
      records read and written. */
  datatype BridgeState = BridgeState(previous: Option<Timestamp>, redCounter: nat, uddCounter: nat)

  /** The state the run starts from. */
  const InitialState := BridgeState(None, 0, 0)

  /** The timestamp carried into the conversion of the `k`-th written event. */
  function PreviousBefore(output: seq<EventRecord>, k: nat): Option<Timestamp>
    requires k <= |output|
  {
    if k == 0 then None else Some(output[k - 1].header.timestamp)
  }

  /** Each written event is the conversion of the raw record at the same
      position, with the timestamp of the event written just before it. */
  predicate WrittenInOrder(cfg: Config, det: Detector, input: seq<RawEvent>, output: seq<EventRecord>) {
    && |output| <= |input|
    && forall k {:trigger input[k]} :: 0 <= k < |output| ==>
         ConvertEvent(cfg, det, PreviousBefore(output, k), input[k]).outcome == Converted(output[k])
  }

  /** Writing the conversion of the next raw record keeps the output in
      order. */
  lemma WrittenInOrderExtends(cfg: Config, det: Detector, input: seq<RawEvent>, output: seq<EventRecord>, record: EventRecord)
    requires WrittenInOrder(cfg, det, input, output)
    requires |output| < |input|
    requires ConvertEvent(cfg, det, PreviousBefore(output, |output|), input[|output|]).outcome == Converted(record)
    ensures WrittenInOrder(cfg, det, input, output + [record])
  {
    var longer := output + [record];
    forall k | 0 <= k < |longer|
      ensures ConvertEvent(cfg, det, PreviousBefore(longer, k), input[k]).outcome == Converted(longer[k])
    {
      assert PreviousBefore(longer, k) == PreviousBefore(output, k);
      if k < |output| {
        assert longer[k] == output[k];
      } else {
        assert longer[k] == record;
      }
    }
  }

  /** The read/convert/write loop. `stopped` reports that an end-of-window
      event ended the run. */
  method RunBridge(cfg: Config, det: Detector, input: seq<RawEvent>, dataCount: nat)
    returns (output: seq<EventRecord>, state: BridgeState, stopped: bool)
    ensures state.redCounter <= dataCount
    ensures state.redCounter <= |input|
    ensures |output| == state.uddCounter
    ensures stopped ==>
      && state.redCounter >= 1
      && state.uddCounter == state.redCounter - 1
      && ConvertEvent(cfg, det, state.previous, input[state.redCounter - 1]).outcome.EndOfWindow?
    ensures !stopped ==>
      && state.uddCounter == state.redCounter
      && (state.redCounter == |input| || state.redCounter == dataCount)
    ensures state.previous == PreviousBefore(output, |output|)
    ensures WrittenInOrder(cfg, det, input, output)
  {
    output := [];
    state := InitialState;
    stopped := false;
    while state.redCounter < |input| && state.redCounter < dataCount
      invariant state.redCounter <= |input|
      invariant state.redCounter <= dataCount
      invariant state.uddCounter == state.redCounter == |output|
      invariant state.previous == PreviousBefore(output, |output|)
      invariant WrittenInOrder(cfg, det, input, output)
      decreases |input| - state.redCounter
    {
      var red := input[state.redCounter];
      state := state.(redCounter := state.redCounter + 1);
      var step := ConvertEvent(cfg, det, state.previous, red);
      state := state.(previous := step.previous);
      if step.outcome.EndOfWindow? {
        stopped := true;
        break;
      }
      WrittenInOrderExtends(cfg, det, input, output, step.outcome.record);
      output := output + [step.outcome.record];
      state := state.(uddCounter := state.uddCounter + 1);
    }
  }

  /** Delta-time sequencing over a run: the first written event has delta
      zero and every later one the difference between its absolute time
      and that of the event written just before it. */
  lemma {:induction false} DeltaTimeSequencing(cfg: Config, det: Detector, input: seq<RawEvent>, output: seq<EventRecord>)
    requires WrittenInOrder(cfg, det, input, output)
    ensures |output| > 0 ==> output[0].header.deltatPreviousEvent == 0
    ensures forall k :: 0 < k < |output| ==>
      output[k].header.deltatPreviousEvent == EventTime(cfg, det, input[k]) - EventTime(cfg, det, input[k - 1])
  {
    forall k | 0 < k < |output|
      ensures output[k].header.deltatPreviousEvent == EventTime(cfg, det, input[k]) - EventTime(cfg, det, input[k - 1])
    {
      assert ConvertEvent(cfg, det, PreviousBefore(output, k - 1), input[k - 1]).outcome == Converted(output[k - 1]);
      assert ConvertEvent(cfg, det, PreviousBefore(output, k), input[k]).outcome == Converted(output[k]);
    }
    if |output| > 0 {
      assert ConvertEvent(cfg, det, PreviousBefore(output, 0), input[0]).outcome == Converted(output[0]);
    }
  }

  /** Every written event lies inside the time window and keeps the run
      and event ids of the raw record at its position. */
  lemma {:induction false} WrittenEventsInsideWindow(cfg: Config, det: Detector, input: seq<RawEvent>, output: seq<EventRecord>)
    requires WrittenInOrder(cfg, det, input, output)
    ensures forall k :: 0 <= k < |output| ==>
      && EventReferenceTime(det, input[k]) <= cfg.runEndTime
      && output[k].header.runNumber == input[k].runId
      && output[k].header.eventNumber == input[k].eventId
      && output[k].udd.runId == input[k].runId
      && output[k].udd.eventId == input[k].eventId
  {
    forall k | 0 <= k < |output|
      ensures EventReferenceTime(det, input[k]) <= cfg.runEndTime
      ensures output[k].header.runNumber == input[k].runId
      ensures output[k].header.eventNumber == input[k].eventId
      ensures output[k].udd.runId == input[k].runId
      ensures output[k].udd.eventId == input[k].eventId
    {
      assert ConvertEvent(cfg, det, PreviousBefore(output, k), input[k]).outcome == Converted(output[k]);
    }
  }
}
