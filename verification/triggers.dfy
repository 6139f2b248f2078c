/** Trigger aggregation: the three parallel integer arrays the header
    stores for the trigger sub-records of an event. */
module Triggers {
  import opened Common
  import opened Red
  import opened Udd

  /** Stored for a trigger record without a progenitor. */
  const NoProgenitor: int := -1

  /** The integer a trigger decision is stored as. */
  function DecisionCode(decision: bool): int {
    if decision then 1 else 0
  }

  /** Append, record by record in input order, the trigger id, the decision
      and the progenitor id (or the sentinel) to the three arrays. */
  function BuildTriggerArrays(records: seq<TriggerRecord>): (a: TriggerArrays)
    ensures |a.triggerId| == |records|
    ensures |a.triggerDecision| == |records|
    ensures |a.progenitorTriggerId| == |records|
    ensures forall i :: 0 <= i < |records| ==>
      && a.triggerId[i] == records[i].triggerId
      && a.triggerDecision[i] == DecisionCode(records[i].triggerDecision)
      && a.progenitorTriggerId[i] == (match records[i].progenitorTriggerId
                                       case Some(p) => p
                                       case None => NoProgenitor)
  {
    if |records| == 0 then TriggerArrays([], [], [])
    else
      var front := BuildTriggerArrays(records[..|records| - 1]);
      var last := records[|records| - 1];
      TriggerArrays(
        front.triggerId + [last.triggerId],
        front.triggerDecision + [DecisionCode(last.triggerDecision)],
        front.progenitorTriggerId + [match last.progenitorTriggerId case Some(p) => p case None => NoProgenitor])
  }

  /** Read the trigger records back out of the three arrays. */
  function DecodeTriggerArrays(a: TriggerArrays): (records: seq<TriggerRecord>)
    requires |a.triggerDecision| == |a.triggerId| && |a.progenitorTriggerId| == |a.triggerId|
    ensures |records| == |a.triggerId|
  {
    seq(|a.triggerId|, i requires 0 <= i < |a.triggerId| =>
      TriggerRecord(
        a.triggerId[i],
        a.triggerDecision[i] != 0,
        if a.progenitorTriggerId[i] == NoProgenitor then None else Some(a.progenitorTriggerId[i])))
  }

  /** No trigger record names the sentinel as its progenitor. */
  predicate SentinelUnused(records: seq<TriggerRecord>) {
    forall i :: 0 <= i < |records| ==> records[i].progenitorTriggerId != Some(NoProgenitor)
  }

  /** The arrays determine the trigger records, as long as no real
      progenitor id is the sentinel: the sentinel marks exactly the records
      without a progenitor. */
  lemma {:induction false} TriggerArraysRoundTrip(records: seq<TriggerRecord>)
    requires SentinelUnused(records)
    ensures DecodeTriggerArrays(BuildTriggerArrays(records)) == records
    ensures forall i :: 0 <= i < |records| ==>
      (BuildTriggerArrays(records).progenitorTriggerId[i] == NoProgenitor <==> records[i].progenitorTriggerId.None?)
  {
    var a := BuildTriggerArrays(records);
    var back := DecodeTriggerArrays(a);
    forall i | 0 <= i < |records|
      ensures back[i] == records[i]
    {
      assert records[i].progenitorTriggerId != Some(NoProgenitor);
    }
  }
}
