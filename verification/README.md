# SNREDBridge event conversion, modelled in Dafny

This project models the per-event conversion of the SuperNEMO RED-to-UDD
bridge (`programs/red_bridge.cxx`). The bridge turns each raw event data
(RED) record into an event header (EH) plus a unified digitised data (UDD)
block. The model covers four parts:

- the header and UDD identity: run and event ids, the "real" generation tag,
  the reference tick count and the origin trigger ids;
- the absolute event timestamp, its seconds/picoseconds split, and the delta
  time to the previous event, with that timestamp carried from event to event;
- the three parallel trigger arrays: trigger id, decision, and progenitor id
  with a `-1` sentinel;
- calorimeter and tracker hit normalisation: a field-by-field copy with
  optional waveform suppression and entry-by-entry Geiger timing copies,
  then a sort by optical-module or Geiger-cell number and a renumbering with
  dense ids.

It also models the driving loop, with its read/written counters and its stop
at the first event past the end of the time window.

Files, one module each:

- `common.dfy`: shared leaf types and the `Detector` lookups. `om_num`, `gg_num`
  and `clock_period` are parameters here, so the model treats them as
  uninterpreted.
- `red.dfy`, `udd.dfy`: the raw and the normalised data model. They are two
  separate sets of types, linked only by the converter.
- `timing.dfy`: reference time, timestamp split, delta time.
- `ordering.dfy`: the key sort, specified as a permutation that is sorted by
  the key, plus sequence mapping.
- `calo.dfy`, `tracker.dfy`, `triggers.dfy`: the conversion of each part.
- `converter.dfy`: `ConvertEvent`, which returns a tagged outcome
  (`Converted(record)` or `EndOfWindow`) together with the carried
  previous-event timestamp.
- `bridge.dfy`: the read/convert/write loop and its carried state.

Time is idealised as integer picoseconds. This covers the sync epoch, the
end-of-window bound, clock periods and the stored delta time. The seconds
part of the split is the floor of the absolute time.

Three facts about the code shape the model:

- The previous-event timestamp is updated only after the end-of-window test
  passes (line 321 comes after the early return at lines 303-304). A
  rejected event leaves it unchanged.
- The hits are sorted with `std::sort`, which is not stable, so nothing is
  said about the relative order of hits that share a key.
- A suppressed waveform is never set on the UDD hit. The model writes `None`.

## Model

| member | source | states |
|---|---|---|
| Timing.Split | programs/red_bridge.cxx:296-301 | the header timestamp is normalised (picoseconds in [0, 10^12)) and denotes exactly the absolute event time |
| Timing.SplitRoundTrip | programs/red_bridge.cxx:298-301 | the split is the unique normalised timestamp for a time: splitting a reassembled normalised timestamp gives it back |
| Timing.SplitExample | programs/red_bridge.cxx:296-301 | sync epoch 1000 s plus reference time 2.5 s splits into 1002 s and 500000000000 ps |
| Timing.DeltaT | programs/red_bridge.cxx:310-315 | delta is 0 without a valid previous timestamp, otherwise the current instant minus the previous instant |
| Timing.DeltaOfSplitTimes | programs/red_bridge.cxx:310-318 | between two split event times the delta is exactly their difference, and it stays negative (not clamped) when the current event is earlier |
| Triggers.BuildTriggerArrays | programs/red_bridge.cxx:332-346 | the three arrays have one entry per trigger record, in input order: the trigger id, the decision as 1/0, and the progenitor id or -1 when the record has none |
| Triggers.TriggerArraysRoundTrip | programs/red_bridge.cxx:336-342 | if no real progenitor id equals -1, decoding the arrays gives back the trigger records, and -1 appears exactly where a record has no progenitor |
| Ordering.SortByKey | programs/red_bridge.cxx:391-392 | the sorted hits are a permutation of the input, and their keys do not decrease; nothing is said about ties |
| Calo.ConvertCaloHit | programs/red_bridge.cxx:369-370 | with suppression on, the hit carries no waveform; with it off, the waveform equals the raw one sample for sample |
| Calo.CaloHitRoundTrip | programs/red_bridge.cxx:364-384 | when waveforms are kept, rebuilding the raw hit from the converted hit and the raw clock id gives back the raw hit, so every field is copied verbatim |
| Calo.SuppressionDropsOnlyWaveform | programs/red_bridge.cxx:369-370 | suppression changes only the waveform (it becomes absent), and with suppression on the result does not depend on the raw waveform |
| Calo.ConvertCaloHits | programs/red_bridge.cxx:361-386 | one converted hit per raw hit, in input order |
| Calo.RenumberCaloHits | programs/red_bridge.cxx:394-396 | after renumbering, hit i has id i, and no field other than the id changes |
| Calo.NormaliseCaloHits | programs/red_bridge.cxx:388-396 | the output has as many hits as the input, ids equal positions, om_num does not decrease, and the output is a renumbering of a permutation of the converted input hits |
| Calo.OutputHitsComeFromInput | programs/red_bridge.cxx:361-392 | every output calorimeter hit equals, up to its id, the conversion of some input hit |
| Calo.InputHitsReachOutput | programs/red_bridge.cxx:361-392 | the conversion of every input calorimeter hit appears, up to its id, among the outputs |
| Calo.WaveformPolicy | programs/red_bridge.cxx:369-370 | with suppression on, no output hit has a waveform; with it off, every output waveform is the waveform of some input hit and every input waveform reaches the output |
| Tracker.ConvertGgTimes | programs/red_bridge.cxx:415-454 | in each timing entry, every anode rank R0..R4 is converted from the same rank of the raw entry |
| Tracker.ConvertGgTimesList | programs/red_bridge.cxx:409-468 | one converted entry per raw Geiger timing entry, in the same order |
| Tracker.ConvertTrackerHit | programs/red_bridge.cxx:403-468 | the hit keeps its geometry id, its raw hit id and its number of timing entries, and in each entry all five anode and both cathode (ticks, origin) pairs equal the raw ones |
| Tracker.TrackerHitRoundTrip | programs/red_bridge.cxx:403-468 | when all of a hit's timestamps share one clock, rebuilding the raw hit from the converted hit gives back the raw hit: nothing is added, dropped, merged or reordered |
| Tracker.RenumberTrackerHits | programs/red_bridge.cxx:478-480 | after renumbering, tracker hit i has id i, and no field other than the id changes |
| Tracker.NormaliseTrackerHits | programs/red_bridge.cxx:472-480 | the output has as many hits as the input, ids equal positions, gg_num does not decrease, and the output is a renumbering of a permutation of the converted input hits |
| Tracker.OutputTrackerHitsComeFromInput | programs/red_bridge.cxx:400-476 | every output tracker hit equals, up to its id, the conversion of some input hit |
| Tracker.InputTrackerHitsReachOutput | programs/red_bridge.cxx:400-476 | the conversion of every input tracker hit appears, up to its id, among the outputs |
| Converter.ConvertEvent | programs/red_bridge.cxx:250-487 | stops exactly when the reference time exceeds the end bound, and then leaves the carried timestamp unchanged; otherwise it carries the new timestamp forward, copies the run and event ids into header and UDD, tags the event real, copies the properties, reference ticks and origin trigger ids verbatim, and gives a normalised header timestamp that denotes sync epoch plus reference time |
| Converter.ConvertedEventShape | programs/red_bridge.cxx:336-396 | an event inside the window is converted, and its record has trigger arrays of length k for k trigger records, preserved hit counts, dense ids, hits ordered by om_num and gg_num, and no waveforms when suppression is on |
| Converter.ConvertedEventContents | programs/red_bridge.cxx:336-396 | an event inside the window is converted; its record's trigger arrays are those built from its trigger records (input order, -1 exactly where a progenitor is missing), and its hit collections are the normalised raw hits (a renumbered permutation of the converted hits); with suppression off every output waveform is that of some raw hit |
| Converter.DefaultWindowEdge | programs/red_bridge.cxx:34-36 | with the default settings and a one-picosecond clock, an event at exactly 365.24 days is converted with header time (31556736 s, 0 ps), and an event one picosecond later stops the run |
| Converter.DeltaTimeAgainstPrevious | programs/red_bridge.cxx:309-321 | an event inside the window is converted, and its stored delta is 0 for the first event and otherwise the event time minus the previous carried instant |
| Bridge.RunBridge | programs/red_bridge.cxx:181-208 | at loop exit: records read is at most the budget and the input size; written equals read when the loop ran out of input or budget, and read minus one exactly when an end-of-window event stopped it, and that event was not written; each written event is the conversion of the record at its position, with the carried timestamp of the event written before it |
| Bridge.DeltaTimeSequencing | programs/red_bridge.cxx:309-321 | across a run, the first written event has delta 0 and each later one has its event time minus the previous written event's time (not an earlier one's) |
| Bridge.WrittenEventsInsideWindow | programs/red_bridge.cxx:303-304 | every written event lies inside the time window and keeps the run and event ids of the raw record at its position, so the output order follows the input order |

## Left out

- Command-line parsing, help text, `strtol`/`strtod` and the missing-epoch check (lines 55-116). The run settings are the `Config` and `dataCount` parameters. The defaults of lines 34-36 appear as `DefaultConfig`. The default record budget of line 53 (100000000) is not a constant of the model, since `RunBridge` takes the budget as its `dataCount` parameter.
- Reader and writer setup and I/O, including `snfee::initialize`/`terminate`, the output module, and the writer's per-record status (ignored by the code). The input is a sequence of raw events, and the output is the sequence of records handed to the writer.
- The serialization-tag check of lines 189-190. It raises a run-level fatal error, and the model assumes every input record is a raw event.
- Logging, including the negative-delta warning of lines 317-318. It has no effect on the data, and the negative delta is stored as is.
- The commented-out metadata blocks, and the final summary printout and exit code.
- Floating point. The `double` tick product, the `CLHEP::second` scaling, the `floor` split and the `1E-12` scaling are all replaced by exact integer picoseconds. Round-off and loss of picosecond precision in the `double` code are not modelled, and nothing is claimed about them.
- `DeltaT`: the delta time is stored in picoseconds, not in CLHEP internal time units.
- `om_num`, `gg_num` and `clock_period`: their definitions are not part of this model. They are fields of `Detector`, i.e. arbitrary functions.
- The event-header property bag. The raw auxiliary properties are an opaque map, copied verbatim. The delta time and the three trigger arrays, which the code stores under fixed keys of the same bag, are separate header fields. A clash between a raw auxiliary key and those four keys is not modelled.
- Timestamp validity. `previous_eh_timestamp.is_valid()` is modelled as "a previous event was converted". The header timestamp that the code writes for a rejected event is discarded with that event, so it is not modelled.
- Integer widths. The 32-bit ids, the 64-bit seconds and the `size_t` counters are unbounded integers. The ids and counters are only copied or counted, so no wrap-around is reachable at realistic sizes. Waveform samples keep their signed 16-bit range.
- `SortByKey`: the model sorts with insertion sort, while the code uses `std::sort`. Only permutation and key order are stated, and both sorts guarantee those. The order of hits with equal keys is left unspecified, as in the code.
- `Triggers.BuildTriggerArrays`: the trigger decision is modelled as a boolean, stored as 1/0. The raw record type is not part of this model.
- `Tracker.TrackerHitRoundTrip`: this holds only when a hit's timestamps share one clock, because the conversion keeps tick counts and drops clock ids.
