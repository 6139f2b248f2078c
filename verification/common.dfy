/** Plain-data leaf types shared by the raw (RED) and the normalised (UDD)
    event representations, and the optional-value wrapper. */
module Common {

  /** An optional value: a stored timestamp that may still be invalid, an
      optional progenitor trigger id, a waveform that may not have been kept. */
  datatype Option<+T> = None | Some(value: T)

  /** A geometry identifier: a geometry category and an address path. Only
      ever copied and handed to the detector's numbering functions. */
  datatype GeomId = GeomId(category: int, address: seq<int>)

  /** A clock identifier of a raw tick count. */
  datatype ClockId = ClockId(code: int)

  /** A waveform sample, a signed 16-bit integer. */
  type Sample = x: int | -0x8000 <= x < 0x8000

  /** The auxiliary property bag of a raw event, copied verbatim. */
  type Properties = map<string, string>

  /** Back-reference to the hit (hit number, trigger id) of the upstream
      trigger record that produced a digitised value. */
  datatype Origin = Origin(hitNumber: int, triggerId: int)

  /** The five anode ranks of a Geiger cell timing entry. */
  datatype AnodeRank = R0 | R1 | R2 | R3 | R4

  /** The detector lookups the converter relies on but does not define:
      the optical-module number and the Geiger-cell number of a geometry
      id, and the period of a clock in picoseconds per tick. */
  datatype Detector = Detector(
    omNum: GeomId -> int,
    ggNum: GeomId -> int,
    clockPeriod: ClockId -> int)
}
