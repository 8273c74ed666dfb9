/** Shared vocabulary of the occupancy pipeline: clock values, the
    `(timestamp, occupancy)` record, and the persisted analytics file. */
module Records {

  datatype Option<+T> = None | Some(value: T)

  /** A clock value: local wall-clock time in milliseconds. */
  type Instant = int

  /** A tracker identifier attached to one detection box. */
  type TrackId = int

  /** The minimum gap between two sampled records on the video path: one second. */
  const Interval: int := 1000

  const MillisPerHour: int := 3_600_000

  /** One row of the analytics log. */
  datatype Record = Record(timestamp: Instant, occupancy: nat)

  /** The hour-of-day component of a clock value (`.dt.hour`). */
  function Hour(t: Instant): (h: int)
    ensures 0 <= h < 24
  {
    (t / MillisPerHour) % 24
  }

  /** The file `analytics/footfall.csv`: `None` while it does not exist,
      otherwise the rows it holds. */
  class Store {
    var file: Option<seq<Record>>

    constructor (initial: Option<seq<Record>>)
      ensures file == initial
    {
      file := initial;
    }

    /** `to_csv`: create the file if needed and replace whatever it held. */
    method Write(rows: seq<Record>)
      modifies this
      ensures file == Some(rows)
    {
      file := Some(rows);
    }

    /** `os.remove` of the file. */
    method Remove()
      modifies this
      ensures file == None
    {
      file := None;
    }
  }
}
