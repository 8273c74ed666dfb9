/** The detection page: the per-frame occupancy count, the throttled
    sampling loop of the video path, and the start/poll/stop session of the
    webcam path. */
module Detect {
  import opened Records

  // ---------------------------------------------------------------------
  // Occupancy of one frame
  // ---------------------------------------------------------------------

  /** The identifiers that occur in a frame's id list. */
  function Elements(s: seq<TrackId>): set<TrackId> {
    set i | i in s
  }

  predicate Distinct(s: seq<TrackId>) {
    forall i, j :: 0 <= i < j < |s| ==> s[i] != s[j]
  }

  /** Occupancy of a frame: the number of distinct track ids, or 0 when the
      tracker attached no ids to the boxes. */
  function Occupancy(ids: Option<seq<TrackId>>): (n: nat)
    ensures ids.None? ==> n == 0
    ensures ids.Some? ==> n <= |ids.value|
    ensures ids.Some? && ids.value != [] ==> n >= 1
  {
    match ids
    case None => 0
    case Some(s) => ElementsBound(s); |Elements(s)|
  }

  /** Appending one id adds it to the id set; the list stays duplicate-free
      exactly when the id is new. */
  lemma Snoc(p: seq<TrackId>, x: TrackId)
    ensures Elements(p + [x]) == Elements(p) + {x}
    ensures Distinct(p + [x]) <==> Distinct(p) && x !in Elements(p)
  {
    var s := p + [x];
    forall y | y in Elements(s) ensures y in Elements(p) + {x} {
      var k :| 0 <= k < |s| && s[k] == y;
      if k < |p| { assert p[k] == y; }
    }
    forall y | y in Elements(p) + {x} ensures y in Elements(s) {
      if y == x { assert s[|p|] == y; } else { var k :| 0 <= k < |p| && p[k] == y; assert s[k] == y; }
    }
    if Distinct(s) {
      forall i, j | 0 <= i < j < |p| ensures p[i] != p[j] { assert s[i] == p[i] && s[j] == p[j]; }
      forall k | 0 <= k < |p| ensures p[k] != x { assert s[k] == p[k] && s[|p|] == x; }
    }
    if Distinct(p) && x !in Elements(p) {
      forall i, j | 0 <= i < j < |s| ensures s[i] != s[j] {
        if j == |p| { assert s[i] == p[i]; } else { assert s[i] == p[i] && s[j] == p[j]; }
      }
    }
  }

  lemma {:induction false} ElementsBound(s: seq<TrackId>)
    ensures |Elements(s)| <= |s|
    ensures s != [] ==> |Elements(s)| >= 1
    ensures |Elements(s)| == |s| <==> Distinct(s)
  {
    if s != [] {
      var p, x := s[..|s| - 1], s[|s| - 1];
      assert s == p + [x];
      ElementsBound(p);
      Snoc(p, x);
      if x in Elements(p) {
        assert Elements(s) == Elements(p);
      }
    }
  }

  /** Reference de-duplication: each identifier once, at its first occurrence. */
  function Dedup(s: seq<TrackId>): (d: seq<TrackId>)
    ensures Distinct(d)
    ensures forall x :: x in d <==> x in s
  {
    if s == [] then []
    else
      var p := Dedup(s[..|s| - 1]);
      if s[|s| - 1] in p then p else p + [s[|s| - 1]]
  }

  /** The occupancy of a frame is the length of its de-duplicated id list. */
  lemma OccupancyIsDistinctCount(s: seq<TrackId>)
    ensures Occupancy(Some(s)) == |Dedup(s)|
    ensures |Dedup(s)| <= |s|
    ensures Occupancy(Some(s)) == |s| <==> Distinct(s)
  {
    var d := Dedup(s);
    assert Elements(d) == Elements(s);
    ElementsBound(d);
    ElementsBound(s);
  }

  /** Duplicate ids collapse: `[1, 1, 2, 3]` has occupancy 3; no ids, or an
      empty id list, has occupancy 0. */
  lemma OccupancyExamples()
    ensures Occupancy(Some([1, 1, 2, 3])) == 3
    ensures Occupancy(Some([])) == 0
    ensures Occupancy(None) == 0
  {
    assert Elements([1, 1, 2, 3]) == {1, 2, 3};
    assert Elements([]) == {};
  }

  // ---------------------------------------------------------------------
  // Video path: a one-second throttle over the frames of a file
  // ---------------------------------------------------------------------

  /** A successfully read frame: the clock at the time it was processed and
      the id list the tracker attached to its boxes. */
  datatype Frame = Frame(now: Instant, ids: Option<seq<TrackId>>)

  /** The loop's state: `last_log` and the in-memory `log`. */
  datatype Sampler = Sampler(lastLog: Instant, log: seq<Record>)

  function FrameRecord(f: Frame): Record {
    Record(f.now, Occupancy(f.ids))
  }

  /** One iteration of the video loop body. */
  function VideoStep(st: Sampler, f: Frame): (r: Sampler)
    ensures r.log == st.log || r.log == st.log + [FrameRecord(f)]
    ensures r.log == st.log + [FrameRecord(f)] <==> f.now - st.lastLog >= Interval
  {
    if f.now - st.lastLog >= Interval then Sampler(f.now, st.log + [FrameRecord(f)])
    else st
  }

  /** The state after the loop has processed `frames`, starting with
      `last_log` set to the loop's start time and an empty log. */
  function VideoRun(start: Instant, frames: seq<Frame>): Sampler {
    if frames == [] then Sampler(start, [])
    else VideoStep(VideoRun(start, frames[..|frames| - 1]), frames[|frames| - 1])
  }

  /** The clock value `last_log` holds after `log` has been written. */
  function LastTime(start: Instant, log: seq<Record>): Instant {
    if log == [] then start else log[|log| - 1].timestamp
  }

  /** Every record lies at least one interval after the previous one, and the
      first one at least one interval after the start of the loop. */
  ghost predicate Throttled(start: Instant, log: seq<Record>) {
    (|log| > 0 ==> log[0].timestamp - start >= Interval) &&
    forall i :: 0 < i < |log| ==> log[i].timestamp - log[i - 1].timestamp >= Interval
  }

  lemma {:induction false} VideoRunThrottled(start: Instant, frames: seq<Frame>)
    ensures VideoRun(start, frames).lastLog == LastTime(start, VideoRun(start, frames).log)
    ensures Throttled(start, VideoRun(start, frames).log)
    ensures |VideoRun(start, frames).log| <= |frames|
  {
    if frames != [] {
      VideoRunThrottled(start, frames[..|frames| - 1]);
    }
  }

  /** Each record comes from one of the frames: its clock value and its
      distinct-id count. */
  lemma {:induction false} VideoRunSound(start: Instant, frames: seq<Frame>)
    ensures forall k :: 0 <= k < |VideoRun(start, frames).log| ==>
      exists i :: 0 <= i < |frames| && VideoRun(start, frames).log[k] == FrameRecord(frames[i])
  {
    if frames != [] {
      var p := frames[..|frames| - 1];
      VideoRunSound(start, p);
      var before, after := VideoRun(start, p).log, VideoRun(start, frames).log;
      forall k | 0 <= k < |after|
        ensures exists i :: 0 <= i < |frames| && after[k] == FrameRecord(frames[i])
      {
        if k < |before| {
          var i :| 0 <= i < |p| && before[k] == FrameRecord(p[i]);
          assert after[k] == FrameRecord(frames[i]);
        } else {
          assert after[k] == FrameRecord(frames[|frames| - 1]);
        }
      }
      assert after == VideoRun(start, frames).log;
    } else {
      assert VideoRun(start, frames).log == [];
    }
  }

  /** Records are only ever appended: the log after a prefix of the frames is
      a prefix of the log after all of them. */
  lemma {:induction false} VideoRunAppendOnly(start: Instant, frames: seq<Frame>, n: nat)
    requires n <= |frames|
    ensures VideoRun(start, frames[..n]).log <= VideoRun(start, frames).log
  {
    if n < |frames| {
      var p := frames[..|frames| - 1];
      assert frames[..n] == p[..n];
      VideoRunAppendOnly(start, p, n);
    } else {
      assert frames[..n] == frames;
    }
  }

  /** `last_log` starts at the loop's start time, so no frame within the first
      second is logged, however many there are. */
  lemma NoRecordWithinFirstSecond(start: Instant, frames: seq<Frame>)
    requires forall i :: 0 <= i < |frames| ==> frames[i].now < start + Interval
    ensures VideoRun(start, frames).log == []
  {
    VideoRunThrottled(start, frames);
    VideoRunSound(start, frames);
  }

  /** The sampling loop of the video path, over the frames read before the
      first failed read. */
  method SampleVideo(start: Instant, frames: seq<Frame>) returns (log: seq<Record>)
    ensures log == VideoRun(start, frames).log
    ensures Throttled(start, log)
    ensures |log| <= |frames|
  {
    var lastLog := start;
    log := [];
    var i := 0;
    while i < |frames|
      invariant 0 <= i <= |frames|
      invariant Sampler(lastLog, log) == VideoRun(start, frames[..i])
    {
      var f := frames[i];
      if f.now - lastLog >= Interval {
        log := log + [Record(f.now, Occupancy(f.ids))];
        lastLog := f.now;
      }
      assert frames[..i + 1][..i] == frames[..i];
      i := i + 1;
    }
    assert frames[..i] == frames;
    VideoRunThrottled(start, frames);
  }

  /** A whole video run: sample, then write the log to the store, replacing
      what it held, even when the log is empty. */
  method RunVideo(start: Instant, frames: seq<Frame>, store: Store)
    modifies store
    ensures store.file == Some(VideoRun(start, frames).log)
  {
    var log := SampleVideo(start, frames);
    store.Write(log);
  }

  // ---------------------------------------------------------------------
  // Webcam path: session state kept across reruns of the page
  // ---------------------------------------------------------------------

  /** The session's `run` flag, whether a capture handle is held (`cap` is
      not None) and the accumulated `log`. */
  class Webcam {
    var run: bool
    var capOpen: bool
    var log: seq<Record>

    /** Running needs a capture; without a capture nothing is buffered. */
    ghost predicate Valid()
      reads this
    {
      (run ==> capOpen) && (!capOpen ==> log == [])
    }

    /** The state between two reruns: a capture is held exactly while running. */
    ghost predicate Settled()
      reads this
    {
      Valid() && run == capOpen
    }

    /** The defaults given to missing session keys. */
    constructor ()
      ensures Settled() && !run && !capOpen && log == []
    {
      run, capOpen, log := false, false, [];
    }

    /** The Start button: open the camera and clear the log. */
    method Start()
      requires Valid()
      modifies this
      ensures Valid() && run && capOpen && log == []
    {
      run, capOpen, log := true, true, [];
    }

    /** The Stop button: clear `run` and nothing else. */
    method Stop()
      requires Valid()
      modifies this`run
      ensures Valid() && !run
    {
      run := false;
    }

    /** While running with a capture, read one frame; a successful read
        appends exactly one record, with no throttle. */
    method Poll(readOk: bool, now: Instant, ids: Option<seq<TrackId>>)
      requires Valid()
      modifies this`log
      ensures Valid()
      ensures log == if run && capOpen && readOk then old(log) + [Record(now, Occupancy(ids))] else old(log)
    {
      if run && capOpen && readOk {
        log := log + [Record(now, Occupancy(ids))];
      }
    }

    /** Not running but a capture held: release it, and write the log to the
        store only when it is non-empty, then clear it. */
    method Release(store: Store)
      requires Valid()
      modifies this`capOpen, this`log, store
      ensures Valid()
      ensures if !run && old(capOpen) then
          !capOpen && log == [] &&
          store.file == (if old(log) != [] then Some(old(log)) else old(store.file))
        else
          capOpen == old(capOpen) && log == old(log) && store.file == old(store.file)
    {
      if !run && capOpen {
        capOpen := false;
        if log != [] {
          store.Write(log);
          log := [];
        }
      }
    }

    /** One rerun of the webcam page: the two buttons, then a poll, then the
        release that follows a stop. */
    method Rerun(startPressed: bool, stopPressed: bool, readOk: bool, now: Instant,
                 ids: Option<seq<TrackId>>, store: Store)
      requires Settled()
      modifies this, store
      ensures Settled()
      ensures run == ((old(run) || startPressed) && !stopPressed)
      ensures log == if !run then []
        else (if startPressed then [] else old(log)) +
             (if readOk then [Record(now, Occupancy(ids))] else [])
      ensures store.file == if stopPressed && !startPressed && old(log) != [] then Some(old(log))
        else old(store.file)
    {
      if startPressed {
        Start();
      }
      if stopPressed {
        Stop();
      }
      Poll(readOk, now, ids);
      Release(store);
    }
  }
}
