# Retail occupancy analytics: a Dafny model

The application runs an object tracker over a video file or a webcam and
records "occupancy", the number of distinct tracked objects in a frame,
as timestamped rows in `analytics/footfall.csv`. A dashboard page then
shows statistics over that file. This project models the logic of the
pipeline and proves properties about it:

- **Records** (`records.dfy`) holds the shared vocabulary. A clock value
  is an integer count of local wall-clock milliseconds. A row is
  `Record(timestamp, occupancy)`. The analytics file is a `Store` object
  whose `file` field is `None` while the file does not exist and
  `Some(rows)` otherwise.
- **Detect** (`detect.py`, in `detect.dfy`) covers three things:
  - The per-frame occupancy: the number of distinct track ids, or 0 when
    the tracker gives no ids.
  - The video loop. Its local `log` and `last_log` appear as the state of
    an imperative `while` loop (`SampleVideo`). That loop is proved equal to
    a pure left fold (`VideoRun`) over the frames that were read. At the
    end the log replaces the file's contents (`RunVideo`).
  - The webcam session. Its `run`, capture handle and `log` live across
    page reruns, so they are the fields of class `Webcam`. Its methods are
    the Start and Stop buttons, the per-rerun frame poll, and the release
    that writes the log to the store after a stop.
- **Dashboard** (`dashboard.py`, in `dashboard.dfy`) covers the reset
  button, the "no data" exit, and pure functions for the mean, the peak,
  the time of the first peak, and the per-hour means.

Inputs the program gets from libraries or the environment are parameters
here:
- the clock value of each step (`now`, or `start` for the loop's start);
- whether a camera read succeeded (`readOk`);
- the tracker's optional id list (`Option<seq<TrackId>>`);
- which buttons were pressed.

Behaviours of the code that are easy to misread:
- The first video sample is not taken at once. `last_log` starts at the
  loop's start time, so the first record comes at least one second later
  (`NoRecordWithinFirstSecond`).
- Both detection paths overwrite the analytics file; they never append to
  it (`Records.Store.Write`, `RunVideo`, `Webcam.Release`).
- A video run always writes its log, even an empty one. The webcam path
  writes only a non-empty log.
- The webcam path has no throttle: every successful read while running
  adds one record. So timestamps in the store are not necessarily one
  interval apart, and the model does not claim they are strictly
  increasing.
- Writes are assumed to succeed. In the code, a failing webcam write
  (detect.py:119) skips the clearing of the log (detect.py:121) after the
  capture has already been dropped (detect.py:114). The records then stay
  in the session, nothing retries the write, and the next Start clears
  them (detect.py:86). The model does not cover this path.
- A file that exists but holds no rows is not the "no data" case. The code
  only tests whether the file exists and then calls the CSV reader, which
  raises on a file without columns. `Summarize` gives `EmptyData` for this
  case, separate from `NoData`. A video run writes such a file when every
  frame is processed within one second of wall-clock time after the loop
  starts, or when the file cannot be opened at all. The throttle measures
  processing time, not the video's length.

## Model

| member | source | states |
|---|---|---|
| `Records.Hour` | dashboard.py:25 | the hour of a timestamp lies in 0..23 |
| `Records.Store.Write` | detect.py:66-68 | after writing, the file holds exactly the given rows, whatever it held before |
| `Records.Store.Remove` | dashboard.py:10-11 | after removal, the file is absent |
| `Detect.Occupancy` | detect.py:57 | no ids gives 0; otherwise the count is at most the number of ids, and at least 1 when there are any |
| `Detect.ElementsBound` | detect.py:57 | the number of distinct ids is at most the list's length, at least 1 for a non-empty list, and equals the length exactly when the ids are pairwise different |
| `Detect.Dedup` | detect.py:57 | reference de-duplication: it has no repeated id and has exactly the ids of its input |
| `Detect.OccupancyIsDistinctCount` | detect.py:57 | a frame's occupancy equals the length of its de-duplicated id list; it equals the number of ids exactly when all ids differ |
| `Detect.OccupancyExamples` | detect.py:101-102 | ids `[1, 1, 2, 3]` give 3; an empty id list and no ids both give 0 |
| `Detect.VideoStep` | detect.py:55-62 | one frame either leaves the log as it was or appends exactly that frame's record at the end; it appends exactly when at least one interval has passed since `last_log` |
| `Detect.VideoRun` | detect.py:43-62 | the loop's state after the frames read, as a fold of `VideoStep` from `last_log` = start and an empty log; no contract of its own, its properties are the `VideoRun…` lemmas below |
| `Detect.VideoRunThrottled` | detect.py:44-62 | after any frames, `last_log` is the time of the last record (or the start). Each record is at least one second after the one before it, and the first is at least one second after the start. No frame yields more than one record |
| `Detect.VideoRunSound` | detect.py:55-61 | every logged record is the clock value and distinct-id count of one of the frames read |
| `Detect.VideoRunAppendOnly` | detect.py:58-61 | the log after a prefix of the frames is a prefix of the final log: entries are never modified or removed |
| `Detect.NoRecordWithinFirstSecond` | detect.py:44 | frames processed within one second of the loop's start produce no record at all |
| `Detect.SampleVideo` | detect.py:43-62 | the loop over the frames read returns the log of the fold `VideoRun`; that log is throttled and no longer than the number of frames |
| `Detect.RunVideo` | detect.py:43-68 | after a video run the store holds exactly that run's log, replacing any earlier contents, even when the log is empty |
| `Detect.Webcam.constructor` | detect.py:74-79 | a new session is not running, holds no capture and has an empty log |
| `Detect.Webcam.Start` | detect.py:83-86 | Start sets `run`, opens a capture and empties the log |
| `Detect.Webcam.Stop` | detect.py:89-90 | Stop clears `run` and changes nothing else (its frame is the `run` field alone) |
| `Detect.Webcam.Poll` | detect.py:94-107 | while running with a capture, a successful read appends exactly one record (now, distinct-id count) with no throttle; otherwise the log is unchanged |
| `Detect.Webcam.Release` | detect.py:112-121 | when stopped with a capture held, the capture is closed. If the log was non-empty, the store becomes exactly the log and the log is emptied. If the log was empty, the store is unchanged. In every other state nothing changes |
| `Detect.Webcam.Rerun` | detect.py:74-121 | one page rerun keeps "a capture is held exactly while running". `run` becomes (was running or Start) and not Stop. The log is emptied by Start, grows by one record per successful read while running, and is empty when not running. A Stop without Start writes the previous log to the store if it was non-empty; otherwise the store is unchanged |
| `Dashboard.Peak` | dashboard.py:22 | the peak is at least every record's occupancy and equals some record's occupancy |
| `Dashboard.FirstPeak` | dashboard.py:23 | the index is in range. Its record's occupancy is at least every record's, and every earlier record's is strictly smaller: the first position of the maximum |
| `Dashboard.Mean` | dashboard.py:21 | the exact mean, total occupancy over the number of records; no contract of its own, see `MeanBounds` |
| `Dashboard.MeanBounds` | dashboard.py:21 | the mean lies between the smallest occupancy and the peak |
| `Dashboard.Hours` | dashboard.py:25 | the set of hours present among the records; no contract of its own, see `Hourly` |
| `Dashboard.Bucket` | dashboard.py:25-26 | the records of one hour, in order; its contract bounds only its length, and its contents are stated by `BucketMembers` |
| `Dashboard.BucketMembers` | dashboard.py:25-26 | an hour's bucket holds each record of that hour exactly as many times as the records do, and no record of another hour (multiset equality) |
| `Dashboard.Hourly` | dashboard.py:25-26 | the hourly map has an entry exactly for the hours present among the records, each in 0..23 |
| `Dashboard.HourlyMeans` | dashboard.py:26 | each populated hour's bucket is non-empty, and its entry lies between the smallest and the largest occupancy of that hour's records |
| `Dashboard.BucketsPartition` | dashboard.py:25-26 | the sizes of the 24 hour buckets add up to the number of records, and their occupancy totals add up to the total occupancy |
| `Dashboard.Summarize` | dashboard.py:14-26 | an absent file gives "no data" and an empty one `EmptyData`. Otherwise statistics are shown: the peak bounds every occupancy; the peak time and peak are the record at the first position reaching the peak; the mean shown is `Mean` of the records, at most the peak and at least some record's occupancy; the hourly map shown is `Hourly` of the records, keyed exactly by the hours present |
| `Dashboard.ExampleBuckets` | dashboard.py:25-26 | in the worked example, hours 9 and 10 are present, with buckets of two records (total 6) and one record (total 4) |
| `Dashboard.HourlyExample` | dashboard.py:26 | in the worked example, hour 9 averages 3 and hour 10 averages 4 |
| `Dashboard.SummarizeExample` | dashboard.py:21-23 | records (09:00, 2), (09:30, 4), (10:15, 4) give mean 10/3, peak 4 and peak time 09:30, the first of the two maxima |
| `Dashboard.RunDashboard` | dashboard.py:8-17 | reset with an existing file removes it and stops the page. Otherwise, including reset with no file, the store is unchanged and the page shows what `Summarize` gives |
| `Dashboard.ResetTwice` | dashboard.py:8-17 | pressing reset twice leaves the file absent; the second press finds no file and shows "no data" (reset is idempotent) |

## Left out

- The YOLO model, its loading and its `track` inference calls are left out. They are a foreign library; the tracker's optional id list is an input.
- Video and camera reads, the temporary upload file and image conversion are I/O. Each successful read is a `Frame`, and a camera read's success is the boolean `readOk`.
- Streamlit widgets, charts, metrics, download buttons, and the `st.rerun` / `time.sleep` polling are UI and scheduling. One rerun of the webcam page is one `Webcam.Rerun` call.
- The image input path and the page layout in `app.py` are left out: they contain no logic.
- CSV writing and parsing by pandas are library calls. The file is modelled as its rows (`Option<seq<Record>>`), and the reader's failure on an empty file is the `EmptyData` view.
- Rounding the mean to two decimals and formatting the peak time with `strftime` are display concerns. The mean is exact (`real`).
- `time.time()` and `datetime.now()` are different clocks in the source. The model reads one clock value per frame, in whole milliseconds, and uses it for the throttle test, the record's timestamp and `last_log`. The hour of a timestamp is that clock's hour of day.
- Starting again while already running opens a second capture without releasing the first. The model records only that a capture is held.
- Write and remove failures (permissions, full disk) are not modelled: every write succeeds here. The source has no handler for them; on the webcam path a failed write leaves the records in the session log, as described above.
