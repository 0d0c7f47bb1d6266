/** The rate-limit error log (ai_utils.py, lines 35-56): when the model's
    quota runs out, one row is written to the `api_errors` table, but no more
    than one per 23 hours. The table is a sequence of records and the clock an
    integer count of microseconds, the resolution of Python's `datetime`. */
module RateLimit {

  /** `timedelta(hours=23)`, in microseconds. */
  const Cooldown: int := 23 * 3600 * 1000000

  const RateLimitMessage: string := "Google Gemini API rate limit exceeded."

  /** One row of `api_errors`. */
  datatype ErrorRecord = ErrorRecord(message: string, timestamp: int)

  type Log = seq<ErrorRecord>

  /** The timestamp of the row `order_by(timestamp.desc()).first()` returns:
      the largest one. */
  function Latest(log: Log): (t: int)
    requires log != []
    ensures forall i :: 0 <= i < |log| ==> log[i].timestamp <= t
    ensures exists i :: 0 <= i < |log| && log[i].timestamp == t
  {
    if |log| == 1 then log[0].timestamp
    else
      var rest := Latest(log[1..]);
      assert forall i :: 1 <= i < |log| ==> log[i] == log[1..][i - 1];
      if log[0].timestamp >= rest then log[0].timestamp else rest
  }

  /** Lines 43-51: append a record stamped `now` when the log is empty or its
      latest record is more than 23 hours older than `now`. A failing store
      (`storeFails`, the `SQLAlchemyError` branch) rolls back and leaves the
      log as it was. */
  function Record(log: Log, now: int, storeFails: bool): (r: Log)
    ensures |r| == |log| || |r| == |log| + 1
    ensures r[..|log|] == log
    ensures |r| == |log| + 1 <==>
              !storeFails && forall i :: 0 <= i < |log| ==> now - log[i].timestamp > Cooldown
    ensures |r| == |log| + 1 ==> r[|log|] == ErrorRecord(RateLimitMessage, now)
  {
    if !storeFails && (log == [] || now - Latest(log) > Cooldown) then
      log + [ErrorRecord(RateLimitMessage, now)]
    else
      log
  }

  /** Every two records are more than 23 hours apart, in order. */
  predicate Spaced(log: Log) {
    forall i, j :: 0 <= i < j < |log| ==> log[j].timestamp - log[i].timestamp > Cooldown
  }

  /** Recording keeps the records spaced, whatever the clock does: a new
      record is only written when every earlier one is more than 23 hours
      older. */
  lemma RecordKeepsSpaced(log: Log, now: int, storeFails: bool)
    requires Spaced(log)
    ensures Spaced(Record(log, now, storeFails))
  {
  }

  /** The logger applied once per time in `times`, in order. */
  function RecordAll(log: Log, times: seq<int>): (r: Log)
    ensures |log| <= |r| <= |log| + |times|
    ensures r[..|log|] == log
    decreases |times|
  {
    if times == [] then log
    else RecordAll(Record(log, times[0], false), times[1..])
  }

  /** Calls that all fall within one 23-hour window, a record among them
      included, add nothing: each finds that record at most 23 hours old. */
  lemma {:induction false} NothingWithinCooldown(log: Log, t: int, times: seq<int>)
    requires log != [] && Latest(log) >= t
    requires forall i :: 0 <= i < |times| ==> times[i] - t <= Cooldown
    ensures RecordAll(log, times) == log
    decreases |times|
  {
    if times != [] {
      assert Record(log, times[0], false) == log;
      NothingWithinCooldown(log, t, times[1..]);
    }
  }

  /** However many quota errors arrive within a window of 23 hours, at most
      one record is written for them. */
  lemma {:induction false} AtMostOnePerWindow(log: Log, start: int, times: seq<int>)
    requires forall i :: 0 <= i < |times| ==> start <= times[i] <= start + Cooldown
    ensures |RecordAll(log, times)| <= |log| + 1
    decreases |times|
  {
    if times != [] {
      var next := Record(log, times[0], false);
      if |next| == |log| {
        AtMostOnePerWindow(log, start, times[1..]);
      } else {
        assert next[|log|].timestamp == times[0];
        assert Latest(next) >= times[0];
        NothingWithinCooldown(next, times[0], times[1..]);
      }
    }
  }

  /** Two quota errors leave two records exactly when the second comes more
      than 23 hours after the first; otherwise, including a second error
      exactly 23 hours later or one whose clock reads earlier, they leave
      one. */
  lemma TwoErrors(t1: int, t2: int)
    ensures |Record(Record([], t1, false), t2, false)| == if t2 - t1 > Cooldown then 2 else 1
  {
    var once := Record([], t1, false);
    assert once == [ErrorRecord(RateLimitMessage, t1)];
  }
}
