/** The continuity check of an incremental capture: the timestamps the dump
    returned must be in order and must begin at the chain's start position. */
module Continuity {
  import opened Timestamps
  import opened Outcomes

  /** What a validated capture contributes to the segment result. */
  datatype Capture = Capture(entries: nat, first: Timestamp, last: Timestamp)

  /** Checks a captured timestamp sequence against the start position.
      Only the seconds of the first entry are compared with the start. */
  function Validate(ts: seq<Timestamp>, startAt: Timestamp, reading: Reading): (r: Result<Capture>)
    ensures r.Success? <==> Increasing(ts, reading) && |ts| > 0 && ts[0].seconds == startAt.seconds
    ensures r.Success? ==> r.value == Capture(|ts|, ts[0], ts[|ts| - 1]) && r.value.entries >= 1
    ensures r == Failure(NotOrdered) <==> !Increasing(ts, reading)
    ensures r == Failure(EmptyCapture) <==> Increasing(ts, reading) && ts == []
    ensures r == Failure(OplogTooSmall) <==>
              Increasing(ts, reading) && |ts| > 0 && ts[0].seconds > startAt.seconds
    ensures r == Failure(QueryMismatch) <==>
              Increasing(ts, reading) && |ts| > 0 && ts[0].seconds < startAt.seconds
  {
    if !Increasing(ts, reading) then Failure(NotOrdered)
    else if |ts| == 0 then Failure(EmptyCapture)
    else if ts[0].seconds > startAt.seconds then Failure(OplogTooSmall)
    else if ts[0].seconds < startAt.seconds then Failure(QueryMismatch)
    else Success(Capture(|ts|, ts[0], ts[|ts| - 1]))
  }

  /** An accepted capture never ends before it begins, and when it holds more
      than one entry under the strict reading it ends strictly later. */
  lemma AcceptedSpan(ts: seq<Timestamp>, startAt: Timestamp, reading: Reading)
    requires Validate(ts, startAt, reading).Success?
    ensures var c := Validate(ts, startAt, reading).value;
      NotAfter(c.first, c.last) && c.last.seconds >= startAt.seconds &&
      (reading == Strict && c.entries > 1 ==> Before(c.first, c.last))
  {
    IncreasingFromFirst(ts, reading, |ts| - 1);
  }

  /** One-step helper for `Properties.OplogStoredPositionAdvances`: when the
      capture honours the query filter (no entry before `startAt`), its last
      entry, and so the accepted segment's end, is no earlier than `startAt`. */
  lemma FilteredCaptureAdvances(ts: seq<Timestamp>, startAt: Timestamp, reading: Reading)
    requires forall k | 0 <= k < |ts| :: NotAfter(startAt, ts[k])
    requires Validate(ts, startAt, reading).Success?
    ensures NotAfter(startAt, Validate(ts, startAt, reading).value.last)
  {
  }

  /** The first entry is matched on seconds only: an entry with the right
      seconds and a different increment is accepted. */
  lemma IncrementMismatchAccepted(reading: Reading)
    ensures Validate([Timestamp(1000, 4)], Timestamp(1000, 5), reading)
         == Success(Capture(1, Timestamp(1000, 4), Timestamp(1000, 4)))
  {
  }

  /** Because of the seconds-only match, an accepted capture that starts
      before `startAt` within the same second can end before it too. */
  lemma AcceptedCaptureCanEndBeforeStart(reading: Reading)
    ensures var ts := [Timestamp(1000, 1), Timestamp(1000, 2)];
      var r := Validate(ts, Timestamp(1000, 5), reading);
      r.Success? && Before(r.value.last, Timestamp(1000, 5))
  {
  }

  /** Scenarios: a continuing capture, a gap, and a capture holding only the boundary entry. */
  lemma Scenarios(reading: Reading)
    ensures Validate([Timestamp(1000, 5), Timestamp(1000, 6), Timestamp(1001, 0)], Timestamp(1000, 5), reading)
         == Success(Capture(3, Timestamp(1000, 5), Timestamp(1001, 0)))
    ensures Validate([Timestamp(1001, 0)], Timestamp(1000, 5), reading)
         == Failure(OplogTooSmall)
    ensures Validate([Timestamp(1000, 5)], Timestamp(1000, 5), reading)
         == Success(Capture(1, Timestamp(1000, 5), Timestamp(1000, 5)))
  {
  }
}
