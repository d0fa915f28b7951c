/** Oplog positions: a (seconds, increment) pair with its total order. */
module Timestamps {

  datatype Timestamp = Timestamp(seconds: nat, increment: nat)

  /** Strict total order: primary key `seconds`, tie-break `increment`. */
  predicate Before(a: Timestamp, b: Timestamp)
  {
    a.seconds < b.seconds || (a.seconds == b.seconds && a.increment < b.increment)
  }

  predicate NotAfter(a: Timestamp, b: Timestamp)
  {
    a == b || Before(a, b)
  }

  lemma NotAfterTransitive(a: Timestamp, b: Timestamp, c: Timestamp)
    requires NotAfter(a, b) && NotAfter(b, c)
    ensures NotAfter(a, c)
    ensures Before(a, b) || Before(b, c) ==> Before(a, c)
  {
  }

  /** The helper that decides whether a capture "is increasing" is not part
      of this model, so both readings of the word are kept open. */
  datatype Reading = Strict | NonStrict

  predicate Step(a: Timestamp, b: Timestamp, reading: Reading)
  {
    match reading
    case Strict => Before(a, b)
    case NonStrict => NotAfter(a, b)
  }

  /** Every adjacent pair of the capture is in order. */
  predicate Increasing(ts: seq<Timestamp>, reading: Reading)
  {
    forall i | 0 < i < |ts| :: Step(ts[i - 1], ts[i], reading)
  }

  /** In an increasing capture the first entry is never after any entry;
      strictly so for every later entry when the reading is strict. */
  lemma {:induction false} IncreasingFromFirst(ts: seq<Timestamp>, reading: Reading, k: nat)
    requires Increasing(ts, reading)
    requires k < |ts|
    ensures NotAfter(ts[0], ts[k])
    ensures reading == Strict && k > 0 ==> Before(ts[0], ts[k])
  {
    if k > 0 {
      IncreasingFromFirst(ts, reading, k - 1);
      assert Step(ts[k - 1], ts[k], reading);
      NotAfterTransitive(ts[0], ts[k - 1], ts[k]);
    }
  }
}
