/** Finding where a replay of the newest n matching records starts, by probing how
    many matching records a start sequence would deliver. */
module ReplayWindow {
  import opened Bytes

  const MAX_UINT64: int := TWO_64 - 1

  /** Every operation on this type is checked to stay in range: nothing wraps. */
  newtype uint64 = x: int | 0 <= x <= MAX_UINT64

  /** The matching records of a stream snapshot holding sequences first..last. */
  ghost predicate Snapshot(recs: seq<uint64>, first: uint64, last: uint64) {
    && (forall k :: 0 <= k < |recs| ==> first <= recs[k] <= last)
    && (forall j, k :: 0 <= j < k < |recs| ==> recs[j] < recs[k])
  }

  /** How many records have a sequence at or above `s`. */
  ghost function CountFrom(recs: seq<uint64>, s: uint64): nat {
    if recs == [] then 0
    else CountFrom(recs[..|recs| - 1], s) + if recs[|recs| - 1] >= s then 1 else 0
  }

  /** The probe: a count, or None when the probe fails. */
  type Probe = uint64 -> Option<uint64>

  ghost predicate Answers(pending: Probe, recs: seq<uint64>) {
    forall s :: pending(s).Some? ==> pending(s).value as int == CountFrom(recs, s)
  }

  datatype Start = Found(start: uint64) | TooFew | ProbeFailed

  /** At least n records lie at or above `s` exactly when the n-th newest does. */
  lemma {:induction false} CountReaches(recs: seq<uint64>, first: uint64, last: uint64, s: uint64, n: nat)
    requires Snapshot(recs, first, last) && n >= 1
    ensures CountFrom(recs, s) >= n <==> |recs| >= n && recs[|recs| - n] >= s
    decreases |recs|
  {
    if recs == [] {
    } else {
      var front := recs[..|recs| - 1];
      assert Snapshot(front, first, last);
      if n > 1 {
        CountReaches(front, first, last, s, n - 1);
      }
      CountReaches(front, first, last, s, n);
      if front != [] {
        CountReaches(front, first, last, s, 1);
      }
    }
  }

  /** n different sequences at or below `last` leave the n-th newest at or below last-n+1. */
  lemma {:induction false} NewestFit(recs: seq<uint64>, first: uint64, last: uint64, n: nat)
    requires Snapshot(recs, first, last) && 1 <= n <= |recs|
    ensures recs[|recs| - n] as int <= last as int - n + 1
    decreases n
  {
    if n > 1 {
      NewestFit(recs, first, last, n - 1);
      assert recs[|recs| - n] < recs[|recs| - (n - 1)];
    }
  }

  function Pow2(k: nat): (p: nat)
    ensures p >= 1
  {
    if k == 0 then 1 else 2 * Pow2(k - 1)
  }

  /** Least k with 2^k >= x. */
  function CeilLog2(x: nat): nat {
    if x <= 1 then 0 else 1 + CeilLog2((x + 1) / 2)
  }

  lemma {:induction false} CeilLog2Above(x: nat, k: nat)
    ensures x > Pow2(k) <==> CeilLog2(x) > k
    decreases k
  {
    if x <= 1 {
      assert Pow2(k) >= 1;
    } else if k == 0 {
    } else {
      CeilLog2Above((x + 1) / 2, k - 1);
    }
  }

  /** The first sequence probed: n sequences below the end, but not below the first. */
  function FirstProbe(n: uint64, firstSeq: uint64, lastSeq: uint64): uint64
    requires n >= 1
  {
    if n <= lastSeq && lastSeq - n + 1 > firstSeq then lastSeq - n + 1 else firstSeq
  }

  /** The n-th newest record, when there are n. */
  ghost function Nth(recs: seq<uint64>, n: uint64): Option<uint64>
    requires n >= 1
  {
    if |recs| >= n as int then Some(recs[|recs| - n as int]) else None
  }

  /** Starting at `s` delivers at least n records. */
  ghost predicate Enough(recs: seq<uint64>, n: uint64, s: uint64)
    requires n >= 1
  {
    Nth(recs, n).Some? && s <= Nth(recs, n).value
  }

  method ReplayStart(n: uint64, firstSeq: uint64, lastSeq: uint64, pending: Probe, ghost recs: seq<uint64>)
    returns (r: Start, ghost probes: nat)
    requires n >= 1
    requires Snapshot(recs, firstSeq, lastSeq) && Answers(pending, recs)
    ensures r.Found? ==> Nth(recs, n) == Some(r.start)
    ensures r.TooFew? ==> |recs| < n as int
    ensures r.ProbeFailed? ==> exists s :: pending(s).None?
    ensures r.Found? ==>
              && r.start <= FirstProbe(n, firstSeq, lastSeq)
              && var d := FirstProbe(n, firstSeq, lastSeq) as int - r.start as int;
                 probes <= if d == 0 then 1 else 2 * CeilLog2(d + 1)
    ensures r.TooFew? ==>
              probes <= 1 + CeilLog2(FirstProbe(n, firstSeq, lastSeq) as int - firstSeq as int + 1)
  {
    var hi := firstSeq;
    if n <= lastSeq && lastSeq - n + 1 > firstSeq {
      hi := lastSeq - n + 1;
    }
    if |recs| >= n as int {
      NewestFit(recs, firstSeq, lastSeq, n as int);
    }
    var c := pending(hi);
    probes := 1;
    if c.None? {
      return ProbeFailed, probes;
    }
    CountReaches(recs, firstSeq, lastSeq, hi, n as int);
    if c.value >= n {
      return Found(hi), probes;
    }
    if hi == firstSeq {
      return TooFew, probes;
    }
    var bad, good;
    ghost var k;
    r, bad, good, k := Gallop(n, firstSeq, lastSeq, hi, pending, recs);
    probes := probes + k + 1;
    if r.Found? {
      ghost var more;
      CeilLog2Above(hi as int - Nth(recs, n).value as int + 1, k);
      r, more := Bisect(n, firstSeq, lastSeq, good, bad, pending, recs, k);
      probes := probes + more;
    } else if r.TooFew? {
      CeilLog2Above(hi as int - firstSeq as int + 1, k);
    }
  }

  /** Steps down from `hi`, doubling the step, until a start delivers n records.
      After `k` failed probes the step is 2^k and `bad` lies 2^k - 1 below `hi`. */
  method Gallop(n: uint64, firstSeq: uint64, lastSeq: uint64, hi: uint64, pending: Probe, ghost recs: seq<uint64>)
    returns (r: Start, bad: uint64, good: uint64, ghost k: nat)
    requires n >= 1
    requires Snapshot(recs, firstSeq, lastSeq) && Answers(pending, recs)
    requires firstSeq < hi && !Enough(recs, n, hi)
    ensures r.Found? ==>
              && Enough(recs, n, good) && !Enough(recs, n, bad) && good < bad <= hi
              && bad as int + Pow2(k) - 1 == hi as int && bad as int - good as int <= Pow2(k)
    ensures r.TooFew? ==> |recs| < n as int && hi as int - firstSeq as int >= Pow2(k)
    ensures r.ProbeFailed? ==> exists s :: pending(s).None?
  {
    bad, good, k := hi, 0, 0;
    var step := 1;
    while true
      invariant firstSeq < bad <= hi && !Enough(recs, n, bad)
      invariant step as int == Pow2(k) && bad as int + Pow2(k) - 1 == hi as int
      decreases bad
    {
      var cand := firstSeq;
      if bad - firstSeq > step {
        cand := bad - step;
      }
      var c := pending(cand);
      if c.None? {
        return ProbeFailed, bad, good, k;
      }
      CountReaches(recs, firstSeq, lastSeq, cand, n as int);
      if c.value >= n {
        return Found(cand), bad, cand, k;
      }
      if cand == firstSeq {
        return TooFew, bad, good, k;
      }
      bad := cand;
      step := step * 2;
      k := k + 1;
    }
  }

  /** Closes in on the largest start that delivers n records. */
  method Bisect(n: uint64, firstSeq: uint64, lastSeq: uint64, low: uint64, high: uint64, pending: Probe,
                ghost recs: seq<uint64>, ghost k: nat)
    returns (r: Start, ghost probes: nat)
    requires n >= 1
    requires Snapshot(recs, firstSeq, lastSeq) && Answers(pending, recs)
    requires Enough(recs, n, low) && !Enough(recs, n, high) && low < high
    requires high as int - low as int <= Pow2(k)
    ensures probes <= k && !r.TooFew?
    ensures r.Found? ==> Nth(recs, n) == Some(r.start)
    ensures r.ProbeFailed? ==> exists s :: pending(s).None?
  {
    var good, bad := low, high;
    probes := 0;
    while bad - good > 1
      invariant good < bad && Enough(recs, n, good) && !Enough(recs, n, bad)
      invariant probes <= k && bad as int - good as int <= Pow2(k - probes)
      decreases bad - good
    {
      var mid := good + (bad - good) / 2;
      var c := pending(mid);
      HalfWidth(bad as int - good as int, k - probes);
      probes := probes + 1;
      if c.None? {
        return ProbeFailed, probes;
      }
      CountReaches(recs, firstSeq, lastSeq, mid, n as int);
      if c.value >= n {
        good := mid;
      } else {
        bad := mid;
      }
    }
    return Found(good), probes;
  }

  lemma HalfWidth(w: nat, m: nat)
    requires 1 < w <= Pow2(m)
    ensures m >= 1 && w / 2 <= Pow2(m - 1) && w - w / 2 <= Pow2(m - 1)
  {
  }

  // ---------------------------------------------------------------------------
  // The delivery policy.

  datatype Policy = DeliverNew | DeliverAll | DeliverByStartSequence(seqNo: uint64)

  datatype Choice = Chosen(policy: Policy) | ChoiceFailed

  /** The records at or after `s`. */
  ghost function RecordsFrom(recs: seq<uint64>, s: uint64): (r: seq<uint64>)
    ensures |r| <= |recs|
  {
    if recs == [] || recs[0] >= s then recs else RecordsFrom(recs[1..], s)
  }

  ghost function Newest(recs: seq<uint64>, replay: int): seq<uint64> {
    if replay <= 0 then [] else if replay >= |recs| then recs else recs[|recs| - replay..]
  }

  /** The stored records a consumer with this policy receives before the live tail. */
  ghost function Backfill(recs: seq<uint64>, p: Policy): seq<uint64> {
    match p
    case DeliverNew => []
    case DeliverAll => recs
    case DeliverByStartSequence(s) => RecordsFrom(recs, s)
  }

  lemma {:induction false} RecordsFromAll(recs: seq<uint64>, first: uint64, last: uint64, s: uint64)
    requires Snapshot(recs, first, last)
    ensures forall x :: x in RecordsFrom(recs, s) <==> x in recs && x >= s
    ensures RecordsFrom(recs, s) == recs[|recs| - |RecordsFrom(recs, s)|..]
    decreases |recs|
  {
    if recs != [] && recs[0] < s {
      RecordsFromAll(recs[1..], first, last, s);
      assert recs == [recs[0]] + recs[1..];
    }
  }

  lemma {:induction false} RecordsFromNth(recs: seq<uint64>, first: uint64, last: uint64, k: nat)
    requires Snapshot(recs, first, last) && k < |recs|
    ensures RecordsFrom(recs, recs[k]) == recs[k..]
    decreases k
  {
    if k == 0 {
    } else {
      RecordsFromNth(recs[1..], first, last, k - 1);
      assert recs[1..][k - 1..] == recs[k..];
    }
  }

  lemma {:induction false} FewerThanLast(recs: seq<uint64>, last: uint64)
    requires Snapshot(recs, 1, last)
    ensures |recs| <= last as int
  {
    if recs == [] {
    } else {
      NewestFit(recs, 1, last, |recs|);
    }
  }

  /** Go's `lastSeq + 1`, which wraps at the top of the range. */
  function NextSeq(last: uint64): uint64 {
    if last as int == MAX_UINT64 then 0 else last + 1
  }

  method PickDeliverPolicy(replay: int, startFromSeq: uint64, firstSeq: uint64, lastSeq: uint64, pending: Probe,
                           ghost recs: seq<uint64>)
    returns (r: Choice)
    requires replay <= 0x7fff_ffff_ffff_ffff
    requires Snapshot(recs, firstSeq, lastSeq) && Snapshot(recs, 1, lastSeq) && Answers(pending, recs)
    ensures r.ChoiceFailed? ==> exists s :: pending(s).None?
    ensures r.Chosen? ==>
              Backfill(recs, r.policy) ==
              if 1 <= startFromSeq as int <= lastSeq as int + 1 && lastSeq as int < MAX_UINT64
              then RecordsFrom(recs, startFromSeq) else Newest(recs, replay)  // at the top lastSeq + 1 wraps
  {
    if startFromSeq > 0 && startFromSeq <= NextSeq(lastSeq) {
      return Chosen(DeliverByStartSequence(startFromSeq));
    }
    FewerThanLast(recs, lastSeq);
    if replay <= 0 || lastSeq == 0 {
      return Chosen(DeliverNew);
    }
    if replay as uint64 >= lastSeq {
      return Chosen(DeliverAll);
    }
    var start;
    ghost var probes;
    start, probes := ReplayStart(replay as uint64, firstSeq, lastSeq, pending, recs);
    if start.ProbeFailed? {
      return ChoiceFailed;
    }
    if start.TooFew? {
      return Chosen(DeliverAll);
    }
    RecordsFromNth(recs, firstSeq, lastSeq, |recs| - replay);
    return Chosen(DeliverByStartSequence(start.start));
  }
}
