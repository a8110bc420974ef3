/** The records of a journal and the contract of a source that replays them. */
module JournalSource {
  import opened Bytes

  /** One journal record; `seqNo` is a uint64. */
  datatype Msg = Msg(seqNo: nat, data: Text)

  ghost predicate Increasing(log: seq<Msg>) {
    && (forall k :: 0 <= k < |log| ==> log[k].seqNo < TWO_64)
    && (forall j, k :: 0 <= j < k < |log| ==> log[j].seqNo < log[k].seqNo)
  }

  /** `ms` is the stretch of the stream that starts at `i`. */
  ghost predicate Segment(log: seq<Msg>, i: nat, ms: seq<Msg>) {
    i + |ms| <= |log| && ms == log[i..i + |ms|]
  }

  /** `ms` has no gap and no duplicate. */
  ghost predicate GapFree(log: seq<Msg>, ms: seq<Msg>) {
    exists i: nat :: Segment(log, i, ms)
  }

  /** Index of the first record at or after a sequence. */
  ghost function FirstAt(log: seq<Msg>, from: nat): (i: nat)
    ensures i <= |log|
  {
    if log == [] || log[0].seqNo >= from then 0 else 1 + FirstAt(log[1..], from)
  }

  /** Index the backfill of the newest `replay` of `len` records starts at. */
  function WindowStart(len: nat, replay: nat): nat {
    if len > replay then len - replay else 0
  }

  /** The resume contract: from a resume point, that record on; otherwise the newest
      `replay` of the records stored at some time, then the rest. */
  ghost predicate Honours(log: seq<Msg>, replay: nat, from: nat, ms: seq<Msg>) {
    if from > 0 then Segment(log, FirstAt(log, from), ms)
    else exists len: nat :: len <= |log| && Segment(log, WindowStart(len, replay), ms)
  }

  lemma {:induction false} FirstAfter(log: seq<Msg>, i: nat)
    requires Increasing(log) && i < |log|
    ensures FirstAt(log, log[i].seqNo + 1) == i + 1
    decreases |log|
  {
    if i > 0 {
      FirstAfter(log[1..], i - 1);
    } else if |log| > 1 {
      assert log[1..][0].seqNo >= log[0].seqNo + 1;
    }
  }

  lemma SegmentConcat(log: seq<Msg>, i: nat, a: seq<Msg>, b: seq<Msg>)
    requires Segment(log, i, a) && Segment(log, i + |a|, b)
    ensures Segment(log, i, a + b)
  {
  }
}
