/** Reconciling one output chunk with the next expected byte (src/lib/remote-sequence.ts). */
module RemoteSequence {
  import opened Common

  datatype SequenceResult =
    | Duplicate
    | Gap(expected: nat, actual: nat)
    | Data(data: seq<Byte>, start: nat, end: nat)

  function AcceptOutputSequence(nextSeq: nat, startSeq: nat, data: seq<Byte>): SequenceResult {
    if startSeq < nextSeq then
      var duplicate := nextSeq - startSeq;
      if duplicate >= |data| then
        Duplicate
      else
        Data(data[duplicate..], nextSeq, nextSeq + |data[duplicate..]|)
    else if startSeq > nextSeq then
      Gap(nextSeq, startSeq)
    else
      Data(data, startSeq, startSeq + |data|)
  }

  /** `data` is what the journal holds from sequence `start` on. */
  ghost predicate SliceOf(journal: seq<Byte>, start: nat, data: seq<Byte>) {
    start + |data| <= |journal| && journal[start..start + |data|] == data
  }

  /** For every journal slice: what is accepted is exactly the journal from `nextSeq` to the end of
      the slice; a slice is a duplicate only if it ends at or before `nextSeq`, and a gap only if it
      starts after it.  No other outcome is possible. */
  lemma AcceptDeliversTheMissingSuffix(journal: seq<Byte>, nextSeq: nat, start: nat, data: seq<Byte>)
    requires SliceOf(journal, start, data)
    ensures var r := AcceptOutputSequence(nextSeq, start, data);
            && (r.Data? <==> start == nextSeq || start < nextSeq < start + |data|)
            && (r.Duplicate? <==> start < nextSeq && start + |data| <= nextSeq)
            && (r.Gap? <==> start > nextSeq)
            && (r.Data? ==> r.start == nextSeq && r.end == start + |data| <= |journal|
                            && r.data == journal[nextSeq..r.end])
            && (r.Gap? ==> r.expected == nextSeq && r.actual == start)
  {
    var r := AcceptOutputSequence(nextSeq, start, data);
    if r.Data? && start < nextSeq {
      assert journal[start..start + |data|][nextSeq - start..] == journal[nextSeq..start + |data|];
    }
  }
}
