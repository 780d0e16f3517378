/** What a decoder reads off a key frame: a byte stream of NALs behind start codes (Annex B of the H.264 standard). */
module AnnexBReader {
  import opened Rtp
  import opened KeyFrames

  predicate CodeAt(bytes: seq<byte>, k: nat) {
    k + 4 <= |bytes| && bytes[k] == 0 && bytes[k + 1] == 0 && bytes[k + 2] == 0 && bytes[k + 3] == 1
  }

  /** Where the next start code begins, or the end. */
  function NextCode(bytes: seq<byte>, k: nat): (n: nat)
    requires k <= |bytes|
    ensures k <= n <= |bytes|
    decreases |bytes| - k
  {
    if k == |bytes| || CodeAt(bytes, k) then k else NextCode(bytes, k + 1)
  }

  /** The NALs between the start codes. */
  function Nals(bytes: seq<byte>): seq<seq<byte>>
    decreases |bytes|
  {
    if !CodeAt(bytes, 0) then [] else
      var end := NextCode(bytes, 4);
      [bytes[4..end]] + Nals(bytes[end..])
  }

  /** No start code inside: the encoder's emulation prevention sees to that. */
  ghost predicate Escaped(nal: seq<byte>) {
    forall k :: 0 <= k < |nal| ==> !CodeAt(nal, k)
  }

  lemma {:induction false} AnnexBCons(nal: seq<byte>, rest: seq<seq<byte>>)
    ensures AnnexB([nal] + rest) == START_CODE + nal + AnnexB(rest)
  {
    if rest == [] {
      assert [nal] + rest == [nal] && [nal][..0] == [];
      assert AnnexB([nal]) == AnnexB([]) + START_CODE + nal == START_CODE + nal;
    } else {
      var n := |rest| - 1;
      assert ([nal] + rest)[..n + 1] == [nal] + rest[..n];
      AnnexBCons(nal, rest[..n]);
      assert AnnexB(rest) == AnnexB(rest[..n]) + START_CODE + rest[n];
    }
  }

  /** A start code follows, or nothing. */
  predicate Continues(bytes: seq<byte>) {
    bytes == [] || CodeAt(bytes, 0)
  }

  lemma {:induction false} AnnexBContinues(nals: seq<seq<byte>>)
    ensures Continues(AnnexB(nals)) && (nals != [] ==> CodeAt(AnnexB(nals), 0))
  {
    if nals != [] {
      AnnexBCons(nals[0], nals[1..]);
      assert nals == [nals[0]] + nals[1..];
    }
  }

  /** No code straddles the end of a NAL. */
  lemma {:induction false} NoCodeWithin(nal: seq<byte>, after: seq<byte>, k: nat)
    requires Escaped(nal) && Continues(after) && 4 <= k < 4 + |nal|
    ensures !CodeAt(START_CODE + nal + after, k)
  {
    var bytes, j := START_CODE + nal + after, k - 4;
    assert forall i :: 0 <= i < |nal| ==> bytes[4 + i] == nal[i];
    assert forall i :: 0 <= i < |after| ==> bytes[4 + |nal| + i] == after[i];
    assert !CodeAt(nal, j);
  }

  lemma {:induction false} NextAfter(nal: seq<byte>, after: seq<byte>, k: nat)
    requires Escaped(nal) && Continues(after) && 4 <= k <= 4 + |nal|
    ensures NextCode(START_CODE + nal + after, k) == 4 + |nal|
    decreases 4 + |nal| - k
  {
    var bytes := START_CODE + nal + after;
    if k < 4 + |nal| {
      NoCodeWithin(nal, after, k);
      NextAfter(nal, after, k + 1);
    } else {
      assert forall i :: 0 <= i < |after| ==> bytes[4 + |nal| + i] == after[i];
    }
  }

  /** A decoder finds exactly the NALs that were written. */
  lemma {:induction false} ReadsBack(nals: seq<seq<byte>>)
    requires forall i :: 0 <= i < |nals| ==> Escaped(nals[i])
    ensures Nals(AnnexB(nals)) == nals
  {
    if nals != [] {
      var after := AnnexB(nals[1..]);
      var bytes := START_CODE + nals[0] + after;
      assert nals == [nals[0]] + nals[1..];
      AnnexBCons(nals[0], nals[1..]);
      AnnexBContinues(nals[1..]);
      NextAfter(nals[0], after, 4);
      assert CodeAt(bytes, 0) && bytes[4..4 + |nals[0]|] == nals[0] && bytes[4 + |nals[0]|..] == after;
      ReadsBack(nals[1..]);
    }
  }
}
