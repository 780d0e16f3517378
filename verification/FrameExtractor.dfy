/** `FrameExtractor`: the recorder's fields and methods, each proved to do what the functions of `Depacketizer`
and `ReorderBuffer` specify. */
module FrameExtractor {
  import opened SequenceNumbers
  import opened Rtp
  import opened Resequencing
  import opened ReorderBuffer
  import opened Depacketizer
  import opened KeyFrames

  /** Every packet can be parsed: an empty aggregation unit makes the recorder panic. */
  predicate ParsesAll(pkts: seq<RtpPacket>) {
    forall i :: 0 <= i < |pkts| ==> Digestible(pkts[i])
  }

  predicate HoldsParsable(pending: map<uint16, RtpPacket>) {
    forall k :: k in pending ==> Digestible(pending[k])
  }

  lemma {:induction false} DrainParses(n: Narrow)
    requires HoldsParsable(n.pending)
    ensures HoldsParsable(Drain16(n).0.pending) && ParsesAll(Drain16(n).1)
    decreases |n.pending|
  {
    if n.nextSeq in n.pending {
      DrainParses(Narrow(Successor(n.nextSeq), n.pending - {n.nextSeq}));
    }
  }

  lemma {:induction false} PushParses(n: Narrow, pkt: RtpPacket, expired: bool)
    requires HoldsParsable(n.pending) && Digestible(pkt)
    ensures HoldsParsable(Push16(n, pkt, expired).0.pending) && ParsesAll(Push16(n, pkt, expired).1)
  {
    if Delta(pkt.number, n.nextSeq) > 0 {
      DrainParses(Narrow(Successor(n.nextSeq), n.pending[pkt.number := pkt]));
    } else {
      DrainParses(Narrow(Successor(n.nextSeq), n.pending));
    }
  }

  class FrameExtractor {
    var hasPrevSeq: bool
    var prevSeq: uint16
    var lostPackets: nat
    var picTS: uint32
    var picBuf: Picture
    var fua: Fragments
    var pictureCorrupted: bool
    var sps: seq<byte>
    var pps: seq<byte>
    var idrReady: bool
    var idrNALs: Picture
    const reorder: ReorderBuffer
    ghost var committed: seq<Picture>

    ghost function View(): Extractor
      reads this
    {
      Extractor(hasPrevSeq, prevSeq, lostPackets, picTS, picBuf, fua, pictureCorrupted, sps, pps, idrReady, idrNALs, committed)
    }

    ghost predicate Valid()
      reads this, reorder
    {
      HoldsParsable(reorder.pending) && (!reorder.hasNext ==> reorder.pending == map[])
    }

    constructor ()
      ensures Valid() && fresh(reorder) && View() == INITIAL && !reorder.hasNext
    {
      hasPrevSeq, prevSeq, lostPackets, picTS := false, 0, 0, 0;
      picBuf, fua, pictureCorrupted := [], NoFragment, false;
      sps, pps, idrReady, idrNALs, committed := [], [], false, [], [];
      reorder := new ReorderBuffer();
    }

    method CheckSeqGap(pkt: RtpPacket) returns (gap: bool)
      modifies this
      ensures (View(), gap) == Depacketizer.CheckSeqGap(old(View()), pkt.number)
    {
      if !hasPrevSeq {
        prevSeq := pkt.number;
        hasPrevSeq := true;
        return false;
      }
      var delta := Delta(pkt.number, prevSeq);
      if delta == 1 {
        prevSeq := pkt.number;
        return false;
      } else if delta > 1 {
        lostPackets := lostPackets + (delta - 1);
        prevSeq := pkt.number;
        return true;
      } else {
        return true;
      }
    }

    method CommitPicture()
      modifies this
      ensures View() == Depacketizer.CommitPicture(old(View()))
    {
      if |picBuf| == 0 {
        return;
      }
      if pictureCorrupted {
        pictureCorrupted := false;
        picBuf := [];
        return;
      }
      var hasIDR := false;
      var i := 0;
      while i < |picBuf|
        invariant 0 <= i <= |picBuf| && !hasIDR
        invariant forall k :: 0 <= k < i ==> NalType(picBuf[k][0]) != TYPE_IDR
      {
        if NalType(picBuf[i][0]) == TYPE_IDR {
          hasIDR := true;
          break;
        }
        i := i + 1;
      }
      committed := committed + [picBuf];
      if hasIDR {
        idrNALs := picBuf;
        idrReady := true;
      }
      picBuf := [];
    }

    method AddNAL(nal: Nal, marker: bool)
      modifies this
      ensures View() == AddNal(old(View()), nal, marker)
    {
      picBuf := picBuf + [nal];
      if NalType(nal[0]) == TYPE_SPS {
        sps := nal;
      } else if NalType(nal[0]) == TYPE_PPS {
        pps := nal;
      }
      if marker {
        CommitPicture();
      }
    }

    method IngestSTAPA(payload: seq<byte>, marker: bool)
      requires Solid(StapUnits(payload))
      modifies this
      ensures View() == IngestStapA(old(View()), payload, marker)
    {
      var p := payload;
      while |p| >= 2
        invariant Solid(StapUnits(p))
        invariant AppendAll(View(), StapUnits(p)) == AppendAll(old(View()), StapUnits(payload))
        decreases |p|
      {
        var size: int := p[0] as int * 0x100 + p[1] as int;
        ghost var units := StapUnits(p);
        if |p| - 2 < size {
          p := [];
          break;
        }
        assert units[0] == p[2..2 + size] && units[1..] == StapUnits(p[2 + size..]);
        AddNAL(p[2..2 + size], false);
        p := p[2 + size..];
      }
      if marker {
        CommitPicture();
      }
    }

    method IngestFUA(p: seq<byte>, marker: bool)
      modifies this
      ensures View() == IngestFuA(old(View()), p, marker)
    {
      if |p| < 2 {
        return;
      }
      var fuHeader := p[1];
      if StartBit(fuHeader) {
        fua := Partial([RebuiltHeader(p[0], fuHeader)]);
      }
      if fua.NoFragment? {
        return;
      }
      fua := Partial(fua.data + p[2..]);
      if EndBit(fuHeader) {
        var complete := fua.data;
        fua := NoFragment;
        AddNAL(complete, marker);
      }
    }

    method IngestOrdered(pkt: RtpPacket)
      requires Digestible(pkt)
      modifies this
      ensures View() == Depacketizer.IngestOrdered(old(View()), pkt)
    {
      var gap := CheckSeqGap(pkt);
      if gap && (|picBuf| > 0 || fua.Partial?) {
        pictureCorrupted := true;
      }
      picTS := pkt.timestamp;
      assert View() == NoteGap(old(View()), pkt);
      var p := pkt.payload;
      if |p| == 0 {
        return;
      }
      var nalType := NalType(p[0]);
      if 1 <= nalType <= 23 {
        AddNAL(p, pkt.marker);
      } else if nalType == TYPE_STAP_A {
        IngestSTAPA(p[1..], pkt.marker);
      } else if nalType == TYPE_FU_A {
        IngestFUA(p, pkt.marker);
      }
    }

    /** One packet from the network: the reorder buffer decides what is handed on, and everything handed on is
        depacketized in order. */
    method Ingest(pkt: RtpPacket, expired: bool)
      requires Valid() && Digestible(pkt)
      modifies this, reorder
      ensures Valid() && reorder.hasNext
      ensures var r := Push16(if old(reorder.hasNext) then old(reorder.View()) else Narrow(pkt.number, map[]), pkt, expired);
        reorder.View() == r.0 && ParsesAll(r.1) && View() == IngestAll(old(View()), r.1)
    {
      PushParses(if reorder.hasNext then reorder.View() else Narrow(pkt.number, map[]), pkt, expired);
      var out := reorder.Push(pkt, expired);
      ghost var before := reorder.View();
      var i := 0;
      while i < |out|
        invariant 0 <= i <= |out| && reorder.hasNext
        invariant reorder.View() == before
        invariant View() == IngestAll(old(View()), out[..i])
      {
        assert out[..i + 1][..i] == out[..i];
        IngestOrdered(out[i]);
        i := i + 1;
      }
      assert out[..|out|] == out;
    }

    /** Writes each NAL with its start code behind what the buffer holds. */
    static method WriteAll(buffer: seq<byte>, ghost written: seq<seq<byte>>, nals: seq<seq<byte>>) returns (frame: seq<byte>)
      requires buffer == AnnexB(written)
      ensures frame == AnnexB(written + nals)
    {
      frame := buffer;
      var i := 0;
      assert written + nals[..i] == written;
      while i < |nals|
        invariant 0 <= i <= |nals|
        invariant frame == AnnexB(written + nals[..i])
      {
        AnnexBSnoc(written + nals[..i], nals[i]);
        assert written + nals[..i + 1] == written + nals[..i] + [nals[i]];
        frame := frame + START_CODE + nals[i];
        i := i + 1;
      }
      assert nals[..|nals|] == nals;
    }

    method CaptureKeyFrame() returns (frame: seq<byte>)
      ensures frame == AnnexB(KeyFrameNals(View()))
    {
      if !idrReady || |idrNALs| == 0 {
        return [];
      }
      frame := [];
      if |sps| > 0 {
        frame := WriteAll(frame, [], [sps]);
      }
      assert [] + IfAny(sps) == IfAny(sps);
      ghost var sets := IfAny(sps);
      if |pps| > 0 {
        frame := WriteAll(frame, sets, [pps]);
      } else {
        assert sets + IfAny(pps) == sets;
      }
      frame := WriteAll(frame, sets + IfAny(pps), idrNALs);
    }
  }
}
