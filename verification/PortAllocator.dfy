/** The pool of UDP port groups for the ffmpeg bridge. */
module PortAllocator {
  import opened Counting
  import opened Options

  /** Video RTP, video RTCP, audio RTP, audio RTCP. */
  const PORTS_PER_STREAM := 4

  datatype Ports = Ports(videoRtp: int, videoRtcp: int, audioRtp: int, audioRtcp: int)

  function PortsFrom(base: int): Ports {
    Ports(base, base + 1, base + 2, base + 3)
  }

  /** The start ports of the groups that fit into the range. */
  function Groups(rangeStart: int, rangeEnd: int): seq<int>
    decreases rangeEnd - rangeStart
  {
    if rangeStart + PORTS_PER_STREAM - 1 <= rangeEnd then
      [rangeStart] + Groups(rangeStart + PORTS_PER_STREAM, rangeEnd)
    else
      []
  }

  /** A group is in the pool exactly when it starts a whole number of groups into the range and ends within it, and
      then it is there once. */
  lemma {:induction false} GroupsExactly(g: int, rangeStart: int, rangeEnd: int)
    ensures Times(g, Groups(rangeStart, rangeEnd))
      == (if rangeStart <= g && g + PORTS_PER_STREAM - 1 <= rangeEnd && (g - rangeStart) % 4 == 0 then 1 else 0)
    decreases rangeEnd - rangeStart
  {
    if rangeStart + PORTS_PER_STREAM - 1 <= rangeEnd {
      GroupsExactly(g, rangeStart + PORTS_PER_STREAM, rangeEnd);
      TimesSplit(g, [rangeStart], Groups(rangeStart + PORTS_PER_STREAM, rangeEnd));
      TimesOne(g, rangeStart);
    }
  }

  /** The ports of two groups of the pool have nothing in common, and lie within the range. */
  lemma {:induction false} GroupsDisjoint(g: int, h: int, rangeStart: int, rangeEnd: int)
    requires Times(g, Groups(rangeStart, rangeEnd)) == 1 && Times(h, Groups(rangeStart, rangeEnd)) == 1 && g != h
    ensures g + PORTS_PER_STREAM <= h || h + PORTS_PER_STREAM <= g
    ensures rangeStart <= g && g + PORTS_PER_STREAM - 1 <= rangeEnd
  {
    GroupsExactly(g, rangeStart, rangeEnd);
    GroupsExactly(h, rangeStart, rangeEnd);
    assert (g - h) % 4 == 0;
  }

  class PortAllocator {
    var free: seq<int>

    constructor FromRange(rangeStart: int, rangeEnd: int)
      ensures free == Groups(rangeStart, rangeEnd)
    {
      free := [];
      new;
      var p := rangeStart;
      while p + PORTS_PER_STREAM - 1 <= rangeEnd
        invariant free + Groups(p, rangeEnd) == Groups(rangeStart, rangeEnd)
        decreases rangeEnd - p
      {
        assert free + Groups(p, rangeEnd) == (free + [p]) + Groups(p + PORTS_PER_STREAM, rangeEnd);
        free := free + [p];
        p := p + PORTS_PER_STREAM;
      }
      assert free + [] == free;
    }

    /** Refuses a range that is empty or too small for one stream. */
    static method Create(rangeStart: int, rangeEnd: int) returns (allocator: Option<PortAllocator>)
      ensures allocator.None? <==> rangeEnd - rangeStart < PORTS_PER_STREAM - 1
      ensures allocator.Some? ==> fresh(allocator.value) && allocator.value.free == Groups(rangeStart, rangeEnd)
    {
      if rangeEnd <= rangeStart {
        return None;
      }
      var a := new PortAllocator.FromRange(rangeStart, rangeEnd);
      if |a.free| == 0 {
        return None;
      }
      return Some(a);
    }

    method Allocate() returns (ports: Option<Ports>)
      modifies this
      ensures old(free) == [] ==> ports == None && free == []
      ensures old(free) != [] ==> ports.Some? && ports.value == PortsFrom(ports.value.videoRtp)
      ensures old(free) != [] ==> free + [ports.value.videoRtp] == old(free)
    {
      if |free| == 0 {
        return None;
      }
      var base := free[|free| - 1];
      free := free[..|free| - 1];
      return Some(PortsFrom(base));
    }

    method Release(p: Ports)
      modifies this
      ensures free == old(free) + [p.videoRtp]
    {
      free := free + [p.videoRtp];
    }
  }
}
