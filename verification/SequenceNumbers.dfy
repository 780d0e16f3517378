/** 16-bit RTP sequence numbers (RFC 3550 section 5.1) and the unbounded numbering behind them. */
module SequenceNumbers {

  type uint16 = x: int | 0 <= x < 0x1_0000

  /** The 16-bit number that unbounded number `n` is sent under. */
  function Wrap(n: int): uint16 {
    n % 0x1_0000
  }

  /** `int32(int16(s - from))`: the subtraction wraps, the conversion reads the result as signed. */
  function Delta(s: uint16, from: uint16): (d: int)
    ensures -0x8000 <= d < 0x8000
  {
    var raw := (s - from) % 0x1_0000;
    if raw < 0x8000 then raw else raw - 0x1_0000
  }

  /** The unbounded number a receiver waiting for `next` gives to a packet that carries `s`. */
  function Unwrap(next: int, s: uint16): int {
    next + Delta(s, Wrap(next))
  }

  /** `Unwrap` recovers the sender's number exactly when that number is inside the half-window around `next`. */
  lemma {:induction false} UnwrapExact(next: int, n: int)
    ensures Unwrap(next, Wrap(n)) == n <==> -0x8000 <= n - next < 0x8000
  {
    WrapDifference(n, next);
  }

  /** What `Unwrap` answers always travels under `s`. */
  lemma {:induction false} UnwrapTravelsUnder(next: int, s: uint16)
    ensures Wrap(Unwrap(next, s)) == s
  {
    WrapDifference(s, next);
  }

  lemma {:induction false} WrapDifference(a: int, b: int)
    ensures (Wrap(a) - Wrap(b)) % 0x1_0000 == (a - b) % 0x1_0000
  {
    var qa, qb := a / 0x1_0000, b / 0x1_0000;
    assert a == qa * 0x1_0000 + Wrap(a) && b == qb * 0x1_0000 + Wrap(b);
  }

  /** Two numbers less than a full cycle apart travel under different 16-bit numbers. */
  lemma {:induction false} WrapInjective(a: int, b: int)
    requires -0x1_0000 < a - b < 0x1_0000
    ensures Wrap(a) == Wrap(b) <==> a == b
  {
    WrapDifference(a, b);
  }
}
