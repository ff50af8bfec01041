/**
 * The 8-segment LED bar behind a shift register on the SPI bus. `BarMask`
 * turns a bar length into the segment byte; `Bar` records, in order, what the
 * driver does on the latch pin and on the bus (the latch is driven like a chip
 * select: low before the transfer, high after it).
 */
module LedBar {

  function Pow2(k: nat): (p: nat)
    ensures p >= 1
  {
    if k == 0 then 1 else 2 * Pow2(k - 1)
  }

  /** The single-bit masks 1 << i for i in [0, 8). */
  const BitMasks: seq<bv8> := [0x01, 0x02, 0x04, 0x08, 0x10, 0x20, 0x40, 0x80]

  /** Bit i (0 = least significant) of a byte. */
  function Bit(b: bv8, i: nat): bool
    requires i < 8
  {
    b & BitMasks[i] != 0
  }

  /** `1 << k` in (at least) 16 bits, as k doublings. */
  function Shl(k: nat): bv16
    requires k <= 8
  {
    if k == 0 then 1 else Shl(k - 1) << 1
  }

  /** The powers of two 1 << k for k in [0, 8]. */
  const Powers: seq<bv16> := [0x001, 0x002, 0x004, 0x008, 0x010, 0x020, 0x040, 0x080, 0x100]

  /** The bytes with exactly the lowest n bits set, for n in [0, 8]. */
  const LowMasks: seq<bv8> := [0x00, 0x01, 0x03, 0x07, 0x0F, 0x1F, 0x3F, 0x7F, 0xFF]

  /**
   * `setBar`: `(1 << (value % 9)) - 1` cast to uint8, i.e. the lowest
   * `value % 9` segments lit, the number 2^(value % 9) - 1. A negative value
   * would shift by a negative amount in C, which is undefined, so it is
   * excluded.
   */
  function BarMask(value: int): (mask: bv8)
    requires value >= 0
    ensures mask == LowMasks[value % 9]
    ensures mask as int == Pow2(value % 9) - 1
    ensures forall i :: 0 <= i < 8 ==> (Bit(mask, i) <==> i < value % 9)
  {
    var n := value % 9;
    ShlTable(n);
    LowMask(n);
    forall i | 0 <= i < 8 ensures Bit(LowMasks[n], i) <==> i < n {
      LowMaskBit(n, i);
    }
    (Shl(n) - 1) as bv8
  }

  lemma {:induction false} ShlTable(k: nat)
    requires k <= 8
    ensures Shl(k) == Powers[k]
  {
    if k > 0 {
      ShlTable(k - 1);
    }
    if k == 0 {} else if k == 1 {} else if k == 2 {} else if k == 3 {} else if k == 4 {}
    else if k == 5 {} else if k == 6 {} else if k == 7 {} else {}
  }

  lemma LowMask(n: nat)
    requires n <= 8
    ensures Powers[n] - 1 < 0x100 && (Powers[n] - 1) as bv8 == LowMasks[n]
    ensures LowMasks[n] as int == Pow2(n) - 1
  {
    if n == 0 {} else if n == 1 {} else if n == 2 {} else if n == 3 {} else if n == 4 {}
    else if n == 5 {} else if n == 6 {} else if n == 7 {} else {}
  }

  lemma LowMaskBit(n: nat, i: nat)
    requires n <= 8 && i < 8
    ensures Bit(LowMasks[n], i) <==> i < n
  {
    if i == 0 {} else if i == 1 {} else if i == 2 {} else if i == 3 {}
    else if i == 4 {} else if i == 5 {} else if i == 6 {} else {}
  }

  /** The documented bar values: empty, half and full. */
  lemma BarMaskExamples()
    ensures BarMask(0) == 0x00 && BarMask(4) == 0x0F && BarMask(8) == 0xFF
  {
  }

  /** Lengths of 9 or more wrap around modulo 9 instead of saturating: 9 is empty again. */
  lemma BarMaskWraps(value: int)
    requires value >= 0
    ensures BarMask(value + 9) == BarMask(value)
    ensures BarMask(9) == 0x00 && BarMask(17) == BarMask(8)
  {
    assert (value + 9) % 9 == value % 9;
  }

  lemma BitAnd(x: bv8, y: bv8, i: nat)
    requires i < 8
    ensures Bit(x & y, i) <==> Bit(x, i) && Bit(y, i)
  {
    if i == 0 {} else if i == 1 {} else if i == 2 {} else if i == 3 {}
    else if i == 4 {} else if i == 5 {} else if i == 6 {} else {}
  }

  /** Two bytes with the same eight bits are equal. */
  lemma BitsDetermineByte(a: bv8, b: bv8)
    requires forall i :: 0 <= i < 8 ==> Bit(a, i) == Bit(b, i)
    ensures a == b
  {
    assert Bit(a, 0) == Bit(b, 0) && Bit(a, 1) == Bit(b, 1) && Bit(a, 2) == Bit(b, 2) && Bit(a, 3) == Bit(b, 3);
    assert Bit(a, 4) == Bit(b, 4) && Bit(a, 5) == Bit(b, 5) && Bit(a, 6) == Bit(b, 6) && Bit(a, 7) == Bit(b, 7);
  }

  /** Over the documented range a longer bar lights every segment of a shorter one. */
  lemma BarMaskMonotone(a: int, b: int)
    requires 0 <= a <= b <= 8
    ensures BarMask(a) & BarMask(b) == BarMask(a)
    ensures BarMask(a) <= BarMask(b)
  {
    assert a % 9 == a && b % 9 == b;
    LowMasksNested(a, b);
  }

  lemma LowMasksNested(m: nat, n: nat)
    requires m <= n <= 8
    ensures LowMasks[m] & LowMasks[n] == LowMasks[m]
    ensures LowMasks[m] <= LowMasks[n]
  {
    var x, y := LowMasks[m], LowMasks[n];
    forall i | 0 <= i < 8 ensures Bit(x & y, i) == Bit(x, i) {
      BitAnd(x, y, i);
      LowMaskBit(m, i);
      LowMaskBit(n, i);
    }
    BitsDetermineByte(x & y, x);
    LowMask(m);
    LowMask(n);
    Pow2Monotone(m, n);
  }

  lemma {:induction false} Pow2Monotone(m: nat, n: nat)
    requires m <= n
    ensures Pow2(m) <= Pow2(n)
    decreases n
  {
    if m < n {
      Pow2Monotone(m, n - 1);
    }
  }

  // ---------------------------------------------------------------------
  // The driver
  // ---------------------------------------------------------------------

  /** What the driver does, in order: a latch pin write, a bus transfer, or a logged bus error. */
  datatype Event = Latch(high: bool) | Transfer(data: seq<bv8>) | ErrorLogged

  /**
   * The events of one `setValue`: latch low, the one-byte transfer, the error
   * log if the transfer failed (no retry), latch high.
   */
  function Transaction(value: bv8, status: int): seq<Event>
  {
    [Latch(false), Transfer([value])] + (if status != 0 then [ErrorLogged] else []) + [Latch(true)]
  }

  /** The payloads of all transfers in a trace, in order. */
  function Transfers(trace: seq<Event>): seq<seq<bv8>>
  {
    if trace == [] then []
    else (if trace[0].Transfer? then [trace[0].data] else []) + Transfers(trace[1..])
  }

  lemma {:induction false} TransfersAppend(a: seq<Event>, b: seq<Event>)
    ensures Transfers(a + b) == Transfers(a) + Transfers(b)
  {
    if a != [] {
      assert (a + b)[0] == a[0];
      assert (a + b)[1..] == a[1..] + b;
      TransfersAppend(a[1..], b);
    } else {
      assert a + b == b;
    }
  }

  /**
   * Whatever the bus reports, a `setValue` transfers exactly the one given
   * byte, with the latch low before it and high after it.
   */
  lemma TransactionShape(value: bv8, status: int)
    ensures Transfers(Transaction(value, status)) == [[value]]
    ensures Transaction(value, status)[0] == Latch(false)
    ensures Transaction(value, status)[|Transaction(value, status)| - 1] == Latch(true)
  {
    var t := Transaction(value, status);
    if status != 0 {
      assert t == [Latch(false)] + [Transfer([value])] + [ErrorLogged] + [Latch(true)];
      TransfersAppend([Latch(false)] + [Transfer([value])] + [ErrorLogged], [Latch(true)]);
      TransfersAppend([Latch(false)] + [Transfer([value])], [ErrorLogged]);
      TransfersAppend([Latch(false)], [Transfer([value])]);
    } else {
      assert t == [Latch(false)] + [Transfer([value])] + [Latch(true)];
      TransfersAppend([Latch(false)] + [Transfer([value])], [Latch(true)]);
      TransfersAppend([Latch(false)], [Transfer([value])]);
    }
  }

  class Bar {
    var latch: bool
    var trace: seq<Event>

    /** The state after `ledBar::init`: the latch held low, nothing sent yet. */
    constructor ()
      ensures !latch && trace == []
    {
      latch, trace := false, [];
    }

    /** `setValue`: `status` is what the bus transfer reports (0 on success). */
    method SetValue(value: bv8, status: int)
      modifies this
      ensures latch
      ensures trace == old(trace) + Transaction(value, status)
    {
      latch := false;
      trace := trace + [Latch(false)];
      trace := trace + [Transfer([value])];
      if status != 0 {
        trace := trace + [ErrorLogged];
      }
      latch := true;
      trace := trace + [Latch(true)];
    }

    /** `setBar`: shows a bar of `value % 9` segments. */
    method SetBar(value: int, status: int)
      requires value >= 0
      modifies this
      ensures latch
      ensures trace == old(trace) + Transaction(BarMask(value), status)
    {
      var mask := BarMask(value);
      SetValue(mask, status);
    }
  }
}
