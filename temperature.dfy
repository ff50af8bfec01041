/**
 * The TMP1075 temperature sensor on the I2C bus, as the project's emulator
 * answers for it: sixteen 16-bit registers behind a pointer register, read and
 * written byte-wise, most significant byte first, with NAKs (-1) for
 * oversized transfers, invalid pointer values and denied register accesses.
 * Also the sensor's fixed-point temperature format and the device-ID test of
 * the driver's initialisation.
 */
module Temperature {
  import Util

  const RegisterCount: nat := 16

  /** Register contents after reset: limits, configuration and the device ID 0x7500. */
  const ResetImage: seq<bv16> :=
    [0x0000, 0x00FF, 0x4B00, 0x5000, 0x0000, 0x0000, 0x0000, 0x0000,
     0x0000, 0x0000, 0x0000, 0x0000, 0x0000, 0x0000, 0x0000, 0x7500]

  /**
   * `m_checkRegAccess`: writes may reach only the configuration and limit
   * registers 0x01-0x03; reads may reach every register 0x00-0x0F.
   */
  function RegAccess(regAddr: int, writeNRead: bool): bool
  {
    if writeNRead then regAddr == 0x01 || regAddr == 0x02 || regAddr == 0x03
    else 0x00 <= regAddr <= 0x0F
  }

  function HighByte(w: bv16): bv8
  {
    (w >> 8) as bv8
  }

  function LowByte(w: bv16): bv8
  {
    (w & 0xFF) as bv8
  }

  /** Big-endian decoding of two bytes. */
  function BigEndian16(hi: bv8, lo: bv8): (w: bv16)
    ensures HighByte(w) == hi && LowByte(w) == lo
  {
    ((hi as bv16) << 8) | lo as bv16
  }

  /** A register is determined by its two bytes. */
  lemma BytesDetermineWord(a: bv16, b: bv16)
    requires HighByte(a) == HighByte(b) && LowByte(a) == LowByte(b)
    ensures a == b
  {
  }

  /** Replaces the high byte of a register. */
  function SetHigh(w: bv16, b: bv8): (r: bv16)
    ensures HighByte(r) == b && LowByte(r) == LowByte(w)
  {
    (w & 0x00FF) | ((b as bv16) << 8)
  }

  /** Replaces the low byte of a register. */
  function SetLow(w: bv16, b: bv8): (r: bv16)
    ensures LowByte(r) == b && HighByte(r) == HighByte(w)
  {
    (w & 0xFF00) | (b as bv16)
  }

  // ---------------------------------------------------------------------
  // The bus protocol as functions of the register file
  // ---------------------------------------------------------------------

  /** Byte k of a read at register p: the register high byte, its low byte, then 0xFF. */
  function ReadByteAt(regs: seq<bv16>, p: nat, k: nat): bv8
    requires p < |regs|
  {
    if k == 0 then HighByte(regs[p]) else if k == 1 then LowByte(regs[p]) else 0xFF
  }

  /**
   * How many bytes a read of `count` bytes from register p fills: none when
   * more than 32 are asked for, else up to the point where the register
   * address p + k/2 would pass 0x0F.
   */
  function ReadLength(p: nat, count: nat): (n: nat)
    requires p < RegisterCount
    ensures n <= count
  {
    if count > 2 * RegisterCount then 0
    else if count <= 2 * (RegisterCount - p) then count
    else 2 * (RegisterCount - p)
  }

  /** What a read of `count` bytes from register p returns: `count`, or -1 on a NAK. */
  function ReadStatus(p: nat, count: nat): (r: int)
    requires p < RegisterCount
    ensures r == count || r == -1
    ensures r == count <==> ReadLength(p, count) == count
  {
    if count > 2 * RegisterCount || count > 2 * (RegisterCount - p) then -1 else count
  }

  /** The outcome of a write: its status, the register file and the pointer afterwards. */
  datatype WriteResult = WriteResult(status: int, regs: seq<bv16>, pointer: bv8)

  /** Register file after the first k (at most two) data bytes addressed to register q. */
  function WriteBytes(regs: seq<bv16>, q: nat, body: seq<bv8>, k: nat): seq<bv16>
    requires q < |regs| && k <= 2 && k <= |body|
  {
    if k == 0 then regs
    else if k == 1 then regs[q := SetHigh(regs[q], body[0])]
    else regs[q := SetLow(SetHigh(regs[q], body[0]), body[1])]
  }

  lemma WriteBytesStep(regs: seq<bv16>, q: nat, body: seq<bv8>, k: nat)
    requires q < |regs| && k < 2 && k < |body|
    ensures WriteBytes(regs, q, body, k + 1)
            == WriteBytes(regs, q, body, k)[q := if k == 0 then SetHigh(WriteBytes(regs, q, body, k)[q], body[0])
                                                 else SetLow(WriteBytes(regs, q, body, k)[q], body[1])]
  {
  }

  /**
   * A write of `data`: more than 33 bytes or a pointer byte with any of bits
   * 0xF0 set is refused with nothing changed; otherwise the pointer takes the
   * first byte and the next two bytes replace the high and then the low byte
   * of that register, if `RegAccess` admits it. A third data byte is NAKed,
   * after the pointer and the first two bytes have taken effect.
   */
  function WriteSpec(regs: seq<bv16>, p: bv8, data: seq<bv8>, writeNRead: bool): WriteResult
    requires |regs| == RegisterCount
  {
    if |data| > 1 + 2 * RegisterCount then WriteResult(-1, regs, p)
    else if |data| == 0 then WriteResult(0, regs, p)
    else if data[0] & 0xF0 != 0 then WriteResult(-1, regs, p)
    else
      var q := data[0] as nat;
      var body := data[1..];
      if |body| == 0 then WriteResult(|data|, regs, data[0])
      else if !RegAccess(q, writeNRead) then WriteResult(-1, regs, data[0])
      else if |body| <= 2 then WriteResult(|data|, WriteBytes(regs, q, body, |body|), data[0])
      else WriteResult(-1, WriteBytes(regs, q, body, 2), data[0])
  }

  /** A write whose pointer byte has any of bits 0xF0 set changes nothing and is NAKed. */
  lemma InvalidPointerChangesNothing(regs: seq<bv16>, p: bv8, data: seq<bv8>, writeNRead: bool)
    requires |regs| == RegisterCount && 0 < |data| <= 1 + 2 * RegisterCount
    ensures data[0] >= 0x10 <==> data[0] & 0xF0 != 0
    ensures data[0] >= 0x10 ==> WriteSpec(regs, p, data, writeNRead) == WriteResult(-1, regs, p)
  {
    PointerBits(data[0]);
  }

  lemma PointerBits(b: bv8)
    ensures b >= 0x10 <==> b & 0xF0 != 0
  {
  }

  /** Every write leaves a valid pointer behind: the register file stays addressable. */
  lemma WriteKeepsPointerValid(regs: seq<bv16>, p: bv8, data: seq<bv8>, writeNRead: bool)
    requires |regs| == RegisterCount && p < 0x10
    ensures var w := WriteSpec(regs, p, data, writeNRead);
            w.pointer < 0x10 && |w.regs| == RegisterCount
  {
    if 0 < |data| <= 1 + 2 * RegisterCount {
      PointerBits(data[0]);
    }
  }

  /**
   * Writing pointer, high byte and low byte to a register the access rule
   * admits stores the big-endian word there, leaves the pointer on it, and a
   * following two-byte read returns the same two bytes. Under the read rule
   * that `i2c_write` applies as written, this holds for every register 0x00-0x0F.
   */
  lemma WriteThenRead(regs: seq<bv16>, p: bv8, q: bv8, hi: bv8, lo: bv8, writeNRead: bool)
    requires |regs| == RegisterCount && q < 0x10 && RegAccess(q as int, writeNRead)
    ensures var w := WriteSpec(regs, p, [q, hi, lo], writeNRead);
            && w.status == 3 && w.pointer == q
            && w.regs == regs[q as nat := BigEndian16(hi, lo)]
            && ReadStatus(q as nat, 2) == 2
            && ReadByteAt(w.regs, q as nat, 0) == hi && ReadByteAt(w.regs, q as nat, 1) == lo
  {
    PointerBits(q);
    var data: seq<bv8> := [q, hi, lo];
    assert data[1..] == [hi, lo];
    var w := WriteSpec(regs, p, data, writeNRead);
    assert w.regs == regs[q as nat := SetLow(SetHigh(regs[q], hi), lo)];
    StoredWord(regs[q], hi, lo);
  }

  /** Storing high then low byte gives the big-endian word whatever the register held. */
  lemma StoredWord(w: bv16, hi: bv8, lo: bv8)
    ensures SetLow(SetHigh(w, hi), lo) == BigEndian16(hi, lo)
  {
    BytesDetermineWord(SetLow(SetHigh(w, hi), lo), BigEndian16(hi, lo));
  }

  /** Under the write rule the temperature register and the device ID never change. */
  lemma ProtectedWriteKeepsReadOnlyRegisters(regs: seq<bv16>, p: bv8, data: seq<bv8>)
    requires |regs| == RegisterCount
    ensures var w := WriteSpec(regs, p, data, true);
            |w.regs| == RegisterCount &&
            forall k :: 0 <= k < RegisterCount && !(0x01 <= k <= 0x03) ==> w.regs[k] == regs[k]
  {
  }

  /**
   * As written, `i2c_write` checks accesses with the read rule, so writing
   * 0x1234 to the device-ID register 0x0F of a freshly reset device is
   * acknowledged and overwrites the ID.
   */
  lemma WriteAsWrittenOverwritesId()
    ensures var w := WriteSpec(ResetImage, 0x00, [0x0F, 0x12, 0x34], false);
            w.status == 3 && w.regs[0x0F] == 0x1234 && !IdAccepted(w.regs[0x0F])
  {
    var data: seq<bv8> := [0x0F, 0x12, 0x34];
    assert data[1..] == [0x12, 0x34];
    PointerBits(0x0F);
  }

  /** With the write rule the same write is NAKed and the ID survives. */
  lemma ProtectedWriteRefusesId()
    ensures var w := WriteSpec(ResetImage, 0x00, [0x0F, 0x12, 0x34], true);
            w.status == -1 && w.regs[0x0F] == 0x7500 && IdAccepted(w.regs[0x0F])
  {
    var data: seq<bv8> := [0x0F, 0x12, 0x34];
    assert data[1..] == [0x12, 0x34];
  }

  // ---------------------------------------------------------------------
  // The emulated device
  // ---------------------------------------------------------------------

  class EmulatedTmp1075 {
    const registers: array<bv16>
    var regPointer: bv8

    ghost predicate Valid()
      reads this
    {
      registers.Length == RegisterCount && regPointer < 0x10
    }

    /** A device just after reset. */
    constructor ()
      ensures Valid() && fresh(registers)
      ensures registers[..] == ResetImage && regPointer == 0
    {
      registers := new bv16[RegisterCount](_ => 0);
      regPointer := 0;
      new;
      ResetRegisters();
    }

    /** A device just after reset that measures `temp`. */
    constructor WithTemp(temp: real)
      ensures Valid() && fresh(registers)
      ensures registers[..] == ResetImage[0 := TempRegister(temp)] && regPointer == 0
    {
      registers := new bv16[RegisterCount](_ => 0);
      regPointer := 0;
      new;
      ResetRegisters();
      SetTemp(temp);
    }

    /** `m_resetRegisters`: clears every register, then loads the reset values. */
    method ResetRegisters()
      requires Valid()
      modifies registers
      ensures registers[..] == ResetImage
    {
      var i := 0;
      while i < RegisterCount
        invariant 0 <= i <= RegisterCount
        invariant forall k :: 0 <= k < i ==> registers[k] == 0
      {
        registers[i] := 0;
        i := i + 1;
      }
      registers[0x00] := 0x0000;
      registers[0x01] := 0x00FF;
      registers[0x02] := 0x4B00;
      registers[0x03] := 0x5000;
      registers[0x0F] := 0x7500;
    }

    /** `setTemp`: stores the temperature, in the sensor's format, in register 0x00. */
    method SetTemp(temp: real)
      requires Valid()
      modifies registers
      ensures registers[..] == old(registers[..])[0 := TempRegister(temp)]
    {
      registers[0x00] := TempRegister(temp);
    }

    /**
     * `i2c_read`: fills `buffer` from the register the pointer selects. Reads
     * change neither the registers nor the pointer.
     */
    method I2cRead(buffer: array<bv8>, count: nat) returns (r: int)
      requires Valid()
      requires count <= buffer.Length
      modifies buffer
      ensures r == ReadStatus(regPointer as nat, count)
      ensures forall k :: 0 <= k < ReadLength(regPointer as nat, count) ==>
                buffer[k] == ReadByteAt(registers[..], regPointer as nat, k)
      ensures forall k :: ReadLength(regPointer as nat, count) <= k < buffer.Length ==>
                buffer[k] == old(buffer[k])
    {
      if count > 2 * RegisterCount { return -1; }
      var p := regPointer as nat;
      var regOffs: nat := 0;
      var byteOffs: nat := 0;
      var i: nat := 0;
      var left := count;
      ghost var regs := registers[..];
      while left > 0
        modifies buffer
        invariant i + left == count
        invariant regOffs == i / 2 && byteOffs == i % 2
        invariant i <= 2 * (RegisterCount - p)
        invariant forall k :: 0 <= k < i ==> buffer[k] == ReadByteAt(regs, p, k)
        invariant forall k :: i <= k < buffer.Length ==> buffer[k] == old(buffer[k])
      {
        var regAddr := p + regOffs;
        if !RegAccess(regAddr, false) { return -1; }  // NAK: register access denied
        var b: bv8;
        if regOffs == 0 {
          // only the addressed register is sent
          if byteOffs == 0 { b := (registers[regAddr] >> 8) as bv8; }
          else { b := (registers[regAddr] & 0xFF) as bv8; }
        } else {
          b := 0xFF;
        }
        assert b == ReadByteAt(regs, p, i);
        buffer[i] := b;
        byteOffs := byteOffs + 1;
        if byteOffs >= 2 {
          byteOffs := 0;
          regOffs := regOffs + 1;
        }
        i := i + 1;
        left := left - 1;
      }
      return count;
    }

    /**
     * The body of `i2c_write`, with the access rule it hands to
     * `m_checkRegAccess` as a parameter.
     */
    method I2cWriteWith(data: array<bv8>, count: nat, writeNRead: bool) returns (r: int)
      requires Valid()
      requires count <= data.Length
      modifies this, registers
      ensures Valid()
      ensures WriteResult(r, registers[..], regPointer)
              == WriteSpec(old(registers[..]), old(regPointer), data[..count], writeNRead)
    {
      if count > 1 + 2 * RegisterCount { return -1; }
      if count == 0 { return 0; }
      if data[0] & 0xF0 != 0 { return -1; }  // NAK: invalid pointer register value
      regPointer := data[0];
      r := WriteRegisterBytes(data, count, writeNRead);
    }

    /**
     * The data bytes after the pointer byte of an `i2c_write`, once the
     * pointer has been taken.
     */
    method WriteRegisterBytes(data: array<bv8>, count: nat, writeNRead: bool) returns (r: int)
      requires Valid()
      requires 0 < count <= data.Length && count <= 1 + 2 * RegisterCount
      requires data[0] & 0xF0 == 0 && regPointer == data[0]
      modifies registers
      ensures WriteResult(r, registers[..], regPointer)
              == WriteSpec(old(registers[..]), regPointer, data[..count], writeNRead)
    {
      ghost var regs0 := registers[..];
      ghost var body := data[1..count];
      assert data[..count][0] == data[0] && data[..count][1..] == body;
      var q := regPointer as nat;
      var d := 1;
      var left := count - 1;
      var regOffs: nat := 0;
      var byteOffs: nat := 0;
      while left > 0
        modifies registers
        invariant d + left == count
        invariant || (d == 1 && regOffs == 0 && byteOffs == 0)
                  || (d == 2 && regOffs == 0 && byteOffs == 1)
                  || (d == 3 && regOffs == 1 && byteOffs == 0)
        invariant registers[..] == WriteBytes(regs0, q, body, d - 1)
        invariant d > 1 ==> RegAccess(q, writeNRead)
      {
        var regAddr := q + regOffs;
        if !RegAccess(regAddr, writeNRead) { return -1; }  // NAK: register access denied
        if regOffs == 0 {
          // only one register can be written at a time
          WriteBytesStep(regs0, q, body, d - 1);
          assert data[d] == body[d - 1] && (byteOffs == 0 <==> d == 1);
          StoreByte(regAddr, byteOffs == 0, data[d]);
          assert registers[..] == WriteBytes(regs0, q, body, d);
        } else {
          return -1;  // NAK
        }
        byteOffs := byteOffs + 1;
        if byteOffs >= 2 {
          byteOffs := 0;
          regOffs := regOffs + 1;
        }
        d := d + 1;
        left := left - 1;
      }
      return count;
    }

    /** Replaces the high or the low byte of one register. */
    method StoreByte(q: nat, high: bool, b: bv8)
      requires Valid() && q < RegisterCount
      modifies registers
      ensures registers[..] == old(registers[..])[q := if high then SetHigh(old(registers[q]), b)
                                                         else SetLow(old(registers[q]), b)]
    {
      if high {
        registers[q] := SetHigh(registers[q], b);
      } else {
        registers[q] := SetLow(registers[q], b);
      }
    }

    /** `i2c_write` as the source has it: accesses are checked with the read rule. */
    method I2cWrite(data: array<bv8>, count: nat) returns (r: int)
      requires Valid()
      requires count <= data.Length
      modifies this, registers
      ensures Valid()
      ensures WriteResult(r, registers[..], regPointer)
              == WriteSpec(old(registers[..]), old(regPointer), data[..count], false)
    {
      r := I2cWriteWith(data, count, false);
    }

    /** `i2c_write` with the write rule of `m_checkRegAccess`: only registers 0x01-0x03 are writable. */
    method I2cWriteProtected(data: array<bv8>, count: nat) returns (r: int)
      requires Valid()
      requires count <= data.Length
      modifies this, registers
      ensures Valid()
      ensures WriteResult(r, registers[..], regPointer)
              == WriteSpec(old(registers[..]), old(regPointer), data[..count], true)
    {
      r := I2cWriteWith(data, count, true);
    }
  }

  // ---------------------------------------------------------------------
  // Temperature format
  // ---------------------------------------------------------------------

  /** Two's-complement reading of a 16-bit register value. */
  function Signed16(n: int): (x: int)
    requires 0 <= n < 65536
    ensures -32768 <= x < 32768
    ensures x % 65536 == n % 65536
  {
    if n < 0x8000 then n else n - 65536
  }

  /** The driver's decoding of the temperature register: `(int16)reg * 0.0625 / 16` degrees. */
  function Celsius(reg: bv16): real
  {
    Signed16(reg as int) as real * 0.0625 / 16.0
  }

  /**
   * `setTemp`'s register value: the temperature times 16 rounded half away
   * from zero (8.4 fixed point), converted to uint16 and shifted left by 4
   * within the 16-bit register. Inside the sensor's 12-bit range it reads
   * back, as a signed register, as 16 times the rounded value.
   */
  function TempRegisterValue(temp: real): (n: int)
    ensures 0 <= n < 65536
    ensures var q := Util.RoundHalfAway(temp * 16.0);
            -2048 <= q < 2048 ==> Signed16(n) == 16 * q
  {
    var rh := if temp < 0.0 then -0.5 else 0.5;  // rounding helper
    var fixed := Util.TruncToInt(temp * 16.0 + rh);
    assert fixed == Util.RoundHalfAway(temp * 16.0);
    var value := fixed % 65536;  // conversion to uint16
    FixedPointRegister(fixed);
    (value * 16) % 65536
  }

  /** The temperature register as stored. */
  function TempRegister(temp: real): bv16
  {
    TempRegisterValue(temp) as bv16
  }

  /** A 12-bit signed value shifted left by 4 in a 16-bit register reads back as 16 times itself. */
  lemma FixedPointRegister(q: int)
    ensures -2048 <= q < 2048 ==> Signed16(((q % 65536) * 16) % 65536) == 16 * q
  {
    if 0 <= q < 2048 {
      assert q % 65536 == q;
      assert (q * 16) % 65536 == 16 * q;
    } else if -2048 <= q < 0 {
      assert q % 65536 == q + 65536;
      assert (q + 65536) * 16 == 16 * q + 65536 + 15 * 65536;
      assert ((q + 65536) * 16) % 65536 == 16 * q + 65536;
    }
  }

  /**
   * The driver's decoding inverts `setTemp` inside the sensor's range: the
   * temperature read back is the written one rounded to 1/16 degree.
   */
  lemma TemperatureRoundTrip(temp: real)
    requires -2048 <= Util.RoundHalfAway(temp * 16.0) < 2048
    ensures Signed16(TempRegisterValue(temp)) as real * 0.0625 / 16.0
            == Util.RoundHalfAway(temp * 16.0) as real / 16.0
  {
  }

  /** The instance the emulated bus uses measures 22.35 degrees: 358/16 = 22.375 in the register. */
  lemma EmulatedInstanceTemperature()
    ensures TempRegisterValue(22.35) == 0x1660
    ensures TempRegister(22.35) == 0x1660
    ensures Celsius(TempRegister(22.35)) == 22.375
  {
    assert Util.RoundHalfAway(22.35 * 16.0) == 358;
  }

  // ---------------------------------------------------------------------
  // Driver side: device ID
  // ---------------------------------------------------------------------

  /** `temp::init` accepts a device whose ID register has high byte 0x75. */
  function IdAccepted(id: bv16): bool
  {
    id & 0xFF00 == 0x7500
  }

  /**
   * The device-ID step of `temp::init` against the emulated device: set the
   * pointer to 0x0F (a one-byte write), read two bytes, decode them
   * big-endian and test the high byte.
   */
  method ProbeDeviceId(dev: EmulatedTmp1075) returns (err: int)
    requires dev.Valid()
    modifies dev, dev.registers
    ensures dev.Valid() && dev.registers[..] == old(dev.registers[..]) && dev.regPointer == 0x0F
    ensures err == 0 <==> IdAccepted(old(dev.registers[0x0F]))
  {
    var cmd := new bv8[1](_ => 0x0F);
    var res := dev.I2cWrite(cmd, 1);
    assert cmd[..1] == [0x0F];
    if res != 1 { return -1; }
    var buffer := new bv8[2](_ => 0);
    var nBytes := dev.I2cRead(buffer, 2);
    if nBytes != 2 { return -2; }
    var id := BigEndian16(buffer[0], buffer[1]);
    BytesDetermineWord(id, dev.registers[0x0F]);
    if !IdAccepted(id) { return -3; }
    return 0;
  }

  /** A freshly reset emulator, as the project instantiates it, passes the device-ID check. */
  method EmulatorPassesIdCheck() returns (err: int)
    ensures err == 0
  {
    var dev := new EmulatedTmp1075.WithTemp(22.35);
    err := ProbeDeviceId(dev);
  }
}
