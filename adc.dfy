/**
 * The MCP3004 analog-to-digital converter on the SPI bus: the three-byte
 * command that selects a single-ended channel, the decoding of the 10-bit
 * answer, the chip-select sequencing of a read, and the emulator that answers
 * in place of the chip when the project runs against the hardware emulator.
 *
 * The bus transfer itself belongs to the GPIO/SPI library; here it is a
 * function from the bytes sent to the status and bytes received, so the same
 * `Read` works against real hardware and against the emulator (`EmuReply`).
 */
module Adc {

  /** `adc::Result`: a raw conversion value and its normalised form. */
  datatype Result = Result(value: bv16) {

    /** `norm()`: the value over full scale; in [0, 1] for a 10-bit value. */
    function Norm(): (n: real)
      ensures value <= 1023 ==> 0.0 <= n <= 1.0
      ensures n >= 0.0
    {
      value as int as real / 1023.0
    }
  }

  /**
   * The quarter-scale bands of the normalised value fall between whole raw
   * values: 0.75 between 767 and 768, 0.5 between 511 and 512, 0.25 between
   * 255 and 256.
   */
  lemma NormBands(r: Result)
    ensures r.Norm() >= 0.75 <==> r.value >= 768
    ensures r.Norm() >= 0.5 <==> r.value >= 512
    ensures r.Norm() >= 0.25 <==> r.value >= 256
  {
    var v := r.value as int as real;
    assert r.Norm() * 1023.0 == v;
  }

  // ---------------------------------------------------------------------
  // Command and answer
  // ---------------------------------------------------------------------

  const StartByte: bv8 := 0x01

  /** The second command byte: single-ended mode (bit 7) and the channel in bits 4-5. */
  function CommandByte(channel: bv8): (cmd: bv8)
    ensures cmd & 0x80 != 0
    ensures (cmd >> 4) & 0x07 == channel & 0x03
    ensures cmd & 0x4F == 0
  {
    0x80 | ((channel & 0x03) << 4)
  }

  /**
   * The bytes `read` sends. The source leaves the third byte uninitialised
   * (it only clocks the answer out); the model sends 0 there.
   */
  function Command(channel: bv8): (tx: seq<bv8>)
    ensures |tx| == 3 && tx[0] == StartByte && tx[1] == CommandByte(channel)
  {
    [StartByte, CommandByte(channel), 0x00]
  }

  /** The 10-bit value from the answer: the low two bits of byte 1, then byte 2. */
  function DecodeValue(rx1: bv8, rx2: bv8): (v: bv16)
    ensures v <= 1023
    ensures v as int == (rx1 & 0x03) as int * 256 + rx2 as int
  {
    (((rx1 & 0x03) as bv16) << 8) | rx2 as bv16
  }

  /** What a bus transfer reports: its status (0 on success) and the received bytes 1 and 2. */
  datatype Reply = Reply(status: int, rx1: bv8, rx2: bv8)

  /** The result `read` returns for a reply: 0 on a failed transfer, else the decoded value. */
  function Interpret(reply: Reply): (r: Result)
    ensures r.value <= 1023
    ensures reply.status != 0 ==> r == Result(0)
    ensures reply.status == 0 ==> r == Result(DecodeValue(reply.rx1, reply.rx2))
  {
    if reply.status != 0 then Result(0) else Result(DecodeValue(reply.rx1, reply.rx2))
  }

  // ---------------------------------------------------------------------
  // The driver
  // ---------------------------------------------------------------------

  /** What the driver does, in order: a write to the nCS pin, or a bus transfer of these bytes. */
  datatype Event = ChipSelect(high: bool) | Transfer(tx: seq<bv8>)

  class Converter {
    var nCs: bool
    var trace: seq<Event>

    /** The state after `adc::init`: nCS driven high, nothing sent. */
    constructor ()
      ensures nCs && trace == []
    {
      nCs, trace := true, [];
    }

    /**
     * `adc::read`: selects the chip, transfers the command for `channel`,
     * deselects the chip, and decodes the answer (0 if the transfer failed).
     */
    method Read(channel: bv8, transfer: seq<bv8> -> Reply) returns (r: Result)
      modifies this
      ensures nCs
      ensures trace == old(trace) + [ChipSelect(false), Transfer(Command(channel)), ChipSelect(true)]
      ensures r == Interpret(transfer(Command(channel)))
      ensures r.value <= 1023
    {
      r := Result(0);
      var tx := new bv8[3](_ => 0x00);
      tx[0] := StartByte;
      tx[1] := 0x80 | ((channel & 0x03) << 4);
      nCs := false;
      trace := trace + [ChipSelect(false)];
      assert tx[..] == Command(channel);
      var reply := transfer(tx[..]);
      trace := trace + [Transfer(tx[..])];
      nCs := true;
      trace := trace + [ChipSelect(true)];
      if reply.status == 0 {
        var value := ((reply.rx1 & 0x03) as bv16) << 8;
        value := value | reply.rx2 as bv16;
        r := Result(value);
      }
    }

    /** `readPoti`: the potentiometer sits on channel 0. */
    method ReadPoti(transfer: seq<bv8> -> Reply) returns (r: Result)
      modifies this
      ensures nCs
      ensures trace == old(trace) + [ChipSelect(false), Transfer(Command(0)), ChipSelect(true)]
      ensures r == Interpret(transfer(Command(0)))
    {
      r := Read(0, transfer);
    }
  }

  // ---------------------------------------------------------------------
  // MCP3004 emulator
  // ---------------------------------------------------------------------

  /** The emulated conversion: 600 on single-ended channel 0; channels 1-3 and differential mode read 0. */
  function EmuSample(cmd: bv8): (v: bv16)
    ensures v <= 1023
  {
    var single := cmd & 0x80 != 0;
    var ch := ((cmd >> 4) & 0x07) & 0x03;
    if single then (if ch == 0 then 600 else 0) else 0
  }

  /** The answer bytes for a 10-bit value: big-endian, with the null bit (0x04 of byte 1) cleared. */
  function EmuAnswer(v: bv16): (bv8, bv8)
  {
    (((v >> 8) as bv8) & 0xFB, (v & 0xFF) as bv8)
  }

  /** The emulator seen as a bus peer: -1 unless three bytes starting with the start byte were sent. */
  function EmuReply(tx: seq<bv8>): (reply: Reply)
    ensures reply.status == 0 <==> |tx| == 3 && tx[0] == StartByte
    ensures reply.status != 0 ==> reply.status == -1
  {
    if |tx| == 3 && tx[0] == StartByte then
      var (a, b) := EmuAnswer(EmuSample(tx[1]));
      Reply(0, a, b)
    else
      Reply(-1, 0, 0)
  }

  /** Decoding undoes the emulator's encoding for every 10-bit value. */
  lemma EmuAnswerRoundTrip(v: bv16)
    requires v <= 1023
    ensures DecodeValue(EmuAnswer(v).0, EmuAnswer(v).1) == v
  {
  }

  /**
   * `adc_spi_emu_transfer_callback`: on three bytes starting with 0x01 it
   * writes the answer into bytes 1 and 2 of `rx` and returns 0; otherwise it
   * writes nothing and returns -1.
   */
  method EmuTransfer(tx: array<bv8>, rx: array<bv8>, count: nat) returns (r: int)
    requires count <= tx.Length && count <= rx.Length
    modifies rx
    ensures r == EmuReply(old(tx[..count])).status
    ensures r == 0 ==> rx[..] == old(rx[..])[1 := EmuReply(old(tx[..count])).rx1][2 := EmuReply(old(tx[..count])).rx2]
    ensures r != 0 ==> rx[..] == old(rx[..])
  {
    r := -1;
    if count == 3 {
      if tx[0] == 0x01 {
        var single := (tx[1] & 0x80) != 0;
        var ch := ((tx[1] >> 4) & 0x07) & 0x03;
        var result: bv16;
        if single {
          if ch == 0 { result := 600; } else { result := 0; }
        } else {
          result := 0;
        }
        rx[1] := (result >> 8) as bv8;
        rx[2] := (result & 0xFF) as bv8;
        rx[1] := rx[1] & 0xFB;
        r := 0;
      }
    }
  }

  /** A read against the emulator yields 600 on channel 0 and 0 on channels 1-3 (the channel is taken mod 4). */
  lemma ReadAgainstEmulator(channel: bv8)
    ensures Interpret(EmuReply(Command(channel))) == Result(if channel & 0x03 == 0 then 600 else 0)
  {
    var cmd := CommandByte(channel);
    assert (cmd >> 4) & 0x07 & 0x03 == channel & 0x03;
    EmuAnswerRoundTrip(EmuSample(cmd));
  }

  /** `readPoti` against the emulator reads 600, about 0.587 of full scale. */
  lemma PotiAgainstEmulator()
    ensures Interpret(EmuReply(Command(0))) == Result(600)
    ensures 0.5 <= Result(600).Norm() < 0.75
  {
    ReadAgainstEmulator(0);
    NormBands(Result(600));
  }
}
