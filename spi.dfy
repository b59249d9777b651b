/** The SPI transport, as the device drivers see it.

    Reads come from an oracle: `respond(t, device, register, k)` is byte `k`
    of the `t`-th read burst, addressed to `device` starting at `register`.
    Every transfer, read or write, is appended to a ghost log, so that the
    drivers' contracts can say exactly what went on the bus and in what order.
 */
module Spi {

  /** An 8-bit register address, register value or pin number (`uint8_t`).
      Bit-level work converts to `bv8` where the drivers shift and mask. */
  type Byte = b: int | 0 <= b < 0x100

  /** A 32-bit unsigned value (`uint32_t`): a clock reading, a frequency or a
      configuration word. */
  type Word = w: int | 0 <= w < 0x1_0000_0000

  /** One bus transaction. `dummy` marks a read that discards the leading
      pipeline byte some devices send before valid data. */
  datatype Transfer =
    | Read(device: Byte, register: Byte, count: nat, dummy: bool)
    | Write(device: Byte, register: Byte, data: Byte)

  /** Appending two batches of transfers is appending their concatenation. */
  lemma AppendTwice(log: seq<Transfer>, first: seq<Transfer>, second: seq<Transfer>)
    ensures log + first + second == log + (first + second)
  {
  }

  class Bus {
    /** What the devices answer; a parameter of the model, not something it computes. */
    const respond: (nat, Byte, Byte, nat) -> Byte
    /** How many read bursts have completed. */
    var bursts: nat
    ghost var log: seq<Transfer>

    constructor (respond: (nat, Byte, Byte, nat) -> Byte)
      ensures this.respond == respond
      ensures bursts == 0 && log == []
    {
      this.respond := respond;
      bursts := 0;
      log := [];
    }

    /** The bytes of read burst `t`. */
    function Burst(t: nat, device: Byte, register: Byte, count: nat): (s: seq<Byte>)
      ensures |s| == count
    {
      if count == 0 then [] else Burst(t, device, register, count - 1) + [respond(t, device, register, count - 1)]
    }

    /** Byte `k` of a burst is the device's `k`-th answer. */
    lemma {:induction false} BurstByte(t: nat, device: Byte, register: Byte, count: nat, k: nat)
      requires k < count
      ensures Burst(t, device, register, count)[k] == respond(t, device, register, k)
    {
      if k < count - 1 {
        BurstByte(t, device, register, count - 1, k);
      }
    }

    /** `readSPI`: read `count` bytes into the front of `dest`. */
    method ReadSpi(device: Byte, register: Byte, count: nat, dest: array<Byte>)
      requires count <= dest.Length
      modifies this, dest
      ensures dest[..count] == Burst(old(bursts), device, register, count)
      ensures dest[count..] == old(dest[count..])
      ensures bursts == old(bursts) + 1
      ensures log == old(log) + [Read(device, register, count, false)]
    {
      Receive(device, register, count, dest, false);
    }

    /** `readSPIwithDummy`: as `ReadSpi`, for a device that sends a dummy byte first. */
    method ReadSpiWithDummy(device: Byte, register: Byte, count: nat, dest: array<Byte>)
      requires count <= dest.Length
      modifies this, dest
      ensures dest[..count] == Burst(old(bursts), device, register, count)
      ensures dest[count..] == old(dest[count..])
      ensures bursts == old(bursts) + 1
      ensures log == old(log) + [Read(device, register, count, true)]
    {
      Receive(device, register, count, dest, true);
    }

    /** `writeSPI`: write one byte to one register. */
    method WriteSpi(device: Byte, register: Byte, data: Byte)
      modifies this`log
      ensures log == old(log) + [Write(device, register, data)]
    {
      log := log + [Write(device, register, data)];
    }

    method Receive(device: Byte, register: Byte, count: nat, dest: array<Byte>, dummy: bool)
      requires count <= dest.Length
      modifies this, dest
      ensures dest[..count] == Burst(old(bursts), device, register, count)
      ensures dest[count..] == old(dest[count..])
      ensures bursts == old(bursts) + 1
      ensures log == old(log) + [Read(device, register, count, dummy)]
    {
      var t := bursts;
      forall k | 0 <= k < count {
        dest[k] := respond(t, device, register, k);
      }
      forall k | 0 <= k < count ensures dest[k] == Burst(t, device, register, count)[k] {
        BurstByte(t, device, register, count, k);
      }
      assert dest[..count] == Burst(t, device, register, count);
      bursts := t + 1;
      log := log + [Read(device, register, count, dummy)];
    }
  }
}
