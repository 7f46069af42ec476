/**
  The CP2102N GPIO latch as the Developerbox driver addresses it: the
  fixed pin positions of the four SPI signals, the two vendor control
  requests that read and write the latch, the packing of a value nibble
  and a mask nibble into one 16-bit word, and the (value, mask) pairs the
  five bit-bang primitives hand to the latch writer.

  C's `int` is modelled as `bv32` (two's complement), `uint8_t` as `bv8`
  and `uint16_t` as `bv16`; a conversion to `uint8_t` keeps the low byte.
*/
module Latch {

  import opened Optional

  // Bit positions of the SPI signals in the latch.
  const SckBit: nat := 0
  const CsBit: nat := 1
  const MisoBit: nat := 2
  const MosiBit: nat := 3

  // bmRequestType values.
  const ReqTypeHostToDevice: bv8 := 0x40
  const ReqTypeDeviceToHost: bv8 := 0xC0

  // bRequest value, and the wValue selectors used with it.
  const Cp210xVendorSpecific: bv8 := 0xFF
  const Cp210xWriteLatch: bv16 := 0x37E1
  const Cp210xReadLatch: bv16 := 0x00C2

  /** The setup fields of a USB control request (section 9.3 of the USB 2.0 specification). */
  datatype ControlRequest = ControlRequest(
    bmRequestType: bv8,
    bRequest: bv8,
    wValue: bv16,
    wIndex: bv16,
    wLength: bv16)

  /** The two `uint8_t` arguments of `cp210x_gpio_set`: pin levels and write mask. */
  datatype LatchWrite = LatchWrite(val: bv8, mask: bv8)

  /** What `libusb_control_transfer` leaves for a latch read: its return code
      and the byte in the local `gpio` (which it fills only when it transfers one). */
  datatype ReadOutcome = ReadOutcome(res: int, gpio: bv8)

  /** C's conversion of an `int` to `uint8_t`. */
  function LowByte(x: bv32): bv8
  {
    (x & 0xFF) as bv8
  }

  function Nibble(b: bv8): bv8
  {
    b & 0xF
  }

  predicate BitSet(b: bv8, pos: nat)
    requires pos < 8
  {
    b & (1 << pos) != 0
  }

  /** The pin levels a packed latch word carries (its bits 8-11). */
  function ValueNibble(word: bv16): bv8
  {
    ((word >> 8) & 0xF) as bv8
  }

  /** The write mask a packed latch word carries (its bits 0-3). */
  function MaskNibble(word: bv16): bv8
  {
    (word & 0xF) as bv8
  }

  /** The word `cp210x_gpio_set` builds: the value nibble in the high byte,
      the mask nibble in the low byte. Only the low nibbles of its arguments
      survive, and both are recovered exactly from the word. */
  function PackLatchWord(val: bv8, mask: bv8): (word: bv16)
    ensures word & 0xF0F0 == 0
    ensures ValueNibble(word) == Nibble(val)
    ensures MaskNibble(word) == Nibble(mask)
  {
    ((val & 0xF) as bv16 << 8) | (mask & 0xF) as bv16
  }

  /** Every word with bits 4-7 and 12-15 clear is the packing of its own nibbles. */
  lemma PackLatchWordOnto(word: bv16)
    requires word & 0xF0F0 == 0
    ensures PackLatchWord(ValueNibble(word), MaskNibble(word)) == word
  {
  }

  /** The latch write request: vendor request 0xFF to the device, selector
      0x37E1 in wValue, the packed word in wIndex, no data stage. */
  function WriteLatchRequest(w: LatchWrite): (r: ControlRequest)
    ensures r.bmRequestType & 0x80 == 0 && r.bmRequestType & 0x60 == 0x40 && r.bmRequestType & 0x1F == 0
    ensures r.bRequest == Cp210xVendorSpecific
    ensures r.wValue == Cp210xWriteLatch && r.wLength == 0
    ensures r.wIndex & 0xF0F0 == 0
    ensures ValueNibble(r.wIndex) == Nibble(w.val) && MaskNibble(r.wIndex) == Nibble(w.mask)
  {
    ControlRequest(ReqTypeHostToDevice, Cp210xVendorSpecific, Cp210xWriteLatch,
                   PackLatchWord(w.val, w.mask), 0)
  }

  /** The latch read request: vendor request 0xFF from the device, selector
      0x00C2 in wValue, index 0, a one-byte data stage. It is never taken
      for a latch write. */
  function ReadLatchRequest(): (r: ControlRequest)
    ensures r.bmRequestType & 0x80 == 0x80 && r.bmRequestType & 0x60 == 0x40 && r.bmRequestType & 0x1F == 0
    ensures r.bRequest == Cp210xVendorSpecific
    ensures r.wValue == Cp210xReadLatch && r.wIndex == 0 && r.wLength == 1
    ensures DecodeWriteLatch(r).None?
  {
    ControlRequest(ReqTypeDeviceToHost, Cp210xVendorSpecific, Cp210xReadLatch, 0, 1)
  }

  /** Recognises a latch write request on the wire and recovers the nibbles it carries. */
  function DecodeWriteLatch(r: ControlRequest): (w: Option<LatchWrite>)
    ensures w.Some? <==> exists v: bv8, m: bv8 :: WriteLatchRequest(LatchWrite(v, m)) == r
    ensures w.Some? ==> WriteLatchRequest(w.value) == r
    ensures w.Some? ==> Nibble(w.value.val) == w.value.val && Nibble(w.value.mask) == w.value.mask
  {
    if r.bmRequestType == ReqTypeHostToDevice && r.bRequest == Cp210xVendorSpecific
       && r.wValue == Cp210xWriteLatch && r.wLength == 0 && r.wIndex & 0xF0F0 == 0
    then
      PackLatchWordOnto(r.wIndex);
      Some(LatchWrite(ValueNibble(r.wIndex), MaskNibble(r.wIndex)))
    else
      None
  }

  /** Decoding a write request gives back exactly the nibbles that were packed. */
  lemma WriteLatchRoundTrip(w: LatchWrite)
    ensures DecodeWriteLatch(WriteLatchRequest(w)) == Some(LatchWrite(Nibble(w.val), Nibble(w.mask)))
  {
  }

  /** The latch value `cp210x_gpio_get` returns: the byte read, or 0 when the
      transfer reports an error. */
  function LatchReadValue(o: ReadOutcome): (v: bv8)
    ensures o.res < 0 ==> v == 0
    ensures o.res >= 0 ==> v == o.gpio
  {
    if o.res < 0 then 0 else o.gpio
  }

  /** The (value, mask) pair of a single-pin setter: `level << pin` and
      `1 << pin`, each converted to `uint8_t`. The mask names exactly the
      pin; the pin's value bit is the lowest bit of the level; each higher
      bit of the level lands on the value bit that many places above the
      pin, so a level of 0 or 1 sets no value bit outside the mask. */
  function PinWrite(level: bv32, pin: nat): (w: LatchWrite)
    requires pin < 4
    ensures forall p: nat :: p < 4 ==> (BitSet(Nibble(w.mask), p) <==> p == pin)
    ensures BitSet(Nibble(w.val), pin) <==> level & 1 == 1
    ensures forall p: nat :: p < 4 ==>
      (BitSet(Nibble(w.val), p) <==> pin <= p && (level >> (p - pin)) & 1 == 1)
    ensures level <= 1 ==> Nibble(w.val) & !Nibble(w.mask) == 0
  {
    LatchWrite(LowByte(level << pin), LowByte(1 << pin))
  }

  /** `cp210x_bitbang_set_cs`. */
  function SetCsWrite(level: bv32): (w: LatchWrite)
    ensures Nibble(w.mask) == 0x2
    ensures BitSet(Nibble(w.val), CsBit) <==> level & 1 == 1
  {
    PinWrite(level, CsBit)
  }

  /** `cp210x_bitbang_set_sck`. */
  function SetSckWrite(level: bv32): (w: LatchWrite)
    ensures Nibble(w.mask) == 0x1
    ensures BitSet(Nibble(w.val), SckBit) <==> level & 1 == 1
  {
    PinWrite(level, SckBit)
  }

  /** `cp210x_bitbang_set_mosi`. */
  function SetMosiWrite(level: bv32): (w: LatchWrite)
    ensures Nibble(w.mask) == 0x8
    ensures BitSet(Nibble(w.val), MosiBit) <==> level & 1 == 1
  {
    PinWrite(level, MosiBit)
  }

  /** `cp210x_bitbang_set_sck_set_mosi`: one write whose mask names SCK and
      MOSI only. Value bits 0-2 are bits 0-2 of `sck` (so bits 1 and 2 of a
      larger `sck` land on the CS and MISO value bits); the MOSI value bit
      is the lowest bit of `mosi` unless bit 3 of `sck` spills into it. */
  function SetSckSetMosiWrite(sck: bv32, mosi: bv32): (w: LatchWrite)
    ensures Nibble(w.mask) == 0x9
    ensures BitSet(Nibble(w.val), SckBit) <==> sck & 1 == 1
    ensures forall p: nat :: p < 3 ==> (BitSet(Nibble(w.val), p) <==> (sck >> p) & 1 == 1)
    ensures BitSet(Nibble(w.val), MosiBit) <==> (mosi & 1 == 1 || sck & 8 != 0)
    ensures sck <= 1 && mosi <= 1 ==> Nibble(w.val) & !Nibble(w.mask) == 0
  {
    LatchWrite(LowByte((sck << SckBit) | (mosi << MosiBit)), LowByte((1 << SckBit) | (1 << MosiBit)))
  }

  /** `cp210x_bitbang_get_miso`: 1 when bit 2 of the latch value is set, else 0. */
  function GetMiso(o: ReadOutcome): (level: int)
    ensures level == 0 || level == 1
    ensures o.res < 0 ==> level == 0
    ensures o.res >= 0 ==> (level == 1 <==> BitSet(o.gpio, MisoBit))
  {
    if LatchReadValue(o) & (1 << MisoBit) != 0 then 1 else 0
  }

  /** ASSUMPTION, not stated by the driver: the bridge applies a latch write
      by taking the value bit wherever the mask bit is set and keeping the
      old latch bit elsewhere. */
  function ApplyLatchWrite(latch: bv8, word: bv16): bv8
  {
    (latch & !MaskNibble(word)) | (ValueNibble(word) & MaskNibble(word))
  }

  /** The latch after `w` is sent, under the assumption above. */
  function AfterWrite(latch: bv8, w: LatchWrite): bv8
  {
    ApplyLatchWrite(latch, PackLatchWord(w.val, w.mask))
  }

  /** The latch with bit `pin` forced to `on`. */
  function WithBit(latch: bv8, pin: nat, on: bool): bv8
    requires pin < 8
  {
    if on then latch | (1 << pin) else latch & !(1 << pin)
  }

  /** Under the latch assumption, a single-pin setter changes its own pin to
      the lowest bit of the level and no other pin, whatever the level. */
  lemma PinWriteChangesOnlyItsPin(latch: bv8, level: bv32, pin: nat)
    requires pin < 4
    ensures AfterWrite(latch, PinWrite(level, pin)) == WithBit(latch, pin, level & 1 == 1)
  {
  }

  /** Under the latch assumption, no primitive ever drives the MISO pin. */
  lemma WritesNeverDriveMiso(latch: bv8, level: bv32, sck: bv32, mosi: bv32)
    ensures BitSet(AfterWrite(latch, SetCsWrite(level)), MisoBit) == BitSet(latch, MisoBit)
    ensures BitSet(AfterWrite(latch, SetSckWrite(level)), MisoBit) == BitSet(latch, MisoBit)
    ensures BitSet(AfterWrite(latch, SetMosiWrite(level)), MisoBit) == BitSet(latch, MisoBit)
    ensures BitSet(AfterWrite(latch, SetSckSetMosiWrite(sck, mosi)), MisoBit) == BitSet(latch, MisoBit)
  {
  }

  /** Under the latch assumption, the combined write leaves the latch as
      the clock write followed by the data write would, exactly when bit 3
      of `sck` does not spill onto a MOSI level of 0. */
  lemma CombinedWriteMatchesTwoWrites(latch: bv8, sck: bv32, mosi: bv32)
    ensures AfterWrite(latch, SetSckSetMosiWrite(sck, mosi))
            == AfterWrite(AfterWrite(latch, SetSckWrite(sck)), SetMosiWrite(mosi))
            <==> !(sck & 8 != 0 && mosi & 1 == 0)
  {
  }

  /** The words on the wire for the common SPI edges: SCK high is value 0x1
      under mask 0x1 (wIndex 0x0101); SCK high with MOSI low in one write is
      value 0x1 under mask 0x9 (wIndex 0x0109); chip-select low is value 0x0
      under mask 0x2 (wIndex 0x0002); MOSI high is value 0x8 under mask 0x8
      (wIndex 0x0808). */
  lemma SpiEdgeWords()
    ensures WriteLatchRequest(SetSckWrite(1)).wIndex == 0x0101
    ensures WriteLatchRequest(SetSckSetMosiWrite(1, 0)).wIndex == 0x0109
    ensures WriteLatchRequest(SetCsWrite(0)).wIndex == 0x0002
    ensures WriteLatchRequest(SetMosiWrite(1)).wIndex == 0x0808
  {
  }
}
