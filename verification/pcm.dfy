/** The 16-bit words of a DMA period and their byte order.

    The decoder runs on a host of either byte order and produces big-endian words.  The macros of
    the decoder are modelled with the host's order as a parameter, and the lemmas show that what
    ends up in memory does not depend on it.
 */
module Pcm {

  type byte = x: int | 0 <= x < 0x100

  type uint16 = x: int | 0 <= x < 0x1_0000

  type int16 = x: int | -0x8000 <= x < 0x8000

  type int32 = x: int | -0x8000_0000 <= x < 0x8000_0000

  datatype HostOrder = LittleEndian | BigEndian

  /** One 16-bit slot of a period: its two bytes in address order. */
  datatype Slot = Slot(b0: byte, b1: byte) {
    /** The word the audio device finds in the slot. */
    function Word(): uint16 { 0x100 * b0 + b1 }
  }

  const SILENCE := Slot(0, 0)

  /** The word a host loads from a slot. */
  function LoadHost(host: HostOrder, s: Slot): uint16 {
    match host
    case LittleEndian => s.b0 + 0x100 * s.b1
    case BigEndian => 0x100 * s.b0 + s.b1
  }

  /** The slot after a host has stored a word in it. */
  function StoreHost(host: HostOrder, u: uint16): Slot {
    match host
    case LittleEndian => Slot(u % 0x100, u / 0x100)
    case BigEndian => Slot(u / 0x100, u % 0x100)
  }

  function ByteSwap(u: uint16): uint16 {
    0x100 * (u % 0x100) + u / 0x100
  }

  /** CPU_TO_BE_16, which is also BE_TO_CPU_16. */
  function CpuToBe(host: HostOrder, u: uint16): uint16 {
    if host.LittleEndian? then ByteSwap(u) else u
  }

  /** What the overwriting branch leaves in a slot. */
  function WriteSlot(host: HostOrder, v: int16): Slot {
    StoreHost(host, CpuToBe(host, v % 0x1_0000))
  }

  /** A word plus a sample, modulo 2^16. */
  function Wrap(base: int, v: int): uint16 {
    (base + v) % 0x1_0000
  }

  /** BE_MIX_CPU_16: what mixing a sample leaves in a slot. */
  function MixSlot(host: HostOrder, s: Slot, v: int16): Slot {
    StoreHost(host, CpuToBe(host, Wrap(CpuToBe(host, LoadHost(host, s)), v)))
  }

  lemma WrapTwice(base: int, v: int, v': int)
    ensures Wrap(Wrap(base, v), v') == Wrap(base, v + v')
  {
  }

  /** On either host the word written is the sample in big-endian two's complement. */
  lemma WriteSlotIsBigEndian(host: HostOrder, v: int16)
    ensures WriteSlot(host, v).Word() == Wrap(0, v)
  {
    StoredBigEndian(host, v % 0x1_0000);
  }

  /** On either host mixing adds to the big-endian word modulo 2^16. */
  lemma MixSlotAddsBigEndian(host: HostOrder, s: Slot, v: int16)
    ensures MixSlot(host, s, v).Word() == Wrap(s.Word(), v)
  {
    LoadedBigEndian(host, s);
    StoredBigEndian(host, Wrap(s.Word(), v));
  }

  lemma LoadedBigEndian(host: HostOrder, s: Slot)
    ensures CpuToBe(host, LoadHost(host, s)) == s.Word()
  {
    SplitWord(s.b1, s.b0);
  }

  lemma SplitWord(high: byte, low: byte)
    ensures (low + 0x100 * high) / 0x100 == high && (low + 0x100 * high) % 0x100 == low
  {
  }

  lemma StoredBigEndian(host: HostOrder, u: uint16)
    ensures StoreHost(host, CpuToBe(host, u)).Word() == u
  {
    if host.LittleEndian? {
      var w := ByteSwap(u);
      assert w % 0x100 == u / 0x100 && w / 0x100 == u % 0x100;
    }
  }

  /** The signed reading of a 16-bit word. */
  function Signed(u: uint16): int16 {
    if u < 0x8000 then u else u - 0x1_0000
  }
}
