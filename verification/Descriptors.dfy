/** Descriptors of both rings, with the buffer each one points to, and the constants of
    PCNet_HW.h. Status bits are booleans; bits no code path reads are absent.
 */
module Descriptors {

  type byte = bv8

  const BUFFER_SIZE := 1544     // LNC_RECVBUFSIZE, LNC_TRANSBUFSIZE
  const CRC_LENGTH := 4         // ETHER_CRC_LEN
  const MIN_FRAME := 64         // ETHER_MIN_LEN
  const ADDRESS_LENGTH := 6     // ETHER_ADDR_LEN
  const COUNT_MASK := 0xFFF     // MDHEAD_LEN_MASK

  /** A receive descriptor (RMD) and its buffer. `length` is the negated buffer size,
      `count` the message length the controller reports. */
  datatype RxDesc = RxDesc(own: bool, err: bool, fram: bool, oflo: bool, crc: bool, buff: bool,
                           stp: bool, enp: bool, length: int, count: nat, data: seq<byte>)
  {
    /** ENP or ERR: the descriptor ends a packet. */
    predicate Ends() { enp || err }

    /** The status word is exactly RMD_OWN. */
    predicate Blank() {
      own && !err && !fram && !oflo && !crc && !buff && !stp && !enp
    }

    /** Writing RMD_OWN into the status word. */
    function Returned(): (d: RxDesc)
      ensures d.Blank()
    {
      RxDesc(true, false, false, false, false, false, false, false, length, count, data)
    }
  }

  /** A byte on the wire: one the driver has chosen, or one of whatever follows a buffer in
      memory, where a descriptor's length goes beyond the end of its buffer. */
  datatype Octet = Octet(b: byte) | Stray

  type Wire = seq<Octet>

  /** The bytes of `m` and no other. */
  function Plain(m: seq<byte>): (w: Wire)
    ensures |w| == |m|
  {
    seq(|m|, i requires 0 <= i < |m| => Octet(m[i]))
  }

  function Strays(n: nat): (w: Wire)
    ensures |w| == n
  {
    seq(n, _ => Stray)
  }

  /** By how much a packet of `n` bytes is too short. */
  function Shortfall(n: nat): nat { if n < MIN_FRAME then MIN_FRAME - n else 0 }

  /** The bytes of `m`, padded to the least length of a packet. */
  function Padded(m: seq<byte>): Wire { Plain(m) + Strays(Shortfall(|m|)) }

  /** What the controller sends of a buffer: as many bytes as the negated count says. */
  function Selected(length: int, data: seq<byte>): Wire {
    seq(if length < 0 then -length else 0, i requires 0 <= i => if i < |data| then Octet(data[i]) else Stray)
  }

  lemma SelectedIs(length: int, data: seq<byte>, pad: nat)
    requires length == -|data| - pad
    ensures Selected(length, data) == Plain(data) + Strays(pad)
  {
  }

  lemma PlainAppend(a: seq<byte>, b: seq<byte>)
    ensures Plain(a + b) == Plain(a) + Plain(b)
  {
  }

  /** The extended status of a transmit descriptor. */
  datatype Ext = Ext(tbuff: bool, uflo: bool, lcol: bool, lcar: bool, rtry: bool)

  const NO_EXT := Ext(false, false, false, false, false)

  /** A transmit descriptor (TMD) and the bytes it points to. `length` is the negated byte
      count. */
  datatype TxDesc = TxDesc(own: bool, err: bool, more: bool, one: bool, stp: bool, enp: bool,
                           ext: Ext, length: int, data: seq<byte>)
  {
    function Sends(): Wire { Selected(length, data) }

    /** Writing zero into the status word. */
    function Cleared(): TxDesc {
      TxDesc(false, false, false, false, false, false, ext, length, data)
    }

    /** As initialisation leaves it. */
    predicate Unused() {
      !own && !err && !more && !one && !stp && !enp && ext == NO_EXT && length == 0
    }

    /** The controller ran out of data in the middle of this packet. */
    predicate Underrun() { err && ext.uflo }

    /** Same packet boundaries and bytes; only what the controller reports may differ. */
    predicate Carries(d: TxDesc) {
      stp == d.stp && enp == d.enp && length == d.length && data == d.data
    }
  }

  /** What the network delivered: a frame including its check sequence, or a frame the
      controller flagged as damaged. */
  datatype Arrival = Good(frame: Frame) | Bad

  /** Frames the controller hands over without error: long enough to hold both addresses and
      the check sequence, short enough for the 12-bit message length. */
  type Frame = f: seq<byte> | 2 * ADDRESS_LENGTH + CRC_LENGTH <= |f| <= COUNT_MASK
    witness seq(16, _ => 0)
}
