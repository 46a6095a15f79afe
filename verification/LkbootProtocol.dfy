/**
 The framing of lkboot (app/lkboot/lkboot_protocol.h): messages of a four-byte header and data, and
 what uploads and replies look like on the wire.
 */
module LkbootProtocol {
  import opened Common

  type Byte = b: nat | b < 256

  const MSG_OKAY: Byte := 0x00
  const MSG_FAIL: Byte := 0xFF
  const MSG_LOG: Byte := 0xFE
  const MSG_GO_AHEAD: Byte := 0x01
  const MSG_CMD: Byte := 0x40
  const MSG_SEND_DATA: Byte := 0x41
  const MSG_END_DATA: Byte := 0x42

  const HEADER := 4
  const CHUNK := 65536

  /** unsigned short. */
  type Length = n: nat | n < CHUNK

  /** msg_hdr_t as bytes, the length in little-endian order. */
  function Header(opcode: Byte, length: Length): (h: seq<Byte>)
    ensures |h| == HEADER && h[0] == opcode && LengthOf(h) == length
  {
    [opcode, 0, length % 256, length / 256]
  }

  /** The first byte is the opcode, the second zero, and the others are the length, the lower one first. */
  lemma HeaderBytes(opcode: Byte, length: Length)
    ensures var h := Header(opcode, length); var lo: int, hi: int := h[2], h[3];
      h[0] == opcode && h[1] == 0 && lo == length % 256 && lo + 256 * hi == length
  {
  }

  /** The conversion to an unsigned short. */
  function Short(n: int): (r: Length)
    ensures 0 <= n < CHUNK ==> r == n
  {
    n % CHUNK
  }

  function LengthOf(h: seq<Byte>): Length
    requires |h| >= HEADER
  {
    var lo: int, hi: int := h[2], h[3];
    lo + 256 * hi
  }

  /** The size of the next chunk. */
  function ChunkSize(n: nat): (x: nat)
    requires n > 0
    ensures 0 < x <= n && x <= CHUNK
  {
    if n > CHUNK then CHUNK else n
  }

  /** Data as a run of MSG_SEND_DATA messages; the length field holds one less than the length, so that
      a chunk of 65536 bytes fits. */
  function Frames(p: seq<Byte>): seq<Byte> {
    if p == [] then []
    else
      var x := ChunkSize(|p|);
      Header(MSG_SEND_DATA, x - 1) + p[..x] + Frames(p[x..])
  }

  /** What upload sends. */
  function Upload(p: seq<Byte>): seq<Byte> {
    Frames(p) + Header(MSG_END_DATA, 0)
  }

  lemma Associate<T>(a: seq<T>, b: seq<T>, c: seq<T>, d: seq<T>)
    ensures a + (b + c + d) == a + b + c + d && (a + b + c) + d == a + (b + (c + d))
  {
  }

  /** The first message of a run, after what was sent before ... */
  lemma FramesAfter(before: seq<Byte>, p: seq<Byte>)
    requires p != []
    ensures var x := ChunkSize(|p|);
      before + Frames(p) == before + Header(MSG_SEND_DATA, x - 1) + p[..x] + Frames(p[x..])
  {
    var x := ChunkSize(|p|);
    Associate(before, Header(MSG_SEND_DATA, x - 1), p[..x], Frames(p[x..]));
  }

  /** ... and in front of what comes behind. */
  lemma FramesBefore(p: seq<Byte>, tail: seq<Byte>)
    requires p != []
    ensures var x := ChunkSize(|p|);
      Frames(p) + tail == Header(MSG_SEND_DATA, x - 1) + (p[..x] + (Frames(p[x..]) + tail))
  {
    var x := ChunkSize(|p|);
    Associate(Header(MSG_SEND_DATA, x - 1), p[..x], Frames(p[x..]), tail);
  }

  lemma UploadFirst(p: seq<Byte>)
    requires p != []
    ensures var x := ChunkSize(|p|);
      Upload(p) == Header(MSG_SEND_DATA, x - 1) + (p[..x] + Upload(p[x..]))
  {
    FramesBefore(p, Header(MSG_END_DATA, 0));
  }

  lemma AppendTwice<T>(a: seq<T>, b: seq<T>, c: seq<T>)
    ensures a + b + c == a + (b + c)
  {
  }

  /** A prefix in two parts. */
  lemma PrefixParts<T>(q: seq<T>, n: nat, m: nat)
    requires n + m <= |q|
    ensures q[..n] + q[n..][..m] == q[..n + m] && q[n..][m..] == q[n + m..]
  {
  }

  /** What was got before, in front of what the rest yields, if it yields anything. */
  function Prefixed(got: seq<Byte>, rest: Option<seq<Byte>>): Option<seq<Byte>> {
    if rest.Some? then Some(got + rest.value) else None
  }

  lemma PrefixNothing(rest: Option<seq<Byte>>)
    ensures Prefixed([], rest) == rest
  {
    if rest.Some? {
      assert [] + rest.value == rest.value;
    }
  }

  lemma PrefixTwice(a: seq<Byte>, b: seq<Byte>, rest: Option<seq<Byte>>)
    ensures Prefixed(a, Prefixed(b, rest)) == Prefixed(a + b, rest)
  {
    if rest.Some? {
      assert a + (b + rest.value) == a + b + rest.value;
    }
  }

  function Sum(sizes: seq<nat>): nat {
    if sizes == [] then 0 else sizes[0] + Sum(sizes[1..])
  }
}
