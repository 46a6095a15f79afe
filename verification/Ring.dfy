/**
 The ring of packets of kernel/port.c: a bounded queue in a fixed array.
 */
module Ring {
  import opened Common

  type Packet = seq<char>

  const PORT_BUFF_SIZE := 8
  const PORT_BUFF_SIZE_BIG := 64

  /** What a ring is: at most `capacity` packets, first in, first out. */
  datatype Buffer = Buffer(capacity: nat, packets: seq<Packet>) {
    predicate Valid() {
      |packets| <= capacity
    }

    predicate Fits(pk: seq<Packet>) {
      |packets| + |pk| <= capacity
    }

    /** All of the packets or none. */
    function Put(pk: seq<Packet>): (r: Buffer)
      ensures Valid() ==> r.Valid()
    {
      if Fits(pk) then Buffer(capacity, packets + pk) else this
    }

    function Drop(): (r: Buffer)
      requires packets != []
      ensures Valid() ==> r.Valid()
    {
      Buffer(capacity, packets[1..])
    }
  }

  /** A position of the ring, counted on from another one less than a turn away. */
  function Wrap(i: nat, n: nat): (r: nat)
    requires i < 2 * n
    ensures r < n
  {
    if i < n then i else i - n
  }

  /** modpow2, on an index that was just incremented. */
  function Modulo(i: nat, n: nat): (r: nat)
    requires i <= n && 0 < n
    ensures r == Wrap(i, n)
  {
    i % n
  }

  /** The `used` packets of a ring from `head` on. */
  function Window(a: seq<Packet>, head: nat, used: nat): (w: seq<Packet>)
    requires head < |a| && used <= |a|
    ensures |w| == used && forall i: nat :: i < used ==> w[i] == a[Wrap(head + i, |a|)]
  {
    seq(used, i requires 0 <= i < used => a[Wrap(head + i, |a|)])
  }

  /** Storing a packet behind the window makes it the last of a longer one. */
  lemma WindowGrows(a: seq<Packet>, head: nat, used: nat, x: Packet)
    requires head < |a| && used < |a|
    ensures Window(a[Wrap(head + used, |a|) := x], head, used + 1) == Window(a, head, used) + [x]
  {
  }

  /** Moving the head on leaves the first packet out. */
  lemma WindowShrinks(a: seq<Packet>, head: nat, used: nat)
    requires head < |a| && 0 < used <= |a|
    ensures Window(a, Wrap(head + 1, |a|), used - 1) == Window(a, head, used)[1..]
  {
    var w, v := Window(a, head, used), Window(a, Wrap(head + 1, |a|), used - 1);
    forall i: nat | i < used - 1
      ensures v[i] == w[i + 1]
    {
    }
  }

  /** port_buf_t. */
  class Ring {
    var avail: nat
    var head: nat
    var tail: nat
    const packet: array<Packet>

    ghost predicate Valid()
      reads this
    {
      && 0 < packet.Length && avail <= packet.Length
      && head < packet.Length
      && tail == Wrap(head + (packet.Length - avail), packet.Length)
    }

    ghost function Now(): (b: Buffer)
      requires Valid()
      reads this, packet
    {
      Buffer(packet.Length, Window(packet[..], head, packet.Length - avail))
    }

    /** make_buf. */
    constructor (big: bool)
      ensures Valid() && Now() == Buffer(if big then PORT_BUFF_SIZE_BIG else PORT_BUFF_SIZE, [])
      ensures fresh(packet)
    {
      var count := if big then PORT_BUFF_SIZE_BIG else PORT_BUFF_SIZE;
      packet := new Packet[count](_ => []);
      head, tail, avail := 0, 0, count;
    }

    method IsEmpty() returns (r: bool)
      requires Valid()
      ensures r <==> Now().packets == []
    {
      r := avail == packet.Length;
    }

    /** buf_write. */
    method Write(packets: seq<Packet>) returns (ok: bool)
      requires Valid()
      modifies this, packet
      ensures Valid() && Now() == old(Now()).Put(packets)
      ensures ok <==> old(Now()).Fits(packets)
    {
      if avail < |packets| {
        return false;
      }
      ghost var used, before := packet.Length - avail, Now().packets;
      var ix := 0;
      while ix != |packets|
        invariant 0 <= ix <= |packets| && avail == old(avail) && head == old(head)
        invariant tail == Wrap(head + used + ix, packet.Length)
        invariant Window(packet[..], head, used + ix) == before + packets[..ix]
      {
        WindowGrows(packet[..], head, used + ix, packets[ix]);
        packet[tail] := packets[ix];
        tail := Modulo(tail + 1, packet.Length);
        assert before + packets[..ix + 1] == before + packets[..ix] + [packets[ix]];
        ix := ix + 1;
      }
      avail := avail - |packets|;
      assert packets[..ix] == packets;
      return true;
    }

    /** buf_read: nothing if the ring is empty. */
    method Read() returns (r: Option<Packet>)
      requires Valid()
      modifies this
      ensures Valid()
      ensures r == if old(Now().packets) == [] then None else Some(old(Now().packets)[0])
      ensures Now() == if old(Now().packets) == [] then old(Now()) else old(Now()).Drop()
    {
      var empty := IsEmpty();
      if empty {
        return None;
      }
      r := Some(packet[head]);
      WindowShrinks(packet[..], head, packet.Length - avail);
      head := Modulo(head + 1, packet.Length);
      avail := avail + 1;
    }
  }
}
