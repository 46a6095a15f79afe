/**
 kernel/port.c: the calls, changing ports and rings in place. Blocking and waking are those of
 Waiting.dfy and are not repeated here.
 */
module Port {
  import opened Common
  import opened PortState
  import opened Ring

  const PORT_MODE_BROADCAST: bv8 := 0
  const PORT_MODE_UNICAST: bv8 := 1
  const PORT_MODE_BIG_BUFFER: bv8 := 2

  class Ports {
    var ports: map<PortId, PortState.Port>
    var bufs: map<BufId, Memory>

    ghost function Now(): State
      reads this
    {
      State(ports, bufs)
    }

    /** port_init. */
    constructor ()
      ensures Now().Valid() && ports == map[] && bufs == map[]
    {
      ports, bufs := map[], map[];
    }

    /** port_create; p and buf are what malloc yields. The first check is dead code, because
        PORT_MODE_BROADCAST is zero: a broadcast port with a big ring is created like any other. */
    method Create(p: PortId, buf: BufId, mode: bv8) returns (rc: Status)
      requires Now().Valid() && p !in ports && buf !in bufs
      modifies this
      ensures rc == NoError
      ensures Now() == After(old(Now()), Op.Create(p, buf, mode & PORT_MODE_UNICAST != 0, mode & PORT_MODE_BIG_BUFFER != 0))
    {
      if mode & PORT_MODE_BROADCAST != 0 {
        if mode & PORT_MODE_BIG_BUFFER != 0 {
          return ErrInvalidArgs;
        }
      }
      var big := mode & PORT_MODE_BIG_BUFFER != 0;
      ports := ports[p := WritePort(true, mode & PORT_MODE_UNICAST != 0, Some(buf), [], [], [])];
      bufs := bufs[buf := Memory(Buffer(if big then PORT_BUFF_SIZE_BIG else PORT_BUFF_SIZE, []), Some(p))];
      return NoError;
    }

    /** port_open of port w; r and buf are what malloc yields. */
    method Open(w: PortId, r: PortId, buf: BufId) returns (rc: Status)
      requires Now().Valid() && Enabled(Now(), Op.Open(w, r, buf))
      modifies this
      ensures Now() == After(old(Now()), Op.Open(w, r, buf))
      ensures rc == ErrNotAllowed <==> old(ports)[w].unicast && old(ports)[w].readers != []
      ensures rc == NoError <==> r in ports
    {
      Now().OpenKeeps(w, r, buf);
      assert Now().PortOk(w);
      if ports[w].buf.Some? {
        var b := ports[w].buf.value;
        ports := ports[w := ports[w].(readers := ports[w].readers + [r])];
        ports := ports[w := ports[w].(buf := None)][r := ReadPort(b, Some(w), bufs[b].ring.packets, [], [])];
        bufs := bufs[b := bufs[b].(owner := Some(r))];
        return NoError;
      }
      if ports[w].unicast {
        return ErrNotAllowed;
      }
      ports := ports[w := ports[w].(readers := ports[w].readers + [r])][r := ReadPort(buf, Some(w), [], [], [])];
      bufs := bufs[buf := Memory(Buffer(PORT_BUFF_SIZE, []), Some(r))];
      return NoError;
    }

    /** port_write. */
    method Write(w: PortId, pk: seq<Packet>) returns (status: Status)
      requires Now().Valid() && w in ports
      modifies this
      ensures Now() == Written(old(Now()), w, pk)
      ensures status == ErrBadHandle <==> !Writable(old(Now()), w)
      ensures status == ErrNotEnoughBuffer <==> Writable(old(Now()), w) && Full(old(Now()), w, pk)
      ensures status == ErrPartialWrite <==> Writable(old(Now()), w) && exists r :: Misses(old(Now()), w, r, pk)
      ensures status in {NoError, ErrBadHandle, ErrNotEnoughBuffer, ErrPartialWrite}
    {
      if !ports[w].WritePort? || !ports[w].open {
        return ErrBadHandle;
      }
      if ports[w].buf.Some? {
        assert Now().PortOk(w);
        Now().PutKeeps(w, pk);
        var b := ports[w].buf.value;
        if !bufs[b].ring.Fits(pk) {
          return ErrNotEnoughBuffer;
        }
        bufs := bufs[b := bufs[b].(ring := bufs[b].ring.Put(pk))];
        ports := ports[w := ports[w].(accepted := ports[w].accepted + pk)];
        return NoError;
      }
      status := WriteReaders(w, pk);
    }

    static predicate Writable(s: State, w: PortId) {
      w in s.ports && s.ports[w].WritePort? && s.ports[w].open
    }

    /** The port has no readers, and its own ring has no room for the batch. */
    static predicate Full(s: State, w: PortId, pk: seq<Packet>) {
      && w in s.ports && s.ports[w].WritePort? && s.ports[w].buf.Some?
      && s.ports[w].buf.value in s.bufs && !s.bufs[s.ports[w].buf.value].ring.Fits(pk)
    }

    /** Reader r of port w has no room for the batch. */
    static ghost predicate Misses(s: State, w: PortId, r: PortId, pk: seq<Packet>) {
      && w in s.ports && s.ports[w].WritePort? && r in s.ports[w].readers
      && r in s.ports && s.ports[r].ReadPort? && s.ports[r].ring in s.bufs && !s.bufs[s.ports[r].ring].ring.Fits(pk)
    }

    /** buf_write to one of the readers. */
    method WriteReader(w: PortId, r: PortId, pk: seq<Packet>) returns (ok: bool)
      requires w in ports && ports[w].WritePort? && r in ports && ports[r].ReadPort? && ports[r].ring in bufs && r != w
      modifies this
      ensures Now() == old(Now()).Deliver(w, r, pk) && (ok <==> old(bufs)[old(ports)[r].ring].ring.Fits(pk))
    {
      ok := bufs[ports[r].ring].ring.Fits(pk);
      if ok {
        bufs := bufs[ports[r].ring := bufs[ports[r].ring].(ring := bufs[ports[r].ring].ring.Put(pk))];
        ports := ports[r := ports[r].(received := ports[r].received + pk)];
        ports := ports[w := ports[w].(accepted := ports[w].accepted + pk)];
      }
    }

    /** The loop of port_write over the readers. */
    method WriteReaders(w: PortId, pk: seq<Packet>) returns (status: Status)
      requires Now().Valid() && w in ports && ports[w].WritePort?
      modifies this
      ensures Now() == Sent(old(Now()), w, old(ports)[w].readers, pk)
      ensures status == NoError || status == ErrPartialWrite
      ensures status == ErrPartialWrite <==> exists r :: Misses(old(Now()), w, r, pk)
    {
      status := NoError;
      var readers := ports[w].readers;
      assert Now().PortOk(w);
      ghost var s := Now();
      forall j: nat | j < |readers|
        ensures SameRing(s, s, readers[j])
      {
        assert readers[j] in readers;
        assert s.PortOk(readers[j]);
      }
      var i := 0;
      while i < |readers|
        invariant 0 <= i <= |readers| && Now().Valid() && w in ports && ports[w].WritePort? && ports[w].readers == readers
        invariant Sent(Now(), w, readers[i..], pk) == Sent(s, w, readers, pk)
        invariant forall j: nat :: i <= j < |readers| ==> SameRing(s, Now(), readers[j])
        invariant status == NoError || status == ErrPartialWrite
        invariant status == ErrPartialWrite <==> exists j: nat :: j < i && Misses(s, w, readers[j], pk)
      {
        var r := readers[i];
        assert r in readers && readers[i..][0] == r && readers[i..][1..] == readers[i + 1..];
        Now().DeliverKeeps(w, r, pk);
        ghost var s1 := Now();
        assert SameRing(s, s1, r);
        var ok := WriteReader(w, r, pk);
        if !ok {
          status := ErrPartialWrite;
          assert Misses(s, w, readers[i], pk);
        }
        forall j: nat | i + 1 <= j < |readers|
          ensures SameRing(s, Now(), readers[j])
        {
          assert readers[j] in readers;
          StillSameRing(s, s1, w, readers[i], readers[j], pk);
        }
        i := i + 1;
      }
      assert readers[i..] == [];
      if r :| Misses(s, w, r, pk) {
        var j: nat :| j < |readers| && readers[j] == r;
        assert Misses(s, w, readers[j], pk);
      }
    }

    /** Nothing was written to port r. */
    static ghost predicate SameRing(s: State, s': State, r: PortId) {
      && r in s.ports && r in s'.ports && s'.ports[r] == s.ports[r] && s.ports[r].ReadPort?
      && s.ports[r].ring in s.bufs && s.ports[r].ring in s'.bufs && s'.bufs[s.ports[r].ring] == s.bufs[s.ports[r].ring]
    }

    static lemma StillSameRing(s: State, s1: State, w: PortId, r: PortId, q: PortId, pk: seq<Packet>)
      requires s1.Valid() && w in s1.ports && s1.ports[w].WritePort? && r in s1.ports[w].readers && q in s1.ports[w].readers && q != r
      requires SameRing(s, s1, q)
      ensures r in s1.ports && s1.ports[r].ReadPort? && s1.ports[r].ring in s1.bufs && r != w
      ensures SameRing(s, s1.Deliver(w, r, pk), q)
    {
      s1.DeliverKeeps(w, r, pk);
      s1.NoSharing(q, r);
    }

    /** port_read of a read port with a timeout of zero, and every further attempt of one that waits. */
    method Read(r: PortId) returns (status: Status, packet: Option<Packet>)
      requires Now().Valid() && r in ports
      modifies this
      ensures Now() == After(old(Now()), Op.Read(r))
      ensures status == ErrBadHandle <==> !old(ports)[r].ReadPort?
      ensures old(ports)[r].ReadPort? ==>
        && packet == ReadFrom(old(Now()), r).1 && old(ports)[r].ring in old(bufs)
        && (status == NoError <==> packet.Some?)
        && (status == ErrTimedOut <==> old(bufs)[old(ports)[r].ring].ring.packets == [])
    {
      if !ports[r].ReadPort? {
        return ErrBadHandle, None;
      }
      Now().ReadKeeps(r);
      assert Now().PortOk(r);
      var b := ports[r].ring;
      if bufs[b].ring.packets == [] {
        return ErrTimedOut, None;
      }
      packet := Some(bufs[b].ring.packets[0]);
      bufs := bufs[b := bufs[b].(ring := bufs[b].ring.Drop())];
      ports := ports[r := ports[r].(read := ports[r].read + [packet.value])];
      if ports[r].wport.Some? {
        var w := ports[r].wport.value;
        ports := ports[w := ports[w].(consumed := ports[w].consumed + [packet.value])];
      }
      status := NoError;
    }

    /** port_close. */
    method Close(p: PortId) returns (status: Status)
      requires Now().Valid() && p in ports
      modifies this
      ensures Now() == Closed(old(Now()), p)
      ensures status == ErrBadHandle <==> old(ports)[p].WritePort? && !old(ports)[p].open
    {
      if ports[p].WritePort? {
        if !ports[p].open {
          return ErrBadHandle;
        }
        ports := ports[p := ports[p].(open := false)];
        return NoError;
      }
      Now().CloseReaderKnows(p);
      Now().CloseReaderKeeps(p);
      ghost var s := Now();
      var rp := ports[p];
      var buf := None;
      if rp.wport.Some? {
        var w := rp.wport.value;
        ports := ports[w := ports[w].(readers := Without(ports[w].readers, IndexOf(ports[w].readers, p)))];
        if ports[w].readers == [] {
          ports := ports[w := ports[w].(buf := Some(rp.ring))];
          bufs := bufs[rp.ring := bufs[rp.ring].(owner := Some(w))];
        } else {
          buf := Some(rp.ring);
        }
        assert w != p;
      } else {
        bufs := bufs[rp.ring := bufs[rp.ring].(owner := None)];
      }
      if buf.Some? {
        bufs := bufs - {buf.value};
      }
      ports := ports - {p};
      assert Now() == s.CloseReader(p);
      return NoError;
    }

    /** port_destroy. */
    method Destroy(w: PortId) returns (status: Status)
      requires Now().Valid() && w in ports
      modifies this
      ensures Now() == Destroyed(old(Now()), w)
      ensures status == NoError <==> old(ports)[w].WritePort? && !old(ports)[w].open
    {
      if ports[w].ReadPort? || ports[w].open {
        return ErrBadHandle;
      }
      ghost var s := Now();
      s.DestroyKeeps(w);
      assert s.PortOk(w);
      var buf, readers := ports[w].buf, ports[w].readers;
      if buf.None? {
        var i := 0;
        while i < |readers|
          invariant 0 <= i <= |readers| && bufs == s.bufs && ports.Keys == s.ports.Keys
          invariant forall p :: p in ports ==> ports[p] == if p in readers[..i] then s.ports[p].(wport := None) else s.ports[p]
        {
          var r := readers[i];
          assert r in readers && readers[..i + 1] == readers[..i] + [r];
          ports := ports[r := ports[r].(wport := None)];
          i := i + 1;
        }
        assert readers[..i] == readers;
      } else {
        bufs := bufs - {buf.value};
      }
      ports := ports - {w};
      assert Now() == s.Destroy(w);
      return NoError;
    }
  }
}
