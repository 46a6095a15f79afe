/**
 kernel/port.c: write ports, read ports and the ring buffers that pass between them, and what every
 call does to them. Port.dfy carries the calls out in place. Names and port groups are left out: a
 port is found by its identity.
 */
module PortState {
  import opened Common
  import opened Ring

  type PortId = nat
  type BufId = nat

  /** write_port_t (`open` is WRITEPORT_MAGIC_W, its negation WRITEPORT_MAGIC_X) and read_port_t. The
      last two or three fields record history: what a write port accepted, and what its readers have
      read of it; what a read port found in its ring when it was opened, what was written to it since,
      and what was read from it. */
  datatype Port =
    | WritePort(open: bool, unicast: bool, buf: Option<BufId>, readers: seq<PortId>, accepted: seq<Packet>, consumed: seq<Packet>)
    | ReadPort(ring: BufId, wport: Option<PortId>, inherited: seq<Packet>, received: seq<Packet>, read: seq<Packet>)
  {
    /** The ring that the port points to. */
    function Ring(): Option<BufId> {
      match this
      case WritePort(_, _, buf, _, _, _) => buf
      case ReadPort(ring, _, _, _, _) => Some(ring)
    }
  }

  /** A ring in memory, and the port that it belongs to; a ring without an owner is lost. */
  datatype Memory = Memory(ring: Buffer, owner: Option<PortId>)

  datatype Status = NoError | ErrNotEnoughBuffer | ErrPartialWrite | ErrNotAllowed | ErrBadHandle | ErrTimedOut | ErrInvalidArgs

  datatype State = State(ports: map<PortId, Port>, bufs: map<BufId, Memory>) {

    /** Ownership is exclusive: a ring has one owner, and a port points to a ring only as its owner. */
    ghost predicate BufOk(b: BufId)
      requires b in bufs
    {
      && bufs[b].ring.Valid()
      && (bufs[b].owner.Some? ==> bufs[b].owner.value in ports && ports[bufs[b].owner.value].Ring() == Some(b))
    }

    ghost predicate PortOk(p: PortId)
      requires p in ports
    {
      && (ports[p].Ring().Some? ==> ports[p].Ring().value in bufs && bufs[ports[p].Ring().value].owner == Some(p))
      && match ports[p]
         case WritePort(_, unicast, buf, readers, accepted, consumed) =>
           && (buf.Some? <==> readers == [])
           && Distinct(readers)
           && (forall r :: r in readers ==> r in ports && ports[r].ReadPort? && ports[r].wport == Some(p))
           && (unicast ==> |readers| <= 1 && SameStream(p))
         case ReadPort(ring, wport, inherited, received, read) =>
           && (ring in bufs ==> read + bufs[ring].ring.packets == inherited + received)
           && (wport.Some? ==> wport.value in ports && ports[wport.value].WritePort? && p in ports[wport.value].readers)
    }

    /** With at most one reader, what the readers read and what is unread is what was accepted. */
    ghost predicate SameStream(p: PortId)
      requires p in ports && ports[p].WritePort?
    {
      var ring := if ports[p].readers == [] then ports[p].buf else if ports[p].readers[0] in ports then ports[ports[p].readers[0]].Ring() else None;
      ring.Some? && ring.value in bufs ==> ports[p].consumed + bufs[ring.value].ring.packets == ports[p].accepted
    }

    ghost predicate Valid() {
      && (forall p {:trigger PortOk(p)} :: p in ports ==> PortOk(p))
      && (forall b {:trigger BufOk(b)} :: b in bufs ==> BufOk(b))
    }

    predicate Lost(b: BufId) {
      b in bufs && bufs[b].owner.None?
    }

    // ---- the calls ----------------------------------------------------------------------------

    /** port_create, where malloc yields port p and ring b. */
    function Create(p: PortId, b: BufId, unicast: bool, big: bool): State {
      State(ports[p := WritePort(true, unicast, Some(b), [], [], [])],
            bufs[b := Memory(Buffer(if big then PORT_BUFF_SIZE_BIG else PORT_BUFF_SIZE, []), Some(p))])
    }

    /** port_open of write port w, where malloc yields port r and ring b. The first reader takes over
        the ring of the write port, with what is in it. */
    function Open(w: PortId, r: PortId, b: BufId): (State, Status)
      requires w in ports && ports[w].WritePort? && (ports[w].buf.Some? ==> ports[w].buf.value in bufs)
    {
      var wp := ports[w];
      if wp.buf.Some? then
        var m := bufs[wp.buf.value];
        (State(ports[w := wp.(readers := wp.readers + [r], buf := None)][r := ReadPort(wp.buf.value, Some(w), m.ring.packets, [], [])],
               bufs[wp.buf.value := m.(owner := Some(r))]), NoError)
      else if wp.unicast then (this, ErrNotAllowed)
      else
        (State(ports[w := wp.(readers := wp.readers + [r])][r := ReadPort(b, Some(w), [], [], [])],
               bufs[b := Memory(Buffer(PORT_BUFF_SIZE, []), Some(r))]), NoError)
    }

    function PutInto(b: BufId, pk: seq<Packet>): State
      requires b in bufs
    {
      this.(bufs := bufs[b := bufs[b].(ring := bufs[b].ring.Put(pk))])
    }

    /** buf_write to one reader of port w. */
    function Deliver(w: PortId, r: PortId, pk: seq<Packet>): State
      requires w in ports && ports[w].WritePort? && r in ports && ports[r].ReadPort? && ports[r].ring in bufs && r != w
    {
      if bufs[ports[r].ring].ring.Fits(pk) then
        var s := PutInto(ports[r].ring, pk);
        s.(ports := ports[r := ports[r].(received := ports[r].received + pk)][w := ports[w].(accepted := ports[w].accepted + pk)])
      else this
    }

    /** port_read that does not block. */
    function Read(r: PortId): (State, Option<Packet>)
      requires r in ports && ports[r].ReadPort? && ports[r].ring in bufs
    {
      var rp := ports[r];
      var packets := bufs[rp.ring].ring.packets;
      if packets == [] then (this, None)
      else
        var s := this.(bufs := bufs[rp.ring := bufs[rp.ring].(ring := bufs[rp.ring].ring.Drop())],
                       ports := ports[r := rp.(read := rp.read + [packets[0]])]);
        if rp.wport.Some? && rp.wport.value in ports && ports[rp.wport.value].WritePort? then
          var wp := ports[rp.wport.value];
          (s.(ports := s.ports[rp.wport.value := wp.(consumed := wp.consumed + [packets[0]])]), Some(packets[0]))
        else (s, Some(packets[0]))
    }

    /** port_close of a read port. The last reader gives its ring back to the write port, any other one
        frees it; but if the write port was destroyed before, the ring is lost. */
    function CloseReader(r: PortId): State
      requires r in ports && ports[r].ReadPort? && ports[r].ring in bufs
      requires ports[r].wport.Some? ==> ports[r].wport.value in ports && ports[ports[r].wport.value].WritePort? && r in ports[ports[r].wport.value].readers
    {
      var rp := ports[r];
      if rp.wport.None? then
        State(ports - {r}, bufs[rp.ring := bufs[rp.ring].(owner := None)])
      else
        var w, wp := rp.wport.value, ports[rp.wport.value];
        var left := Without(wp.readers, IndexOf(wp.readers, r));
        if left == [] then
          State((ports - {r})[w := wp.(readers := left, buf := Some(rp.ring))], bufs[rp.ring := bufs[rp.ring].(owner := Some(w))])
        else
          State((ports - {r})[w := wp.(readers := left)], bufs - {rp.ring})
    }

    /** port_close of a write port. */
    function CloseWriter(w: PortId): State
      requires w in ports && ports[w].WritePort?
    {
      this.(ports := ports[w := ports[w].(open := false)])
    }

    /** port_destroy: the readers stay, with what they have not read. */
    function Destroy(w: PortId): State
      requires w in ports && ports[w].WritePort?
    {
      State(map p | p in ports && p != w :: if p in ports[w].readers && ports[p].ReadPort? then ports[p].(wport := None) else ports[p],
            if ports[w].buf.Some? then bufs - {ports[w].buf.value} else bufs)
    }

    // ---- every call keeps the ports in order ---------------------------------------------------

    lemma CreateKeeps(p: PortId, b: BufId, unicast: bool, big: bool)
      requires Valid() && p !in ports && b !in bufs
      ensures Create(p, b, unicast, big).Valid()
    {
      var s := Create(p, b, unicast, big);
      forall q | q in s.ports
        ensures s.PortOk(q)
      {
        assert q != p ==> PortOk(q);
        assert q != p && ports[q].WritePort? && ports[q].readers != [] ==> PortOk(ports[q].readers[0]);
      }
      forall c | c in s.bufs
        ensures s.BufOk(c)
      {
        assert c != b ==> BufOk(c);
      }
    }

    lemma OpenKeeps(w: PortId, r: PortId, b: BufId)
      requires Valid() && w in ports && ports[w].WritePort? && r !in ports && b !in bufs
      ensures ports[w].buf.Some? ==> ports[w].buf.value in bufs
      ensures Open(w, r, b).0.Valid()
    {
      assert PortOk(w);
      if ports[w].buf.Some? {
        FirstOpens(w, r, b);
      } else {
        OtherOpens(w, r, b);
      }
    }

    lemma FirstOpens(w: PortId, r: PortId, b: BufId)
      requires Valid() && w in ports && ports[w].WritePort? && r !in ports && ports[w].buf.Some? && ports[w].buf.value in bufs
      ensures Open(w, r, b).0.Valid()
    {
      assert PortOk(w);
      var s := Open(w, r, b).0;
      forall q | q in s.ports
        ensures s.PortOk(q)
      {
        assert q != r ==> PortOk(q);
        assert q != r && ports[q].WritePort? && ports[q].readers != [] ==> PortOk(ports[q].readers[0]);
      }
      forall c | c in s.bufs
        ensures s.BufOk(c)
      {
        assert BufOk(c);
      }
    }

    lemma OtherOpens(w: PortId, r: PortId, b: BufId)
      requires Valid() && w in ports && ports[w].WritePort? && r !in ports && b !in bufs && ports[w].buf.None?
      ensures Open(w, r, b).0.Valid()
    {
      assert PortOk(w);
      var s := Open(w, r, b).0;
      forall q | q in s.ports
        ensures s.PortOk(q)
      {
        assert q != r ==> PortOk(q);
        assert q != r && ports[q].WritePort? && ports[q].readers != [] ==> PortOk(ports[q].readers[0]);
      }
      forall c | c in s.bufs
        ensures s.BufOk(c)
      {
        assert c != b ==> BufOk(c);
      }
    }

    lemma PutKeeps(w: PortId, pk: seq<Packet>)
      requires Valid() && w in ports && ports[w].WritePort? && ports[w].buf.Some?
      ensures ports[w].buf.value in bufs
      ensures var b := ports[w].buf.value;
        var s := if bufs[b].ring.Fits(pk) then PutInto(b, pk).(ports := ports[w := ports[w].(accepted := ports[w].accepted + pk)]) else this;
        s.Valid()
    {
      assert PortOk(w);
      var b := ports[w].buf.value;
      if bufs[b].ring.Fits(pk) {
        var s := PutInto(b, pk).(ports := ports[w := ports[w].(accepted := ports[w].accepted + pk)]);
        forall q | q in s.ports
          ensures s.PortOk(q)
        {
          assert PortOk(q);
          assert ports[q].WritePort? && ports[q].readers != [] ==> PortOk(ports[q].readers[0]);
          assert s.ports[w].consumed + (bufs[b].ring.packets + pk) == (s.ports[w].consumed + bufs[b].ring.packets) + pk;
        }
        forall c | c in s.bufs
          ensures s.BufOk(c)
        {
          assert BufOk(c);
        }
      }
    }

    lemma DeliverKeeps(w: PortId, r: PortId, pk: seq<Packet>)
      requires Valid() && w in ports && ports[w].WritePort? && r in ports[w].readers
      ensures r in ports && ports[r].ReadPort? && ports[r].ring in bufs && r != w
      ensures Deliver(w, r, pk).Valid()
    {
      assert PortOk(w);
      assert PortOk(r);
      var s, b := Deliver(w, r, pk), ports[r].ring;
      if bufs[b].ring.Fits(pk) {
        forall q | q in s.ports
          ensures s.PortOk(q)
        {
          assert PortOk(q);
          assert ports[q].WritePort? && ports[q].readers != [] ==> PortOk(ports[q].readers[0]);
          assert ports[r].read + (bufs[b].ring.packets + pk) == (ports[r].read + bufs[b].ring.packets) + pk;
          assert ports[w].consumed + (bufs[b].ring.packets + pk) == (ports[w].consumed + bufs[b].ring.packets) + pk;
          assert ports[r].inherited + (ports[r].received + pk) == (ports[r].inherited + ports[r].received) + pk;
        }
        forall c | c in s.bufs
          ensures s.BufOk(c)
        {
          assert BufOk(c);
        }
      }
    }

    lemma Regroup(a: seq<Packet>, b: seq<Packet>)
      requires b != []
      ensures (a + [b[0]]) + b[1..] == a + b
    {
    }

    lemma ReadKeeps(r: PortId)
      requires Valid() && r in ports && ports[r].ReadPort?
      ensures ports[r].ring in bufs && Read(r).0.Valid()
    {
      assert PortOk(r);
      var s, b := Read(r).0, ports[r].ring;
      var packets := bufs[b].ring.packets;
      if packets != [] {
        assert ports[r].wport.Some? ==> PortOk(ports[r].wport.value);
        forall q | q in s.ports
          ensures s.PortOk(q)
        {
          assert PortOk(q);
          assert ports[q].WritePort? && ports[q].readers != [] ==> PortOk(ports[q].readers[0]);
          if q == r {
            Regroup(ports[r].read, packets);
          } else if ports[r].wport == Some(q) {
            Regroup(ports[q].consumed, packets);
          }
        }
        forall c | c in s.bufs
          ensures s.BufOk(c)
        {
          assert BufOk(c);
        }
      }
    }

    lemma CloseReaderKnows(r: PortId)
      requires Valid() && r in ports && ports[r].ReadPort?
      ensures ports[r].ring in bufs && bufs[ports[r].ring].owner == Some(r)
      ensures ports[r].wport.Some? ==>
        ports[r].wport.value in ports && ports[ports[r].wport.value].WritePort? && r in ports[ports[r].wport.value].readers
    {
      assert PortOk(r);
    }

    lemma CloseReaderKeeps(r: PortId)
      requires Valid() && r in ports && ports[r].ReadPort?
      ensures ports[r].ring in bufs
      ensures ports[r].wport.Some? ==>
        ports[r].wport.value in ports && ports[ports[r].wport.value].WritePort? && r in ports[ports[r].wport.value].readers
      ensures CloseReader(r).Valid()
    {
      CloseReaderKnows(r);
      var s, w := CloseReader(r), ports[r].wport;
      if w.Some? {
        assert PortOk(w.value);
        var readers := ports[w.value].readers;
        forall x
          ensures x in Without(readers, IndexOf(readers, r)) <==> x in readers && x != r
        {
          WithoutMember(readers, IndexOf(readers, r), x);
        }
        WithoutMember(readers, IndexOf(readers, r), r);
        if s.ports[w.value].readers == [] {
          LastCloses(r, w.value);
        } else {
          OtherCloses(r, w.value, Without(readers, IndexOf(readers, r)));
        }
      } else {
        DetachedCloses(r);
      }
    }

    lemma DetachedCloses(r: PortId)
      requires Valid() && r in ports && ports[r].ReadPort? && ports[r].wport.None?
      requires ports[r].ring in bufs && bufs[ports[r].ring].owner == Some(r)
      ensures State(ports - {r}, bufs[ports[r].ring := bufs[ports[r].ring].(owner := None)]).Valid()
    {
      var s := State(ports - {r}, bufs[ports[r].ring := bufs[ports[r].ring].(owner := None)]);
      forall q | q in s.ports
        ensures s.PortOk(q)
      {
        assert PortOk(q);
        assert ports[q].WritePort? && ports[q].readers != [] ==> PortOk(ports[q].readers[0]);
      }
      forall c | c in s.bufs
        ensures s.BufOk(c)
      {
        assert BufOk(c);
      }
    }

    lemma LastCloses(r: PortId, w: PortId)
      requires Valid() && r in ports && ports[r].ReadPort? && ports[r].wport == Some(w)
      requires w in ports && ports[w].WritePort? && forall x :: x in ports[w].readers <==> x == r
      requires ports[r].ring in bufs && bufs[ports[r].ring].owner == Some(r)
      ensures State((ports - {r})[w := ports[w].(readers := [], buf := Some(ports[r].ring))],
                    bufs[ports[r].ring := bufs[ports[r].ring].(owner := Some(w))]).Valid()
    {
      var s := State((ports - {r})[w := ports[w].(readers := [], buf := Some(ports[r].ring))],
                     bufs[ports[r].ring := bufs[ports[r].ring].(owner := Some(w))]);
      assert PortOk(w);
      assert r in ports[w].readers && ports[w].readers[0] in ports[w].readers;
      forall q | q in s.ports
        ensures s.PortOk(q)
      {
        assert PortOk(q);
        assert ports[q].WritePort? && ports[q].readers != [] ==> PortOk(ports[q].readers[0]);
      }
      forall c | c in s.bufs
        ensures s.BufOk(c)
      {
        assert BufOk(c);
      }
    }

    lemma OtherCloses(r: PortId, w: PortId, left: seq<PortId>)
      requires Valid() && r in ports && ports[r].ReadPort? && ports[r].wport == Some(w)
      requires w in ports && ports[w].WritePort? && r in ports[w].readers
      requires left != [] && Distinct(left) && |left| == |ports[w].readers| - 1
      requires forall x :: x in left <==> x in ports[w].readers && x != r
      requires ports[r].ring in bufs && bufs[ports[r].ring].owner == Some(r)
      ensures State((ports - {r})[w := ports[w].(readers := left)], bufs - {ports[r].ring}).Valid()
    {
      var s := State((ports - {r})[w := ports[w].(readers := left)], bufs - {ports[r].ring});
      assert PortOk(w);
      forall q | q in s.ports
        ensures s.PortOk(q)
      {
        assert PortOk(q);
        assert ports[q].WritePort? && ports[q].readers != [] ==> PortOk(ports[q].readers[0]);
      }
      forall c | c in s.bufs
        ensures s.BufOk(c)
      {
        assert BufOk(c);
      }
    }

    lemma CloseWriterKeeps(w: PortId)
      requires Valid() && w in ports && ports[w].WritePort?
      ensures CloseWriter(w).Valid()
    {
      var s := CloseWriter(w);
      forall q | q in s.ports
        ensures s.PortOk(q)
      {
        assert PortOk(q);
      }
      forall c | c in s.bufs
        ensures s.BufOk(c)
      {
        assert BufOk(c);
      }
    }

    lemma DestroyKeeps(w: PortId)
      requires Valid() && w in ports && ports[w].WritePort?
      ensures Destroy(w).Valid()
    {
      var s := Destroy(w);
      assert PortOk(w);
      forall q | q in s.ports
        ensures s.PortOk(q)
      {
        assert PortOk(q);
        assert ports[q].WritePort? && ports[q].readers != [] ==> PortOk(ports[q].readers[0]);
      }
      forall c | c in s.bufs
        ensures s.BufOk(c)
      {
        assert BufOk(c);
        assert bufs[c].owner.Some? ==> PortOk(bufs[c].owner.value);
      }
    }

    // ---- what the calls mean --------------------------------------------------------------------

    /** No two ports share a ring. */
    lemma NoSharing(p: PortId, q: PortId)
      requires Valid() && p in ports && q in ports && p != q && ports[p].Ring().Some?
      ensures ports[q].Ring() != ports[p].Ring()
    {
      assert PortOk(p) && PortOk(q);
    }

    /** A read port yields, in order, what it found in its ring and every batch written to it since. */
    lemma ReaderHistory(r: PortId)
      requires Valid() && r in ports && ports[r].ReadPort?
      ensures ports[r].ring in bufs
      ensures ports[r].read + bufs[ports[r].ring].ring.packets == ports[r].inherited + ports[r].received
    {
      assert PortOk(r);
    }

    /** Through all hand-overs, the readers of a unicast port read exactly what it accepted, in order and
        once, and the rest waits in the ring of the port or of its reader. */
    lemma UnicastHistory(w: PortId)
      requires Valid() && w in ports && ports[w].WritePort? && ports[w].unicast
      ensures |ports[w].readers| <= 1
      ensures var p := if ports[w].readers == [] then w else ports[w].readers[0];
        && p in ports && ports[p].Ring().Some? && ports[p].Ring().value in bufs
        && ports[w].consumed + bufs[ports[p].Ring().value].ring.packets == ports[w].accepted
    {
      assert PortOk(w);
      if ports[w].readers != [] {
        assert PortOk(ports[w].readers[0]);
      }
    }

    /** The next reader begins with what the last one left unread. */
    lemma LeftForTheNext(w: PortId, r: PortId, n: PortId, b: BufId)
      requires Valid() && w in ports && ports[w].WritePort? && ports[w].readers == [r] && n !in ports && b !in bufs
      ensures r in ports && ports[r].ReadPort? && ports[r].ring in bufs && ports[r].wport == Some(w)
      ensures var s := CloseReader(r);
        && s.ports[w].buf == Some(ports[r].ring) && s.ports[w].readers == []
        && var (t, status) := s.Open(w, n, b);
           status == NoError && t.ports[n].inherited == bufs[ports[r].ring].ring.packets
    {
      assert PortOk(w);
      assert PortOk(r);
    }
  }

  /** The calls; p, r and b are what malloc yields. */
  datatype Op =
    | Create(p: PortId, b: BufId, unicast: bool, big: bool)
    | Open(w: PortId, r: PortId, b: BufId)
    | Write(w: PortId, pk: seq<Packet>)
    | Read(r: PortId)
    | Close(p: PortId)
    | Destroy(w: PortId)

  /** Handles are those of live ports, and malloc yields what is not in use. */
  predicate Enabled(s: State, op: Op) {
    match op
    case Create(p, b, _, _) => p !in s.ports && b !in s.bufs
    case Open(w, r, b) => w in s.ports && s.ports[w].WritePort? && r !in s.ports && b !in s.bufs
    case Write(w, _) => w in s.ports
    case Read(r) => r in s.ports
    case Close(p) => p in s.ports
    case Destroy(w) => w in s.ports
  }

  /** port_write to a port without readers. */
  function Stored(s: State, w: PortId, pk: seq<Packet>): (r: (State, Status))
    requires s.Valid() && w in s.ports && s.ports[w].WritePort? && s.ports[w].buf.Some?
    ensures r.0.Valid()
  {
    s.PutKeeps(w, pk);
    var b := s.ports[w].buf.value;
    if s.bufs[b].ring.Fits(pk) then
      (s.PutInto(b, pk).(ports := s.ports[w := s.ports[w].(accepted := s.ports[w].accepted + pk)]), NoError)
    else (s, ErrNotEnoughBuffer)
  }

  /** port_write to the readers rs of a port. */
  function Sent(s: State, w: PortId, rs: seq<PortId>, pk: seq<Packet>): (r: State)
    requires s.Valid() && w in s.ports && s.ports[w].WritePort? && forall r :: r in rs ==> r in s.ports[w].readers
    ensures r.Valid() && w in r.ports && r.ports[w].WritePort? && r.ports[w].readers == s.ports[w].readers
    decreases |rs|
  {
    if rs == [] then s
    else
      s.DeliverKeeps(w, rs[0], pk);
      Sent(s.Deliver(w, rs[0], pk), w, rs[1..], pk)
  }

  function Written(s: State, w: PortId, pk: seq<Packet>): (r: State)
    requires s.Valid() && w in s.ports
    ensures r.Valid()
  {
    if !s.ports[w].WritePort? || !s.ports[w].open then s
    else if s.ports[w].buf.Some? then Stored(s, w, pk).0
    else Sent(s, w, s.ports[w].readers, pk)
  }

  function ReadFrom(s: State, r: PortId): (x: (State, Option<Packet>))
    requires s.Valid() && r in s.ports && s.ports[r].ReadPort?
    ensures x.0.Valid()
  {
    s.ReadKeeps(r);
    s.Read(r)
  }

  function Closed(s: State, p: PortId): (r: State)
    requires s.Valid() && p in s.ports
    ensures r.Valid()
  {
    if s.ports[p].ReadPort? then
      s.CloseReaderKeeps(p);
      s.CloseReader(p)
    else
      s.CloseWriterKeeps(p);
      if s.ports[p].open then s.CloseWriter(p) else s
  }

  function Destroyed(s: State, w: PortId): (r: State)
    requires s.Valid() && w in s.ports
    ensures r.Valid()
  {
    if s.ports[w].ReadPort? || s.ports[w].open then s
    else
      s.DestroyKeeps(w);
      s.Destroy(w)
  }

  function After(s: State, op: Op): (r: State)
    requires s.Valid() && Enabled(s, op)
    ensures r.Valid()
  {
    match op
    case Create(p, b, unicast, big) => s.CreateKeeps(p, b, unicast, big); s.Create(p, b, unicast, big)
    case Open(w, r, b) => s.OpenKeeps(w, r, b); s.Open(w, r, b).0
    case Write(w, pk) => Written(s, w, pk)
    case Read(r) => if s.ports[r].ReadPort? then ReadFrom(s, r).0 else s
    case Close(p) => Closed(s, p)
    case Destroy(w) => Destroyed(s, w)
  }

  ghost predicate CanRun(s: State, ops: seq<Op>)
    requires s.Valid()
    decreases |ops|
  {
    ops != [] ==> Enabled(s, ops[0]) && CanRun(After(s, ops[0]), ops[1..])
  }

  ghost function Run(s: State, ops: seq<Op>): (r: State)
    requires s.Valid() && CanRun(s, ops)
    ensures r.Valid()
    decreases |ops|
  {
    if ops == [] then s else Run(After(s, ops[0]), ops[1..])
  }

  /** After any calls whatever: what was read of a unicast port is a prefix, in order and without
      repetition, of what it accepted, and what is missing waits in one ring, which no other port has. */
  lemma UnicastRun(ops: seq<Op>, w: PortId, q: PortId)
    requires State(map[], map[]).Valid() && CanRun(State(map[], map[]), ops)
    ensures var s := Run(State(map[], map[]), ops);
      w in s.ports && s.ports[w].WritePort? && s.ports[w].unicast ==>
        var p := if s.ports[w].readers == [] then w else s.ports[w].readers[0];
        && p in s.ports && s.ports[p].Ring().Some? && s.ports[p].Ring().value in s.bufs
        && s.ports[w].consumed + s.bufs[s.ports[p].Ring().value].ring.packets == s.ports[w].accepted
        && (q in s.ports && q != p ==> s.ports[q].Ring() != s.ports[p].Ring())
  {
    var s := Run(State(map[], map[]), ops);
    if w in s.ports && s.ports[w].WritePort? && s.ports[w].unicast {
      s.UnicastHistory(w);
      var p := if s.ports[w].readers == [] then w else s.ports[w].readers[0];
      if q in s.ports && q != p {
        s.NoSharing(p, q);
      }
    }
  }

  // ---- what every call does to rings ----------------------------------------------------------------

  lemma {:induction false} SentOwners(s: State, w: PortId, rs: seq<PortId>, pk: seq<Packet>, b: BufId)
    requires s.Valid() && w in s.ports && s.ports[w].WritePort? && forall r :: r in rs ==> r in s.ports[w].readers
    ensures Sent(s, w, rs, pk).Lost(b) == s.Lost(b)
    decreases |rs|
  {
    if rs != [] {
      s.DeliverKeeps(w, rs[0], pk);
      SentOwners(s.Deliver(w, rs[0], pk), w, rs[1..], pk, b);
    }
  }

  /** A ring is lost in exactly one way: its reader is closed after the write port was destroyed. */
  lemma LosesIff(s: State, op: Op, b: BufId)
    requires s.Valid() && Enabled(s, op) && !s.Lost(b)
    ensures After(s, op).Lost(b) <==>
      op.Close? && s.ports[op.p].ReadPort? && s.ports[op.p].wport.None? && s.ports[op.p].ring == b
  {
    match op
    case Write(w, pk) =>
      if s.ports[w].WritePort? && s.ports[w].open && s.ports[w].buf.None? {
        SentOwners(s, w, s.ports[w].readers, pk, b);
        assert After(s, op) == Sent(s, w, s.ports[w].readers, pk);
      } else if s.ports[w].WritePort? && s.ports[w].open {
        assert s.PortOk(w);
        assert After(s, op) == Stored(s, w, pk).0;
      }
    case Close(p) =>
      if s.ports[p].ReadPort? {
        s.CloseReaderKnows(p);
      }
    case Open(w, r, c) =>
      s.OpenKeeps(w, r, c);
    case Read(r) =>
      if s.ports[r].ReadPort? {
        s.ReadKeeps(r);
        assert After(s, op) == s.Read(r).0;
      }
    case Create(_, _, _, _) =>
    case Destroy(_) =>
  }

  /** A ring is lost exactly if no port points to it. */
  lemma LostIff(s: State, b: BufId)
    requires s.Valid() && b in s.bufs
    ensures s.Lost(b) <==> forall p :: p in s.ports ==> s.ports[p].Ring() != Some(b)
  {
    assert s.BufOk(b);
    forall p | p in s.ports && s.ports[p].Ring() == Some(b)
      ensures !s.Lost(b)
    {
      assert s.PortOk(p);
    }
  }

  lemma StaysLost(s: State, op: Op, b: BufId)
    requires s.Valid() && Enabled(s, op) && s.Lost(b)
    ensures After(s, op).Lost(b)
  {
    match op
    case Write(w, pk) =>
      if s.ports[w].WritePort? && s.ports[w].open && s.ports[w].buf.None? {
        SentOwners(s, w, s.ports[w].readers, pk, b);
        assert After(s, op) == Sent(s, w, s.ports[w].readers, pk);
      } else if s.ports[w].WritePort? && s.ports[w].open {
        assert s.PortOk(w);
        assert After(s, op) == Stored(s, w, pk).0;
      }
    case Close(p) =>
      if s.ports[p].ReadPort? {
        s.CloseReaderKnows(p);
      }
    case Open(w, r, c) =>
      assert s.PortOk(w);
      s.OpenKeeps(w, r, c);
    case Read(r) =>
      if s.ports[r].ReadPort? {
        s.ReadKeeps(r);
        assert After(s, op) == s.Read(r).0;
      }
    case Create(_, _, _, _) =>
    case Destroy(w) =>
      assert s.PortOk(w);
  }

  /** Nothing that anybody does afterwards gets a lost ring back. */
  lemma {:induction false} LostForever(s: State, ops: seq<Op>, b: BufId)
    requires s.Valid() && CanRun(s, ops) && s.Lost(b)
    ensures Run(s, ops).Lost(b)
    decreases |ops|
  {
    if ops != [] {
      StaysLost(s, ops[0], b);
      LostForever(After(s, ops[0]), ops[1..], b);
    }
  }

  /** Five calls lose a ring: a port is created and opened, its write end closed and destroyed, and then
      its read end closed. No port is left, and the ring is. */
  lemma LostRun(unicast: bool, big: bool)
    ensures var ops := [Create(0, 0, unicast, big), Open(0, 1, 1), Close(0), Destroy(0), Close(1)];
      var s0 := State(map[], map[]);
      && s0.Valid() && CanRun(s0, ops)
      && Run(s0, ops).ports == map[] && Run(s0, ops).Lost(0)
  {
    var ops := [Create(0, 0, unicast, big), Open(0, 1, 1), Close(0), Destroy(0), Close(1)];
    var ring := Buffer(if big then PORT_BUFF_SIZE_BIG else PORT_BUFF_SIZE, []);
    var s0 := State(map[], map[]);
    var s1 := State(map[0 := WritePort(true, unicast, Some(0), [], [], [])], map[0 := Memory(ring, Some(0))]);
    var reader := ReadPort(0, Some(0), [], [], []);
    var s2 := State(map[0 := WritePort(true, unicast, None, [1], [], []), 1 := reader], map[0 := Memory(ring, Some(1))]);
    assert After(s0, ops[0]) == s1;
    assert [] + [1] == [1];
    assert After(s1, ops[1]).ports == s2.ports && After(s1, ops[1]).bufs == s2.bufs;
    LostWithReader(s2, reader, unicast);
    RunStep(s0, ops);
    RunStep(s1, ops[1..]);
    assert ops[1..][1..] == [Close(0), Destroy(0), Close(1)];
  }

  lemma LostWithReader(s: State, reader: Port, unicast: bool)
    requires reader == ReadPort(0, Some(0), [], [], []) && s.Valid() && 0 in s.bufs && s.bufs[0].owner == Some(1)
    requires s.ports == map[0 := WritePort(true, unicast, None, [1], [], []), 1 := reader]
    ensures var ops := [Close(0), Destroy(0), Close(1)];
      CanRun(s, ops) && Run(s, ops).ports == map[] && Run(s, ops).Lost(0)
  {
    var ops := [Close(0), Destroy(0), Close(1)];
    var s1 := After(s, ops[0]);
    assert s1 == s.(ports := s.ports[0 := WritePort(false, unicast, None, [1], [], [])]);
    var s2 := After(s1, ops[1]);
    assert s2.ports == map[1 := reader.(wport := None)] && s2.bufs == s.bufs;
    assert After(s2, ops[2]).ports == map[] && After(s2, ops[2]).Lost(0);
    RunStep(s, ops);
    RunStep(s1, ops[1..]);
    RunStep(s2, ops[1..][1..]);
  }

  lemma RunStep(s: State, ops: seq<Op>)
    requires s.Valid() && ops != [] && Enabled(s, ops[0])
    ensures CanRun(After(s, ops[0]), ops[1..]) ==> CanRun(s, ops) && Run(s, ops) == Run(After(s, ops[0]), ops[1..])
  {
  }

  /** A batch reaches each reader as a whole or, if that reader's ring is too full, not at all. */
  lemma {:induction false} EachReader(s: State, w: PortId, rs: seq<PortId>, pk: seq<Packet>, r: PortId)
    requires s.Valid() && w in s.ports && s.ports[w].WritePort? && Distinct(rs) && forall x :: x in rs ==> x in s.ports[w].readers
    requires r in s.ports && s.ports[r].ReadPort?
    ensures s.ports[r].ring in s.bufs
    ensures var s' := Sent(s, w, rs, pk);
      && r in s'.ports && s'.ports[r].ReadPort? && s'.ports[r].ring == s.ports[r].ring && s.ports[r].ring in s'.bufs
      && var fits := r in rs && s.bufs[s.ports[r].ring].ring.Fits(pk);
         && s'.ports[r].received == s.ports[r].received + (if fits then pk else [])
         && s'.bufs[s.ports[r].ring].ring == if r in rs then s.bufs[s.ports[r].ring].ring.Put(pk) else s.bufs[s.ports[r].ring].ring
    decreases |rs|
  {
    assert s.PortOk(r);
    if rs != [] {
      s.DeliverKeeps(w, rs[0], pk);
      assert rs[0] in s.ports[w].readers;
      if r != rs[0] {
        s.NoSharing(r, rs[0]);
      }
      var s1 := s.Deliver(w, rs[0], pk);
      EachReader(s1, w, rs[1..], pk, r);
      assert r in rs[1..] <==> r in rs && r != rs[0];
    }
  }
}
