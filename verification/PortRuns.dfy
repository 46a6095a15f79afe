/**
 What a reader of a port gets (kernel/port.c), in terms of the calls alone.
 */
module PortRuns {
  import opened Common
  import opened PortState
  import opened Ring

  /** The batch that a call puts into the ring of reader r: its port is written to, and it fits. */
  ghost function PutBy(s: State, op: Op, r: PortId): seq<Packet> {
    match op
    case Write(w, pk) =>
      if w in s.ports && s.ports[w].WritePort? && s.ports[w].open && r in s.ports[w].readers
        && r in s.ports && s.ports[r].ReadPort? && s.ports[r].ring in s.bufs
        && |Unread(s, r)| + |pk| <= s.bufs[s.ports[r].ring].ring.capacity
      then pk else []
    case _ => []
  }

  /** The packet that a call takes out of it. */
  ghost function TakenBy(s: State, op: Op, r: PortId): seq<Packet> {
    if op == Read(r) && r in s.ports && s.ports[r].ReadPort? && s.ports[r].ring in s.bufs
      && s.bufs[s.ports[r].ring].ring.packets != []
    then [s.bufs[s.ports[r].ring].ring.packets[0]] else []
  }

  /** All that was put into the ring of r through a run, and all that was taken out. */
  ghost function Put(s: State, ops: seq<Op>, r: PortId): seq<Packet>
    requires s.Valid() && CanRun(s, ops)
    decreases |ops|
  {
    if ops == [] then [] else PutBy(s, ops[0], r) + Put(After(s, ops[0]), ops[1..], r)
  }

  ghost function Taken(s: State, ops: seq<Op>, r: PortId): seq<Packet>
    requires s.Valid() && CanRun(s, ops)
    decreases |ops|
  {
    if ops == [] then [] else TakenBy(s, ops[0], r) + Taken(After(s, ops[0]), ops[1..], r)
  }

  ghost predicate IsReader(s: State, r: PortId) {
    r in s.ports && s.ports[r].ReadPort? && s.ports[r].ring in s.bufs
  }

  function Unread(s: State, r: PortId): seq<Packet>
    requires r in s.ports && s.ports[r].ReadPort? && s.ports[r].ring in s.bufs
  {
    s.bufs[s.ports[r].ring].ring.packets
  }

  /** One call: what is taken comes from the front of the ring, what is put goes behind the rest. */
  ghost predicate Passes(s: State, s': State, op: Op, r: PortId)
    requires IsReader(s, r)
  {
    IsReader(s', r) && TakenBy(s, op, r) + Unread(s', r) == Unread(s, r) + PutBy(s, op, r)
  }

  lemma WritePasses(s: State, w: PortId, pk: seq<Packet>, r: PortId)
    requires s.Valid() && w in s.ports && IsReader(s, r)
    ensures Passes(s, After(s, Write(w, pk)), Write(w, pk), r)
  {
    assert s.PortOk(r);
    if s.ports[w].WritePort? && s.ports[w].open {
      assert s.PortOk(w);
      if s.ports[w].buf.Some? {
        s.NoSharing(r, w);
        assert After(s, Write(w, pk)) == Stored(s, w, pk).0;
      } else {
        EachReader(s, w, s.ports[w].readers, pk, r);
        assert After(s, Write(w, pk)) == Sent(s, w, s.ports[w].readers, pk);
      }
    }
    assert Unread(s, r) + [] == Unread(s, r) && [] + Unread(s, r) == Unread(s, r);
  }

  lemma ReadPasses(s: State, q: PortId, r: PortId)
    requires s.Valid() && q in s.ports && IsReader(s, r)
    ensures Passes(s, After(s, Read(q)), Read(q), r)
  {
    assert s.PortOk(r);
    if s.ports[q].ReadPort? {
      s.ReadKeeps(q);
      assert s.PortOk(q);
      if q != r {
        s.NoSharing(r, q);
      }
      assert After(s, Read(q)) == s.Read(q).0;
    }
    assert Unread(s, r) + [] == Unread(s, r) && [] + Unread(s, r) == Unread(s, r);
  }

  lemma ClosePasses(s: State, p: PortId, r: PortId)
    requires s.Valid() && p in s.ports && IsReader(s, r) && p != r
    ensures Passes(s, After(s, Close(p)), Close(p), r)
  {
    assert s.PortOk(r);
    assert s.PortOk(p);
    if s.ports[p].ReadPort? {
      s.CloseReaderKnows(p);
      s.NoSharing(r, p);
    }
    assert Unread(s, r) + [] == Unread(s, r) && [] + Unread(s, r) == Unread(s, r);
  }

  lemma StepPasses(s: State, op: Op, r: PortId)
    requires s.Valid() && Enabled(s, op) && IsReader(s, r) && op != Close(r)
    ensures Passes(s, After(s, op), op, r)
  {
    assert s.PortOk(r);
    assert Unread(s, r) + [] == Unread(s, r) && [] + Unread(s, r) == Unread(s, r);
    match op
    case Create(_, _, _, _) =>
    case Open(w, n, b) =>
      assert s.PortOk(w);
      s.OpenKeeps(w, n, b);
      s.NoSharing(r, w);
    case Write(w, pk) => WritePasses(s, w, pk, r);
    case Read(q) => ReadPasses(s, q, r);
    case Close(p) => ClosePasses(s, p, r);
    case Destroy(w) =>
      assert s.PortOk(w);
      if w != r {
        s.NoSharing(r, w);
      }
  }

  /** Through any calls by anybody, until it is closed: a reader reads, in order and once, what was unread
      in its ring, and then every batch that was written to its port and fitted when it was written; and
      what it has not read of these is still in its ring. */
  lemma {:induction false} ReaderRun(s: State, ops: seq<Op>, r: PortId)
    requires s.Valid() && CanRun(s, ops) && r in s.ports && s.ports[r].ReadPort? && Close(r) !in ops
    ensures s.ports[r].ring in s.bufs && IsReader(Run(s, ops), r)
    ensures Taken(s, ops, r) + Unread(Run(s, ops), r) == Unread(s, r) + Put(s, ops, r)
    decreases |ops|
  {
    assert s.PortOk(r);
    if ops == [] {
      assert [] + Unread(s, r) == Unread(s, r) + [];
    } else {
      var s1 := After(s, ops[0]);
      assert ops[0] in ops;
      StepPasses(s, ops[0], r);
      ReaderRun(s1, ops[1..], r);
      Chain(TakenBy(s, ops[0], r), Taken(s1, ops[1..], r), Unread(Run(s, ops), r),
            Unread(s, r), PutBy(s, ops[0], r), Put(s1, ops[1..], r), Unread(s1, r));
    }
  }

  lemma Chain(t: seq<Packet>, ts: seq<Packet>, last: seq<Packet>, first: seq<Packet>, p: seq<Packet>, ps: seq<Packet>, mid: seq<Packet>)
    requires t + mid == first + p && ts + last == mid + ps
    ensures (t + ts) + last == first + (p + ps)
  {
    assert (t + ts) + last == t + (ts + last) == t + (mid + ps) == (t + mid) + ps == (first + p) + ps == first + (p + ps);
  }

  // ---- how much fits ----------------------------------------------------------------------------------

  /** The capacities of the rings that the calls bring in: 64 packets for a port that is created as big, 8 for
      any other ring. */
  function Capacities(ops: seq<Op>, before: map<BufId, nat>): map<BufId, nat>
    decreases |ops|
  {
    if ops == [] then before else Capacities(ops[1..], CapacityAfter(ops[0], before))
  }

  function CapacityAfter(op: Op, before: map<BufId, nat>): map<BufId, nat> {
    match op
    case Create(_, b, _, big) => before[b := if big then 64 else 8]
    case Open(_, _, b) => before[b := 8]
    case _ => before
  }

  ghost predicate Sized(s: State, caps: map<BufId, nat>) {
    forall b :: b in s.bufs ==> b in caps && s.bufs[b].ring.capacity == caps[b]
  }

  lemma {:induction false} SentSized(s: State, w: PortId, rs: seq<PortId>, pk: seq<Packet>, caps: map<BufId, nat>)
    requires s.Valid() && w in s.ports && s.ports[w].WritePort? && forall r :: r in rs ==> r in s.ports[w].readers
    requires Sized(s, caps)
    ensures Sized(Sent(s, w, rs, pk), caps)
    decreases |rs|
  {
    if rs != [] {
      s.DeliverKeeps(w, rs[0], pk);
      SentSized(s.Deliver(w, rs[0], pk), w, rs[1..], pk, caps);
    }
  }

  lemma SizedStep(s: State, op: Op, caps: map<BufId, nat>)
    requires s.Valid() && Enabled(s, op) && Sized(s, caps)
    ensures Sized(After(s, op), CapacityAfter(op, caps))
  {
    match op
    case Write(w, pk) =>
      if s.ports[w].WritePort? && s.ports[w].open {
        assert s.PortOk(w);
        if s.ports[w].buf.None? {
          SentSized(s, w, s.ports[w].readers, pk, caps);
          assert After(s, op) == Sent(s, w, s.ports[w].readers, pk);
        } else {
          assert After(s, op) == Stored(s, w, pk).0;
        }
      }
    case Open(w, r, b) =>
      assert s.PortOk(w);
      s.OpenKeeps(w, r, b);
    case Read(r) =>
      if s.ports[r].ReadPort? {
        s.ReadKeeps(r);
        assert After(s, op) == s.Read(r).0;
      }
    case Close(p) =>
      if s.ports[p].ReadPort? {
        s.CloseReaderKnows(p);
      }
    case Create(_, _, _, _) =>
    case Destroy(_) =>
  }

  lemma {:induction false} SizedRun(s: State, ops: seq<Op>, caps: map<BufId, nat>)
    requires s.Valid() && CanRun(s, ops) && Sized(s, caps)
    ensures Sized(Run(s, ops), Capacities(ops, caps))
    decreases |ops|
  {
    if ops != [] {
      SizedStep(s, ops[0], caps);
      SizedRun(After(s, ops[0]), ops[1..], CapacityAfter(ops[0], caps));
    }
  }

  /** After any calls from the empty state, a batch that is written to an open port reaches a reader of it if and
      only if its ring, which has room for 8 packets, or 64 if it is the one that a port created as big began
      with, has that much room left. */
  lemma GetsIff(ops: seq<Op>, w: PortId, r: PortId, pk: seq<Packet>)
    requires State(map[], map[]).Valid() && CanRun(State(map[], map[]), ops)
    requires var s := Run(State(map[], map[]), ops);
      w in s.ports && s.ports[w].WritePort? && s.ports[w].open && r in s.ports[w].readers
    ensures var s := Run(State(map[], map[]), ops);
      && IsReader(s, r) && s.ports[r].ring in Capacities(ops, map[])
      && var room := Capacities(ops, map[])[s.ports[r].ring];
         && IsReader(After(s, Write(w, pk)), r)
         && Unread(After(s, Write(w, pk)), r) == Unread(s, r) + if |Unread(s, r)| + |pk| <= room then pk else []
  {
    var s := Run(State(map[], map[]), ops);
    SizedRun(State(map[], map[]), ops, map[]);
    assert s.PortOk(w);
    assert s.PortOk(r);
    WritePasses(s, w, pk, r);
    assert [] + Unread(After(s, Write(w, pk)), r) == Unread(After(s, Write(w, pk)), r);
  }

  // ---- opening ----------------------------------------------------------------------------------------

  /** What a port without readers holds. */
  function Held(s: State, w: PortId): seq<Packet>
    requires w in s.ports && s.ports[w].WritePort?
  {
    if s.ports[w].buf.Some? && s.ports[w].buf.value in s.bufs then s.bufs[s.ports[w].buf.value].ring.packets else []
  }

  /** A reader that is let in is one of the readers of the port, which all others stay; the first finds what the
      port held, any other nothing. */
  lemma OpenedReader(s: State, w: PortId, r: PortId, b: BufId)
    requires s.Valid() && Enabled(s, Open(w, r, b))
    ensures var s', first := After(s, Open(w, r, b)), s.ports[w].readers == [];
      && (r in s'.ports <==> first || !s.ports[w].unicast)
      && w in s'.ports && s'.ports[w].WritePort?
      && s'.ports[w].readers == s.ports[w].readers + (if r in s'.ports then [r] else [])
      && (r in s'.ports ==>
            && IsReader(s', r)
            && Unread(s', r) == if first then Held(s, w) else [])
  {
    assert s.PortOk(w);
    s.OpenKeeps(w, r, b);
  }

  /** n reads in succession. */
  function Reading(r: PortId, n: nat): seq<Op> {
    seq(n, _ => Read(r))
  }

  /** A reader that reads as often as there are packets in its ring reads them all, in order. */
  lemma {:induction false} ReadsBack(s: State, r: PortId)
    requires s.Valid() && r in s.ports && s.ports[r].ReadPort? && s.ports[r].ring in s.bufs
    ensures CanRun(s, Reading(r, |Unread(s, r)|)) && Taken(s, Reading(r, |Unread(s, r)|), r) == Unread(s, r)
    decreases |Unread(s, r)|
  {
    var q := Unread(s, r);
    var ops := Reading(r, |q|);
    if q != [] {
      s.ReadKeeps(r);
      var s1 := After(s, Read(r));
      assert s1 == s.Read(r).0;
      ReadPasses(s, r, r);
      assert [q[0]] + Unread(s1, r) == q + [];
      assert Unread(s1, r) == q[1..];
      ReadsBack(s1, r);
      assert ops[0] == Read(r) && ops[1..] == Reading(r, |q| - 1);
    }
  }

  /** A second reader of a broadcast port receives the next batch of up to 8 packets, and reads it back. */
  lemma SecondReader(s: State, w: PortId, r: PortId, b: BufId, pk: seq<Packet>)
    requires s.Valid() && Enabled(s, Open(w, r, b)) && s.ports[w].open && !s.ports[w].unicast && s.ports[w].readers != []
    requires |pk| <= 8
    ensures var s1 := After(s, Open(w, r, b));
      && Enabled(s1, Write(w, pk))
      && var s2 := After(s1, Write(w, pk));
         && IsReader(s2, r) && Unread(s2, r) == pk
         && CanRun(s2, Reading(r, |pk|)) && Taken(s2, Reading(r, |pk|), r) == pk
  {
    assert s.PortOk(w);
    OpenedReader(s, w, r, b);
    var s1 := After(s, Open(w, r, b));
    WritePasses(s1, w, pk, r);
    var s2 := After(s1, Write(w, pk));
    assert [] + Unread(s2, r) == Unread(s2, r) && [] + pk == pk;
    ReadsBack(s2, r);
  }

  /** A port without readers keeps a batch that fits its ring, if it is open, for its first reader. */
  lemma HeldWrite(s: State, w: PortId, pk: seq<Packet>)
    requires s.Valid() && w in s.ports && s.ports[w].WritePort? && s.ports[w].readers == []
    ensures s.ports[w].buf.Some? && s.ports[w].buf.value in s.bufs
    ensures var s', room := After(s, Write(w, pk)), s.bufs[s.ports[w].buf.value].ring.capacity;
      && w in s'.ports && s'.ports[w].WritePort? && s'.ports[w].readers == [] && s'.ports[w].open == s.ports[w].open
      && Held(s', w) == Held(s, w) + if s.ports[w].open && |Held(s, w)| + |pk| <= room then pk else []
  {
    assert s.PortOk(w);
    if s.ports[w].open {
      assert After(s, Write(w, pk)) == Stored(s, w, pk).0;
    }
  }

  /** What is written to a new port, up to 8 or 64 packets, is what its first reader reads. */
  lemma FirstReader(s: State, w: PortId, b: BufId, unicast: bool, big: bool, pk: seq<Packet>, r: PortId, c: BufId)
    requires s.Valid() && Enabled(s, Create(w, b, unicast, big)) && |pk| <= if big then 64 else 8
    requires r !in s.ports && r != w && c !in s.bufs && c != b
    ensures var s1 := After(s, Create(w, b, unicast, big));
      && Enabled(s1, Write(w, pk)) && Enabled(After(s1, Write(w, pk)), Open(w, r, c))
      && var s3 := After(After(s1, Write(w, pk)), Open(w, r, c));
         && IsReader(s3, r) && Unread(s3, r) == pk
         && CanRun(s3, Reading(r, |pk|)) && Taken(s3, Reading(r, |pk|), r) == pk
  {
    var s1 := After(s, Create(w, b, unicast, big));
    HeldWrite(s1, w, pk);
    assert [] + pk == pk;
    var s2 := After(s1, Write(w, pk));
    assert s2 == Stored(s1, w, pk).0;
    OpenedReader(s2, w, r, c);
    ReadsBack(After(s2, Open(w, r, c)), r);
  }

  /** Which ports there are: those that were created and let in, without readers that were closed and write
      ports that were destroyed, which have to be closed first. */
  lemma WhichPorts(s: State, op: Op)
    requires s.Valid() && Enabled(s, op)
    ensures After(s, op).ports.Keys ==
      match op
      case Create(p, _, _, _) => s.ports.Keys + {p}
      case Open(w, r, _) => if s.ports[w].unicast && s.ports[w].readers != [] then s.ports.Keys else s.ports.Keys + {r}
      case Close(p) => if s.ports[p].ReadPort? then s.ports.Keys - {p} else s.ports.Keys
      case Destroy(w) => if s.ports[w].WritePort? && !s.ports[w].open then s.ports.Keys - {w} else s.ports.Keys
      case _ => s.ports.Keys
  {
    match op
    case Write(w, pk) =>
      if s.ports[w].WritePort? && s.ports[w].open {
        assert s.PortOk(w);
        if s.ports[w].buf.None? {
          SentPorts(s, w, s.ports[w].readers, pk);
          assert After(s, op) == Sent(s, w, s.ports[w].readers, pk);
        } else {
          assert After(s, op) == Stored(s, w, pk).0;
        }
      }
    case Open(w, r, b) =>
      assert s.PortOk(w);
      s.OpenKeeps(w, r, b);
    case Read(r) =>
      if s.ports[r].ReadPort? {
        s.ReadKeeps(r);
        assert s.PortOk(r);
        assert After(s, op) == s.Read(r).0;
      }
    case Close(p) =>
      if s.ports[p].ReadPort? {
        s.CloseReaderKnows(p);
        if s.ports[p].wport.Some? {
          assert p != s.ports[p].wport.value;
        }
      }
    case Create(_, _, _, _) =>
    case Destroy(_) =>
  }

  lemma {:induction false} SentPorts(s: State, w: PortId, rs: seq<PortId>, pk: seq<Packet>)
    requires s.Valid() && w in s.ports && s.ports[w].WritePort? && forall r :: r in rs ==> r in s.ports[w].readers
    ensures Sent(s, w, rs, pk).ports.Keys == s.ports.Keys
    decreases |rs|
  {
    if rs != [] {
      s.DeliverKeeps(w, rs[0], pk);
      SentPorts(s.Deliver(w, rs[0], pk), w, rs[1..], pk);
    }
  }

  // ---- who reads from what ------------------------------------------------------------------------------

  /** What a reader of s' reads from, in terms of s. */
  ghost predicate Attached(s: State, op: Op, r: PortId, s': State)
    requires Enabled(s, op)
  {
    r in s'.ports && s'.ports[r].ReadPort? ==>
      if op.Open? && op.r == r then s'.ports[r].wport == Some(op.w)
      else
        && r in s.ports && s.ports[r].ReadPort?
        && s'.ports[r].wport ==
             if op.Destroy? && s.ports[op.w].WritePort? && !s.ports[op.w].open && s.ports[r].wport == Some(op.w) then None
             else s.ports[r].wport
  }

  /** A reader stays with the port that it was opened on until that port is destroyed. */
  lemma AttachedStep(s: State, op: Op, r: PortId)
    requires s.Valid() && Enabled(s, op)
    ensures Attached(s, op, r, After(s, op))
  {
    match op
    case Write(x, pk) => WriteAttached(s, x, pk, r);
    case Open(x, q, b) =>
      assert s.PortOk(x);
      s.OpenKeeps(x, q, b);
    case Read(q) =>
      if s.ports[q].ReadPort? {
        s.ReadKeeps(q);
        assert After(s, op) == s.Read(q).0;
      }
    case Close(p) =>
      if s.ports[p].ReadPort? {
        s.CloseReaderKnows(p);
      }
    case Create(_, _, _, _) =>
    case Destroy(w) => DestroyAttached(s, w, r);
  }

  lemma WriteAttached(s: State, x: PortId, pk: seq<Packet>, r: PortId)
    requires s.Valid() && Enabled(s, Write(x, pk))
    ensures Attached(s, Write(x, pk), r, After(s, Write(x, pk)))
  {
    if s.ports[x].WritePort? && s.ports[x].open {
      assert s.PortOk(x);
      if s.ports[x].buf.None? {
        SentAttached(s, x, s.ports[x].readers, pk, r);
        assert After(s, Write(x, pk)) == Sent(s, x, s.ports[x].readers, pk);
      } else {
        assert After(s, Write(x, pk)) == Stored(s, x, pk).0;
      }
    }
  }

  lemma DestroyAttached(s: State, w: PortId, r: PortId)
    requires s.Valid() && Enabled(s, Destroy(w))
    ensures Attached(s, Destroy(w), r, After(s, Destroy(w)))
  {
    if r in s.ports {
      assert s.PortOk(r);
      assert s.PortOk(w);
    }
  }

  lemma {:induction false} SentAttached(s: State, x: PortId, rs: seq<PortId>, pk: seq<Packet>, r: PortId)
    requires s.Valid() && x in s.ports && s.ports[x].WritePort? && forall q :: q in rs ==> q in s.ports[x].readers
    ensures var s' := Sent(s, x, rs, pk);
      r in s'.ports && s'.ports[r].ReadPort? ==> r in s.ports && s.ports[r].ReadPort? && s'.ports[r].wport == s.ports[r].wport
    decreases |rs|
  {
    if rs != [] {
      s.DeliverKeeps(x, rs[0], pk);
      SentAttached(s.Deliver(x, rs[0], pk), x, rs[1..], pk, r);
    }
  }

  // ---- what stays of a port -----------------------------------------------------------------------------

  /** A write port keeps the mode it was created with, and is open until it is closed. */
  lemma ModeStep(s: State, op: Op, w: PortId)
    requires s.Valid() && Enabled(s, op) && w in After(s, op).ports && After(s, op).ports[w].WritePort?
    ensures if op.Create? && op.p == w then
        After(s, op).ports[w].unicast == op.unicast && After(s, op).ports[w].open && After(s, op).ports[w].readers == []
      else
        && w in s.ports && s.ports[w].WritePort? && After(s, op).ports[w].unicast == s.ports[w].unicast
        && After(s, op).ports[w].open == (s.ports[w].open && op != Close(w))
  {
    match op
    case Write(x, pk) =>
      if s.ports[x].WritePort? && s.ports[x].open {
        assert s.PortOk(x);
        if s.ports[x].buf.None? {
          SentModes(s, x, s.ports[x].readers, pk, w);
          assert After(s, op) == Sent(s, x, s.ports[x].readers, pk);
        } else {
          assert After(s, op) == Stored(s, x, pk).0;
        }
      }
    case Open(x, r, b) =>
      assert s.PortOk(x);
      s.OpenKeeps(x, r, b);
    case Read(r) =>
      if s.ports[r].ReadPort? {
        s.ReadKeeps(r);
        assert After(s, op) == s.Read(r).0;
      }
    case Close(p) =>
      if s.ports[p].ReadPort? {
        s.CloseReaderKnows(p);
      }
    case Create(_, _, _, _) =>
    case Destroy(_) =>
  }

  lemma {:induction false} SentModes(s: State, x: PortId, rs: seq<PortId>, pk: seq<Packet>, w: PortId)
    requires s.Valid() && x in s.ports && s.ports[x].WritePort? && forall r :: r in rs ==> r in s.ports[x].readers
    ensures var s' := Sent(s, x, rs, pk);
      w in s'.ports && s'.ports[w].WritePort? ==>
        w in s.ports && s.ports[w].WritePort? && s'.ports[w].unicast == s.ports[w].unicast && s'.ports[w].open == s.ports[w].open
    decreases |rs|
  {
    if rs != [] {
      s.DeliverKeeps(x, rs[0], pk);
      SentModes(s.Deliver(x, rs[0], pk), x, rs[1..], pk, w);
    }
  }
}
