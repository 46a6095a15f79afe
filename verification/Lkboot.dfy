/**
 app/lkboot/lkboot.c: the device's side of a transfer, over reliable byte streams.
 */
module Lkboot {
  import opened Common
  import opened LkbootProtocol

  datatype Phase = Open | Data | Resp | Done | Error

  /** lkb_t with its streams: `input` is what will still arrive, `output` what was sent. pointerSize is
      that of the target, which lkb_send uses where it means the size of the header. */
  datatype Device = Device(state: Phase, avail: nat, input: seq<Byte>, output: seq<Byte>, pointerSize: nat) {

    // ---- reading ------------------------------------------------------------------------------

    function Failed(): Device {
      this.(state := Error)
    }

    /** The loop of lkb_read: the bytes, or nothing if it fails. */
    function ReadLoop(len: nat): (Device, Option<seq<Byte>>)
      decreases len, if avail == 0 then 1 else 0
    {
      if len == 0 then (this, Some([]))
      else if avail == 0 then
        if |input| < HEADER then (Failed(), None)
        else if input[0] == MSG_END_DATA then (this.(state := Resp, input := input[HEADER..]), None)
        else if input[0] != MSG_SEND_DATA then (this.(state := Error, input := input[HEADER..]), None)
        else this.(avail := LengthOf(input) + 1, input := input[HEADER..]).ReadLoop(len)
      else if avail >= len then
        if |input| < len then (Failed(), None)
        else (this.(avail := avail - len, input := input[len..]), Some(input[..len]))
      else
        if |input| < avail then (Failed(), None)
        else
          var (d, rest) := this.(avail := 0, input := input[avail..]).ReadLoop(len - avail);
          (d, Prefixed(input[..avail], rest))
    }

    /** lkb_read. After the end of the data it reports success without delivering anything. */
    function Read(len: nat): (Device, Option<seq<Byte>>) {
      if state == Resp then (this, Some([]))
      else if state == Open then
        var (d, ok) := Send(MSG_GO_AHEAD, []);
        if ok then d.ReadLoop(len) else (d, None)
      else ReadLoop(len)
    }

    /** What is left to read is q, as the rest of the current message and more messages, and then `tail`. */
    ghost predicate FeedsThen(q: seq<Byte>, tail: seq<Byte>) {
      avail <= |q| && input == q[..avail] + (Frames(q[avail..]) + tail)
    }

    /** What is left of an upload is q. */
    ghost predicate Feeds(q: seq<Byte>) {
      avail <= |q| && input == q[..avail] + Upload(q[avail..])
    }

    lemma FedThenEnd(q: seq<Byte>)
      ensures Feeds(q) <==> FeedsThen(q, Header(MSG_END_DATA, 0))
    {
    }

    /** Only the position in the stream differs. */
    predicate Along(d: Device) {
      d.state == state && d.pointerSize == pointerSize && d.output == output
    }

    lemma AtMessage(q: seq<Byte>, tail: seq<Byte>)
      requires FeedsThen(q, tail) && avail == 0 && q != []
      ensures |input| >= HEADER && input[0] == MSG_SEND_DATA
      ensures LengthOf(input) + 1 == ChunkSize(|q|)
      ensures input[HEADER..] == q[..ChunkSize(|q|)] + (Frames(q[ChunkSize(|q|)..]) + tail)
    {
      assert q[..0] == [] && q[0..] == q && input == Frames(q) + tail;
      FramesBefore(q, tail);
      var h := Header(MSG_SEND_DATA, ChunkSize(|q|) - 1);
      assert input[..HEADER] == h;
      assert input[0] == h[0] && input[2] == h[2] && input[3] == h[3];
    }

    /** At the end of a message the loop goes on with the next one, without having read any data. */
    lemma NextMessage(q: seq<Byte>, tail: seq<Byte>, len: nat) returns (d: Device)
      requires FeedsThen(q, tail) && avail == 0 && q != [] && len > 0
      ensures d.FeedsThen(q, tail) && d.avail > 0 && Along(d) && ReadLoop(len) == d.ReadLoop(len)
    {
      AtMessage(q, tail);
      d := this.(avail := LengthOf(input) + 1, input := input[HEADER..]);
    }

    /** Within a message: its first n bytes are the next of what is left. */
    lemma InMessage(q: seq<Byte>, tail: seq<Byte>, n: nat)
      requires FeedsThen(q, tail) && n <= avail
      ensures |input| >= n && input[..n] == q[..n]
      ensures this.(avail := avail - n, input := input[n..]).FeedsThen(q[n..], tail)
    {
      assert q[n..][..avail - n] == q[n..avail] && q[n..][avail - n..] == q[avail..];
      assert q[..avail] == q[..n] + q[n..avail];
      assert input == q[..n] + (q[n..avail] + (Frames(q[avail..]) + tail));
    }

    /** A read that ends within the message. */
    lemma LastPart(q: seq<Byte>, tail: seq<Byte>, len: nat) returns (d: Device)
      requires FeedsThen(q, tail) && 0 < len <= avail
      ensures d.FeedsThen(q[len..], tail) && Along(d) && ReadLoop(len) == (d, Some(q[..len]))
    {
      InMessage(q, tail, len);
      d := this.(avail := avail - len, input := input[len..]);
    }

    /** A read that goes on after the message. */
    lemma FirstPart(q: seq<Byte>, tail: seq<Byte>, len: nat) returns (d: Device)
      requires FeedsThen(q, tail) && 0 < avail < len
      ensures d.FeedsThen(q[avail..], tail) && d.avail == 0 && Along(d)
      ensures ReadLoop(len) == (d.ReadLoop(len - avail).0, Prefixed(q[..avail], d.ReadLoop(len - avail).1))
    {
      InMessage(q, tail, avail);
      d := this.(avail := 0, input := input[avail..]);
    }

    /** A read of what is left delivers exactly the next bytes, whatever the messages they are in and whatever
        comes behind them. */
    lemma {:induction false} ReadsOn(q: seq<Byte>, tail: seq<Byte>, len: nat) returns (d: Device)
      requires FeedsThen(q, tail) && len <= |q|
      ensures ReadLoop(len) == (d, Some(q[..len])) && d.FeedsThen(q[len..], tail) && Along(d)
      decreases len, if avail == 0 then 1 else 0
    {
      if len == 0 {
        assert q[0..] == q;
        d := this;
      } else if avail == 0 {
        var e := NextMessage(q, tail, len);
        d := e.ReadsOn(q, tail, len);
      } else if avail >= len {
        d := LastPart(q, tail, len);
      } else {
        var e := FirstPart(q, tail, len);
        d := e.ReadsOn(q[avail..], tail, len - avail);
        PrefixParts(q, avail, len - avail);
      }
    }

    lemma ReadsNext(q: seq<Byte>, len: nat) returns (d: Device)
      requires Feeds(q) && len <= |q|
      ensures ReadLoop(len) == (d, Some(q[..len])) && d.Feeds(q[len..]) && Along(d)
    {
      FedThenEnd(q);
      d := ReadsOn(q, Header(MSG_END_DATA, 0), len);
      d.FedThenEnd(q[len..]);
    }

    /** A read of more than is left fails: the device goes on to its response if the end of the data comes next,
        and is in error if anything else does, or nothing. */
    lemma {:induction false} ReadsBeyond(q: seq<Byte>, tail: seq<Byte>, len: nat)
      requires FeedsThen(q, tail) && len > |q| && !(|tail| >= HEADER && tail[0] == MSG_SEND_DATA)
      ensures ReadLoop(len).1 == None
      ensures ReadLoop(len).0.state == if |tail| >= HEADER && tail[0] == MSG_END_DATA then Resp else Error
      decreases len, if avail == 0 then 1 else 0
    {
      if avail == 0 {
        if q == [] {
          assert input == tail;
        } else {
          var e := NextMessage(q, tail, len);
          e.ReadsBeyond(q, tail, len);
        }
      } else {
        var e := FirstPart(q, tail, len);
        e.ReadsBeyond(q[avail..], tail, len - avail);
      }
    }

    lemma ReadsTooFar(q: seq<Byte>, len: nat)
      requires Feeds(q) && len > |q|
      ensures ReadLoop(len).1 == None && ReadLoop(len).0.state == Resp
    {
      FedThenEnd(q);
      ReadsBeyond(q, Header(MSG_END_DATA, 0), len);
    }

    /** So does a read of a message that breaks off. */
    lemma BreaksOff(len: nat)
      requires |input| < avail && |input| < len
      ensures ReadLoop(len) == (Failed(), None)
    {
    }

    /** Successive reads, until one fails. */
    function ReadAll(sizes: seq<nat>): Option<seq<Byte>>
      decreases |sizes|
    {
      if sizes == [] then Some([])
      else
        var (d, data) := Read(sizes[0]);
        if data == None then None
        else
          Prefixed(data.value, d.ReadAll(sizes[1..]))
    }

    /** However an upload is cut into messages and however the device cuts it into reads, the reads
        together deliver exactly the beginning of the payload; and they succeed exactly if they do not
        ask for more than there is. */
    lemma {:induction false} ReadsDeliverPayload(q: seq<Byte>, sizes: seq<nat>)
      requires Feeds(q) && state == Data
      ensures Sum(sizes) <= |q| ==> ReadAll(sizes) == Some(q[..Sum(sizes)])
      ensures Sum(sizes) > |q| ==> ReadAll(sizes) == None
      decreases |sizes|
    {
      if sizes != [] {
        if sizes[0] <= |q| {
          var d := ReadsNext(q, sizes[0]);
          d.ReadsDeliverPayload(q[sizes[0]..], sizes[1..]);
          if Sum(sizes) <= |q| {
            PrefixParts(q, sizes[0], Sum(sizes[1..]));
          }
        } else {
          ReadsTooFar(q, sizes[0]);
        }
      }
    }

    // ---- sending ------------------------------------------------------------------------------

    /** Header and data go out; but the result of writing the header is compared with the size of a
        pointer to it. */
    function Transmit(opcode: Byte, length: Length, data: seq<Byte>): (Device, bool) {
      if HEADER != pointerSize then (this.(output := output + Header(opcode, length), state := Error), false)
      else (this.(output := output + Header(opcode, length) + data), true)
    }

    /** lkb_send. */
    function Send(opcode: Byte, data: seq<Byte>): (Device, bool) {
      if state == Done || state == Error then (this, false)
      else if opcode == MSG_OKAY || opcode == MSG_FAIL then
        if |data| > 0xFFFF then (this.(state := Done), false) else this.(state := Done).Transmit(opcode, |data|, data)
      else if opcode == MSG_LOG then
        if |data| > 0xFFFF then (this, false) else Transmit(opcode, |data|, data)
      else if opcode == MSG_SEND_DATA then
        if |data| > CHUNK then (this, false)
        else Transmit(opcode, Short(|data| - 1), data)
      else if opcode == MSG_GO_AHEAD && state == Open then
        this.(state := Data).Transmit(opcode, Short(|data|), data)
      else
        this.(state := Error).Transmit(MSG_FAIL, |INTERNAL_ERROR|, INTERNAL_ERROR)
    }

    /** A message is refused, without a trace on the wire, if and only if it is too long for its length field,
        which is only looked at for four kinds; a final one ends the transfer even so. */
    lemma RefusesIff(opcode: Byte, data: seq<Byte>)
      requires state != Done && state != Error && pointerSize == HEADER
      ensures var (d, ok) := Send(opcode, data);
        && (ok <==> match opcode
                    case 0x00 => |data| < 65536
                    case 0xFF => |data| < 65536
                    case 0xFE => |data| < 65536
                    case 0x41 => |data| <= 65536
                    case _ => true)
        && (ok <==> d.output != output)
        && (!ok ==> d == this.(state := if opcode == MSG_OKAY || opcode == MSG_FAIL then Done else state))
    {
      assert |Send(opcode, data).0.output| > |output| || !Send(opcode, data).1;
    }

    /** lkb_write: in chunks, until one fails. */
    function Write(data: seq<Byte>): (Device, bool)
      decreases |data|
    {
      if data == [] then (this, true)
      else
        var x := ChunkSize(|data|);
        var (d, ok) := Send(MSG_SEND_DATA, data[..x]);
        if ok then d.Write(data[x..]) else (d, false)
    }

    lemma SendsChunk(c: seq<Byte>)
      requires state != Done && state != Error && 0 < |c| <= CHUNK && pointerSize == HEADER
      ensures Send(MSG_SEND_DATA, c) == (this.(output := output + Header(MSG_SEND_DATA, |c| - 1) + c), true)
    {
    }

    lemma {:induction false} WritesAll(data: seq<Byte>)
      requires state != Done && state != Error && pointerSize == HEADER
      ensures Write(data) == (this.(output := output + Frames(data)), true)
      decreases |data|
    {
      if data == [] {
        assert output + [] == output;
      } else {
        var x := ChunkSize(|data|);
        SendsChunk(data[..x]);
        var d := this.(output := output + Header(MSG_SEND_DATA, x - 1) + data[..x]);
        d.WritesAll(data[x..]);
        FramesAfter(output, data);
      }
    }

    /** Data goes out as the frames of the protocol, on a target whose pointers are as large as the
        header; on any other, the first message fails. */
    lemma WritesFrames(data: seq<Byte>)
      requires state != Done && state != Error && data != []
      ensures Write(data).1 <==> pointerSize == HEADER
      ensures pointerSize == HEADER ==> Write(data).0 == this.(output := output + Frames(data))
      ensures pointerSize != HEADER ==> Write(data).0.state == Error
    {
      if pointerSize == HEADER {
        WritesAll(data);
      }
    }

    // ---- success without data -------------------------------------------------------------------

    /** The loop delivers what was asked for or fails; it sends nothing. */
    lemma {:induction false} LoopDelivers(len: nat)
      ensures var (d, data) := ReadLoop(len);
        && (data.Some? ==> |data.value| == len && d.state == state)
        && (data.None? ==> d.state == Error || d.state == Resp)
        && d.output == output && d.pointerSize == pointerSize
      decreases len, if avail == 0 then 1 else 0
    {
      if len > 0 && avail == 0 {
        if |input| >= HEADER && input[0] == MSG_SEND_DATA {
          this.(avail := LengthOf(input) + 1, input := input[HEADER..]).LoopDelivers(len);
        }
      } else if avail < len && |input| >= avail {
        this.(avail := 0, input := input[avail..]).LoopDelivers(len - avail);
      }
    }

    /** lkb_read reports success without having delivered the bytes asked for exactly after the end of
        the data was read. */
    lemma ShortReadIff(len: nat)
      ensures Read(len).1.Some? && |Read(len).1.value| != len <==> state == Resp && len > 0
    {
      LoopDelivers(len);
      Send(MSG_GO_AHEAD, []).0.LoopDelivers(len);
    }

    // ---- after the end --------------------------------------------------------------------------

    predicate Ended() {
      state == Done || state == Error
    }

    function After(op: DeviceOp): Device {
      match op
      case Send(opcode, data) => Send(opcode, data).0
      case Write(data) => Write(data).0
      case Read(len) => Read(len).0
    }

    function Run(ops: seq<DeviceOp>): Device
      decreases |ops|
    {
      if ops == [] then this else After(ops[0]).Run(ops[1..])
    }

    /** No single call on a device that has sent its final OKAY or FAIL, or has failed, sends anything;
        and it stays so, unless it is a read that comes upon the end of the data. */
    lemma EndedStep(op: DeviceOp)
      requires Ended()
      ensures After(op).output == output
      ensures After(op).Ended() || (op.Read? && After(op).state == Resp)
    {
      match op
      case Send(_, _) =>
      case Write(data) =>
        if data != [] {
          assert Write(data) == (this, false);
        }
      case Read(len) => LoopDelivers(len);
    }

    /** While the reads ask for no more than is left of an upload, no sequence of calls on such a device
        sends anything. */
    lemma {:induction false} SilentWhileFed(q: seq<Byte>, ops: seq<DeviceOp>)
      requires Ended() && Feeds(q) && ReadTotal(ops) <= |q|
      ensures Run(ops).Ended() && Run(ops).output == output && Run(ops).Feeds(q[ReadTotal(ops)..])
      decreases |ops|
    {
      if ops == [] {
        assert q[0..] == q;
      } else {
        var op, d := ops[0], After(ops[0]);
        EndedStep(op);
        if op.Read? {
          var e := ReadsNext(q, op.len);
          d.SilentWhileFed(q[op.len..], ops[1..]);
          PrefixParts(q, op.len, ReadTotal(ops[1..]));
        } else {
          StillFed(op, q);
          d.SilentWhileFed(q, ops[1..]);
        }
      }
    }

    lemma StillFed(op: DeviceOp, q: seq<Byte>)
      requires Ended() && Feeds(q) && !op.Read?
      ensures After(op) == this
    {
      if op.Write? && op.data != [] {
        assert Write(op.data) == (this, false);
      }
    }

    /** But a read that asks for more comes upon the end of the data and makes the device send again:
        after a read, every further call is silent if and only if the read stayed within the upload. */
    lemma ReopensIff(q: seq<Byte>, len: nat)
      requires Ended() && Feeds(q)
      ensures (forall op :: After(DeviceOp.Read(len)).After(op).output == output) <==> len <= |q|
    {
      var d := After(DeviceOp.Read(len));
      if len <= |q| {
        var e := ReadsNext(q, len);
        forall op
          ensures d.After(op).output == output
        {
          d.EndedStep(op);
        }
      } else {
        ReadsTooFar(q, len);
        LoopDelivers(len);
        assert |d.After(DeviceOp.Send(MSG_OKAY, [])).output| == |output| + HEADER;
      }
    }
  }

  /** A call of lkb_send, lkb_write or lkb_read. */
  datatype DeviceOp = Send(opcode: Byte, data: seq<Byte>) | Write(data: seq<Byte>) | Read(len: nat)

  function ReadTotal(ops: seq<DeviceOp>): nat {
    if ops == [] then 0 else (if ops[0].Read? then ops[0].len else 0) + ReadTotal(ops[1..])
  }

  /** An upload that is read too far and then once more: the first read fails, the second reports success
      and delivers nothing. An empty upload read twice is the shortest case. */
  lemma ReadTwice(payload: seq<Byte>, len: nat, more: nat)
    requires len > |payload| && more > 0
    ensures var d := Device(Open, 0, Upload(payload), [], HEADER);
      && d.Read(len).1 == None && d.Read(len).0.state == Resp
      && d.Read(len).0.Read(more).1 == Some([])
  {
    var d := Device(Open, 0, Upload(payload), [], HEADER).Send(MSG_GO_AHEAD, []).0;
    assert payload[..0] == [] && payload[0..] == payload;
    assert d.Feeds(payload);
    d.ReadsTooFar(payload, len);
  }

  /** A device that has sent FAIL and then reads the end of the data sends another message. */
  lemma SendsAfterFail()
    ensures var d := Device(Open, 0, Upload([]), [], HEADER);
      && d.Run([DeviceOp.Send(MSG_FAIL, [])]).state == Done
      && d.Run([DeviceOp.Send(MSG_FAIL, []), DeviceOp.Read(1), DeviceOp.Send(MSG_LOG, [])]).output == Header(MSG_FAIL, 0) + Header(MSG_LOG, 0)
  {
    var d := Device(Open, 0, Upload([]), [], HEADER);
    var ops := [DeviceOp.Send(MSG_FAIL, []), DeviceOp.Read(1), DeviceOp.Send(MSG_LOG, [])];
    var d1 := d.After(ops[0]);
    assert d1.output == Header(MSG_FAIL, 0);
    assert d1.Feeds([]);
    d1.ReadsTooFar([], 1);
    d1.LoopDelivers(1);
    var d2 := d1.After(ops[1]);
    assert d2.output == Header(MSG_FAIL, 0) && d2.pointerSize == HEADER;
    assert d2.After(ops[2]).output == Header(MSG_FAIL, 0) + Header(MSG_LOG, 0);
    assert ops[1..] == [ops[1], ops[2]] && ops[1..][1..] == [ops[2]] && [ops[2]][1..] == [];
    assert d.Run([ops[0]]) == d1.Run([]);
    assert d.Run(ops) == d1.Run(ops[1..]) == d2.Run([ops[2]]) == d2.After(ops[2]).Run([]);
  }

  /** "internal error" */
  const INTERNAL_ERROR: seq<Byte> := [105, 110, 116, 101, 114, 110, 97, 108, 32, 101, 114, 114, 111, 114]

  /** A read that begins before the upload: the go-ahead is sent, and then as before. */
  lemma FirstRead(d: Device, q: seq<Byte>, len: nat)
    requires d.state == Open && d.pointerSize == HEADER && d.Feeds(q) && len <= |q|
    ensures var (e, data) := d.Read(len);
      data == Some(q[..len]) && e.Feeds(q[len..]) && e.state == Data && e.output == d.output + Header(MSG_GO_AHEAD, 0)
  {
    var s := d.Send(MSG_GO_AHEAD, []).0;
    assert s.Feeds(q);
    var e := s.ReadsNext(q, len);
  }

  // ---- the code -----------------------------------------------------------------------------------

  class Lkb {
    var state: Phase
    var avail: nat
    var input: seq<Byte>
    var output: seq<Byte>
    const pointerSize: nat

    function Now(): Device
      reads this
    {
      Device(state, avail, input, output, pointerSize)
    }

    /** lkboot_create_lkb. */
    constructor (input: seq<Byte>, pointerSize: nat)
      ensures Now() == Device(Open, 0, input, [], pointerSize)
    {
      state, avail, output := Open, 0, [];
      this.input, this.pointerSize := input, pointerSize;
    }

    /** The read hook: n bytes, or failure if they do not come. */
    method ReadHook(n: nat) returns (data: Option<seq<Byte>>)
      modifies this`input
      ensures data == if |old(input)| < n then None else Some(old(input)[..n])
      ensures input == if |old(input)| < n then old(input) else old(input)[n..]
    {
      if |input| < n {
        return None;
      }
      data := Some(input[..n]);
      input := input[n..];
    }

    /** The write hook: how much was written. */
    method WriteHook(data: seq<Byte>) returns (n: nat)
      modifies this`output
      ensures output == old(output) + data && n == |data|
    {
      output := output + data;
      n := |data|;
    }

    /** lkb_send. */
    method Send(opcode: Byte, data: seq<Byte>) returns (ok: bool)
      modifies this
      ensures (Now(), ok) == old(Now()).Send(opcode, data)
    {
      if state == Done || state == Error {
        return false;
      }
      var op, payload := opcode, data;
      if op == MSG_OKAY || op == MSG_FAIL {
        state := Done;
        if |payload| > 0xFFFF {
          return false;
        }
      } else if op == MSG_LOG {
        if |payload| > 0xFFFF {
          return false;
        }
      } else if op == MSG_SEND_DATA {
        if |payload| > 0x10000 {
          return false;
        }
      } else if op == MSG_GO_AHEAD && state == Open {
        state := Data;
      } else {
        state := Error;
        op, payload := MSG_FAIL, INTERNAL_ERROR;
      }
      var length := Short(if op == MSG_SEND_DATA then |payload| - 1 else |payload|);
      var n := WriteHook(Header(op, length));
      if n != pointerSize {
        state := Error;
        return false;
      }
      if payload != [] {
        n := WriteHook(payload);
        assert n == |payload|;  // the source checks; the stream is reliable
      } else {
        assert output + payload == output;
      }
      return true;
    }

    /** lkb_write. */
    method Write(data: seq<Byte>) returns (ok: bool)
      modifies this
      ensures (Now(), ok) == old(Now()).Write(data)
    {
      var pos := 0;
      while pos < |data|
        invariant 0 <= pos <= |data|
        invariant Now().Write(data[pos..]) == old(Now()).Write(data)
      {
        var xfer := ChunkSize(|data| - pos);
        assert data[pos..][..xfer] == data[pos..pos + xfer] && data[pos..][xfer..] == data[pos + xfer..];
        var sent := Send(MSG_SEND_DATA, data[pos..pos + xfer]);
        if !sent {
          return false;
        }
        pos := pos + xfer;
      }
      return true;
    }

    /** lkb_read: the bytes it stores in the caller's buffer, if it succeeds. */
    method Read(len: nat) returns (data: Option<seq<Byte>>)
      modifies this
      ensures (Now(), data) == old(Now()).Read(len)
    {
      if state == Resp {
        return Some([]);
      }
      if state == Open {
        var ok := Send(MSG_GO_AHEAD, []);
        if !ok {
          return None;
        }
      }
      data := ReadChunks(len);
    }

    /** The loop of lkb_read. */
    method ReadChunks(len: nat) returns (data: Option<seq<Byte>>)
      modifies this
      ensures (Now(), data) == old(Now()).ReadLoop(len)
    {
      var left, got := len, [];
      ghost var all := Now().ReadLoop(len);
      PrefixNothing(all.1);
      while left > 0
        invariant 0 <= left <= len
        invariant all == (Now().ReadLoop(left).0, Prefixed(got, Now().ReadLoop(left).1))
        decreases left, if avail == 0 then 1 else 0
      {
        if avail == 0 {
          var hdr := ReadHook(HEADER);
          if hdr.None? {
            state := Error;
            return None;
          }
          if hdr.value[0] == MSG_END_DATA {
            state := Resp;
            return None;
          }
          if hdr.value[0] != MSG_SEND_DATA {
            state := Error;
            return None;
          }
          avail := LengthOf(hdr.value) + 1;
        } else if avail >= left {
          var rest := ReadHook(left);
          if rest.None? {
            state := Error;
            return None;
          }
          avail := avail - left;
          return Some(got + rest.value);
        } else {
          ghost var before := got;
          var part := ReadHook(avail);
          if part.None? {
            state := Error;
            return None;
          }
          got := got + part.value;
          left := left - avail;
          avail := 0;
          PrefixTwice(before, part.value, Now().ReadLoop(left).1);
        }
      }
      assert got + [] == got;
      return Some(got);
    }
  }
}
