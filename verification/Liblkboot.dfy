/**
 tools/liblkboot.c: the host's side of a transfer, over reliable byte streams. Finding the host and the
 trimming and byte swapping of FPGA images are left out.
 */
module Liblkboot {
  import opened Common
  import opened Lkboot
  import opened LkbootProtocol

  const REPLYMAX: nat := 9 * 1024 * 1024

  /** How a transaction ends: whether it succeeds, the reply collected, and what the host sent. */
  datatype Outcome = Outcome(ok: bool, reply: seq<Byte>, sent: seq<Byte>)

  /** The loop of lkboot_txn over what the device sends. A go-ahead uploads the payload, which is a file;
      once that has been read to its end (`spent`), a further go-ahead fails unless the file is empty. */
  function Replies(input: seq<Byte>, payload: seq<Byte>, spent: bool, reply: seq<Byte>, sent: seq<Byte>): Outcome
    decreases |input|
  {
    if |input| < HEADER then Outcome(false, reply, sent)
    else
      var rest := input[HEADER..];
      if input[0] == MSG_GO_AHEAD then
        if spent && payload != [] then Outcome(false, reply, sent)
        else Replies(rest, payload, true, reply, sent + Upload(payload))
      else if input[0] == MSG_OKAY then Outcome(true, reply, sent)
      else if input[0] == MSG_SEND_DATA then
        var n := LengthOf(input) + 1;
        if |rest| < n || |reply| + n > REPLYMAX then Outcome(false, reply, sent)
        else Replies(rest[n..], payload, spent, reply + rest[..n], sent)
      else Outcome(false, reply, sent)
  }

  lemma OneChunk(c: seq<Byte>, tail: seq<Byte>, payload: seq<Byte>, spent: bool, reply: seq<Byte>, sent: seq<Byte>)
    requires 0 < |c| <= CHUNK
    ensures Replies(Header(MSG_SEND_DATA, |c| - 1) + (c + tail), payload, spent, reply, sent) ==
      if |reply| + |c| > REPLYMAX then Outcome(false, reply, sent) else Replies(tail, payload, spent, reply + c, sent)
  {
    var h := Header(MSG_SEND_DATA, |c| - 1);
    var input := h + (c + tail);
    assert input[0] == h[0] && input[2] == h[2] && input[3] == h[3];
    assert input[HEADER..] == c + tail;
    assert (c + tail)[..|c|] == c && (c + tail)[|c|..] == tail;
  }

  lemma OneGoAhead(tail: seq<Byte>, payload: seq<Byte>, spent: bool, reply: seq<Byte>, sent: seq<Byte>)
    ensures Replies(Header(MSG_GO_AHEAD, 0) + tail, payload, spent, reply, sent) ==
      if spent && payload != [] then Outcome(false, reply, sent) else Replies(tail, payload, true, reply, sent + Upload(payload))
  {
    var input := Header(MSG_GO_AHEAD, 0) + tail;
    assert input[0] == MSG_GO_AHEAD && input[HEADER..] == tail;
  }

  lemma LastHeader(opcode: Byte, n: Length, tail: seq<Byte>, payload: seq<Byte>, spent: bool, reply: seq<Byte>, sent: seq<Byte>)
    requires opcode != MSG_GO_AHEAD && opcode != MSG_SEND_DATA
    ensures Replies(Header(opcode, n) + tail, payload, spent, reply, sent) == Outcome(opcode == MSG_OKAY, reply, sent)
  {
    assert (Header(opcode, n) + tail)[0] == opcode;
  }

  // ---- what the host accepts ------------------------------------------------------------------------

  /** What the protocol lets a device send after a command. */
  datatype Message = GoAhead | Data(bytes: seq<Byte>) | Log(text: seq<Byte>) | Fail(text: seq<Byte>) | Okay {

    /** The length fits its field, which holds one less for data. */
    predicate Sendable() {
      match this
      case Data(bytes) => 0 < |bytes| <= CHUNK
      case Log(text) => |text| < CHUNK
      case Fail(text) => |text| < CHUNK
      case _ => true
    }

    function Opcode(): Byte {
      match this
      case GoAhead => MSG_GO_AHEAD
      case Data(_) => MSG_SEND_DATA
      case Log(_) => MSG_LOG
      case Fail(_) => MSG_FAIL
      case Okay => MSG_OKAY
    }

    function Body(): seq<Byte> {
      match this
      case Data(bytes) => bytes
      case Log(text) => text
      case Fail(text) => text
      case _ => []
    }

    function Field(): Length
      requires Sendable()
    {
      if Data? then |bytes| - 1 else |Body()|
    }

    /** The transaction goes on after it. */
    predicate GoesOn() {
      GoAhead? || Data?
    }
  }

  predicate AllSendable(ms: seq<Message>) {
    forall m :: m in ms ==> m.Sendable()
  }

  function Wire(ms: seq<Message>): seq<Byte>
    requires AllSendable(ms)
  {
    if ms == [] then []
    else
      var m := ms[0];
      Header(m.Opcode(), m.Field()) + (m.Body() + Wire(ms[1..]))
  }

  /** The messages before the first that is neither a go-ahead nor data. */
  function Opening(ms: seq<Message>): (r: seq<Message>)
    ensures r <= ms && (forall m :: m in r ==> m.GoesOn()) && (|r| < |ms| ==> !ms[|r|].GoesOn())
  {
    if ms == [] || !ms[0].GoesOn() then [] else [ms[0]] + Opening(ms[1..])
  }

  /** The data in them, in order. */
  function Chunks(ms: seq<Message>): seq<Byte> {
    if ms == [] then [] else (if ms[0].Data? then ms[0].bytes else []) + Chunks(ms[1..])
  }

  function GoAheads(ms: seq<Message>): nat {
    if ms == [] then 0 else (if ms[0].GoAhead? then 1 else 0) + GoAheads(ms[1..])
  }

  /** n uploads. */
  function Uploads(n: nat, payload: seq<Byte>): seq<Byte> {
    if n == 0 then [] else Upload(payload) + Uploads(n - 1, payload)
  }

  /** The opening fits the reply buffer and asks for no more than there is to upload. */
  predicate Served(opening: seq<Message>, payload: seq<Byte>, spent: bool, room: nat) {
    && |Chunks(opening)| <= room
    && (payload == [] || GoAheads(opening) + (if spent then 1 else 0) <= 1)
  }

  /** r is the outcome a transaction over ms should have. */
  predicate Accepted(r: Outcome, ms: seq<Message>, payload: seq<Byte>, spent: bool, reply: seq<Byte>, sent: seq<Byte>)
    requires |reply| <= REPLYMAX
  {
    var opening := Opening(ms);
    && (r.ok <==> |opening| < |ms| && ms[|opening|] == Okay && Served(opening, payload, spent, REPLYMAX - |reply|))
    && (r.ok ==> r.reply == reply + Chunks(opening) && r.sent == sent + Uploads(GoAheads(opening), payload))
  }

  lemma OpeningStep(ms: seq<Message>)
    requires ms != [] && ms[0].GoesOn()
    ensures var opening, rest := Opening(ms), Opening(ms[1..]);
      && |opening| == |rest| + 1
      && Chunks(opening) == (if ms[0].Data? then ms[0].bytes else []) + Chunks(rest)
      && GoAheads(opening) == (if ms[0].GoAhead? then 1 else 0) + GoAheads(rest)
  {
    assert Opening(ms)[1..] == Opening(ms[1..]);
  }

  lemma GoAheadAccepted(r: Outcome, ms: seq<Message>, payload: seq<Byte>, spent: bool, reply: seq<Byte>, sent: seq<Byte>)
    requires |reply| <= REPLYMAX && ms != [] && ms[0] == GoAhead && (!spent || payload == [])
    requires Accepted(r, ms[1..], payload, true, reply, sent + Upload(payload))
    ensures Accepted(r, ms, payload, spent, reply, sent)
  {
    OpeningStep(ms);
    var rest := Opening(ms[1..]);
    assert [] + Chunks(rest) == Chunks(rest);
    var n := GoAheads(rest);
    assert sent + Upload(payload) + Uploads(n, payload) == sent + Uploads(n + 1, payload);
  }

  lemma DataAccepted(r: Outcome, ms: seq<Message>, payload: seq<Byte>, spent: bool, reply: seq<Byte>, sent: seq<Byte>)
    requires ms != [] && ms[0].Data? && |reply| + |ms[0].bytes| <= REPLYMAX
    requires Accepted(r, ms[1..], payload, spent, reply + ms[0].bytes, sent)
    ensures Accepted(r, ms, payload, spent, reply, sent)
  {
    OpeningStep(ms);
    var c, rest := ms[0].bytes, Opening(ms[1..]);
    assert reply + c + Chunks(rest) == reply + (c + Chunks(rest));
  }

  lemma ReplyToGoAhead(ms: seq<Message>, payload: seq<Byte>, spent: bool, reply: seq<Byte>, sent: seq<Byte>)
    requires AllSendable(ms) && ms != [] && ms[0] == GoAhead
    ensures Replies(Wire(ms), payload, spent, reply, sent) ==
      if spent && payload != [] then Outcome(false, reply, sent)
      else Replies(Wire(ms[1..]), payload, true, reply, sent + Upload(payload))
  {
    var tail := Wire(ms[1..]);
    assert [] + tail == tail;
    OneGoAhead(tail, payload, spent, reply, sent);
  }

  lemma ReplyToData(ms: seq<Message>, payload: seq<Byte>, spent: bool, reply: seq<Byte>, sent: seq<Byte>)
    requires AllSendable(ms) && ms != [] && ms[0].Data?
    ensures Replies(Wire(ms), payload, spent, reply, sent) ==
      if |reply| + |ms[0].bytes| > REPLYMAX then Outcome(false, reply, sent)
      else Replies(Wire(ms[1..]), payload, spent, reply + ms[0].bytes, sent)
  {
    assert ms[0] in ms;
    OneChunk(ms[0].bytes, Wire(ms[1..]), payload, spent, reply, sent);
  }

  lemma ReplyToOther(ms: seq<Message>, payload: seq<Byte>, spent: bool, reply: seq<Byte>, sent: seq<Byte>)
    requires AllSendable(ms) && ms != [] && !ms[0].GoesOn()
    ensures Replies(Wire(ms), payload, spent, reply, sent) == Outcome(ms[0] == Okay, reply, sent)
  {
    assert ms[0] in ms;
    LastHeader(ms[0].Opcode(), ms[0].Field(), ms[0].Body() + Wire(ms[1..]), payload, spent, reply, sent);
  }

  /** Whatever messages a device sends, the host's transaction succeeds if and only if the first one that is
      neither a go-ahead nor data is an OKAY, the data before it fits the reply buffer, and the file is not
      asked for twice; the reply is then that data in order, behind what the buffer held before, and the
      host has sent the file at every go-ahead. */
  lemma {:induction false} HostAccepts(ms: seq<Message>, payload: seq<Byte>, spent: bool, reply: seq<Byte>, sent: seq<Byte>)
    requires AllSendable(ms) && |reply| <= REPLYMAX
    ensures Accepted(Replies(Wire(ms), payload, spent, reply, sent), ms, payload, spent, reply, sent)
    decreases |ms|
  {
    var r := Replies(Wire(ms), payload, spent, reply, sent);
    if ms == [] {
    } else if ms[0].GoAhead? {
      ReplyToGoAhead(ms, payload, spent, reply, sent);
      if spent && payload != [] {
        OpeningStep(ms);
      } else {
        HostAccepts(ms[1..], payload, true, reply, sent + Upload(payload));
        GoAheadAccepted(r, ms, payload, spent, reply, sent);
      }
    } else if ms[0].Data? {
      ReplyToData(ms, payload, spent, reply, sent);
      if |reply| + |ms[0].bytes| > REPLYMAX {
        OpeningStep(ms);
      } else {
        HostAccepts(ms[1..], payload, spent, reply + ms[0].bytes, sent);
        DataAccepted(r, ms, payload, spent, reply, sent);
      }
    } else {
      ReplyToOther(ms, payload, spent, reply, sent);
      assert reply + [] == reply && sent + [] == sent;
    }
  }

  lemma WireThen(ms: seq<Message>, tail: seq<Byte>)
    requires AllSendable(ms) && ms != []
    ensures ms[0].Sendable()
    ensures Wire(ms) + tail == Header(ms[0].Opcode(), ms[0].Field()) + (ms[0].Body() + (Wire(ms[1..]) + tail))
  {
    var m := ms[0];
    assert m in ms;
    var h, b, w := Header(m.Opcode(), m.Field()), m.Body(), Wire(ms[1..]);
    assert h + (b + w) + tail == h + (b + (w + tail));
  }

  lemma CutMessage(m: Message, n: nat, payload: seq<Byte>, spent: bool, reply: seq<Byte>, sent: seq<Byte>)
    requires m.Sendable() && n < HEADER + |m.Body()|
    ensures !Replies((Header(m.Opcode(), m.Field()) + m.Body())[..n], payload, spent, reply, sent).ok
  {
    if n >= HEADER {
      var h, cut := Header(m.Opcode(), m.Field()), m.Body()[..n - HEADER];
      assert (h + m.Body())[..n] == h + cut;
      var input := h + cut;
      assert input[0] == h[0] && input[2] == h[2] && input[3] == h[3] && input[HEADER..] == cut;
      if !m.Data? {
        LastHeader(m.Opcode(), m.Field(), cut, payload, spent, reply, sent);
      }
    }
  }

  /** A stream that breaks off within a message makes the transaction fail, even after any go-aheads and data. */
  lemma {:induction false} BrokenStream(ms: seq<Message>, m: Message, n: nat, payload: seq<Byte>, spent: bool, reply: seq<Byte>, sent: seq<Byte>)
    requires AllSendable(ms) && m.Sendable() && (forall k :: k in ms ==> k.GoesOn()) && n < HEADER + |m.Body()|
    ensures !Replies(Wire(ms) + (Header(m.Opcode(), m.Field()) + m.Body())[..n], payload, spent, reply, sent).ok
    decreases |ms|
  {
    var tail := (Header(m.Opcode(), m.Field()) + m.Body())[..n];
    if ms == [] {
      assert Wire(ms) + tail == tail;
      CutMessage(m, n, payload, spent, reply, sent);
    } else {
      assert ms[0] in ms;
      WireThen(ms, tail);
      var rest := Wire(ms[1..]) + tail;
      if ms[0].GoAhead? {
        assert [] + rest == rest;
        OneGoAhead(rest, payload, spent, reply, sent);
        BrokenStream(ms[1..], m, n, payload, true, reply, sent + Upload(payload));
      } else {
        OneChunk(ms[0].bytes, rest, payload, spent, reply, sent);
        BrokenStream(ms[1..], m, n, payload, spent, reply + ms[0].bytes, sent);
      }
    }
  }

  // ---- what the device says ---------------------------------------------------------------------------

  /** A call of lkb_send for each message. */
  function Sends(ms: seq<Message>): seq<DeviceOp> {
    if ms == [] then [] else [DeviceOp.Send(ms[0].Opcode(), ms[0].Body())] + Sends(ms[1..])
  }

  /** The messages that come of it, in a phase: a go-ahead only at the beginning, a failure in place of any
      other, and nothing after the final message. */
  function Spoken(ms: seq<Message>, phase: Phase): seq<Message> {
    if ms == [] || phase == Phase.Done || phase == Phase.Error then []
    else
      match ms[0]
      case GoAhead => if phase == Phase.Open then [GoAhead] + Spoken(ms[1..], Phase.Data) else [Fail(INTERNAL_ERROR)]
      case Data(_) => [ms[0]] + Spoken(ms[1..], phase)
      case Log(_) => [ms[0]] + Spoken(ms[1..], phase)
      case _ => [ms[0]]
  }

  /** The text of the failure. */
  lemma ErrorText()
    ensures |INTERNAL_ERROR| == |"internal error"|
    ensures forall i :: 0 <= i < |INTERNAL_ERROR| ==> INTERNAL_ERROR[i] == "internal error"[i] as int
  {
  }

  lemma {:induction false} SpokenSendable(ms: seq<Message>, phase: Phase)
    requires AllSendable(ms)
    ensures AllSendable(Spoken(ms, phase))
    decreases |ms|
  {
    if ms != [] {
      assert ms[0] in ms;
      SpokenSendable(ms[1..], phase);
      SpokenSendable(ms[1..], Phase.Data);
    }
  }

  /** One call sends the one message, header and body, or, if pointers are not as large as the header, the
      header alone. */
  lemma SendsOne(d: Device, m: Message)
    requires m.Sendable() && !d.Ended() && !(m.GoAhead? && d.state != Open)
    ensures var e := d.After(DeviceOp.Send(m.Opcode(), m.Body()));
      && e.pointerSize == d.pointerSize
      && e.output == d.output + Header(m.Opcode(), m.Field()) + (if d.pointerSize == HEADER then m.Body() else [])
      && e.state == if d.pointerSize != HEADER then Error
                    else if m.Okay? || m.Fail? then Done else if m.GoAhead? then Phase.Data else d.state
  {
  }

  lemma RunEnded(d: Device, ms: seq<Message>)
    requires ms == [] || d.Ended()
    ensures d.Run(Sends(ms)) == d
    decreases |ms|
  {
    if ms != [] {
      assert Sends(ms)[1..] == Sends(ms[1..]);
      RunEnded(d, ms[1..]);
    }
  }

  lemma WireOne(m: Message, ms: seq<Message>)
    requires m.Sendable() && AllSendable(ms)
    ensures AllSendable([m] + ms)
    ensures Wire([m] + ms) == Header(m.Opcode(), m.Field()) + (m.Body() + Wire(ms))
  {
    assert ([m] + ms)[1..] == ms;
  }

  lemma SpeaksLast(d: Device, m: Message, ms: seq<Message>, e: Device)
    requires m.Sendable() && e.Ended() && e.output == d.output + Header(m.Opcode(), m.Field()) + m.Body()
    ensures AllSendable([m]) && e.Run(Sends(ms)).output == d.output + Wire([m])
  {
    RunEnded(e, ms);
    WireOne(m, []);
    assert [m] + [] == [m] && m.Body() + [] == m.Body();
    AppendTwice(d.output, Header(m.Opcode(), m.Field()), m.Body());
  }

  /** Whatever messages a device is asked to send, on a target whose pointers are as large as the header,
      exactly those spoken are on the wire. */
  lemma {:induction false} DeviceSpeaks(d: Device, ms: seq<Message>)
    requires AllSendable(ms) && d.pointerSize == HEADER
    ensures AllSendable(Spoken(ms, d.state)) && d.Run(Sends(ms)).output == d.output + Wire(Spoken(ms, d.state))
    decreases |ms|
  {
    SpokenSendable(ms, d.state);
    if ms == [] || d.Ended() {
      RunEnded(d, ms);
      assert d.output + [] == d.output;
    } else {
      var m := ms[0];
      assert m in ms;
      assert Sends(ms)[1..] == Sends(ms[1..]);
      var e := d.After(DeviceOp.Send(m.Opcode(), m.Body()));
      if m.GoAhead? && d.state != Open {
        SpeaksLast(d, Fail(INTERNAL_ERROR), ms[1..], e);
      } else {
        SendsOne(d, m);
        if m.Okay? || m.Fail? {
          SpeaksLast(d, m, ms[1..], e);
        } else {
          DeviceSpeaks(e, ms[1..]);
          var rest := Spoken(ms[1..], e.state);
          WireOne(m, rest);
          Associate(d.output, Header(m.Opcode(), m.Field()), m.Body(), Wire(rest));
        }
      }
    }
  }

  lemma WireHead(ms: seq<Message>)
    requires AllSendable(ms) && ms != []
    ensures ms[0].Sendable() && Wire(ms)[..HEADER] == Header(ms[0].Opcode(), ms[0].Field())
  {
    assert ms[0] in ms;
  }

  lemma HeaderAlone(d: Device, m: Message, said: Message)
    requires m.Sendable() && d.pointerSize != HEADER && !d.Ended()
    requires said == if m.GoAhead? && d.state != Open then Fail(INTERNAL_ERROR) else m
    ensures var e := d.After(DeviceOp.Send(m.Opcode(), m.Body()));
      e.state == Error && e.output == d.output + Header(said.Opcode(), said.Field())
  {
  }

  /** On any other target the device falls silent after the header of the first message. */
  lemma FallsSilent(d: Device, ms: seq<Message>)
    requires AllSendable(ms) && d.pointerSize != HEADER && ms != [] && !d.Ended()
    ensures Spoken(ms, d.state) != [] && AllSendable(Spoken(ms, d.state))
    ensures d.Run(Sends(ms)).output == d.output + Wire(Spoken(ms, d.state))[..HEADER]
    ensures d.Run(Sends(ms)).state == Error
  {
    var m := ms[0];
    assert m in ms;
    SpokenSendable(ms, d.state);
    WireHead(Spoken(ms, d.state));
    HeaderAlone(d, m, Spoken(ms, d.state)[0]);
    var e := d.After(DeviceOp.Send(m.Opcode(), m.Body()));
    assert Sends(ms)[1..] == Sends(ms[1..]);
    RunEnded(e, ms[1..]);
  }

  /** So the host's transaction with any device that sends one message after the other comes out as the
      messages spoken say. */
  lemma SpeaksAndAccepts(d: Device, ms: seq<Message>, payload: seq<Byte>, reply: seq<Byte>)
    requires AllSendable(ms) && d.pointerSize == HEADER && d.output == [] && |reply| <= REPLYMAX
    ensures Accepted(Replies(d.Run(Sends(ms)).output, payload, false, reply, []), Spoken(ms, d.state), payload, false, reply, [])
  {
    DeviceSpeaks(d, ms);
    var spoken := Spoken(ms, d.state);
    assert [] + Wire(spoken) == Wire(spoken);
    HostAccepts(spoken, payload, false, reply, []);
  }

  /** The protocol lets a device send a log message at any time. One that asks for the data, sends a log
      message and confirms sends exactly what the protocol describes; but the host fails, while without
      the log message it succeeds. */
  lemma LogEndsTransaction(text: seq<Byte>, payload: seq<Byte>)
    requires |text| < CHUNK
    ensures var d := Device(Open, 0, Upload(payload), [], HEADER);
      var logged := [DeviceOp.Send(MSG_GO_AHEAD, []), DeviceOp.Send(MSG_LOG, text), DeviceOp.Send(MSG_OKAY, [])];
      var plain := [DeviceOp.Send(MSG_GO_AHEAD, []), DeviceOp.Send(MSG_OKAY, [])];
      && d.Run(logged).output == Wire([GoAhead, Log(text), Okay])
      && !Replies(d.Run(logged).output, payload, false, [], []).ok
      && d.Run(plain).output == Wire([GoAhead, Okay])
      && Replies(d.Run(plain).output, payload, false, [], []) == Outcome(true, [], Upload(payload))
  {
    var d := Device(Open, 0, Upload(payload), [], HEADER);
    LoggedRun(d, text);
    var ms := [GoAhead, Log(text), Okay];
    assert ms[1..] == [Log(text), Okay];
    OpeningStep(ms);
    assert ms[|Opening(ms)|] == Log(text);
    HostAccepts(ms, payload, false, [], []);
    var plain := [GoAhead, Okay];
    assert plain[1..] == [Okay];
    OpeningStep(plain);
    HostAccepts(plain, payload, false, [], []);
    assert Uploads(1, payload) == Upload(payload) + Uploads(0, payload) == Upload(payload);
  }

  lemma LoggedRun(d: Device, text: seq<Byte>)
    requires d.state == Open && d.output == [] && d.pointerSize == HEADER && |text| < CHUNK
    ensures d.Run([DeviceOp.Send(MSG_GO_AHEAD, []), DeviceOp.Send(MSG_LOG, text), DeviceOp.Send(MSG_OKAY, [])]).output ==
      Wire([GoAhead, Log(text), Okay])
    ensures d.Run([DeviceOp.Send(MSG_GO_AHEAD, []), DeviceOp.Send(MSG_OKAY, [])]).output == Wire([GoAhead, Okay])
  {
    var go, log, okay := DeviceOp.Send(MSG_GO_AHEAD, []), DeviceOp.Send(MSG_LOG, text), DeviceOp.Send(MSG_OKAY, []);
    var d1 := d.After(go);
    var d2 := d1.After(log);
    assert [go, log, okay][1..] == [log, okay] && [log, okay][1..] == [okay] && [okay][1..] == [] && [go, okay][1..] == [okay];
    assert d.Run([go, log, okay]) == d1.Run([log, okay]) == d2.Run([okay]) == d2.After(okay).Run([]);
    assert d.Run([go, okay]) == d1.Run([okay]) == d1.After(okay).Run([]);
    var g, l, o := Header(MSG_GO_AHEAD, 0), Header(MSG_LOG, |text|), Header(MSG_OKAY, 0);
    assert d1.output == g && d2.output == g + l + text;
    LoggedWire(text);
  }

  lemma LoggedWire(text: seq<Byte>)
    requires |text| < CHUNK
    ensures var g, l, o := Header(MSG_GO_AHEAD, 0), Header(MSG_LOG, |text|), Header(MSG_OKAY, 0);
      && Wire([GoAhead, Log(text), Okay]) == g + l + text + o
      && Wire([GoAhead, Okay]) == g + o
  {
    var g, l, o := Header(MSG_GO_AHEAD, 0), Header(MSG_LOG, |text|), Header(MSG_OKAY, 0);
    var ms, plain := [GoAhead, Log(text), Okay], [GoAhead, Okay];
    assert ms[1..] == [Log(text), Okay] && ms[1..][1..] == [Okay] && plain[1..] == [Okay] && [Okay][1..] == [];
    assert Wire([Okay]) == o + ([] + []) == o;
    assert Wire(ms[1..]) == l + (text + o);
    assert Wire(plain) == g + ([] + o) == g + o;
    assert Wire(ms) == g + ([] + (l + (text + o))) == g + l + text + o;
  }

  // ---- the two sides together -------------------------------------------------------------------------

  lemma FirstReply(data: seq<Byte>, payload: seq<Byte>, reply: seq<Byte>)
    requires data != []
    ensures var x, end := ChunkSize(|data|), Header(MSG_OKAY, 0);
      Replies(Frames(data) + end, payload, false, reply, []) ==
        if |reply| + x > REPLYMAX then Outcome(false, reply, [])
        else Replies(Frames(data[x..]) + end, payload, false, reply + data[..x], [])
  {
    var x, end := ChunkSize(|data|), Header(MSG_OKAY, 0);
    FramesBefore(data, end);
    OneChunk(data[..x], Frames(data[x..]) + end, payload, false, reply, []);
  }

  lemma OnlyOkay(payload: seq<Byte>, reply: seq<Byte>)
    ensures Replies(Header(MSG_OKAY, 0), payload, false, reply, []) == Outcome(true, reply, [])
  {
    LastHeader(MSG_OKAY, 0, [], payload, false, reply, []);
    assert Header(MSG_OKAY, 0) == Header(MSG_OKAY, 0) + [];
  }

  /** r is the outcome that delivers data, behind what the reply buffer held before, if there is room. */
  predicate Whole(r: Outcome, data: seq<Byte>, reply: seq<Byte>) {
    (r.ok <==> |reply| + |data| <= REPLYMAX) && (r.ok ==> r.reply == reply + data)
  }

  lemma WholeStep(r: Outcome, data: seq<Byte>, x: nat, reply: seq<Byte>)
    requires x <= |data| && Whole(r, data[x..], reply + data[..x])
    ensures Whole(r, data, reply)
  {
    assert reply + data[..x] + data[x..] == reply + data;
  }

  /** What the device writes and then confirms, the host reassembles, behind what its reply buffer holds
      from before; it fails exactly if the buffer is too small. */
  lemma {:induction false} Reassembles(data: seq<Byte>, payload: seq<Byte>, reply: seq<Byte>)
    requires |reply| <= REPLYMAX
    ensures Whole(Replies(Frames(data) + Header(MSG_OKAY, 0), payload, false, reply, []), data, reply)
    decreases |data|
  {
    var r := Replies(Frames(data) + Header(MSG_OKAY, 0), payload, false, reply, []);
    if data == [] {
      OnlyOkay(payload, reply);
      assert Frames(data) + Header(MSG_OKAY, 0) == Header(MSG_OKAY, 0);
      assert reply + data == reply;
    } else {
      var x := ChunkSize(|data|);
      FirstReply(data, payload, reply);
      if |reply| + x <= REPLYMAX {
        Reassembles(data[x..], payload, reply + data[..x]);
        WholeStep(r, data, x, reply);
      }
    }
  }

  /** lkb_write and a final OKAY on the device, then the loop of lkboot_txn on the host: the identity, up
      to the size of the reply buffer, on a target whose pointers are as large as the header. */
  lemma WriteThenReply(d: Device, data: seq<Byte>, payload: seq<Byte>, reply: seq<Byte>)
    requires d.state == Phase.Data && d.output == [] && d.pointerSize == HEADER && |reply| <= REPLYMAX && data != []
    ensures var (e, ok) := d.Write(data).0.Send(MSG_OKAY, []);
      && d.Write(data).1 && ok
      && var r := Replies(e.output, payload, false, reply, []);
         Whole(r, data, reply)
  {
    d.WritesFrames(data);
    Reassembles(data, payload, reply);
    var e := d.Write(data).0;
    assert e.output == Frames(data);
    assert e.Send(MSG_OKAY, []).0.output == Frames(data) + Header(MSG_OKAY, 0);
  }

  /** A whole upload: the device asks for the data, the host sends it, and any reads of the device within
      its length deliver it. */
  lemma UploadThenRead(d: Device, payload: seq<Byte>, sizes: seq<nat>)
    requires d.state == Open && d.output == [] && d.pointerSize == HEADER && d.avail == 0 && Sum(sizes) <= |payload|
    ensures var asked := d.Send(MSG_GO_AHEAD, []).0;
      && Replies(asked.output, payload, false, [], []).sent == Upload(payload)
      && asked.(input := Upload(payload)).ReadAll(sizes) == Some(payload[..Sum(sizes)])
  {
    var asked := d.Send(MSG_GO_AHEAD, []).0;
    assert asked.output == Header(MSG_GO_AHEAD, 0) == Header(MSG_GO_AHEAD, 0) + [];
    OneGoAhead([], payload, false, [], []);
    assert [] + Upload(payload) == Upload(payload);
    var fed := asked.(input := Upload(payload));
    assert payload[..0] == [] && payload[0..] == payload;
    assert fed.Feeds(payload);
    fed.ReadsDeliverPayload(payload, sizes);
  }

  // ---- the code -----------------------------------------------------------------------------------

  /** One round of upload's loop ... */
  lemma FrameAt(sent: seq<Byte>, buf: seq<Byte>, pos: nat)
    requires pos < |buf|
    ensures var x := ChunkSize(|buf| - pos);
      sent + Frames(buf[pos..]) == sent + Header(MSG_SEND_DATA, x - 1) + buf[pos..pos + x] + Frames(buf[pos + x..])
  {
    var p, x := buf[pos..], ChunkSize(|buf| - pos);
    assert p[..x] == buf[pos..pos + x] && p[x..] == buf[pos + x..];
    FramesAfter(sent, p);
  }

  /** ... and its end. */
  lemma FramesEnd(before: seq<Byte>, sent: seq<Byte>, buf: seq<Byte>)
    requires sent + Frames(buf[|buf|..]) == before + Frames(buf)
    ensures sent + Header(MSG_END_DATA, 0) == before + Upload(buf)
  {
    assert buf[|buf|..] == [];
    assert sent == before + Frames(buf);
    AppendTwice(before, Frames(buf), Header(MSG_END_DATA, 0));
  }

  class Host {
    const replybuf: array<Byte>
    var replylen: nat
    var input: seq<Byte>
    var sent: seq<Byte>

    ghost predicate Valid()
      reads this
    {
      replybuf.Length == REPLYMAX && replylen <= REPLYMAX
    }

    /** lkboot_get_reply. */
    function Reply(): seq<Byte>
      reads this, replybuf
      requires Valid()
    {
      replybuf[..replylen]
    }

    constructor (input: seq<Byte>)
      ensures Valid() && Reply() == [] && this.input == input && sent == []
      ensures fresh(replybuf)
    {
      replybuf := new Byte[REPLYMAX](_ => 0);
      replylen, this.input, sent := 0, input, [];
    }

    /** readx. */
    method ReadX(n: nat) returns (data: Option<seq<Byte>>)
      modifies this`input
      ensures data == if |old(input)| < n then None else Some(old(input)[..n])
      ensures input == if |old(input)| < n then old(input) else old(input)[n..]
    {
      if |input| < n {
        return None;
      }
      data := Some(input[..n]);
      input := input[n..];
    }

    method SendFrame(chunk: seq<Byte>)
      requires 0 < |chunk| <= CHUNK
      modifies this`sent
      ensures sent == old(sent) + Header(MSG_SEND_DATA, |chunk| - 1) + chunk
    {
      sent := sent + Header(MSG_SEND_DATA, |chunk| - 1);
      sent := sent + chunk;
    }

    /** upload. */
    method UploadAll(buf: seq<Byte>)
      modifies this`sent
      ensures sent == old(sent) + Upload(buf)
    {
      var pos := 0;
      assert buf[0..] == buf;
      while pos < |buf|
        invariant 0 <= pos <= |buf|
        invariant sent + Frames(buf[pos..]) == old(sent) + Frames(buf)
      {
        var xfer := ChunkSize(|buf| - pos);
        FrameAt(sent, buf, pos);
        SendFrame(buf[pos..pos + xfer]);
        pos := pos + xfer;
      }
      FramesEnd(old(sent), sent, buf);
      sent := sent + Header(MSG_END_DATA, 0);
    }

    /** memcpy to the end of the reply buffer. */
    method Append(tmp: seq<Byte>)
      requires Valid() && replylen + |tmp| <= REPLYMAX
      modifies this`replylen, replybuf
      ensures Valid() && Reply() == old(Reply()) + tmp
    {
      var i := 0;
      while i < |tmp|
        invariant 0 <= i <= |tmp| && replylen == old(replylen)
        invariant replybuf[..replylen + i] == old(Reply()) + tmp[..i]
      {
        replybuf[replylen + i] := tmp[i];
        assert replybuf[..replylen + i + 1] == replybuf[..replylen + i] + [tmp[i]];
        assert tmp[..i + 1] == tmp[..i] + [tmp[i]];
        i := i + 1;
      }
      assert tmp[..i] == tmp;
      replylen := replylen + |tmp|;
    }

    /** A data message whose header was read: its data goes to the reply buffer, if it fits. */
    method Collect(n: nat) returns (ok: bool)
      requires Valid()
      modifies this`input, this`replylen, replybuf
      ensures Valid() && sent == old(sent)
      ensures ok <==> |old(input)| >= n && |old(Reply())| + n <= REPLYMAX
      ensures ok ==> Reply() == old(Reply()) + old(input)[..n] && input == old(input)[n..]
      ensures !ok ==> Reply() == old(Reply())
    {
      var tmp := ReadX(n);
      if tmp.None? || |tmp.value| > REPLYMAX - replylen {
        return false;
      }
      Append(tmp.value);
      return true;
    }

    /** The loop of lkboot_txn; the reply buffer is not emptied before it. */
    method Transaction(payload: seq<Byte>) returns (ok: bool)
      requires Valid()
      modifies this, replybuf
      ensures Valid()
      ensures Outcome(ok, Reply(), sent) == Replies(old(input), payload, false, old(Reply()), old(sent))
    {
      var spent := false;
      ghost var all := Replies(input, payload, spent, Reply(), sent);
      while true
        invariant Valid() && Replies(input, payload, spent, Reply(), sent) == all
        decreases |input|
      {
        ghost var before := input;
        var hdr := ReadX(HEADER);
        if hdr.None? {
          return false;
        }
        var opcode := hdr.value[0];
        if opcode == MSG_GO_AHEAD {
          if spent && payload != [] {
            return false;
          }
          spent := true;
          UploadAll(payload);
        } else if opcode == MSG_OKAY {
          return true;
        } else if opcode == MSG_SEND_DATA {
          var fits := Collect(LengthOf(hdr.value) + 1);
          if !fits {
            return false;
          }
        } else {
          return false;
        }
      }
    }
  }
}
