/** The framing of the local API: the server loop of `src/api.rs` and the call of
    `src/client/mod.rs`. */
module ApiFraming {
  import opened Basics

  type Bytes = seq<Byte>

  const MAX32: nat := 0xFFFF_FFFF

  function ToLe4(n: nat): (b: Bytes)
    requires n <= MAX32
    ensures |b| == 4
  {
    [n % 0x100, n / 0x100 % 0x100, n / 0x1_0000 % 0x100, n / 0x100_0000]
  }

  function FromLe4(b: Bytes): (n: nat)
    requires |b| == 4
    ensures n <= MAX32
  {
    b[0] + (b[1] as nat) * 0x100 + (b[2] as nat) * 0x1_0000 + (b[3] as nat) * 0x100_0000
  }

  /** The number a byte string stands for, the lowest byte first. */
  function LittleEndian(b: Bytes): nat {
    if b == [] then 0 else b[0] + 0x100 * LittleEndian(b[1..])
  }

  lemma IsLittleEndian(b: Bytes)
    requires |b| == 4
    ensures FromLe4(b) == LittleEndian(b)
  {
    assert b[1..][1..] == b[2..] && b[2..][1..] == b[3..] && b[3..][1..] == [];
    assert LittleEndian(b[3..]) == b[3];
    assert LittleEndian(b[2..]) == b[2] + 0x100 * LittleEndian(b[3..]);
  }

  /** The bytes of a frame: a zero, the length in four bytes with the lowest first, the payload. */
  lemma FrameLayout(p: Bytes)
    requires |p| < 0x1_0000_0000
    ensures var f := Frame(p); |f| == 5 + |p| && f[0] == 0 && LittleEndian(f[1..5]) == |p| && f[5..] == p
  {
    Le4Undo(|p|);
    IsLittleEndian(ToLe4(|p|));
    assert Frame(p)[1..5] == ToLe4(|p|);
    hide LittleEndian, ToLe4, FromLe4;
  }

  /** What a reader makes of a byte string. */
  lemma ReadExactly(input: Bytes)
    ensures match ReadFrame(input)
            case End => |input| < 5
            case Broken => |input| >= 5 && (input[0] != 0 || |input| < 5 + LittleEndian(input[1..5]))
            case Payload(p, rest) =>
              && |input| >= 5 && input[0] == 0 && |p| == LittleEndian(input[1..5])
              && input == input[..5] + p + rest
  {
    if |input| >= 5 {
      IsLittleEndian(input[1..5]);
    }
    hide FromLe4, LittleEndian;
  }

  lemma Le4Undo(n: nat)
    requires n <= MAX32
    ensures FromLe4(ToLe4(n)) == n
  {
    var q := n / 0x1_0000;
    assert n / 0x100_0000 == q / 0x100;
    assert n == n / 0x1_0000 * 0x1_0000 + n % 0x1_0000;
  }

  /** A frame: a zero, the payload length in four bytes, the payload. */
  function Frame(p: Bytes): Bytes
    requires |p| <= MAX32
  {
    [0] + ToLe4(|p|) + p
  }

  datatype Read = Payload(p: Bytes, rest: Bytes) | End | Broken

  /** One frame from the front of the stream. A stream that ends inside the header counts as a
      clean end for the server, inside the body as an error. */
  function ReadFrame(input: Bytes): Read {
    if |input| < 5 then End
    else if input[0] != 0 then Broken
    else
      var n := FromLe4(input[1..5]);
      if |input| - 5 < n then Broken else Payload(input[5..5 + n], input[5 + n..])
  }

  lemma ReadFramed(p: Bytes, rest: Bytes)
    requires |p| <= MAX32
    ensures ReadFrame(Frame(p) + rest) == Payload(p, rest)
  {
    var input := Frame(p) + rest;
    Le4Undo(|p|);
    assert input[1..5] == ToLe4(|p|);
    assert input[5..5 + |p|] == p && input[5 + |p|..] == rest;
  }

  /** A handler answers a payload, or fails on one that does not unpack or has the wrong version. */
  type Handler = Bytes -> Option<Bytes>

  predicate Answered(h: Handler, p: Bytes) {
    h(p).Some? && |h(p).value| <= MAX32
  }

  /** The peer's side of a connection: the bytes it sends, whether reading past them is an error
      rather than the end of the stream, and how many bytes it takes before writing fails. */
  datatype Peer = Peer(input: Bytes, broken: bool, room: nat)

  /** What the server wrote, the payloads it recovered, and whether the connection ended cleanly. */
  datatype Served = Served(output: Bytes, requests: seq<Bytes>, ok: bool)

  function Serve(h: Handler, peer: Peer): Served
    decreases |peer.input|
  {
    match ReadFrame(peer.input)
    case End => Served([], [], !peer.broken)
    case Broken => Served([], [], false)
    case Payload(p, rest) =>
      if !Answered(h, p) then Served([], [p], false)
      else
        var f := Frame(h(p).value);
        if |f| > peer.room then Served(f[..peer.room], [p], false)
        else
          var s := Serve(h, Peer(rest, peer.broken, peer.room - |f|));
          Served(f + s.output, [p] + s.requests, s.ok)
  }

  function Then(output: Bytes, requests: seq<Bytes>, s: Served): Served {
    Served(output + s.output, requests + s.requests, s.ok)
  }

  lemma ThenStep(output: Bytes, requests: seq<Bytes>, a: Bytes, p: Bytes, s: Served)
    ensures Then(output, requests, Served(a + s.output, [p] + s.requests, s.ok)) == Then(output + a, requests + [p], s)
    ensures Then(output, requests, Served([], [], s.ok)) == Served(output, requests, s.ok)
    ensures Then(output, requests, Served(a, [p], false)) == Served(output + a, requests + [p], false)
    ensures Then([], [], s) == s
  {
    assert output + (a + s.output) == output + a + s.output;
    assert requests + ([p] + s.requests) == requests + [p] + s.requests;
    assert [] + s.output == s.output && [] + s.requests == s.requests;
  }

  /** One turn of the server loop on what is left of the stream. */
  lemma ServeStep(h: Handler, input: Bytes, pos: nat, broken: bool, room: nat)
    requires pos <= |input|
    ensures var left := input[pos..]; var served := Serve(h, Peer(left, broken, room));
            if |left| < 5 then served == Served([], [], !broken)
            else if left[0] != 0 then served == Served([], [], false)
            else
              var n := FromLe4(input[pos + 1..pos + 5]);
              if |left| - 5 < n then served == Served([], [], false)
              else
                var p := input[pos + 5..pos + 5 + n];
                if !Answered(h, p) then served == Served([], [p], false)
                else
                  var f := Frame(h(p).value);
                  if |f| > room then served == Served(f[..room], [p], false)
                  else
                    var s := Serve(h, Peer(input[pos + 5 + n..], broken, room - |f|));
                    served == Served(f + s.output, [p] + s.requests, s.ok)
  {
    hide FromLe4, Frame;
    var left := input[pos..];
    if |left| >= 5 && left[0] == 0 {
      assert left[1..5] == input[pos + 1..pos + 5];
      var n := FromLe4(left[1..5]);
      if |left| - 5 >= n {
        assert left[5..5 + n] == input[pos + 5..pos + 5 + n] && left[5 + n..] == input[pos + 5 + n..];
      }
    }
  }

  /** `handle_api_stream` */
  method HandleStream(h: Handler, peer: Peer) returns (output: Bytes, requests: seq<Bytes>, ok: bool)
    ensures Served(output, requests, ok) == Serve(h, peer)
  {
    hide Serve, FromLe4, ToLe4, Then;
    output, requests, ok := [], [], true;
    var input, pos := peer.input, 0;
    var room: nat := peer.room;
    assert input[0..] == input;
    ThenStep([], [], [], [], Serve(h, peer));
    while true
      invariant 0 <= pos <= |input| && ok
      invariant Serve(h, peer) == Then(output, requests, Serve(h, Peer(input[pos..], peer.broken, room)))
      decreases |input| - pos
    {
      ServeStep(h, input, pos, peer.broken, room);
      if |input| - pos < 5 {
        ThenStep(output, requests, [], [], Served([], [], !peer.broken));
        return output, requests, !peer.broken;
      }
      ThenStep(output, requests, [], [], Served([], [], false));
      if input[pos] != 0 {
        return output, requests, false;
      }
      var n := FromLe4(input[pos + 1..pos + 5]);
      if |input| - pos - 5 < n {
        return output, requests, false;
      }
      var p := input[pos + 5..pos + 5 + n];
      var answer := h(p);
      if answer == None || |answer.value| > MAX32 {
        ThenStep(output, requests, [], p, Served([], [], false));
        assert output + [] == output;
        return output, requests + [p], false;
      }
      var buf := [0];
      buf := buf + ToLe4(|answer.value|);
      buf := buf + answer.value;
      if |buf| > room {
        ThenStep(output, requests, buf[..room], p, Served([], [], false));
        return output + buf[..room], requests + [p], false;
      }
      ThenStep(output, requests, buf, p, Serve(h, Peer(input[pos + 5 + n..], peer.broken, room - |buf|)));
      output, requests, room := output + buf, requests + [p], room - |buf|;
      pos := pos + 5 + n;
    }
  }

  function Frames(ps: seq<Bytes>): Bytes
    requires forall i :: 0 <= i < |ps| ==> |ps[i]| <= MAX32
  {
    if ps == [] then [] else Frame(ps[0]) + Frames(ps[1..])
  }

  function Answers(h: Handler, ps: seq<Bytes>): (r: seq<Bytes>)
    requires forall i :: 0 <= i < |ps| ==> Answered(h, ps[i])
    ensures |r| == |ps| && forall i :: 0 <= i < |r| ==> |r[i]| <= MAX32
  {
    if ps == [] then []
    else
      assert Answered(h, ps[0]);
      [h(ps[0]).value] + Answers(h, ps[1..])
  }

  /** One answered frame in front of whatever follows. */
  lemma ServeFramed(h: Handler, p: Bytes, rest: Bytes, broken: bool, room: nat)
    requires |p| <= MAX32 && Answered(h, p) && |Frame(h(p).value)| <= room
    ensures var f := Frame(h(p).value); var s := Serve(h, Peer(rest, broken, room - |f|));
            Serve(h, Peer(Frame(p) + rest, broken, room)) == Served(f + s.output, [p] + s.requests, s.ok)
  {
    ReadFramed(p, rest);
    hide Frame, ReadFrame;
  }

  /** On any number of well-formed frames the server recovers exactly their payloads in order and
      answers each with one well-formed frame. What comes after them, if it is no frame, ends the
      connection: cleanly if it is less than a header and the stream just ends there. */
  lemma {:induction false} ServesAll(h: Handler, ps: seq<Bytes>, tail: Bytes, broken: bool, room: nat)
    requires forall i :: 0 <= i < |ps| ==> |ps[i]| < 0x1_0000_0000 && Answered(h, ps[i])
    requires |Frames(Answers(h, ps))| <= room && !ReadFrame(tail).Payload?
    ensures Serve(h, Peer(Frames(ps) + tail, broken, room))
            == Served(Frames(Answers(h, ps)), ps, |tail| < 5 && !broken)
  {
    if ps == [] {
      assert Frames(ps) + tail == tail;
    } else {
      hide Frame, ReadFrame, Serve;
      var f := Frame(h(ps[0]).value);
      assert Answers(h, ps)[1..] == Answers(h, ps[1..]);
      assert Frames(Answers(h, ps)) == f + Frames(Answers(h, ps[1..]));
      assert Frames(ps) + tail == Frame(ps[0]) + (Frames(ps[1..]) + tail);
      ServeFramed(h, ps[0], Frames(ps[1..]) + tail, broken, room);
      ServesAll(h, ps[1..], tail, broken, room - |f|);
      assert [ps[0]] + ps[1..] == ps;
    }
  }

  /** A payload is answered if its handler has an answer whose length fits 32 bits. */
  lemma AnsweredExactly(h: Handler, p: Bytes)
    ensures Answered(h, p) <==> h(p).Some? && |h(p).value| < 0x1_0000_0000
  {
  }

  /** The first payload that is not answered ends the connection; those before it are answered. */
  lemma {:induction false} ServesUntilFailure(h: Handler, ps: seq<Bytes>, k: nat, broken: bool, room: nat)
    requires k < |ps| && !Answered(h, ps[k])
    requires forall i :: 0 <= i < |ps| ==> |ps[i]| <= MAX32
    requires forall i :: 0 <= i < k ==> Answered(h, ps[i])
    requires |Frames(Answers(h, ps[..k]))| <= room
    ensures Serve(h, Peer(Frames(ps), broken, room)) == Served(Frames(Answers(h, ps[..k])), ps[..k + 1], false)
  {
    hide Frame, ReadFrame;
    if k == 0 {
      ReadFramed(ps[0], Frames(ps[1..]));
      assert ps[..1] == [ps[0]];
    } else {
      FirstAnswer(h, ps, k);
      var f := Frame(h(ps[0]).value);
      hide Serve, Answers;
      ServeFramed(h, ps[0], Frames(ps[1..]), broken, room);
      ServesUntilFailure(h, ps[1..], k - 1, broken, room - |f|);
      assert Frames(ps) == Frame(ps[0]) + Frames(ps[1..]);
      hide Frames;
      assert ps[..k + 1] == [ps[0]] + ps[1..][..k];
    }
  }

  lemma FirstAnswer(h: Handler, ps: seq<Bytes>, k: nat)
    requires 0 < k <= |ps| && forall i :: 0 <= i < k ==> Answered(h, ps[i])
    ensures Frames(Answers(h, ps[..k])) == Frame(h(ps[0]).value) + Frames(Answers(h, ps[1..][..k - 1]))
  {
    hide Frame;
    assert ps[1..][..k - 1] == ps[..k][1..];
    assert Answers(h, ps[..k])[1..] == Answers(h, ps[..k][1..]);
  }

  /** A failing write only cuts the output: what the peer takes is the beginning of what it would
      have got with unlimited room, and a cut connection does not end cleanly. */
  lemma {:induction false} WriteCutsOutput(h: Handler, peer: Peer, room: nat)
    requires peer.room <= room
    ensures var cut, full := Serve(h, peer), Serve(h, peer.(room := room));
            && cut.output <= full.output && cut.requests <= full.requests
            && (if |full.output| <= peer.room then cut == full
                else |cut.output| == peer.room && !cut.ok)
    decreases |peer.input|
  {
    hide Frame, Serve, Answered;
    ServeOne(h, peer);
    ServeOne(h, peer.(room := room));
    match ReadFrame(peer.input)
    case Payload(p, rest) =>
      if Answered(h, p) && |AnswerTo(h, p)| <= peer.room {
        var f := AnswerTo(h, p);
        WriteCutsOutput(h, Peer(rest, peer.broken, peer.room - |f|), room - |f|);
      }
    case _ =>
  }

  function AnswerTo(h: Handler, p: Bytes): Bytes
    requires Answered(h, p)
  {
    Frame(h(p).value)
  }

  /** What one frame contributes. */
  lemma ServeOne(h: Handler, peer: Peer)
    ensures match ReadFrame(peer.input)
            case Payload(p, rest) =>
              if !Answered(h, p) then Serve(h, peer) == Served([], [p], false)
              else
                var f := AnswerTo(h, p);
                if |f| > peer.room then Serve(h, peer) == Served(f[..peer.room], [p], false)
                else
                  var s := Serve(h, Peer(rest, peer.broken, peer.room - |f|));
                  Serve(h, peer) == Served(f + s.output, [p] + s.requests, s.ok)
            case _ => Serve(h, peer) == Served([], [], ReadFrame(peer.input).End? && !peer.broken)
  {
    hide Frame, ReadFrame;
  }

  /** `_api_call` up to unpacking: the frame it sends, and the payload it reads back. The server
      sees the end of the stream or an error after the request, and may fail to write its answer. */
  method Call(h: Handler, request: Bytes, broken: bool, room: nat) returns (reply: Option<Bytes>)
    requires |request| <= MAX32
    ensures reply == if Answered(h, request) && |h(request).value| + 5 <= room then h(request) else None
  {
    var buf: Bytes := [0];
    buf := buf + ToLe4(|request|);
    buf := buf + request;
    assert buf == Frame(request) + [];
    var output, requests, ok := HandleStream(h, Peer(buf, broken, room));
    ReadFramed(request, []);
    if Answered(h, request) {
      var a := h(request).value;
      ReadFramed(a, []);
      assert Frame(a) + [] == Frame(a);
      if |Frame(a)| <= room {
        ServeFramed(h, request, [], broken, room);
      } else {
        CutFrame(a, room);
      }
    }
    match ReadFrame(output)
    case Payload(p, _) => reply := Some(p);
    case _ => reply := None;
  }

  /** A frame that was cut off is not read as a payload. */
  lemma CutFrame(p: Bytes, room: nat)
    requires |p| <= MAX32 && room < |Frame(p)|
    ensures !ReadFrame(Frame(p)[..room]).Payload?
  {
    Le4Undo(|p|);
    if room >= 5 {
      assert Frame(p)[..room][1..5] == ToLe4(|p|);
    }
  }
}
