/**
 The framed byte stream of src/ipc.rs. A message travels as a four byte length, lowest byte first, and
 a body. Sockets are pipes that take and give as many bytes at a time as they like. The JSON text of
 messages is not modelled: a codec turns messages into bodies.
 */
module Ipc {
  import opened Wrappers
  import opened Sequences

  type Byte = n: nat | n < 0x100

  type Bytes = seq<Byte>

  // ---------- Lengths ----------

  /** The four casts of `encode`: bits beyond the lowest 32 are lost. */
  function LengthPrefix(n: nat): (prefix: Bytes)
    ensures |prefix| == 4
  {
    [n % 0x100, n / 0x100 % 0x100, n / 0x1_0000 % 0x100, n / 0x100_0000 % 0x100]
  }

  function ParseLength(buf: Bytes): nat
    requires |buf| == 4
  {
    var b0: nat, b1: nat, b2: nat, b3: nat := buf[0], buf[1], buf[2], buf[3];
    b3 * 0x100_0000 + b2 * 0x1_0000 + b1 * 0x100 + b0
  }

  /** Reading a length inverts writing it exactly when the length fits 32 bits. */
  lemma ParseLengthInverts(n: nat)
    ensures ParseLength(LengthPrefix(n)) == n <==> n < 0x1_0000_0000
  {
    ParseLengthWraps(n);
  }

  /** Of a longer one, what is read is the remainder. */
  lemma ParseLengthWraps(n: nat)
    ensures ParseLength(LengthPrefix(n)) == n % 0x1_0000_0000
  {
    var a, b, c, d := n / 0x100, n / 0x1_0000, n / 0x100_0000, n / 0x1_0000_0000;
    assert n == a * 0x100 + n % 0x100;
    assert a == b * 0x100 + a % 0x100;
    assert b == c * 0x100 + b % 0x100;
    assert c == d * 0x100 + c % 0x100;
    assert n == d * 0x1_0000_0000 + ParseLength(LengthPrefix(n));
  }

  /** The other direction: every four bytes are the prefix of the length they say. */
  lemma LengthPrefixInverts(buf: Bytes)
    requires |buf| == 4
    ensures ParseLength(buf) < 0x1_0000_0000 && LengthPrefix(ParseLength(buf)) == buf
  {
    var n := ParseLength(buf);
    var b1: nat, b2: nat, b3: nat := buf[1], buf[2], buf[3];
    assert n / 0x100 == b3 * 0x1_0000 + b2 * 0x100 + b1;
    assert n / 0x1_0000 == b3 * 0x100 + b2;
    assert n / 0x100_0000 == b3;
  }

  /** A number written with its lowest byte first. */
  function LittleEndian(bytes: Bytes): nat {
    if bytes == [] then 0
    else
      var lowest: nat := bytes[0];
      lowest + 0x100 * LittleEndian(bytes[1..])
  }

  /** The length stands in the prefix with its lowest byte first. */
  lemma LowestByteFirst(buf: Bytes, n: nat)
    requires |buf| == 4
    ensures ParseLength(buf) == LittleEndian(buf)
    ensures LittleEndian(LengthPrefix(n)) == n % 0x1_0000_0000
  {
    LittleEndianFour(buf);
    LittleEndianFour(LengthPrefix(n));
    ParseLengthWraps(n);
  }

  lemma LittleEndianFour(buf: Bytes)
    requires |buf| == 4
    ensures var b0: nat, b1: nat, b2: nat, b3: nat := buf[0], buf[1], buf[2], buf[3];
            LittleEndian(buf) == b0 + 0x100 * (b1 + 0x100 * (b2 + 0x100 * b3))
  {
    assert buf[1..][1..] == buf[2..] && buf[2..][1..] == buf[3..] && buf[3..][1..] == [];
    var b3: nat := buf[3];
    assert LittleEndian(buf[3..]) == b3;
    assert LittleEndian(buf[2..]) == buf[2] + 0x100 * b3;
    assert LittleEndian(buf[1..]) == buf[1] + 0x100 * LittleEndian(buf[2..]);
  }

  // ---------- Frames ----------

  type Body = b: Bytes | |b| < 0x1_0000_0000

  function Frame(body: Bytes): Bytes {
    LengthPrefix(|body|) + body
  }

  function Frames(bodies: seq<Body>): Bytes {
    FlatMap(bodies, (body: Body) => Frame(body))
  }

  /** The body of the first complete frame and what follows it. */
  function Unframe(bytes: Bytes): Option<(Bytes, Bytes)> {
    if |bytes| < 4 then None
    else
      var n := ParseLength(bytes[..4]);
      if |bytes| < n + 4 then None else Some((bytes[4..4 + n], bytes[4 + n..]))
  }

  lemma UnframeFrame(body: Body, rest: Bytes)
    ensures Unframe(Frame(body) + rest) == Some((body, rest))
  {
    var bytes := Frame(body) + rest;
    assert bytes[..4] == LengthPrefix(|body|);
    ParseLengthInverts(|body|);
    assert bytes[4..4 + |body|] == body && bytes[4 + |body|..] == rest;
  }

  /** A proper beginning of a frame holds no frame. */
  lemma UnframePartial(body: Body, k: nat)
    requires k < |Frame(body)|
    ensures Unframe(Frame(body)[..k]) == None
  {
    if k >= 4 {
      assert Frame(body)[..k][..4] == LengthPrefix(|body|);
      ParseLengthInverts(|body|);
    }
  }

  // ---------- Messages ----------

  datatype Codec<!M(!new)> = Codec(serialize: M -> Bytes, parse: Bytes -> Option<M>)

  /** What is assumed of the JSON layer: parsing inverts serialising, and bodies fit 32 bits. */
  ghost predicate Faithful<M(!new)>(codec: Codec<M>) {
    forall m :: codec.parse(codec.serialize(m)) == Some(m) && |codec.serialize(m)| < 0x1_0000_0000
  }

  // ---------- One direction of a connection, on values ----------

  /** `bodies` is all that was queued; `pending` waits in the writer, `wire` in the socket, `buffer` in
      the reader; `results` is what the reader returned, `None` standing for a malformed body. */
  datatype Link<!M> = Link(bodies: seq<Body>, pending: Bytes, wire: Bytes, buffer: Bytes, results: seq<Option<M>>)

  datatype Step = Queue(body: Body) | Write(count: nat) | Read(count: nat)

  ghost predicate Next<M(!new)>(parse: Bytes -> Option<M>, l: Link<M>, step: Step, l': Link<M>) {
    match step
    case Queue(body) => l' == l.(bodies := l.bodies + [body], pending := l.pending + Frame(body))
    case Write(n) =>
      n <= |l.pending| && l' == l.(wire := l.wire + l.pending[..n], pending := l.pending[n..])
    case Read(n) => n <= |l.wire| && l' == AfterRead(parse, l.(wire := l.wire[n..], buffer := l.buffer + l.wire[..n]))
  }

  /** The part of `try_read_message` behind the read. */
  function AfterRead<M>(parse: Bytes -> Option<M>, l: Link<M>): Link<M> {
    match Unframe(l.buffer)
    case None => l
    case Some((body, rest)) => l.(buffer := rest, results := l.results + [parse(body)])
  }

  ghost predicate Leads<M(!new)>(parse: Bytes -> Option<M>, steps: seq<Step>, l: Link<M>)
    decreases |steps|
  {
    if steps == [] then l == Link([], [], [], [], [])
    else exists l0 :: Leads(parse, DropLast(steps), l0) && Next(parse, l0, LastOf(steps), l)
  }

  ghost predicate LinkInv<M(!new)>(parse: Bytes -> Option<M>, l: Link<M>) {
    && |l.results| <= |l.bodies|
    && (forall i :: 0 <= i < |l.results| ==> l.results[i] == parse(l.bodies[i]))
    && l.buffer + l.wire + l.pending == Frames(l.bodies[|l.results|..])
  }

  lemma QueueKeeps<M(!new)>(parse: Bytes -> Option<M>, l: Link<M>, body: Body)
    requires LinkInv(parse, l)
    ensures LinkInv(parse, l.(bodies := l.bodies + [body], pending := l.pending + Frame(body)))
  {
    var rest := l.bodies[|l.results|..];
    assert (l.bodies + [body])[|l.results|..] == rest + [body];
    FlatMapAppend(rest, body, (b: Body) => Frame(b));
    assert l.buffer + l.wire + (l.pending + Frame(body)) == l.buffer + l.wire + l.pending + Frame(body);
  }

  lemma WriteKeeps<M(!new)>(parse: Bytes -> Option<M>, l: Link<M>, n: nat)
    requires LinkInv(parse, l) && n <= |l.pending|
    ensures LinkInv(parse, l.(wire := l.wire + l.pending[..n], pending := l.pending[n..]))
  {
    assert l.buffer + (l.wire + l.pending[..n]) + l.pending[n..] == l.buffer + l.wire + l.pending;
  }

  lemma ReadKeeps<M(!new)>(parse: Bytes -> Option<M>, l: Link<M>, n: nat)
    requires LinkInv(parse, l) && n <= |l.wire|
    ensures LinkInv(parse, l.(wire := l.wire[n..], buffer := l.buffer + l.wire[..n]))
  {
    assert (l.buffer + l.wire[..n]) + l.wire[n..] + l.pending == l.buffer + l.wire + l.pending;
  }

  /** When a stream begins with a frame, a beginning of the stream gives that frame's body or nothing. */
  lemma UnframeFirst(buffer: Bytes, behind: Bytes, body: Body, rest: Bytes)
    requires buffer + behind == Frame(body) + rest
    ensures Unframe(buffer).Some? ==> Unframe(buffer).value.0 == body && Unframe(buffer).value.1 + behind == rest
    ensures Unframe(buffer).None? ==> |buffer| < |Frame(body)|
  {
    var frame := Frame(body);
    if |buffer| < |frame| {
      assert buffer == (buffer + behind)[..|buffer|] == frame[..|buffer|];
      UnframePartial(body, |buffer|);
    } else {
      var tail := buffer[|frame|..];
      assert buffer[..|frame|] == (buffer + behind)[..|frame|] == frame;
      assert buffer == frame + tail;
      UnframeFrame(body, tail);
      assert tail + behind == (buffer + behind)[|frame|..] == rest;
    }
  }

  /** What the buffer holds, when it is the beginning of a stream of frames: nothing complete, or
      exactly the next body and a beginning of the frames behind it. */
  lemma UnframeStream(buffer: Bytes, behind: Bytes, bodies: seq<Body>)
    requires buffer + behind == Frames(bodies)
    ensures Unframe(buffer).Some? ==> bodies != [] && Unframe(buffer).value.0 == bodies[0]
                                      && Unframe(buffer).value.1 + behind == Frames(bodies[1..])
    ensures Unframe(buffer).None? ==> bodies == [] || |buffer| < |Frame(bodies[0])|
  {
    if bodies == [] {
      assert buffer == [];
    } else {
      UnframeFirst(buffer, behind, bodies[0], Frames(bodies[1..]));
    }
  }

  lemma AfterReadKeeps<M(!new)>(parse: Bytes -> Option<M>, l: Link<M>)
    requires LinkInv(parse, l)
    ensures LinkInv(parse, AfterRead(parse, l))
  {
    var k := |l.results|;
    assert l.buffer + l.wire + l.pending == l.buffer + (l.wire + l.pending);
    UnframeStream(l.buffer, l.wire + l.pending, l.bodies[k..]);
    match Unframe(l.buffer)
    case None =>
    case Some((body, rest)) =>
      assert rest + l.wire + l.pending == rest + (l.wire + l.pending);
      assert l.bodies[k..][1..] == l.bodies[k + 1..];
  }

  lemma {:induction false} LeadsKeepsInv<M(!new)>(parse: Bytes -> Option<M>, steps: seq<Step>, l: Link<M>)
    requires Leads(parse, steps, l)
    ensures LinkInv(parse, l)
    decreases |steps|
  {
    if steps != [] {
      var l0 :| Leads(parse, DropLast(steps), l0) && Next(parse, l0, LastOf(steps), l);
      LeadsKeepsInv(parse, DropLast(steps), l0);
      hide LinkInv;
      match LastOf(steps)
      case Queue(body) => QueueKeeps(parse, l0, body);
      case Write(n) => WriteKeeps(parse, l0, n);
      case Read(n) =>
        ReadKeeps(parse, l0, n);
        AfterReadKeeps(parse, l0.(wire := l0.wire[n..], buffer := l0.buffer + l0.wire[..n]));
    }
  }

  /**
   Whatever is queued, however the writes are cut and however the reads are chunked: the reader's
   results are, in order, those of the first bodies queued, a malformed body taking exactly its own
   frame; and the bytes not yet returned are the frames of the other bodies. Once nothing is pending
   or on the wire and the buffer holds no complete frame, every body queued has been returned.
   */
  lemma StreamRefinement<M(!new)>(parse: Bytes -> Option<M>, steps: seq<Step>, l: Link<M>)
    requires Leads(parse, steps, l)
    ensures |l.results| <= |l.bodies|
    ensures forall i :: 0 <= i < |l.results| ==> l.results[i] == parse(l.bodies[i])
    ensures l.buffer + l.wire + l.pending == Frames(l.bodies[|l.results|..])
    ensures l.pending == [] && l.wire == [] && Unframe(l.buffer) == None ==> |l.results| == |l.bodies|
  {
    LeadsKeepsInv(parse, steps, l);
    if l.pending == [] && l.wire == [] && Unframe(l.buffer) == None {
      var rest := l.bodies[|l.results|..];
      assert l.buffer + [] + [] == l.buffer + [];
      UnframeStream(l.buffer, [], rest);
      FirstFrameFits(rest);
    }
  }

  lemma FirstFrameFits(bodies: seq<Body>)
    ensures bodies == [] || |Frame(bodies[0])| <= |Frames(bodies)|
  {
  }

  /** With a faithful codec, messages come out as they went in. */
  lemma MessagesInOrder<M(!new)>(codec: Codec<M>, steps: seq<Step>, l: Link<M>, sent: seq<M>)
    requires Faithful(codec) && Leads(codec.parse, steps, l)
    requires |sent| == |l.bodies| && forall i :: 0 <= i < |sent| ==> l.bodies[i] == codec.serialize(sent[i])
    ensures |l.results| <= |sent| && forall i :: 0 <= i < |l.results| ==> l.results[i] == Some(sent[i])
  {
    StreamRefinement(codec.parse, steps, l);
  }

  // ---------- Sockets, writers and readers ----------

  /** What a non-blocking write answers: some bytes taken, none for now, or an error. */
  datatype Accept = Accepted(count: nat) | WouldBlock | Broken

  /** A socket: the bytes given to it and not yet taken by the other end. */
  class Pipe {
    var bytes: Bytes

    constructor ()
      ensures bytes == []
    {
      bytes := [];
    }

    method TryWrite(data: Bytes) returns (answer: Accept)
      modifies this
      ensures answer.Accepted? ==> answer.count <= |data| && bytes == old(bytes) + data[..answer.count]
      ensures !answer.Accepted? ==> bytes == old(bytes)
    {
      var count: nat :| count <= |data|;
      if * {
        bytes := bytes + data[..count];
        return Accepted(count);
      } else if * {
        return WouldBlock;
      }
      return Broken;
    }

    /** Writes until all of `data` is out or the socket fails. */
    method WriteAll(data: Bytes) returns (ok: bool)
      modifies this
      ensures exists n: nat :: n <= |data| && bytes == old(bytes) + data[..n] && (ok ==> n == |data|)
    {
      var count: nat :| count <= |data|;
      bytes := bytes + data[..count];
      return count == |data|;
    }

    /** Takes any number of bytes that are there. */
    method TryRead() returns (r: Result<Bytes, Accept>)
      modifies this
      ensures r.Success? ==> old(bytes) == r.value + bytes
      ensures r.Failure? ==> bytes == old(bytes)
    {
      var count: nat :| count <= |bytes|;
      if * {
        return Failure(Broken);
      }
      r := Success(bytes[..count]);
      bytes := bytes[count..];
    }
  }

  datatype WriterState = MoreToWrite | AllWritten

  class Writer<M(!new)> {
    const codec: Codec<M>
    const socket: Pipe
    var numWritten: nat
    var toWrite: seq<Bytes>

    constructor (codec: Codec<M>, socket: Pipe)
      ensures this.codec == codec && this.socket == socket && Valid() && Pending() == []
    {
      this.codec, this.socket := codec, socket;
      numWritten, toWrite := 0, [];
    }

    predicate Valid()
      reads this
    {
      if toWrite == [] then numWritten == 0 else numWritten <= |toWrite[0]|
    }

    /** The bytes still to be written. */
    function Pending(): Bytes
      requires Valid()
      reads this
    {
      if toWrite == [] then [] else toWrite[0][numWritten..] + Flat(toWrite[1..])
    }

    method QueueMessage(message: M)
      requires Valid()
      modifies this
      ensures Valid() && Pending() == old(Pending()) + Frame(codec.serialize(message))
      ensures socket.bytes == old(socket.bytes)
    {
      var body := codec.serialize(message);
      PushTwo(toWrite, LengthPrefix(|body|), body);
      toWrite := toWrite + [LengthPrefix(|body|)];
      toWrite := toWrite + [body];
    }

    /** A call moves bytes from what is pending to the socket, in order and none twice; without an
        error it says whether any are left. */
    method TryWrite() returns (r: Result<WriterState, Accept>)
      requires Valid()
      modifies this, socket
      ensures Valid() && WriteMoves(old(Pending()), old(socket.bytes), Pending(), socket.bytes)
      ensures r.Success? ==> (r.value == AllWritten <==> Pending() == [])
      decreases |toWrite|
    {
      hide WriteMoves;
      if toWrite == [] {
        assert WriteMoves([], socket.bytes, [], socket.bytes) by { MovesNothing([], socket.bytes); }
        return Success(AllWritten);
      }
      var part := toWrite[0][numWritten..];
      var answer := socket.TryWrite(part);
      if answer == Broken {
        MovesNothing(Pending(), socket.bytes);
        return Failure(Broken);
      }
      var count := if answer.Accepted? then answer.count else 0;
      PartMoves(part, Flat(toWrite[1..]), old(socket.bytes), count);
      assert toWrite[0][numWritten + count..] == part[count..];
      assert socket.bytes == old(socket.bytes) + part[..count];
      numWritten := numWritten + count;
      if numWritten == |toWrite[0]| {
        FlatFirst(toWrite[1..]);
        toWrite := toWrite[1..];
        numWritten := 0;
        ghost var pending, bytes := Pending(), socket.bytes;
        r := TryWrite();
        MovesTwice(old(Pending()), old(socket.bytes), pending, bytes, Pending(), socket.bytes);
      } else {
        return Success(MoreToWrite);
      }
    }

    /** The blocking form writes the whole frame, or fails and leaves a first part of it on the socket. */
    method WriteMessage(message: M) returns (ok: bool)
      requires Valid()
      modifies socket
      ensures ok ==> socket.bytes == old(socket.bytes) + Frame(codec.serialize(message))
      ensures exists n: nat :: n <= |Frame(codec.serialize(message))|
                               && socket.bytes == old(socket.bytes) + Frame(codec.serialize(message))[..n]
    {
      var body := codec.serialize(message);
      var len := LengthPrefix(|body|);
      ok := socket.WriteAll(len);
      ghost var sent: nat :| sent <= |len| && socket.bytes == old(socket.bytes) + len[..sent] && (ok ==> sent == 4);
      if ok {
        ok := socket.WriteAll(body);
        ghost var more: nat :| more <= |body| && socket.bytes == old(socket.bytes) + len + body[..more]
                               && (ok ==> more == |body|);
        sent := 4 + more;
      }
      FirstOfFrame(body, sent);
    }
  }

  lemma FirstOfFrame(body: Bytes, n: nat)
    requires n <= |Frame(body)|
    ensures Frame(body)[..n] == if n <= 4 then LengthPrefix(|body|)[..n] else LengthPrefix(|body|) + body[..n - 4]
    ensures Frame(body)[..|Frame(body)|] == Frame(body)
  {
  }

  function Flat(parts: seq<Bytes>): Bytes {
    if parts == [] then [] else parts[0] + Flat(parts[1..])
  }

  lemma FlatFirst(parts: seq<Bytes>)
    ensures Flat(parts) == if parts == [] then [] else parts[0][0..] + Flat(parts[1..])
  {
  }

  lemma {:induction false} FlatPush(parts: seq<Bytes>, part: Bytes)
    ensures Flat(parts + [part]) == Flat(parts) + part
  {
    if parts == [] {
      assert parts + [part] == [part];
      assert Flat([part]) == part + Flat([]);
    } else {
      assert (parts + [part])[1..] == parts[1..] + [part];
      FlatPush(parts[1..], part);
      assert parts[0] + (Flat(parts[1..]) + part) == (parts[0] + Flat(parts[1..])) + part;
    }
  }

  lemma PushTwo(parts: seq<Bytes>, a: Bytes, b: Bytes)
    ensures parts == [] ==> a[0..] + Flat((parts + [a] + [b])[1..]) == a + b
    ensures parts != [] ==> Flat((parts + [a] + [b])[1..]) == Flat(parts[1..]) + (a + b)
  {
    if parts == [] {
      assert (parts + [a] + [b])[1..] == [b];
      assert Flat([b]) == b + Flat([]);
    } else {
      assert (parts + [a] + [b])[1..] == parts[1..] + [a] + [b];
      FlatPush(parts[1..], a);
      FlatPush(parts[1..] + [a], b);
      assert (Flat(parts[1..]) + a) + b == Flat(parts[1..]) + (a + b);
    }
  }

  /** Some first bytes of `pending` have moved to the end of `wire`. */
  ghost predicate WriteMoves(pending: Bytes, wire: Bytes, pending': Bytes, wire': Bytes) {
    |pending'| <= |pending|
    && pending' == pending[|pending| - |pending'|..]
    && wire' == wire + pending[..|pending| - |pending'|]
  }

  lemma MovesNothing(pending: Bytes, wire: Bytes)
    ensures WriteMoves(pending, wire, pending, wire)
  {
    assert wire + [] == wire;
  }

  lemma PartMoves(part: Bytes, rest: Bytes, wire: Bytes, count: nat)
    requires count <= |part|
    ensures WriteMoves(part + rest, wire, part[count..] + rest, wire + part[..count])
  {
    assert (part + rest)[count..] == part[count..] + rest;
    assert (part + rest)[..count] == part[..count];
  }

  lemma MovesTwice(p: Bytes, w: Bytes, p': Bytes, w': Bytes, p'': Bytes, w'': Bytes)
    requires WriteMoves(p, w, p', w') && WriteMoves(p', w', p'', w'')
    ensures WriteMoves(p, w, p'', w'')
  {
    var m, n := |p| - |p'|, |p'| - |p''|;
    assert p[m..][..n] == p[m..m + n] && p[m..][n..] == p[m + n..];
    assert w + p[..m] + p[m..m + n] == w + p[..m + n];
  }

  class Reader<M(!new)> {
    const codec: Codec<M>
    const socket: Pipe
    var buffer: Bytes

    constructor (codec: Codec<M>, socket: Pipe)
      ensures this.codec == codec && this.socket == socket && buffer == []
    {
      this.codec, this.socket, buffer := codec, socket, [];
    }

    /** Takes what the socket gives, however much, and returns the first complete message of all that
        has come in. A malformed body is an error, and its frame is gone; `Ok(None)` means that no
        complete frame is there. An error of the socket changes nothing. */
    method TryReadMessage() returns (r: Result<Option<M>, ReadError>)
      modifies this, socket
      ensures r == Failure(Socket) ==> buffer == old(buffer) && socket.bytes == old(socket.bytes)
      ensures r != Failure(Socket) ==>
                exists chunk :: old(socket.bytes) == chunk + socket.bytes
                                && ReadGives(codec, old(buffer) + chunk, r, buffer)
    {
      var got := socket.TryRead();
      if got.Failure? {
        return Failure(Socket);
      }
      buffer := buffer + got.value;
      ghost var all := buffer;
      if |buffer| < 4 {
        assert ReadGives(codec, all, Success(None), buffer);
        return Success(None);
      }
      var msgLen := ParseLength(buffer[..4]);
      if |buffer| < msgLen + 4 {
        assert ReadGives(codec, all, Success(None), buffer);
        return Success(None);
      }
      var message := codec.parse(buffer[4..4 + msgLen]);
      buffer := buffer[4 + msgLen..];
      r := if message.Some? then Success(message) else Failure(Malformed);
      assert ReadGives(codec, all, r, buffer);
    }

    /** The blocking form, on a socket that will deliver just `socket.bytes`: it takes exactly one frame
        if there is one, and otherwise takes all there is and fails. What an earlier `TryReadMessage` left
        in the buffer is overwritten once the length is known. */
    method ReadMessage() returns (r: Result<M, ReadError>)
      modifies this, socket
      ensures match Unframe(old(socket.bytes))
              case None =>
                && r == Failure(Socket) && socket.bytes == []
                && (|old(socket.bytes)| < 4 ==> buffer == old(buffer))
                && (|old(socket.bytes)| >= 4 ==> old(socket.bytes)[4..] <= buffer
                                                 && |buffer| == ParseLength(old(socket.bytes)[..4]))
              case Some((body, rest)) =>
                socket.bytes == rest && buffer == body
                && r == if codec.parse(body).Some? then Success(codec.parse(body).value) else Failure(Malformed)
    {
      if |socket.bytes| < 4 {
        socket.bytes := [];
        return Failure(Socket);
      }
      var msgLen := ParseLength(socket.bytes[..4]);
      socket.bytes := socket.bytes[4..];
      if |socket.bytes| < msgLen {
        // the rest of the buffer keeps what was in its memory
        var rest: Bytes :| |rest| == msgLen - |socket.bytes| by {
          assert |seq(msgLen - |socket.bytes|, _ => 0 as Byte)| == msgLen - |socket.bytes|;
        }
        buffer := socket.bytes + rest;
        socket.bytes := [];
        return Failure(Socket);
      }
      buffer := socket.bytes[..msgLen];
      socket.bytes := socket.bytes[msgLen..];
      var message := codec.parse(buffer);
      if message.None? {
        return Failure(Malformed);
      }
      return Success(message.value);
    }
  }

  datatype ReadError = Socket | Malformed

  /** The result for the bytes `all`, and what stays in the buffer. */
  ghost predicate ReadGives<M(!new)>(codec: Codec<M>, all: Bytes, r: Result<Option<M>, ReadError>, buffer: Bytes) {
    match Unframe(all)
    case None => r == Success(None) && buffer == all
    case Some((body, rest)) =>
      && buffer == rest
      && r == match codec.parse(body)
              case Some(m) => Success(Some(m))
              case None => Failure(Malformed)
  }

  // ---------- The methods take the steps of the link ----------

  /** What a result of `TryReadMessage` adds to those returned so far. */
  function Returned<M>(r: Result<Option<M>, ReadError>): seq<Option<M>> {
    match r
    case Success(Some(m)) => [Some(m)]
    case Failure(Malformed) => [None]
    case _ => []
  }

  lemma TryWriteIsStep<M(!new)>(parse: Bytes -> Option<M>, l: Link<M>, pending: Bytes, wire: Bytes)
    requires WriteMoves(l.pending, l.wire, pending, wire)
    ensures Next(parse, l, Write(|l.pending| - |pending|), l.(pending := pending, wire := wire))
  {
  }

  lemma TryReadIsStep<M(!new)>(codec: Codec<M>, l: Link<M>, chunk: Bytes, wire: Bytes,
                               r: Result<Option<M>, ReadError>, buffer: Bytes)
    requires l.wire == chunk + wire && ReadGives(codec, l.buffer + chunk, r, buffer)
    ensures Next(codec.parse, l, Read(|chunk|), l.(wire := wire, buffer := buffer, results := l.results + Returned(r)))
  {
    assert l.wire[..|chunk|] == chunk && l.wire[|chunk|..] == wire;
    assert l.results + [] == l.results;
  }
}
