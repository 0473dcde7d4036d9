/** The FastCGI client: record framing, parameter encoding, the request and the response loop. */
module FastCgi {
  import opened Text

  const BEGIN_REQUEST: Byte := 1
  const END_REQUEST: Byte := 3
  const PARAMS: Byte := 4
  const STDIN: Byte := 5
  const STDOUT: Byte := 6
  const STDERR: Byte := 7
  const MAX_CONTENT := 65535
  const REQUEST_ID: Id := 1

  type Bytes = seq<Byte>
  type Id = n: int | 0 <= n < 65536 witness 0

  datatype Record = Record(kind: Byte, id: Id, content: Bytes)

  // ------------------------------------------------------------ the wire format (section 3.3)

  function Header(kind: Byte, id: Id, n: nat, pad: Byte, reserved: Byte): (h: Bytes)
    requires n <= MAX_CONTENT
    ensures |h| == 8
  {
    [1, kind, id / 256, id % 256, n / 256, n % 256, pad, reserved]
  }

  /** A record on the wire, padded by its sender as it likes. */
  function Wire(r: Record, padding: Bytes, reserved: Byte): Bytes
    requires |r.content| <= MAX_CONTENT && |padding| < 256
  {
    Header(r.kind, r.id, |r.content|, |padding|, reserved) + r.content + padding
  }

  function PadLength(n: nat): (p: nat)
    ensures p < 8 && (n + p) % 8 == 0
  {
    (8 - n % 8) % 8
  }

  function Zeros(n: nat): (z: Bytes)
    ensures |z| == n
  {
    seq(n, i => 0)
  }

  /** The record this client writes for one chunk. */
  function ChunkBytes(kind: Byte, id: Id, chunk: Bytes): (b: Bytes)
    requires |chunk| <= MAX_CONTENT
    ensures |b| % 8 == 0
  {
    Wire(Record(kind, id, chunk), Zeros(PadLength(|chunk|)), 0)
  }

  /** The chunks a stream content is cut into. */
  function Chunks(content: Bytes): (cs: seq<Bytes>)
    ensures forall i :: 0 <= i < |cs| ==> |cs[i]| <= MAX_CONTENT
  {
    if |content| <= MAX_CONTENT then [content]
    else [content[..MAX_CONTENT]] + Chunks(content[MAX_CONTENT..])
  }

  /** The chunks are the content in order; only empty content has an empty chunk, and then exactly that one. */
  lemma {:induction false} ChunksCover(content: Bytes)
    ensures var cs := Chunks(content);
            && Concat(cs) == content
            && (content == [] ==> cs == [[]])
            && (content != [] ==> forall i :: 0 <= i < |cs| ==> cs[i] != [])
  {
    if |content| <= MAX_CONTENT {
      assert [content][1..] == [];
    } else {
      var head, tail := content[..MAX_CONTENT], content[MAX_CONTENT..];
      ChunksCover(tail);
      assert ([head] + Chunks(tail))[1..] == Chunks(tail);
      assert head + tail == content;
    }
  }

  function ChunksBytes(kind: Byte, id: Id, cs: seq<Bytes>): Bytes
    requires forall i :: 0 <= i < |cs| ==> |cs[i]| <= MAX_CONTENT
  {
    if cs == [] then [] else ChunkBytes(kind, id, cs[0]) + ChunksBytes(kind, id, cs[1..])
  }

  function WriteBytes(kind: Byte, id: Id, content: Bytes): Bytes {
    ChunksBytes(kind, id, Chunks(content))
  }

  /** The connection: the bytes sent so far. */
  class Conn {
    var sent: Bytes

    constructor ()
      ensures sent == []
    {
      sent := [];
    }

    method Write(b: Bytes)
      modifies this
      ensures sent == old(sent) + b
    {
      sent := sent + b;
    }
  }

  method FcgiWrite(conn: Conn, kind: Byte, id: Id, content: Bytes)
    modifies conn
    ensures conn.sent == old(conn.sent) + WriteBytes(kind, id, content)
  {
    if |content| == 0 {
      WriteEmpty(kind, id);
      conn.Write(Header(kind, id, 0, 0, 0));
      return;
    }
    var rest := content;
    ghost var goal := conn.sent + WriteBytes(kind, id, content);
    while |rest| > 0
      invariant conn.sent + Unwritten(kind, id, rest) == goal
      decreases |rest|
    {
      var n := if |rest| > MAX_CONTENT then MAX_CONTENT else |rest|;
      var chunk := rest[..n];
      WriteOne(kind, id, rest, n);
      ghost var before := conn.sent;
      rest := rest[n..];
      var pad := (8 - n % 8) % 8;
      conn.Write(Header(kind, id, n, pad, 0));
      conn.Write(chunk);
      if pad > 0 {
        conn.Write(Zeros(pad));
      }
      ChunkParts(before, Header(kind, id, n, pad, 0), chunk, Zeros(pad), Unwritten(kind, id, rest));
    }
  }

  /** What the loop still has to write. */
  ghost function Unwritten(kind: Byte, id: Id, rest: Bytes): Bytes {
    if rest == [] then [] else WriteBytes(kind, id, rest)
  }

  lemma WriteEmpty(kind: Byte, id: Id)
    ensures WriteBytes(kind, id, []) == Header(kind, id, 0, 0, 0)
  {
    var e: Bytes := [];
    var cs := Chunks(e);
    assert cs == [e] && cs[0] == e && cs[1..] == [];
    assert ChunksBytes(kind, id, cs) == ChunkBytes(kind, id, e) + ChunksBytes(kind, id, cs[1..]);
    assert PadLength(|e|) == 0 && Zeros(0) == [];
    assert ChunkBytes(kind, id, e) == Header(kind, id, 0, 0, 0) + [] + [];
  }

  lemma WriteOne(kind: Byte, id: Id, rest: Bytes, n: nat)
    requires rest != [] && n == if |rest| > MAX_CONTENT then MAX_CONTENT else |rest|
    ensures Unwritten(kind, id, rest) == ChunkBytes(kind, id, rest[..n]) + Unwritten(kind, id, rest[n..])
  {
    if |rest| > MAX_CONTENT {
      assert Chunks(rest)[1..] == Chunks(rest[MAX_CONTENT..]);
    } else {
      var cs := Chunks(rest);
      assert cs[0] == rest && cs[1..] == [] && rest[..n] == rest && rest[n..] == [];
      assert ChunksBytes(kind, id, cs[1..]) == [];
    }
  }

  lemma ChunkParts(sent: Bytes, header: Bytes, chunk: Bytes, zeros: Bytes, rest: Bytes)
    ensures sent + (header + chunk + zeros + rest) == sent + header + chunk + zeros + rest
    ensures zeros == [] ==> sent + header + chunk + zeros == sent + header + chunk
  {
  }

  // ------------------------------------------------------------ reading records

  datatype Read = Got(r: Record, rest: Bytes) | ShortRead | BadVersion

  /** Two bytes, most significant first. */
  function Word(hi: Byte, lo: Byte): (n: Id) {
    hi as int * 256 + lo as int
  }

  function ReadRecord(b: Bytes): (res: Read)
    ensures res.Got? ==> |res.rest| < |b|
  {
    if |b| < 8 then ShortRead
    else if b[0] != 1 then BadVersion
    else
      var n, pad := Word(b[4], b[5]), b[6] as int;
      if |b| < 8 + n then ShortRead
      else if |b| < 8 + n + pad then ShortRead
      else Got(Record(b[1], Word(b[2], b[3]), b[8..8 + n]), b[8 + n + pad..])
  }

  /** Any record is read back from the wire, whatever its padding and whatever follows. */
  lemma ReadWire(r: Record, padding: Bytes, reserved: Byte, tail: Bytes)
    requires |r.content| <= MAX_CONTENT && |padding| < 256
    ensures ReadRecord(Wire(r, padding, reserved) + tail) == Got(r, tail)
  {
    var h := Header(r.kind, r.id, |r.content|, |padding|, reserved);
    var b := Wire(r, padding, reserved) + tail;
    var n := |r.content|;
    assert b == h + (r.content + padding + tail);
    assert b[..8] == h;
    assert b[4] == n / 256 && b[5] == n % 256 && b[6] == |padding|;
    assert b[2] == r.id / 256 && b[3] == r.id % 256;
    assert b[8..8 + n] == r.content;
    assert b[8 + n + |padding|..] == tail;
  }

  /** All records of a byte string, if it is exactly a sequence of records. */
  function ReadAll(b: Bytes): Option<seq<Record>>
    decreases |b|
  {
    if b == [] then Some([])
    else
      match ReadRecord(b)
      case Got(r, rest) =>
        (match ReadAll(rest)
         case Some(rs) => Some([r] + rs)
         case None => None)
      case _ => None
  }

  function Records(kind: Byte, id: Id, cs: seq<Bytes>): seq<Record> {
    if cs == [] then [] else [Record(kind, id, cs[0])] + Records(kind, id, cs[1..])
  }

  /** Reading what was written returns one record per chunk, then whatever came after. */
  lemma {:induction false} ReadChunks(kind: Byte, id: Id, cs: seq<Bytes>, tail: Bytes)
    requires forall i :: 0 <= i < |cs| ==> |cs[i]| <= MAX_CONTENT
    requires ReadAll(tail).Some?
    ensures ReadAll(ChunksBytes(kind, id, cs) + tail) == Some(Records(kind, id, cs) + ReadAll(tail).value)
    decreases |cs|
  {
    if cs == [] {
      assert [] + tail == tail && [] + ReadAll(tail).value == ReadAll(tail).value;
    } else {
      ReadChunks(kind, id, cs[1..], tail);
      var first, rest := ChunkBytes(kind, id, cs[0]), ChunksBytes(kind, id, cs[1..]);
      Assoc(first, rest, tail);
      ReadFirst(Record(kind, id, cs[0]), Zeros(PadLength(|cs[0]|)), 0, rest + tail);
      Assoc([Record(kind, id, cs[0])], Records(kind, id, cs[1..]), ReadAll(tail).value);
    }
  }

  lemma ReadFirst(r: Record, padding: Bytes, reserved: Byte, rest: Bytes)
    requires |r.content| <= MAX_CONTENT && |padding| < 256 && ReadAll(rest).Some?
    ensures ReadAll(Wire(r, padding, reserved) + rest) == Some([r] + ReadAll(rest).value)
  {
    ReadWire(r, padding, reserved, rest);
  }

  /** The content read back: every record of that type and id, contents concatenating to what was written. */
  lemma WriteReadsBack(kind: Byte, id: Id, content: Bytes)
    ensures ReadAll(WriteBytes(kind, id, content)) == Some(Records(kind, id, Chunks(content)))
    ensures Concat(Chunks(content)) == content
  {
    ChunksCover(content);
    ReadChunks(kind, id, Chunks(content), []);
    assert WriteBytes(kind, id, content) + [] == WriteBytes(kind, id, content);
    assert Records(kind, id, Chunks(content)) + [] == Records(kind, id, Chunks(content));
  }

  // ------------------------------------------------------------ name-value pairs (section 3.4)

  const LONG := 0x8000_0000

  function LengthBytes(l: nat): Bytes {
    if l < 128 then [l]
    else [128 + l / 0x100_0000 % 128, l / 0x1_0000 % 256, l / 0x100 % 256, l % 256]
  }

  datatype Length = Length(n: nat, rest: Bytes) | NoLength

  function ReadLength(b: Bytes): (l: Length)
    ensures l.Length? ==> |l.rest| < |b|
  {
    if b == [] then NoLength
    else if b[0] < 128 then Length(b[0], b[1..])
    else if |b| < 4 then NoLength
    else Length((b[0] as int - 128) * 0x100_0000 + b[1] as int * 0x1_0000 + b[2] as int * 0x100 + b[3] as int, b[4..])
  }

  /** The length decodes to itself exactly when it fits in 31 bits. */
  lemma LengthRoundTrip(l: nat, tail: Bytes)
    ensures ReadLength(LengthBytes(l) + tail) == Length(l, tail) <==> l < LONG
  {
    var b := LengthBytes(l) + tail;
    if l < 128 {
      assert b[1..] == tail;
    } else {
      assert b[4..] == tail;
      Digits(l);
    }
  }

  lemma Digits(l: nat)
    ensures l == l / 0x100_0000 * 0x100_0000 + l / 0x1_0000 % 256 * 0x1_0000 + l / 0x100 % 256 * 0x100 + l % 256
  {
    assert l / 0x1_0000 == (l / 0x100) / 0x100 && l / 0x100_0000 == (l / 0x1_0000) / 0x100;
  }

  datatype Param = Param(name: Bytes, value: Bytes)

  function ParamBytes(p: Param): Bytes {
    LengthBytes(|p.name|) + LengthBytes(|p.value|) + p.name + p.value
  }

  /** Encodes one pair into a growing buffer. */
  method EncodeParam(name: Bytes, value: Bytes) returns (buf: Bytes)
    ensures buf == ParamBytes(Param(name, value))
  {
    buf := [];
    buf := buf + LengthBytes(|name|);
    buf := buf + LengthBytes(|value|);
    buf := buf + name;
    buf := buf + value;
  }

  function ParamsBytes(ps: seq<Param>): Bytes {
    if ps == [] then [] else ParamBytes(ps[0]) + ParamsBytes(ps[1..])
  }

  /** The server's side: pairs until the stream is used up. */
  function ReadParams(b: Bytes): Option<seq<Param>>
    decreases |b|
  {
    if b == [] then Some([])
    else
      var n := ReadLength(b);
      if n.NoLength? then None
      else
        var v := ReadLength(n.rest);
        if v.NoLength? || |v.rest| < n.n + v.n then None
        else
          match ReadParams(v.rest[n.n + v.n..])
          case Some(ps) => Some([Param(v.rest[..n.n], v.rest[n.n..n.n + v.n])] + ps)
          case None => None
  }

  predicate ParamOk(p: Param) {
    |p.name| < LONG && |p.value| < LONG
  }

  lemma {:induction false} ParamsRoundTrip(ps: seq<Param>)
    requires forall i :: 0 <= i < |ps| ==> ParamOk(ps[i])
    ensures ReadParams(ParamsBytes(ps)) == Some(ps)
    decreases |ps|
  {
    if ps != [] {
      var p, rest := ps[0], ParamsBytes(ps[1..]);
      ParamsRoundTrip(ps[1..]);
      ReadOneParam(p, rest);
      assert [p] + ps[1..] == ps;
    }
  }

  lemma ReadOneParam(p: Param, rest: Bytes)
    requires ParamOk(p) && ReadParams(rest).Some?
    ensures ReadParams(ParamBytes(p) + rest) == Some([p] + ReadParams(rest).value)
  {
    var b, a := ParamBytes(p) + rest, LengthBytes(|p.value|);
    var tail := p.name + p.value + rest;
    ParamParts(p, rest);
    LengthRoundTrip(|p.name|, a + tail);
    LengthRoundTrip(|p.value|, tail);
    assert b != [];
    assert ReadLength(b) == Length(|p.name|, a + tail);
    assert ReadLength(a + tail) == Length(|p.value|, tail);
  }

  lemma ParamParts(p: Param, rest: Bytes)
    ensures ParamBytes(p) + rest == LengthBytes(|p.name|) + (LengthBytes(|p.value|) + (p.name + p.value + rest))
    ensures var tail, n, k := p.name + p.value + rest, |p.name|, |p.name| + |p.value|;
            tail[..n] == p.name && tail[n..k] == p.value && tail[k..] == rest
  {
  }

  // ------------------------------------------------------------ the request (sections 5.1 to 5.3)

  /** Responder role, connection not kept. */
  const BEGIN_BODY: Bytes := [0, 1, 0, 0, 0, 0, 0, 0]

  function RequestBytes(ps: seq<Param>, body: Bytes): Bytes {
    WriteBytes(BEGIN_REQUEST, REQUEST_ID, BEGIN_BODY) +
    (WriteBytes(PARAMS, REQUEST_ID, ParamsBytes(ps)) + (WriteBytes(PARAMS, REQUEST_ID, []) +
    (WriteBytes(STDIN, REQUEST_ID, body) + (WriteBytes(STDIN, REQUEST_ID, []) + []))))
  }

  method SendRequest(conn: Conn, ps: seq<Param>, body: Bytes)
    modifies conn
    ensures conn.sent == old(conn.sent) + RequestBytes(ps, body)
  {
    FcgiWrite(conn, BEGIN_REQUEST, REQUEST_ID, BEGIN_BODY);
    var buf: Bytes := [];
    for i := 0 to |ps|
      invariant buf + ParamsBytes(ps[i..]) == ParamsBytes(ps)
      invariant conn.sent == old(conn.sent) + WriteBytes(BEGIN_REQUEST, REQUEST_ID, BEGIN_BODY)
    {
      var one := EncodeParam(ps[i].name, ps[i].value);
      assert ps[i..][0] == ps[i] && ps[i..][1..] == ps[i + 1..];
      Assoc(buf, one, ParamsBytes(ps[i + 1..]));
      buf := buf + one;
    }
    assert ps[|ps|..] == [] && buf + [] == buf;
    assert buf == ParamsBytes(ps);
    FcgiWrite(conn, PARAMS, REQUEST_ID, buf);
    FcgiWrite(conn, PARAMS, REQUEST_ID, []);
    FcgiWrite(conn, STDIN, REQUEST_ID, body);
    FcgiWrite(conn, STDIN, REQUEST_ID, []);
    FiveParts(old(conn.sent), WriteBytes(BEGIN_REQUEST, REQUEST_ID, BEGIN_BODY), WriteBytes(PARAMS, REQUEST_ID, buf),
              WriteBytes(PARAMS, REQUEST_ID, []), WriteBytes(STDIN, REQUEST_ID, body), WriteBytes(STDIN, REQUEST_ID, []));
  }

  lemma FiveParts(s: Bytes, a: Bytes, b: Bytes, c: Bytes, d: Bytes, e: Bytes)
    ensures s + a + b + c + d + e == s + (a + (b + (c + (d + (e + [])))))
  {
  }

  /** The server's side: the content of one stream, read up to its first empty record. */
  function Stream(kind: Byte, rs: seq<Record>): Option<Bytes> {
    if rs == [] then None
    else if rs[0].kind != kind then Stream(kind, rs[1..])
    else if rs[0].content == [] then Some([])
    else
      match Stream(kind, rs[1..])
      case Some(rest) => Some(rs[0].content + rest)
      case None => None
  }

  datatype Request = Request(begin: Record, params: seq<Param>, body: Bytes)

  function ReadRequest(b: Bytes): Option<Request> {
    match ReadAll(b)
    case None => None
    case Some(rs) =>
      if rs == [] || Stream(PARAMS, rs).None? || Stream(STDIN, rs).None? then None
      else
        match ReadParams(Stream(PARAMS, rs).value)
        case None => None
        case Some(ps) => Some(Request(rs[0], ps, Stream(STDIN, rs).value))
  }

  function Wrote(kind: Byte, content: Bytes): seq<Record> {
    Records(kind, REQUEST_ID, Chunks(content))
  }

  lemma {:induction false} OtherStream(kind: Byte, other: Byte, cs: seq<Bytes>, rest: seq<Record>)
    requires kind != other
    ensures Stream(kind, Records(other, REQUEST_ID, cs) + rest) == Stream(kind, rest)
  {
    var rs := Records(other, REQUEST_ID, cs);
    if cs == [] {
      assert rs + rest == rest;
    } else {
      OtherStream(kind, other, cs[1..], rest);
      assert (rs + rest)[1..] == Records(other, REQUEST_ID, cs[1..]) + rest;
    }
  }

  lemma {:induction false} FullChunks(kind: Byte, cs: seq<Bytes>, rest: seq<Record>)
    requires (forall i :: 0 <= i < |cs| ==> cs[i] != []) && Stream(kind, rest) == Some([])
    ensures Stream(kind, Records(kind, REQUEST_ID, cs) + rest) == Some(Concat(cs))
  {
    var rs := Records(kind, REQUEST_ID, cs);
    if cs == [] {
      assert rs + rest == rest;
    } else {
      FullChunks(kind, cs[1..], rest);
      assert (rs + rest)[1..] == Records(kind, REQUEST_ID, cs[1..]) + rest;
      assert (rs + rest)[0] == Record(kind, REQUEST_ID, cs[0]);
    }
  }

  lemma WroteEmpty(kind: Byte)
    ensures Wrote(kind, []) == [Record(kind, REQUEST_ID, [])]
  {
    var e: Bytes := [];
    var cs := Chunks(e);
    assert cs == [e] && cs[1..] == [];
    assert Records(kind, REQUEST_ID, cs) == [Record(kind, REQUEST_ID, cs[0])] + Records(kind, REQUEST_ID, cs[1..]);
  }

  /** A stream written and then terminated reads back as its content, even when it is empty. */
  lemma StreamReadsBack(kind: Byte, content: Bytes, rest: seq<Record>)
    ensures Stream(kind, Wrote(kind, content) + (Wrote(kind, []) + rest)) == Some(content)
  {
    ChunksCover(content);
    ChunksCover([]);
    var end := Wrote(kind, []) + rest;
    WroteEmpty(kind);
    assert end[0] == Record(kind, REQUEST_ID, []);
    assert Stream(kind, end) == Some([]);
    if content == [] {
      assert Wrote(kind, content) + end == [Record(kind, REQUEST_ID, [])] + end;
    } else {
      FullChunks(kind, Chunks(content), end);
    }
  }

  lemma WroteReads(kind: Byte, content: Bytes, tail: Bytes)
    requires ReadAll(tail).Some?
    ensures ReadAll(WriteBytes(kind, REQUEST_ID, content) + tail) == Some(Wrote(kind, content) + ReadAll(tail).value)
  {
    ReadChunks(kind, REQUEST_ID, Chunks(content), tail);
  }

  /** The request decodes, on the server's side, to the same parameters in order and the same body. */
  lemma RequestRoundTrip(ps: seq<Param>, body: Bytes)
    requires forall i :: 0 <= i < |ps| ==> ParamOk(ps[i])
    ensures ReadRequest(RequestBytes(ps, body)) == Some(Request(Record(BEGIN_REQUEST, REQUEST_ID, BEGIN_BODY), ps, body))
  {
    var content := ParamsBytes(ps);
    var r5 := Wrote(STDIN, []) + [];
    WroteReads(STDIN, [], []);
    var b5 := WriteBytes(STDIN, REQUEST_ID, []) + [];
    var r4 := Wrote(STDIN, body) + r5;
    WroteReads(STDIN, body, b5);
    var b4 := WriteBytes(STDIN, REQUEST_ID, body) + b5;
    var r3 := Wrote(PARAMS, []) + r4;
    WroteReads(PARAMS, [], b4);
    var b3 := WriteBytes(PARAMS, REQUEST_ID, []) + b4;
    var r2 := Wrote(PARAMS, content) + r3;
    WroteReads(PARAMS, content, b3);
    var b2 := WriteBytes(PARAMS, REQUEST_ID, content) + b3;
    var r1 := Wrote(BEGIN_REQUEST, BEGIN_BODY) + r2;
    WroteReads(BEGIN_REQUEST, BEGIN_BODY, b2);
    StreamReadsBack(PARAMS, content, r4);
    OtherStream(PARAMS, BEGIN_REQUEST, Chunks(BEGIN_BODY), r2);
    StreamReadsBack(STDIN, body, []);
    OtherStream(STDIN, PARAMS, Chunks([]), r4);
    OtherStream(STDIN, PARAMS, Chunks(content), r3);
    OtherStream(STDIN, BEGIN_REQUEST, Chunks(BEGIN_BODY), r2);
    ParamsRoundTrip(ps);
    BeginIsOne(r2);
  }

  lemma BeginIsOne(rest: seq<Record>)
    ensures var rs := Wrote(BEGIN_REQUEST, BEGIN_BODY) + rest;
            rs != [] && rs[0] == Record(BEGIN_REQUEST, REQUEST_ID, BEGIN_BODY)
  {
    assert Chunks(BEGIN_BODY) == [BEGIN_BODY];
  }

  // ------------------------------------------------------------ the response (section 5.5)

  datatype Response = Response(stdout: Bytes, stderr: Bytes, appStatus: nat, status: nat)
  datatype Reply = Done(res: Response, rest: Bytes) | ReadFailed

  function AppStatus(content: Bytes): nat {
    if |content| < 8 then 0
    else content[0] as int * 0x100_0000 + content[1] as int * 0x1_0000 + content[2] as int * 0x100 + content[3] as int
  }

  function Finish(content: Bytes, out: Bytes, err: Bytes): Response {
    Response(out, err, AppStatus(content), if AppStatus(content) != 0 then 500 else 200)
  }

  function Respond(b: Bytes, out: Bytes, err: Bytes): Reply
    decreases |b|
  {
    match ReadRecord(b)
    case Got(r, rest) =>
      if r.kind == STDOUT then Respond(rest, out + r.content, err)
      else if r.kind == STDERR then Respond(rest, out, err + r.content)
      else if r.kind == END_REQUEST then Done(Finish(r.content, out, err), rest)
      else Respond(rest, out, err)
    case _ => ReadFailed
  }

  /** The buffered connection being read: the bytes still to come. */
  class Source {
    var rest: Bytes

    constructor (bytes: Bytes)
      ensures rest == bytes
    {
      rest := bytes;
    }

    /** Reads exactly n bytes, or reports that there are fewer. */
    method ReadFull(n: nat) returns (b: Bytes, ok: bool)
      modifies this
      ensures ok == (n <= |old(rest)|)
      ensures ok ==> b == old(rest)[..n] && rest == old(rest)[n..]
    {
      if n > |rest| {
        return [], false;
      }
      b, ok := rest[..n], true;
      rest := rest[n..];
    }
  }

  method FcgiRead(br: Source) returns (r: Record, ok: bool)
    modifies br
    ensures match ReadRecord(old(br.rest)) {
              case Got(rec, rest) => ok && r == rec && br.rest == rest
              case _ => !ok
            }
  {
    r := Record(0, 0, []);
    ghost var all := br.rest;
    var hdr, okh := br.ReadFull(8);
    if !okh {
      return r, false;
    }
    if hdr[0] != 1 {
      return r, false;
    }
    var n: int, pad: int := Word(hdr[4], hdr[5]), hdr[6];
    var content, okc := br.ReadFull(n);
    if !okc {
      return r, false;
    }
    if pad > 0 {
      var _, okp := br.ReadFull(pad);
      if !okp {
        return r, false;
      }
    }
    assert all[8..][..n] == all[8..8 + n] && all[8..][n..][pad..] == all[8 + n + pad..];
    return Record(hdr[1], Word(hdr[2], hdr[3]), content), true;
  }

  method ReadResponse(br: Source) returns (res: Response, ok: bool)
    modifies br
    ensures match Respond(old(br.rest), [], []) {
              case Done(response, rest) => ok && res == response && br.rest == rest
              case ReadFailed => !ok
            }
  {
    res := Response([], [], 0, 200);
    var stdout: Bytes, stderr: Bytes := [], [];
    while true
      invariant Respond(br.rest, stdout, stderr) == Respond(old(br.rest), [], [])
      decreases |br.rest|
    {
      var rec, okr := FcgiRead(br);
      if !okr {
        return res, false;
      }
      if rec.kind == STDOUT {
        if |rec.content| != 0 {
          stdout := stdout + rec.content;
        } else {
          assert stdout + rec.content == stdout;
        }
      } else if rec.kind == STDERR {
        stderr := stderr + rec.content;
      } else if rec.kind == END_REQUEST {
        return Finish(rec.content, stdout, stderr), true;
      }
    }
  }

  /** A record as some server sent it. */
  datatype Sent = Sent(r: Record, padding: Bytes, reserved: Byte)

  predicate SentOk(s: Sent) {
    |s.r.content| <= MAX_CONTENT && |s.padding| < 256
  }

  function SentBytes(ss: seq<Sent>): Bytes
    requires forall i :: 0 <= i < |ss| ==> SentOk(ss[i])
  {
    if ss == [] then []
    else
      assert SentOk(ss[0]);
      Wire(ss[0].r, ss[0].padding, ss[0].reserved) + SentBytes(ss[1..])
  }

  /** The contents of one kind of record, in order. */
  function Contents(kind: Byte, ss: seq<Sent>): Bytes {
    if ss == [] then []
    else (if ss[0].r.kind == kind then ss[0].r.content else []) + Contents(kind, ss[1..])
  }

  /** Under any interleaving and padding, the two outputs are the in-order concatenations of their records. */
  lemma {:induction false} ResponseConcatenates(ss: seq<Sent>, end: Sent, tail: Bytes, out: Bytes, err: Bytes)
    requires forall i :: 0 <= i < |ss| ==> SentOk(ss[i]) && ss[i].r.kind != END_REQUEST
    requires SentOk(end) && end.r.kind == END_REQUEST
    ensures Respond(SentBytes(ss) + (Wire(end.r, end.padding, end.reserved) + tail), out, err) ==
            Done(Finish(end.r.content, out + Contents(STDOUT, ss), err + Contents(STDERR, ss)), tail)
    decreases |ss|
  {
    var last := Wire(end.r, end.padding, end.reserved) + tail;
    if ss == [] {
      assert SentBytes(ss) + last == last && out + [] == out && err + [] == err;
      ReadWire(end.r, end.padding, end.reserved, tail);
    } else {
      assert SentOk(ss[0]);
      Assoc(Wire(ss[0].r, ss[0].padding, ss[0].reserved), SentBytes(ss[1..]), last);
      RespondOne(ss[0], SentBytes(ss[1..]) + last, out, err);
      ResponseConcatenates(ss[1..], end, tail, Take(STDOUT, ss[0], out), Take(STDERR, ss[0], err));
      Grow(out, STDOUT, ss);
      Grow(err, STDERR, ss);
    }
  }

  /** An output after one more record. */
  function Take(kind: Byte, s: Sent, out: Bytes): Bytes {
    if s.r.kind == kind then out + s.r.content else out
  }

  lemma RespondOne(s: Sent, rest: Bytes, out: Bytes, err: Bytes)
    requires SentOk(s) && s.r.kind != END_REQUEST
    ensures Respond(Wire(s.r, s.padding, s.reserved) + rest, out, err) ==
            Respond(rest, Take(STDOUT, s, out), Take(STDERR, s, err))
  {
    ReadWire(s.r, s.padding, s.reserved, rest);
  }

  lemma Grow(out: Bytes, kind: Byte, ss: seq<Sent>)
    requires ss != []
    ensures Take(kind, ss[0], out) + Contents(kind, ss[1..]) == out + Contents(kind, ss)
  {
    if ss[0].r.kind == kind {
      Assoc(out, ss[0].r.content, Contents(kind, ss[1..]));
    } else {
      assert [] + Contents(kind, ss[1..]) == Contents(kind, ss[1..]);
    }
  }

  /** A response that ends before its END_REQUEST record is an error, never a shorter response. */
  lemma {:induction false} TruncatedResponseFails(ss: seq<Sent>, cut: Bytes, out: Bytes, err: Bytes)
    requires forall i :: 0 <= i < |ss| ==> SentOk(ss[i]) && ss[i].r.kind != END_REQUEST
    requires !ReadRecord(cut).Got?
    ensures Respond(SentBytes(ss) + cut, out, err) == ReadFailed
    decreases |ss|
  {
    if ss == [] {
      assert SentBytes(ss) + cut == cut;
    } else {
      assert SentOk(ss[0]);
      Assoc(Wire(ss[0].r, ss[0].padding, ss[0].reserved), SentBytes(ss[1..]), cut);
      RespondOne(ss[0], SentBytes(ss[1..]) + cut, out, err);
      TruncatedResponseFails(ss[1..], cut, Take(STDOUT, ss[0], out), Take(STDERR, ss[0], err));
    }
  }
}
