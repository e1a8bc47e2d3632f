/** Length-prefixed frames on a connection: written whole under a lock, read back
    one by one from whatever bytes arrived. */
module Frame {

  newtype byte = x: int | 0 <= x < 256
  type Bytes = seq<byte>

  const MAX_FRAME_SIZE: nat := 4_194_304
  const LENGTH_PREFIX_SIZE: nat := 4

  // ---- the length prefix ----

  function BigEndian(n: nat): (r: Bytes)
    requires n < 0x1_0000_0000
    ensures |r| == LENGTH_PREFIX_SIZE
  {
    [(n / 0x100_0000) as byte, (n / 0x1_0000 % 256) as byte, (n / 0x100 % 256) as byte, (n % 256) as byte]
  }

  function FromBigEndian(b: Bytes): (n: nat)
    requires |b| == LENGTH_PREFIX_SIZE
    ensures n < 0x1_0000_0000
    ensures n == b[0] as nat * 0x100_0000 + b[1] as nat * 0x1_0000 + b[2] as nat * 0x100 + b[3] as nat
  {
    ((b[0] as nat * 256 + b[1] as nat) * 256 + b[2] as nat) * 256 + b[3] as nat
  }

  lemma PrefixRoundTrip(n: nat)
    requires n < 0x1_0000_0000
    ensures FromBigEndian(BigEndian(n)) == n
  {
    var a, b := n / 256, n / 256 / 256;
    assert n / 0x1_0000 == b && n / 0x100_0000 == b / 256;
  }

  // ---- writing ----

  function Encode(payload: Bytes): Bytes
    requires |payload| <= MAX_FRAME_SIZE
  {
    BigEndian(|payload|) + payload
  }

  /** The buffer that is written in one call, or nothing if it is too large. */
  method WriteFrame(payload: Bytes) returns (ok: bool, written: Bytes)
    ensures ok <==> |payload| <= MAX_FRAME_SIZE
    ensures written == if ok then Encode(payload) else []
  {
    if |payload| > MAX_FRAME_SIZE { return false, []; }
    var buf := new byte[LENGTH_PREFIX_SIZE + |payload|];
    var prefix := BigEndian(|payload|);
    for i := 0 to LENGTH_PREFIX_SIZE
      invariant forall j :: 0 <= j < i ==> buf[j] == prefix[j]
    {
      buf[i] := prefix[i];
    }
    for i := 0 to |payload|
      invariant forall j :: 0 <= j < LENGTH_PREFIX_SIZE ==> buf[j] == prefix[j]
      invariant forall j :: 0 <= j < i ==> buf[LENGTH_PREFIX_SIZE + j] == payload[j]
    {
      buf[LENGTH_PREFIX_SIZE + i] := payload[i];
    }
    assert buf[..] == Encode(payload);
    return true, buf[..];
  }

  /** The connection's write side; Send holds the lock for the whole frame. */
  class ConnWriter {
    var written: Bytes

    constructor ()
      ensures written == []
    {
      written := [];
    }

    method Send(payload: Bytes) returns (ok: bool)
      modifies this
      ensures written == old(written) + SendBytes(payload)
      ensures ok <==> |payload| <= MAX_FRAME_SIZE
    {
      var bytes;
      ok, bytes := WriteFrame(payload);
      written := written + bytes;
    }
  }

  function SendBytes(payload: Bytes): Bytes {
    if |payload| <= MAX_FRAME_SIZE then Encode(payload) else []
  }

  // ---- reading ----

  datatype ReadError = Eof | UnexpectedEof | FrameTooLarge(size: nat)

  datatype Read = Got(payload: Bytes, rest: Bytes) | Failed(error: ReadError)

  /** io.ReadFull of at least one byte. */
  function ReadFull(s: Bytes, n: nat): Read {
    if n <= |s| then Got(s[..n], s[n..]) else Failed(if s == [] then Eof else UnexpectedEof)
  }

  function ReadFrame(s: Bytes): (r: Read)
    ensures r.Got? ==> |r.rest| < |s|
  {
    match ReadFull(s, LENGTH_PREFIX_SIZE)
    case Failed(e) => Failed(e)
    case Got(header, body) =>
      var n := FromBigEndian(header);
      if n > MAX_FRAME_SIZE then Failed(FrameTooLarge(n))
      else if n == 0 then Got([], body)
      else match ReadFull(body, n)
        case Failed(_) => Failed(UnexpectedEof)
        case Got(payload, rest) => Got(payload, rest)
  }

  /** The connection's read side. */
  class Reader {
    var rest: Bytes

    constructor (bytes: Bytes)
      ensures rest == bytes
    {
      rest := bytes;
    }

    method Full(n: nat) returns (data: Bytes, error: ReadError)
      modifies this
      ensures n <= |old(rest)| ==> data == old(rest)[..n] && rest == old(rest)[n..]
      ensures n > |old(rest)| ==> data == [] && rest == [] && error == (if old(rest) == [] then Eof else UnexpectedEof)
    {
      error := if rest == [] then Eof else UnexpectedEof;
      if n <= |rest| {
        data, rest := rest[..n], rest[n..];
      } else {
        data, rest := [], [];
      }
    }

    /** On success exactly one frame is consumed; an oversized header is refused
        before any of its body is read. */
    method Next() returns (r: Read)
      modifies this
      ensures r == ReadFrame(old(rest))
      ensures r.Got? ==> rest == r.rest
      ensures r.Failed? && r.error.FrameTooLarge? ==> rest == old(rest)[LENGTH_PREFIX_SIZE..]
    {
      var short := |rest| < LENGTH_PREFIX_SIZE;
      var header, headerError := Full(LENGTH_PREFIX_SIZE);
      if short { return Failed(headerError); }
      var n := FromBigEndian(header);
      if n > MAX_FRAME_SIZE { return Failed(FrameTooLarge(n)); }
      if n == 0 { return Got([], rest); }
      short := |rest| < n;
      var payload, bodyError := Full(n);
      if short { return Failed(UnexpectedEof); }
      return Got(payload, rest);
    }
  }

  /** Reading until the first error. */
  function ReadAll(s: Bytes): (seq<Bytes>, ReadError)
    decreases |s|
  {
    match ReadFrame(s)
    case Failed(e) => ([], e)
    case Got(payload, rest) =>
      var (more, e) := ReadAll(rest);
      ([payload] + more, e)
  }

  // ---- what is read back ----

  ghost predicate AllFit(ps: seq<Bytes>) {
    forall i :: 0 <= i < |ps| ==> |ps[i]| <= MAX_FRAME_SIZE
  }

  function StreamOf(ps: seq<Bytes>): Bytes {
    if ps == [] then [] else SendBytes(ps[0]) + StreamOf(ps[1..])
  }

  lemma ReadOne(payload: Bytes, rest: Bytes)
    requires |payload| <= MAX_FRAME_SIZE
    ensures ReadFrame(Encode(payload) + rest) == Got(payload, rest)
  {
    hide FromBigEndian, BigEndian;
    PrefixRoundTrip(|payload|);
    var s := Encode(payload) + rest;
    assert s[..LENGTH_PREFIX_SIZE] == BigEndian(|payload|);
    assert s[LENGTH_PREFIX_SIZE..] == payload + rest;
    if payload == [] { assert payload + rest == rest; }
  }

  /** A frame that is cut short anywhere but at its start is an unexpected end. */
  lemma ReadCut(payload: Bytes, k: nat)
    requires |payload| <= MAX_FRAME_SIZE && k < |Encode(payload)|
    ensures ReadFrame(Encode(payload)[..k]) == Failed(if k == 0 then Eof else UnexpectedEof)
  {
    hide FromBigEndian, BigEndian;
    var s := Encode(payload)[..k];
    PrefixRoundTrip(|payload|);
    if LENGTH_PREFIX_SIZE <= k {
      assert s[..LENGTH_PREFIX_SIZE] == BigEndian(|payload|);
      assert |s[LENGTH_PREFIX_SIZE..]| < |payload|;
    }
  }

  /** How many whole frames the first k bytes contain. */
  function Complete(ps: seq<Bytes>, k: nat): (j: nat)
    ensures j <= |ps|
  {
    if ps == [] || k < |SendBytes(ps[0])| then 0 else 1 + Complete(ps[1..], k - |SendBytes(ps[0])|)
  }

  /** Complete is the number of frames whose ends lie within k. */
  lemma {:induction false} CompleteIsBoundary(ps: seq<Bytes>, k: nat)
    requires AllFit(ps)
    ensures |StreamOf(ps[..Complete(ps, k)])| <= k
    ensures Complete(ps, k) < |ps| ==> k < |StreamOf(ps[..Complete(ps, k) + 1])|
  {
    hide SendBytes;
    if ps != [] {
      var j := Complete(ps, k);
      if k >= |SendBytes(ps[0])| {
        CompleteIsBoundary(ps[1..], k - |SendBytes(ps[0])|);
        assert ps[..j][1..] == ps[1..][..j - 1];
        if j < |ps| { assert ps[..j + 1][1..] == ps[1..][..j]; }
      } else {
        assert ps[..1][1..] == [];
      }
    }
  }

  /** On every prefix of what was sent, reading returns exactly the whole frames,
      and then io.EOF if the cut is on a frame boundary, else
      io.ErrUnexpectedEOF. */
  lemma {:induction false} TruncatedStream(ps: seq<Bytes>, k: nat)
    requires AllFit(ps) && k <= |StreamOf(ps)|
    ensures var j := Complete(ps, k);
            ReadAll(StreamOf(ps)[..k]) == (ps[..j], if k == |StreamOf(ps[..j])| then Eof else UnexpectedEof)
  {
    hide ReadFrame, Encode;
    if ps == [] {
      NothingToRead();
    } else {
      var first, rest := Encode(ps[0]), StreamOf(ps[1..]);
      var j := Complete(ps, k);
      var s := StreamOf(ps)[..k];
      if k < |first| {
        assert s == first[..k] && ps[..0] == [];
        ReadCut(ps[0], k);
      } else {
        var k' := k - |first|;
        TruncatedStream(ps[1..], k');
        assert s == first + rest[..k'];
        ReadOne(ps[0], rest[..k']);
        assert ps[..j] == [ps[0]] + ps[1..][..j - 1];
        assert ps[..j][1..] == ps[1..][..j - 1];
      }
    }
  }

  lemma NothingToRead()
    ensures ReadAll([]) == ([], Eof)
  {
  }

  /** A header that announces too much is refused with its size, whatever follows it
      and however many whole frames came before. */
  lemma {:induction false} OversizedRefused(ps: seq<Bytes>, n: nat, body: Bytes)
    requires AllFit(ps) && MAX_FRAME_SIZE < n < 0x1_0000_0000
    ensures ReadAll(StreamOf(ps) + BigEndian(n) + body) == (ps, FrameTooLarge(n))
  {
    hide ReadFrame, Encode, BigEndian;
    var rest := BigEndian(n) + body;
    if ps == [] {
      HeaderRefused(n, body);
      assert StreamOf(ps) + BigEndian(n) + body == rest;
    } else {
      var more := StreamOf(ps[1..]) + BigEndian(n) + body;
      OversizedRefused(ps[1..], n, body);
      ReadOne(ps[0], more);
      assert StreamOf(ps) + BigEndian(n) + body == Encode(ps[0]) + more;
      assert ps == [ps[0]] + ps[1..];
    }
  }

  lemma HeaderRefused(n: nat, body: Bytes)
    requires MAX_FRAME_SIZE < n < 0x1_0000_0000
    ensures ReadFrame(BigEndian(n) + body) == Failed(FrameTooLarge(n))
  {
    hide FromBigEndian, BigEndian;
    PrefixRoundTrip(n);
    assert (BigEndian(n) + body)[..LENGTH_PREFIX_SIZE] == BigEndian(n);
  }

  /** The payloads of a schedule of Sends that were not refused. */
  function Accepted(sends: seq<Bytes>): seq<Bytes> {
    if sends == [] then []
    else if |sends[0]| <= MAX_FRAME_SIZE then [sends[0]] + Accepted(sends[1..])
    else Accepted(sends[1..])
  }

  lemma {:induction false} RefusedSendsWriteNothing(sends: seq<Bytes>)
    ensures AllFit(Accepted(sends)) && StreamOf(Accepted(sends)) == StreamOf(sends)
  {
    hide Encode;
    if sends != [] {
      RefusedSendsWriteNothing(sends[1..]);
      if |sends[0]| <= MAX_FRAME_SIZE {
        assert Accepted(sends)[1..] == Accepted(sends[1..]);
      }
    }
  }

  /** Whatever the order in which concurrent Sends get the lock, the peer reads
      exactly the accepted payloads in that order, then io.EOF. */
  lemma {:induction false} SendsReadBack(sends: seq<Bytes>)
    ensures ReadAll(StreamOf(sends)) == (Accepted(sends), Eof)
  {
    hide ReadAll, Encode;
    var ps := Accepted(sends);
    RefusedSendsWriteNothing(sends);
    var s := StreamOf(ps);
    TruncatedStream(ps, |s|);
    CompleteIsBoundary(ps, |s|);
    assert s[..|s|] == s;
    var j := Complete(ps, |s|);
    if j < |ps| { PrefixShorter(ps, j); }
    assert ps[..|ps|] == ps;
  }

  lemma {:induction false} PrefixShorter(ps: seq<Bytes>, j: nat)
    requires AllFit(ps) && j < |ps|
    ensures |StreamOf(ps[..j + 1])| <= |StreamOf(ps)|
  {
    hide SendBytes;
    if j == 0 {
      assert ps[..1][1..] == [];
    } else {
      PrefixShorter(ps[1..], j - 1);
      assert ps[..j + 1][1..] == ps[1..][..j];
    }
  }
}
