/** The wire format of the chat protocol: [id: 4 bytes BE][length: 2 bytes BE][body: at most 1024 bytes].

    The C++ node writes its header by swapping the bytes of an integer and copying the integer's memory; the
    Python client packs the digits from the most significant one.  Both are given here separately and proved equal,
    and a stream of frames cut into arbitrary chunks is proved to read back as the frames that were written. */
module Framing {
  import opened Wrappers

  type Byte = b: int | 0 <= b < 256
  type Bytes = seq<Byte>

  const MAX_LENGTH: nat := 1024
  const ID_LEN: nat := 4
  const HEAD_LEN: nat := 2
  const PREFIX_LEN: nat := 6
  const ID_LIMIT: nat := 0x1_0000_0000

  datatype Frame = Frame(id: nat, body: Bytes) {
    /** A 32-bit id and at most 1024 bytes. */
    predicate Fits() { id < 0x1_0000_0000 && |body| <= 1024 }
  }

  // ---------- Integers in memory ----------

  function Power256(k: nat): nat {
    if k == 0 then 1 else 256 * Power256(k - 1)
  }

  /** The memory of a k-byte integer on the little-endian hosts the servers run on. */
  function Memory(n: nat, k: nat): (b: Bytes)
    ensures |b| == k
  {
    if k == 0 then [] else [n % 256] + Memory(n / 256, k - 1)
  }

  /** The integer held by a piece of memory. */
  function FromMemory(b: Bytes): nat {
    if b == [] then 0 else b[0] + 256 * FromMemory(b[1..])
  }

  function Reverse(b: Bytes): (r: Bytes)
    ensures |r| == |b|
  {
    if b == [] then [] else Reverse(b[1..]) + [b[0]]
  }

  /** boost::endian::native_to_big and big_to_native on such a host: swap the bytes. */
  function SwapBytes(n: nat, k: nat): nat {
    FromMemory(Reverse(Memory(n, k)))
  }

  /** struct.pack with a big-endian format: most significant digit first. */
  function PackBigEndian(n: nat, k: nat): (b: Bytes)
    ensures |b| == k
  {
    if k == 0 then [] else PackBigEndian(n / 256, k - 1) + [n % 256]
  }

  function UnpackBigEndian(b: Bytes): nat {
    if b == [] then 0 else 256 * UnpackBigEndian(b[..|b| - 1]) + b[|b| - 1]
  }

  lemma {:induction false} MemoryOfInteger(b: Bytes)
    ensures Memory(FromMemory(b), |b|) == b
  {
    if b != [] {
      MemoryOfInteger(b[1..]);
      var n := FromMemory(b[1..]);
      assert FromMemory(b) == b[0] + 256 * n;
      assert (b[0] + 256 * n) / 256 == n && (b[0] + 256 * n) % 256 == b[0];
      assert b == [b[0]] + b[1..];
    }
  }

  lemma {:induction false} IntegerOfMemory(n: nat, k: nat)
    requires n < Power256(k)
    ensures FromMemory(Memory(n, k)) == n
  {
    if k > 0 {
      IntegerOfMemory(n / 256, k - 1);
      assert Memory(n, k)[1..] == Memory(n / 256, k - 1);
    }
  }

  lemma {:induction false} ReverseAppend(a: Bytes, x: Byte)
    ensures Reverse(a + [x]) == [x] + Reverse(a)
  {
    if a == [] {
      assert a + [x] == [x] && Reverse([x]) == Reverse([]) + [x];
    } else {
      ReverseAppend(a[1..], x);
      assert (a + [x])[1..] == a[1..] + [x];
    }
  }

  lemma {:induction false} ReverseTwice(b: Bytes)
    ensures Reverse(Reverse(b)) == b
  {
    if b != [] {
      ReverseAppend(Reverse(b[1..]), b[0]);
      ReverseTwice(b[1..]);
    }
  }

  lemma {:induction false} SwappedMemoryIsPacked(n: nat, k: nat)
    ensures Memory(SwapBytes(n, k), k) == PackBigEndian(n, k)
  {
    MemoryOfInteger(Reverse(Memory(n, k)));
    if k > 0 {
      SwappedMemoryIsPacked(n / 256, k - 1);
      MemoryOfInteger(Reverse(Memory(n / 256, k - 1)));
      assert Memory(n, k)[1..] == Memory(n / 256, k - 1);
    }
  }

  /** Reading undoes writing: swapping what was read from the packed bytes gives the integer back. */
  lemma {:induction false} SwapReadsPacked(n: nat, k: nat)
    requires n < Power256(k)
    ensures SwapBytes(FromMemory(PackBigEndian(n, k)), k) == n
  {
    var m := Memory(n, k);
    SwappedMemoryIsPacked(n, k);
    MemoryOfInteger(Reverse(m));
    MemoryOfInteger(PackBigEndian(n, k));
    ReverseTwice(m);
    IntegerOfMemory(n, k);
  }

  lemma {:induction false} UnpackIsSwapRead(b: Bytes)
    ensures UnpackBigEndian(b) == SwapBytes(FromMemory(b), |b|)
  {
    MemoryOfInteger(b);
    if b != [] {
      var init, x := b[..|b| - 1], b[|b| - 1];
      assert b == init + [x];
      UnpackIsSwapRead(init);
      MemoryOfInteger(init);
      ReverseAppend(init, x);
      assert Reverse(b)[1..] == Reverse(init);
    }
  }

  // ---------- The two codecs ----------

  /** MsgNode::encode_header. */
  function Header(id: nat, length: nat): (h: Bytes)
    ensures |h| == PREFIX_LEN
  {
    Memory(SwapBytes(id, ID_LEN), ID_LEN) + Memory(SwapBytes(length, HEAD_LEN), HEAD_LEN)
  }

  /** The id and the length that MsgNode::decode_header reads. */
  function ParseHeader(h: Bytes): (nat, nat)
    requires |h| == PREFIX_LEN
  {
    (SwapBytes(FromMemory(h[..ID_LEN]), ID_LEN), SwapBytes(FromMemory(h[ID_LEN..]), HEAD_LEN))
  }

  function Encode(f: Frame): Bytes {
    Header(f.id, |f.body|) + f.body
  }

  function TwoBytes(a: int, b: int): int { a * 256 + b }

  function FourBytes(a: int, b: int, c: int, d: int): int { a * 16777216 + b * 65536 + c * 256 + d }

  /** tests/msg_node.py encode, with struct's ">IH" written out; None where it raises. */
  function PythonEncode(id: int, body: Bytes): Option<Bytes> {
    if |body| > 1024 || id < 0 || id > 4294967295 then None
    else
      Some([id / 16777216, id / 65536 % 256, id / 256 % 256, id % 256, |body| / 256, |body| % 256] + body)
  }

  /** tests/msg_node.py decode_header, likewise. */
  function PythonDecodeHeader(h: Bytes): Option<(nat, nat)> {
    if |h| != 6 then None
    else
      var length := TwoBytes(h[4], h[5]);
      if length > 1024 then None else Some((FourBytes(h[0], h[1], h[2], h[3]), length))
  }

  lemma PackedFour(n: nat)
    requires n < 4294967296
    ensures PackBigEndian(n, 4) == [n / 16777216, n / 65536 % 256, n / 256 % 256, n % 256]
  {
    PackedTwo(n / 65536);
    assert PackBigEndian(n, 4) == PackBigEndian(n / 256, 3) + [n % 256];
    assert PackBigEndian(n / 256, 3) == PackBigEndian(n / 256 / 256, 2) + [n / 256 % 256];
    assert n / 256 / 256 == n / 65536 && n / 65536 / 256 == n / 16777216;
  }

  lemma PackedTwo(n: nat)
    requires n < 65536
    ensures PackBigEndian(n, 2) == [n / 256, n % 256]
  {
    assert PackBigEndian(n, 2) == PackBigEndian(n / 256, 1) + [n % 256];
    assert PackBigEndian(n / 256, 1) == PackBigEndian(n / 256 / 256, 0) + [n / 256 % 256];
  }

  lemma UnpackedTwo(b: Bytes)
    requires |b| == 2
    ensures UnpackBigEndian(b) == TwoBytes(b[0], b[1])
  {
    assert UnpackBigEndian(b[..1]) == 256 * UnpackBigEndian(b[..1][..0]) + b[0];
    assert b[..1][..0] == [];
  }

  lemma UnpackedFour(b: Bytes)
    requires |b| == 4
    ensures UnpackBigEndian(b) == FourBytes(b[0], b[1], b[2], b[3])
  {
    var three := b[..3];
    UnpackedTwo(three[..2]);
    assert UnpackBigEndian(b) == 256 * UnpackBigEndian(three) + b[3];
    assert UnpackBigEndian(three) == 256 * UnpackBigEndian(three[..2]) + b[2];
  }

  lemma HeaderRoundTrip(id: nat, length: nat)
    requires id < ID_LIMIT && length < 65536
    ensures ParseHeader(Header(id, length)) == (id, length)
  {
    SwappedMemoryIsPacked(id, ID_LEN);
    SwappedMemoryIsPacked(length, HEAD_LEN);
    assert Power256(4) == ID_LIMIT && Power256(2) == 65536;
    SwapReadsPacked(id, ID_LEN);
    SwapReadsPacked(length, HEAD_LEN);
    var h := Header(id, length);
    assert h[..ID_LEN] == PackBigEndian(id, ID_LEN) && h[ID_LEN..] == PackBigEndian(length, HEAD_LEN);
  }

  /** The two independent codecs agree byte for byte, and on what they refuse. */
  lemma CodecsAgree(id: nat, body: Bytes, h: Bytes)
    ensures PythonEncode(id, body) == if Frame(id, body).Fits() then Some(Encode(Frame(id, body))) else None
    ensures |h| == PREFIX_LEN ==>
              PythonDecodeHeader(h) == if ParseHeader(h).1 <= MAX_LENGTH then Some(ParseHeader(h)) else None
  {
    if Frame(id, body).Fits() {
      EncodesLikePython(id, body);
    }
    if |h| == PREFIX_LEN {
      ParsesLikePython(h);
    }
  }

  lemma EncodesLikePython(id: nat, body: Bytes)
    requires Frame(id, body).Fits()
    ensures Some(Encode(Frame(id, body))) == PythonEncode(id, body)
  {
    hide Memory, SwapBytes, PackBigEndian;
    SwappedMemoryIsPacked(id, ID_LEN);
    SwappedMemoryIsPacked(|body|, HEAD_LEN);
    PackedFour(id);
    PackedTwo(|body|);
    assert [id / 16777216, id / 65536 % 256, id / 256 % 256, id % 256] + [|body| / 256, |body| % 256] ==
           [id / 16777216, id / 65536 % 256, id / 256 % 256, id % 256, |body| / 256, |body| % 256];
  }

  lemma ParsesLikePython(h: Bytes)
    requires |h| == PREFIX_LEN
    ensures ParseHeader(h) == (FourBytes(h[0], h[1], h[2], h[3]), TwoBytes(h[4], h[5]))
  {
    hide SwapBytes, FromMemory, UnpackBigEndian;
    UnpackIsSwapRead(h[..ID_LEN]);
    UnpackIsSwapRead(h[ID_LEN..]);
    UnpackedFour(h[..ID_LEN]);
    UnpackedTwo(h[ID_LEN..]);
  }

  // ---------- The constructor's treatment of a body ----------

  /** What strlen and a C string see of a character array: everything before the first NUL. */
  function CString(s: Bytes): (r: Bytes)
    ensures r <= s && 0 !in r
    ensures r == s || s[|r|] == 0
  {
    if s == [] || s[0] == 0 then [] else [s[0]] + CString(s[1..])
  }

  lemma {:induction false} CStringOfNulFree(s: Bytes)
    ensures CString(s) == s <==> 0 !in s
  {
    if CString(s) != s {
      assert s[|CString(s)|] == 0;
    }
  }

  /** The body a node built from a C string carries: a rejected length leaves the length at 0. */
  function ConstructedBody(text: Bytes): (r: Bytes)
    ensures |r| <= MAX_LENGTH
  {
    var c := CString(text);
    if |c| > MAX_LENGTH then [] else c
  }

  // ---------- Streams ----------

  datatype Ending = Eof(partial: Bytes) | BadLength(length: nat)

  function Flatten(frames: seq<Frame>): Bytes {
    if frames == [] then [] else Flatten(frames[..|frames| - 1]) + Encode(frames[|frames| - 1])
  }

  /** The frames a reader takes out of a byte stream, and why it stops. */
  function ReadAll(s: Bytes): (seq<Frame>, Ending) {
    if |s| < PREFIX_LEN then ([], Eof(s))
    else
      var (id, length) := ParseHeader(s[..PREFIX_LEN]);
      if length > MAX_LENGTH then ([], BadLength(length))
      else if |s| < PREFIX_LEN + length then ([], Eof(s))
      else
        var (frames, ending) := ReadAll(s[PREFIX_LEN + length..]);
        ([Frame(id, s[PREFIX_LEN..PREFIX_LEN + length])] + frames, ending)
  }

  lemma ReadOne(f: Frame, rest: Bytes)
    requires f.Fits()
    ensures ReadAll(Encode(f) + rest) == ([f] + ReadAll(rest).0, ReadAll(rest).1)
  {
    var s := Encode(f) + rest;
    HeaderRoundTrip(f.id, |f.body|);
    assert s[..PREFIX_LEN] == Header(f.id, |f.body|);
    assert s[PREFIX_LEN..PREFIX_LEN + |f.body|] == f.body;
    assert s[PREFIX_LEN + |f.body|..] == rest;
  }

  lemma {:induction false} FlattenCons(f: Frame, frames: seq<Frame>)
    ensures Flatten([f] + frames) == Encode(f) + Flatten(frames)
  {
    hide Encode;
    if frames == [] {
      assert [f] + frames == [f];
      assert [f][..0] == [];
      assert Flatten([f]) == Flatten([]) + Encode(f);
    } else {
      var all := [f] + frames;
      assert all[..|all| - 1] == [f] + frames[..|frames| - 1];
      FlattenCons(f, frames[..|frames| - 1]);
    }
  }

  lemma EmptyFlatten()
    ensures Flatten([]) == []
  {
  }

  /** Less than a whole frame yields no frame. */
  lemma ReadPartOfOne(f: Frame, cut: nat)
    requires f.Fits() && cut < |Encode(f)|
    ensures ReadAll(Encode(f)[..cut]) == ([], Eof(Encode(f)[..cut]))
  {
    var s := Encode(f)[..cut];
    if |s| >= PREFIX_LEN {
      assert s[..PREFIX_LEN] == Header(f.id, |f.body|);
      HeaderRoundTrip(f.id, |f.body|);
    }
  }

  /** `read` is what a reader gets out of s, the first bytes of the stream carrying `frames`. */
  ghost predicate ReadsPrefix(frames: seq<Frame>, s: Bytes, read: seq<Frame>, ending: Ending) {
    && read <= frames
    && ending.Eof?
    && Flatten(read) + ending.partial == s
    && (s == Flatten(frames) ==> read == frames && ending == Eof([]))
  }

  lemma ReadsOneMore(f: Frame, frames: seq<Frame>, s: Bytes, read: seq<Frame>, ending: Ending)
    requires ReadsPrefix(frames, s, read, ending)
    ensures ReadsPrefix([f] + frames, Encode(f) + s, [f] + read, ending)
  {
    hide Encode, Flatten;
    FlattenCons(f, frames);
    FlattenCons(f, read);
    assert Encode(f) + (Flatten(read) + ending.partial) == (Encode(f) + Flatten(read)) + ending.partial;
    if Encode(f) + s == Encode(f) + Flatten(frames) {
      assert s == (Encode(f) + s)[|Encode(f)|..] == (Encode(f) + Flatten(frames))[|Encode(f)|..] == Flatten(frames);
    }
  }

  lemma ReadAllShort(s: Bytes)
    requires |s| < PREFIX_LEN
    ensures ReadAll(s) == ([], Eof(s))
  {
  }

  lemma CutAfterFirst(f: Frame, rest: seq<Frame>, cut: nat)
    requires f.Fits() && |Encode(f)| <= cut <= |Encode(f)| + |Flatten(rest)|
    requires var tail := Flatten(rest)[..cut - |Encode(f)|]; ReadsPrefix(rest, tail, ReadAll(tail).0, ReadAll(tail).1)
    ensures cut <= |Flatten([f] + rest)|
    ensures var s := Flatten([f] + rest)[..cut]; ReadsPrefix([f] + rest, s, ReadAll(s).0, ReadAll(s).1)
  {
    hide Encode, ReadAll, Flatten, ReadsPrefix;
    FlattenCons(f, rest);
    var tail := Flatten(rest)[..cut - |Encode(f)|];
    assert Flatten([f] + rest)[..cut] == Encode(f) + tail;
    ReadOne(f, tail);
    ReadsOneMore(f, rest, tail, ReadAll(tail).0, ReadAll(tail).1);
  }

  lemma CutInFirst(f: Frame, rest: seq<Frame>, cut: nat)
    requires f.Fits() && cut < |Encode(f)|
    ensures cut <= |Flatten([f] + rest)|
    ensures var s := Flatten([f] + rest)[..cut]; ReadsPrefix([f] + rest, s, ReadAll(s).0, ReadAll(s).1)
  {
    hide Encode, ReadAll, Flatten;
    FlattenCons(f, rest);
    var s := Encode(f)[..cut];
    assert Flatten([f] + rest)[..cut] == s;
    ReadPartOfOne(f, cut);
    EmptyFlatten();
    assert Flatten([]) + s == s;
    assert |s| < |Flatten([f] + rest)|;
  }

  /** A byte stream cut at any point reads back as a prefix of the frames that were written to it; an uncut one reads
      back exactly. */
  lemma {:induction false} StreamRoundTrip(frames: seq<Frame>, cut: nat)
    requires forall i :: 0 <= i < |frames| ==> frames[i].Fits()
    requires cut <= |Flatten(frames)|
    ensures var s := Flatten(frames)[..cut]; ReadsPrefix(frames, s, ReadAll(s).0, ReadAll(s).1)
  {
    if frames == [] {
      EmptyFlatten();
      ReadAllShort([]);
      assert Flatten(frames)[..cut] == [];
    } else {
      hide Encode, ReadAll, Flatten, ReadsPrefix;
      var f, rest := frames[0], frames[1..];
      assert frames == [f] + rest;
      FlattenCons(f, rest);
      if |Encode(f)| <= cut {
        StreamRoundTrip(rest, cut - |Encode(f)|);
        CutAfterFirst(f, rest, cut);
      } else {
        CutInFirst(f, rest, cut);
      }
    }
  }

  // ---------- The readers ----------

  function Concat(chunks: seq<Bytes>): Bytes {
    if chunks == [] then [] else chunks[0] + Concat(chunks[1..])
  }

  /** The receiving side of a socket: the bytes still to come, cut into the non-empty pieces the network hands over. */
  class Socket {
    var chunks: seq<Bytes>

    ghost predicate Valid()
      reads this
    {
      forall i :: 0 <= i < |chunks| ==> chunks[i] != []
    }

    ghost function Pending(): Bytes
      reads this
    {
      Concat(chunks)
    }

    constructor (chunks: seq<Bytes>)
      requires forall i :: 0 <= i < |chunks| ==> chunks[i] != []
      ensures Valid() && this.chunks == chunks
    {
      this.chunks := chunks;
    }

    /** One recv call: at most n bytes, and none only at the end of the stream. */
    method Recv(n: nat) returns (chunk: Bytes)
      requires Valid() && n > 0
      modifies this
      ensures Valid()
      ensures old(Pending()) == chunk + Pending()
      ensures |chunk| <= n && (chunk == [] <==> old(Pending()) == [])
    {
      if chunks == [] {
        chunk := [];
      } else if |chunks[0]| <= n {
        chunk := chunks[0];
        chunks := chunks[1..];
      } else {
        chunk := chunks[0][..n];
        chunks := [chunks[0][n..]] + chunks[1..];
        assert Concat(chunks) == chunks[0] + Concat(chunks[1..]);
      }
    }

    /** _recv_exact, and asio::async_read into a buffer of n bytes: exactly n bytes, or the end of the stream. */
    method RecvExact(n: nat) returns (r: Option<Bytes>)
      requires Valid()
      modifies this
      ensures Valid()
      ensures r.Some? <==> n <= |old(Pending())|
      ensures r.Some? ==> |r.value| == n && old(Pending()) == r.value + Pending()
      ensures r.None? ==> Pending() == []
    {
      var received: Bytes := [];
      var remaining := n;
      while remaining > 0
        invariant Valid()
        invariant 0 <= remaining && |received| + remaining == n
        invariant old(Pending()) == received + Pending()
      {
        var chunk := Recv(remaining);
        if chunk == [] {
          return None;
        }
        received := received + chunk;
        remaining := remaining - |chunk|;
      }
      return Some(received);
    }

    /** ChatClient.recv: the next message, or nothing once the stream ends or is malformed. */
    method RecvMessage() returns (r: Option<Frame>)
      requires Valid()
      modifies this
      ensures Valid()
      ensures var (frames, ending) := ReadAll(old(Pending()));
              if frames == [] then r.None?
              else r == Some(frames[0]) && ReadAll(Pending()) == (frames[1..], ending)
    {
      hide ParseHeader, Concat;
      ghost var s := Pending();
      var header := RecvExact(PREFIX_LEN);
      if header.None? {
        return None;
      }
      ghost var afterHeader := Pending();
      CodecsAgree(0, [], header.value);
      var parsed := PythonDecodeHeader(header.value);
      if parsed.None? {
        ReadAllStops(s, header.value, afterHeader);
        return None;
      }
      var (id, length) := parsed.value;
      var body: Bytes := [];
      if length > 0 {
        var got := RecvExact(length);
        if got.None? {
          ReadAllStops(s, header.value, afterHeader);
          return None;
        }
        body := got.value;
      }
      ReadAllStep(s, header.value, body, Pending());
      return Some(Frame(id, body));
    }
  }

  /** The server's message buffer. */
  class MsgNode {
    var id: nat
    var bodyLength: nat
    const data: array<Byte>

    ghost predicate Valid()
      reads this
    {
      id < ID_LIMIT && bodyLength <= MAX_LENGTH && data.Length == PREFIX_LEN + MAX_LENGTH + 1
    }

    /** The bytes that are written to the socket: data() up to length(). */
    ghost function Wire(): Bytes
      reads this, data
      requires Valid()
    {
      data[..PREFIX_LEN + bodyLength]
    }

    /** The default constructor. */
    constructor ()
      ensures Valid() && fresh(data)
      ensures id == 0 && bodyLength == 0
      ensures forall i :: 0 <= i < data.Length ==> data[i] == 0
    {
      id, bodyLength := 0, 0;
      data := new Byte[PREFIX_LEN + MAX_LENGTH + 1](_ => 0);
    }

    /** MsgNode(id, body): the result of set_body_length is ignored. */
    constructor FromBody(id: nat, body: Option<Bytes>)
      requires id < ID_LIMIT
      ensures Valid() && fresh(data)
      ensures this.id == id
      ensures Wire() == Encode(Frame(id, if body.None? then [] else ConstructedBody(body.value)))
    {
      this.id, bodyLength := id, 0;
      data := new Byte[PREFIX_LEN + MAX_LENGTH + 1](_ => 0);
      new;
      hide Header, CString;
      if body.Some? {
        var text := CString(body.value);
        var _ := SetBodyLength(|text|);
        EncodeHeader();
        var n := bodyLength;
        forall i | 0 <= i < n {
          data[PREFIX_LEN + i] := text[i];
        }
        assert data[..PREFIX_LEN] == Header(id, bodyLength);
        assert data[PREFIX_LEN..PREFIX_LEN + bodyLength] == ConstructedBody(body.value);
      } else {
        EncodeHeader();
      }
    }

    method SetBodyLength(length: nat) returns (ok: bool)
      requires Valid()
      modifies this`bodyLength
      ensures Valid()
      ensures ok <==> length <= 1024
      ensures bodyLength == if ok then length else old(bodyLength)
    {
      if length > MAX_LENGTH {
        return false;
      }
      bodyLength := length;
      return true;
    }

    method EncodeHeader()
      requires Valid()
      modifies data
      ensures data[..PREFIX_LEN] == Header(id, bodyLength)
      ensures data[PREFIX_LEN..] == old(data[PREFIX_LEN..])
    {
      var header := Header(id, bodyLength);
      forall i | 0 <= i < PREFIX_LEN {
        data[i] := header[i];
      }
    }

    method DecodeHeader() returns (ok: bool)
      requires Valid()
      modifies this
      ensures Valid()
      ensures id == FourBytes(data[0], data[1], data[2], data[3])
      ensures ok <==> TwoBytes(data[4], data[5]) <= 1024
      ensures bodyLength == if ok then TwoBytes(data[4], data[5]) else old(bodyLength)
    {
      hide SwapBytes, FromMemory;
      SwapBound(data[..ID_LEN]);
      var header := data[..PREFIX_LEN];
      ParsesLikePython(header);
      assert header[..ID_LEN] == data[..ID_LEN];
      id := SwapBytes(FromMemory(header[..ID_LEN]), ID_LEN);
      ok := SetBodyLength(SwapBytes(FromMemory(header[ID_LEN..]), HEAD_LEN));
    }
  }

  lemma {:induction false} UnpackBound(b: Bytes)
    ensures UnpackBigEndian(b) < Power256(|b|)
  {
    if b != [] {
      UnpackBound(b[..|b| - 1]);
    }
  }

  lemma SwapBound(b: Bytes)
    requires |b| == ID_LEN
    ensures SwapBytes(FromMemory(b), ID_LEN) < ID_LIMIT
  {
    UnpackIsSwapRead(b);
    UnpackBound(b);
    assert Power256(4) == ID_LIMIT;
  }

  /** Taking a header and a body off a stream takes off its first frame. */
  lemma ReadAllStep(s: Bytes, header: Bytes, body: Bytes, rest: Bytes)
    requires |header| == PREFIX_LEN && ParseHeader(header).1 == |body| <= MAX_LENGTH
    requires s == header + (body + rest)
    ensures ReadAll(s) == ([Frame(ParseHeader(header).0, body)] + ReadAll(rest).0, ReadAll(rest).1)
  {
    hide ParseHeader;
    assert s[..PREFIX_LEN] == header;
    assert s[PREFIX_LEN..PREFIX_LEN + |body|] == body;
    assert s[PREFIX_LEN + |body|..] == rest;
  }

  lemma ReadAllStops(s: Bytes, header: Bytes, rest: Bytes)
    requires |header| == PREFIX_LEN && s == header + rest
    requires ParseHeader(header).1 > MAX_LENGTH || |rest| < ParseHeader(header).1
    ensures ReadAll(s) == ([], if ParseHeader(header).1 > MAX_LENGTH then BadLength(ParseHeader(header).1) else Eof(s))
  {
    hide ParseHeader;
    assert s[..PREFIX_LEN] == header;
  }

  /** ChatSession::reader, without the handler: read nodes until the header is refused or the stream ends. */
  method ReadFrames(socket: Socket) returns (frames: seq<Frame>, refused: bool)
    requires socket.Valid()
    modifies socket
    ensures socket.Valid()
    ensures frames == ReadAll(old(socket.Pending())).0
    ensures refused == ReadAll(old(socket.Pending())).1.BadLength?
  {
    hide ParseHeader, Concat, ReadAll, FourBytes, TwoBytes;
    frames := [];
    ghost var all := ReadAll(socket.Pending());
    assert frames + all.0 == all.0;
    while true
      invariant socket.Valid()
      invariant var (rest, ending) := ReadAll(socket.Pending()); all == (frames + rest, ending)
      decreases |socket.Pending()|
    {
      ghost var s := socket.Pending();
      var node := new MsgNode();
      var header := socket.RecvExact(PREFIX_LEN);
      if header.None? {
        ReadAllShort(s);
        return frames, false;
      }
      ghost var afterHeader := socket.Pending();
      forall i | 0 <= i < PREFIX_LEN {
        node.data[i] := header.value[i];
      }
      assert node.data[..PREFIX_LEN] == header.value;
      ParsesLikePython(header.value);
      var ok := node.DecodeHeader();
      if !ok {
        ReadAllStops(s, header.value, afterHeader);
        return frames, true;
      }
      var body := socket.RecvExact(node.bodyLength);
      if body.None? {
        ReadAllStops(s, header.value, afterHeader);
        return frames, false;
      }
      ReadAllStep(s, header.value, body.value, socket.Pending());
      ghost var rest := ReadAll(socket.Pending()).0;
      assert frames + ([Frame(node.id, body.value)] + rest) == frames + [Frame(node.id, body.value)] + rest;
      frames := frames + [Frame(node.id, body.value)];
    }
  }

  /** However the network cuts the bytes of a list of frames into pieces, the reader gets exactly that list. */
  method ReadChunks(frames: seq<Frame>, chunks: seq<Bytes>) returns (got: seq<Frame>, refused: bool)
    requires forall i :: 0 <= i < |frames| ==> frames[i].Fits()
    requires forall i :: 0 <= i < |chunks| ==> chunks[i] != []
    requires Concat(chunks) == Flatten(frames)
    ensures got == frames && !refused
  {
    hide Encode, ReadAll, Flatten, Concat;
    var socket := new Socket(chunks);
    ghost var s := Concat(chunks);
    assert socket.Pending() == s;
    assert Flatten(frames)[..|s|] == s;
    StreamRoundTrip(frames, |s|);
    got, refused := ReadFrames(socket);
  }

  /** The Python client's reader gets the same list, message by message. */
  method ReceiveChunks(frames: seq<Frame>, chunks: seq<Bytes>) returns (got: seq<Frame>)
    requires forall i :: 0 <= i < |frames| ==> frames[i].Fits()
    requires forall i :: 0 <= i < |chunks| ==> chunks[i] != []
    requires Concat(chunks) == Flatten(frames)
    ensures got == frames
  {
    hide Encode, ReadAll, Flatten, Concat;
    var socket := new Socket(chunks);
    ghost var s := Concat(chunks);
    assert socket.Pending() == s;
    assert Flatten(frames)[..|s|] == s;
    StreamRoundTrip(frames, |s|);
    got := [];
    while true
      invariant fresh(socket) && socket.Valid()
      invariant got + ReadAll(socket.Pending()).0 == frames
      decreases |ReadAll(socket.Pending()).0|
    {
      ghost var rest := ReadAll(socket.Pending()).0;
      var message := socket.RecvMessage();
      if message.None? {
        return;
      }
      assert rest == [rest[0]] + rest[1..];
      assert got + rest == got + [rest[0]] + rest[1..];
      got := got + [message.value];
    }
  }

  /** A frame of a 32-bit id and a body of at most 1024 bytes is taken whole. */
  lemma FramesUpTo1024(id: nat, body: Bytes)
    requires id < 4294967296 && |body| <= 1024
    ensures ReadAll(Encode(Frame(id, body))) == ([Frame(id, body)], Eof([]))
  {
    hide Encode, ReadAll;
    var f := Frame(id, body);
    ReadOne(f, []);
    ReadAllShort([]);
    assert Encode(f) + [] == Encode(f) && [f] + [] == [f];
  }

  /** A header is refused, whatever follows it, exactly when it declares more than 1024 bytes. */
  lemma RefusedOver1024(h: Bytes, rest: Bytes)
    requires |h| == 6
    ensures var length := TwoBytes(h[4], h[5]);
            ReadAll(h + rest) == ([], BadLength(length)) <==> length > 1024
  {
    hide Encode, ParseHeader;
    assert (h + rest)[..PREFIX_LEN] == h;
    ParsesLikePython(h);
  }

  /** The frame of a node built from any text decodes, to the text before its first NUL, or to nothing when that is too
      long; so it decodes to the text itself exactly when that is free of NULs and fits. */
  lemma ConstructedNodeDecodes(id: nat, text: Bytes)
    requires id < 4294967296
    ensures ReadAll(Encode(Frame(id, ConstructedBody(text)))) == ([Frame(id, ConstructedBody(text))], Eof([]))
    ensures ConstructedBody(text) == if |CString(text)| <= 1024 then CString(text) else []
    ensures ConstructedBody(text) == text <==> 0 !in text && |text| <= 1024
  {
    hide Encode;
    var f := Frame(id, ConstructedBody(text));
    ReadOne(f, []);
    assert Encode(f) + [] == Encode(f);
    assert ReadAll([]) == ([], Eof([])) && [f] + [] == [f];
    CStringOfNulFree(text);
  }
}
