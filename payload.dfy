/**
 * Message framing on the daemon's local socket: every message travels as
 * its length in 8 big-endian bytes followed by the message bytes, and the
 * message bytes are the CBOR encoding of a request or a response.
 */
module Payload {
  import Wrappers
  import opened Text
  import opened Numbers

  type Bytes = seq<u8>

  /** Failures of the CBOR layer, which is outside this model. */
  datatype PayloadError = Serialize | Deserialize

  /** The IPC error kinds the framing and the codec produce. */
  datatype IpcError =
    | PayloadFailed(cause: PayloadError)
    | ConnectionRead
    | ConnectionWrite
    | Other(message: Text)

  /** What a response carries: a value or an error of the operation. */
  datatype PayloadResult<T, E> = Ok(value: T) | Error(error: E)

  /** `to_result`: the value passes through; an error is converted by `makeError`. */
  function ToResult<T, E, E2>(p: PayloadResult<T, E>, makeError: E -> E2): (r: Wrappers.Result<T, E2>)
    ensures r.Ok? <==> p.Ok?
    ensures r.Ok? ==> r.value == p.value
    ensures r.Err? ==> r.error == makeError(p.error)
  {
    match p
    case Ok(v) => Wrappers.Ok(v)
    case Error(e) => Wrappers.Err(makeError(e))
  }

  /** Turning a result back into a payload result. */
  function FromResult<T, E>(r: Wrappers.Result<T, E>): PayloadResult<T, E>
  {
    match r
    case Ok(v) => Ok(v)
    case Err(e) => Error(e)
  }

  /** With the identity as error conversion, `to_result` loses nothing. */
  lemma ToResultLosesNothing<T, E>(p: PayloadResult<T, E>)
    ensures FromResult(ToResult(p, (e: E) => e)) == p
  {
  }

  /* ---------------------------------------------------------------------- */
  /* Big-endian length prefix                                                */
  /* ---------------------------------------------------------------------- */

  /** Number of bytes in the length prefix (`usize` on a 64-bit target). */
  const SIZE_BYTES: nat := 8

  function Pow256(k: nat): (r: nat)
    ensures r > 0
  {
    if k == 0 then 1 else 256 * Pow256(k - 1)
  }

  lemma Pow256Eight()
    ensures Pow256(SIZE_BYTES) == U64_MAX + 1
  {
    assert Pow256(1) == 256;
    assert Pow256(2) == 0x1_0000;
    assert Pow256(4) == 0x1_0000_0000 by {
      assert Pow256(3) == 0x100_0000;
    }
    assert Pow256(6) == 0x1_0000_0000_0000 by {
      assert Pow256(5) == 0x100_0000_0000;
    }
    assert Pow256(7) == 0x100_0000_0000_0000;
  }

  /** `to_be_bytes` on `k` bytes: the low `k` bytes of `n`, most significant first. */
  function BigEndian(n: nat, k: nat): (r: Bytes)
    ensures |r| == k
  {
    if k == 0 then [] else BigEndian(n / 256, k - 1) + [n % 256]
  }

  /** `from_be_bytes`. */
  function FromBigEndian(b: Bytes): (r: nat)
    ensures r < Pow256(|b|)
  {
    if b == [] then 0
    else
      var high := FromBigEndian(b[..|b| - 1]);
      assert high * 256 <= (Pow256(|b| - 1) - 1) * 256;
      high * 256 + b[|b| - 1]
  }

  /** Decoding the encoding of a number that fits gives the number back. */
  lemma {:induction false} FromBigEndianInverse(n: nat, k: nat)
    requires n < Pow256(k)
    ensures FromBigEndian(BigEndian(n, k)) == n
  {
    if k > 0 {
      var b := BigEndian(n, k);
      assert b[..k - 1] == BigEndian(n / 256, k - 1);
      FromBigEndianInverse(n / 256, k - 1);
    }
  }

  /** Encoding the decoded number gives the bytes back. */
  lemma {:induction false} BigEndianInverse(b: Bytes)
    ensures BigEndian(FromBigEndian(b), |b|) == b
  {
    if b != [] {
      var high := FromBigEndian(b[..|b| - 1]);
      var n := high * 256 + b[|b| - 1];
      assert n / 256 == high && n % 256 == b[|b| - 1];
      BigEndianInverse(b[..|b| - 1]);
      assert b == b[..|b| - 1] + [b[|b| - 1]];
    }
  }

  /* ---------------------------------------------------------------------- */
  /* Frames                                                                  */
  /* ---------------------------------------------------------------------- */

  /** What `send_payload` writes: the length prefix, then the payload. */
  function Frame(p: Bytes): (r: Bytes)
    requires |p| <= U64_MAX
    ensures |r| == SIZE_BYTES + |p| && r[SIZE_BYTES..] == p
    ensures FromBigEndian(r[..SIZE_BYTES]) == |p|
  {
    Pow256Eight();
    FromBigEndianInverse(|p|, SIZE_BYTES);
    var r := BigEndian(|p|, SIZE_BYTES) + p;
    assert r[..SIZE_BYTES] == BigEndian(|p|, SIZE_BYTES);
    r
  }

  /**
   * What `read_payload` makes of a stream: the payload and the bytes left.
   * A stream that ends inside the prefix or inside the payload is a read
   * error, and the stream is then used up.
   */
  function Unframe(s: Bytes): (r: (Wrappers.Result<Bytes, IpcError>, Bytes))
    ensures r.0.Err? ==> r.0.error == ConnectionRead && r.1 == []
    ensures r.0.Err? <==> |s| < SIZE_BYTES || |s| < SIZE_BYTES + FromBigEndian(s[..SIZE_BYTES])
    ensures r.0.Ok? ==> |r.0.value| <= U64_MAX && s == Frame(r.0.value) + r.1
  {
    if |s| < SIZE_BYTES then (Wrappers.Err(ConnectionRead), [])
    else
      var n := FromBigEndian(s[..SIZE_BYTES]);
      if |s| < SIZE_BYTES + n then (Wrappers.Err(ConnectionRead), [])
      else
        FramedPrefix(s, n);
        (Wrappers.Ok(s[SIZE_BYTES..SIZE_BYTES + n]), s[SIZE_BYTES + n..])
  }

  /** A stream holding a whole frame is that frame followed by the rest. */
  lemma FramedPrefix(s: Bytes, n: nat)
    requires |s| >= SIZE_BYTES + n && n == FromBigEndian(s[..SIZE_BYTES])
    ensures n <= U64_MAX
    ensures s == Frame(s[SIZE_BYTES..SIZE_BYTES + n]) + s[SIZE_BYTES + n..]
  {
    Pow256Eight();
    var p := s[SIZE_BYTES..SIZE_BYTES + n];
    BigEndianInverse(s[..SIZE_BYTES]);
    assert Frame(p) == BigEndian(n, SIZE_BYTES) + p;
    assert s == s[..SIZE_BYTES] + p + s[SIZE_BYTES + n..];
  }

  /** Reading a stream that begins with a frame yields its payload and consumes exactly the frame. */
  lemma UnframeFrame(p: Bytes, rest: Bytes)
    requires |p| <= U64_MAX
    ensures Unframe(Frame(p) + rest) == (Wrappers.Ok(p), rest)
  {
    var s := Frame(p) + rest;
    assert s[..SIZE_BYTES] == Frame(p)[..SIZE_BYTES];
    assert s[SIZE_BYTES..SIZE_BYTES + |p|] == p;
    assert s[SIZE_BYTES + |p|..] == rest;
  }

  /** `from_payload`: a decoding failure becomes a deserialisation error. */
  function FromPayload<T>(decode: Bytes -> Wrappers.Option<T>, p: Bytes): (r: Wrappers.Result<T, IpcError>)
    ensures r.Err? <==> decode(p).None?
    ensures r.Err? ==> r.error == PayloadFailed(Deserialize)
    ensures r.Ok? ==> decode(p) == Wrappers.Some(r.value)
  {
    if decode(p).None? then Wrappers.Err(PayloadFailed(Deserialize)) else Wrappers.Ok(decode(p).value)
  }

  /** What `Payload::read` makes of a stream: unframe, then decode. */
  function Received<T>(decode: Bytes -> Wrappers.Option<T>, s: Bytes): (r: (Wrappers.Result<T, IpcError>, Bytes))
    ensures r.1 == Unframe(s).1
    ensures Unframe(s).0.Err? ==> r.0 == Wrappers.Err(ConnectionRead)
    ensures Unframe(s).0.Ok? ==> r.0 == FromPayload(decode, Unframe(s).0.value)
  {
    var (payload, rest) := Unframe(s);
    match payload
    case Err(e) => (Wrappers.Err(e), rest)
    case Ok(p) => (FromPayload(decode, p), rest)
  }

  /**
   * What one side sends, the other reads: when the codec round-trips, a
   * stream starting with the sent frame yields the value.
   */
  lemma ReadWhatWasSent<T>(value: T, encode: T -> Wrappers.Option<Bytes>, decode: Bytes -> Wrappers.Option<T>, rest: Bytes)
    requires encode(value).Some? && |encode(value).value| <= U64_MAX
    requires decode(encode(value).value) == Wrappers.Some(value)
    ensures Received(decode, Frame(encode(value).value) + rest) == (Wrappers.Ok(value), rest)
  {
    UnframeFrame(encode(value).value, rest);
  }

  /* ---------------------------------------------------------------------- */
  /* The socket                                                              */
  /* ---------------------------------------------------------------------- */

  /** One end of the local socket: bytes still to be read and bytes written so far. */
  class Connection {
    var incoming: Bytes
    var outgoing: Bytes

    constructor (incoming: Bytes)
      ensures this.incoming == incoming && outgoing == []
    {
      this.incoming := incoming;
      outgoing := [];
    }

    /** `read_exact`: fill the whole buffer or fail having read to the end. */
    method ReadExact(buf: array<u8>) returns (ok: bool)
      modifies this, buf
      ensures outgoing == old(outgoing)
      ensures ok <==> buf.Length <= |old(incoming)|
      ensures ok ==> buf[..] == old(incoming)[..buf.Length] && incoming == old(incoming)[buf.Length..]
      ensures !ok ==> incoming == []
    {
      if |incoming| < buf.Length {
        incoming := [];
        return false;
      }
      var i := 0;
      while i < buf.Length
        invariant 0 <= i <= buf.Length <= |incoming|
        invariant buf[..i] == incoming[..i]
        invariant incoming == old(incoming) && outgoing == old(outgoing)
      {
        buf[i] := incoming[i];
        i := i + 1;
      }
      incoming := incoming[buf.Length..];
      ok := true;
    }

    /** `write_all`, with `fault` standing for the outcome of the write. */
    method WriteAll(bytes: Bytes, fault: bool) returns (ok: bool)
      modifies this
      ensures incoming == old(incoming)
      ensures ok == !fault
      ensures outgoing == if fault then old(outgoing) else old(outgoing) + bytes
    {
      if fault {
        return false;
      }
      outgoing := outgoing + bytes;
      ok := true;
    }
  }

  /** `send_payload`: the frame goes out in one `write_all`. */
  method SendPayload(payload: Bytes, conn: Connection, fault: bool) returns (r: Wrappers.Result<(), IpcError>)
    requires |payload| <= U64_MAX
    modifies conn
    ensures conn.incoming == old(conn.incoming)
    ensures fault ==> r == Wrappers.Err(ConnectionWrite) && conn.outgoing == old(conn.outgoing)
    ensures !fault ==> r == Wrappers.Ok(()) && conn.outgoing == old(conn.outgoing) + Frame(payload)
  {
    var size := BigEndian(|payload|, SIZE_BYTES);
    size := size + payload;
    var ok := conn.WriteAll(size, fault);
    r := if ok then Wrappers.Ok(()) else Wrappers.Err(ConnectionWrite);
  }

  /** `read_payload`: an 8-byte prefix into a fixed buffer, then exactly that many bytes. */
  method ReadPayload(conn: Connection) returns (r: Wrappers.Result<Bytes, IpcError>)
    modifies conn
    ensures conn.outgoing == old(conn.outgoing)
    ensures (r, conn.incoming) == Unframe(old(conn.incoming))
  {
    var size := new u8[SIZE_BYTES](_ => 0);
    var ok := conn.ReadExact(size);
    if !ok {
      return Wrappers.Err(ConnectionRead);
    }
    var n := FromBigEndian(size[..]);
    var buf := new u8[n](_ => 0);
    ok := conn.ReadExact(buf);
    if !ok {
      return Wrappers.Err(ConnectionRead);
    }
    assert old(conn.incoming)[SIZE_BYTES..][..n] == old(conn.incoming)[SIZE_BYTES..SIZE_BYTES + n];
    assert old(conn.incoming)[SIZE_BYTES..][n..] == old(conn.incoming)[SIZE_BYTES + n..];
    r := Wrappers.Ok(buf[..]);
  }

  /** `Payload::send`: encode, then frame; an encoding failure sends nothing. */
  method Send<T>(value: T, encode: T -> Wrappers.Option<Bytes>, conn: Connection, fault: bool) returns (r: Wrappers.Result<(), IpcError>)
    requires encode(value).Some? ==> |encode(value).value| <= U64_MAX
    modifies conn
    ensures conn.incoming == old(conn.incoming)
    ensures encode(value).None? ==> r == Wrappers.Err(PayloadFailed(Serialize)) && conn.outgoing == old(conn.outgoing)
    ensures encode(value).Some? && fault ==> r == Wrappers.Err(ConnectionWrite) && conn.outgoing == old(conn.outgoing)
    ensures encode(value).Some? && !fault ==> r == Wrappers.Ok(()) && conn.outgoing == old(conn.outgoing) + Frame(encode(value).value)
  {
    var payload := encode(value);
    if payload.None? {
      return Wrappers.Err(PayloadFailed(Serialize));
    }
    r := SendPayload(payload.value, conn, fault);
  }

  /** `Payload::read`: unframe, then decode. */
  method Read<T>(decode: Bytes -> Wrappers.Option<T>, conn: Connection) returns (r: Wrappers.Result<T, IpcError>)
    modifies conn
    ensures conn.outgoing == old(conn.outgoing)
    ensures (r, conn.incoming) == Received(decode, old(conn.incoming))
  {
    var payload := ReadPayload(conn);
    if payload.Err? {
      return Wrappers.Err(payload.error);
    }
    r := FromPayload(decode, payload.value);
  }
}
