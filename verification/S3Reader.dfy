/** The seekable reader over one stored object, and the plain file it behaves as. */
module S3Reader {

  type byte = b: int | 0 <= b < 256

  const MAX_INT64: int := 0x7fff_ffff_ffff_ffff
  type int64 = i: int | -0x8000_0000_0000_0000 <= i <= 0x7fff_ffff_ffff_ffff

  /** Two's complement addition, as Go adds. */
  function Add64(a: int64, b: int64): int64 {
    var sum := a + b;
    if sum > MAX_INT64 then sum - 0x1_0000_0000_0000_0000
    else if sum < -MAX_INT64 - 1 then sum + 0x1_0000_0000_0000_0000
    else sum
  }

  function Clamp(k: int, most: nat): nat {
    if k < 0 then 0 else if k > most then most else k
  }

  datatype BodyError = BodyOk | BodyEof | BodyBroken

  /** `Eof` is the normal end of the object; a body that stops early is `UnexpectedEof`. */
  datatype ReadError = Ok | Eof | UnexpectedEof | Failed

  datatype Whence = SeekStart | SeekCurrent | SeekEnd | SeekInvalid

  /** The reply to one range request: some prefix of the bytes asked for, in pieces of any size. */
  class Body {
    const data: seq<byte>
    var at: nat

    constructor (data: seq<byte>)
      ensures this.data == data && at == 0
    {
      this.data, this.at := data, 0;
    }

    ghost predicate Valid()
      reads this
    {
      at <= |data|
    }

    method Read(n: nat) returns (bytes: seq<byte>, err: BodyError)
      requires Valid()
      modifies this
      ensures Valid() && |bytes| <= n && at == old(at) + |bytes|
      ensures bytes == data[old(at)..at]
      ensures err.BodyEof? ==> at == |data|
    {
      var k: int := *;
      k := Clamp(k, if n < |data| - at then n else |data| - at);
      bytes := data[at..at + k];
      at := at + k;
      err := BodyOk;
      if * {
        err := BodyBroken;
      } else if at == |data| {
        if * {
          err := BodyEof;
        }
      }
    }
  }

  /** What a file of these bytes reads from a position: nothing past the end. */
  function Rest(stored: seq<byte>, position: nat): seq<byte> {
    if position <= |stored| then stored[position..] else []
  }

  /** A plain file refuses to seek before its start; past the largest position there is none. */
  predicate SeekRefused(size: nat, position: nat, offset: int64, whence: Whence) {
    whence.SeekInvalid? || Target(size, position, offset, whence) < 0 || Target(size, position, offset, whence) > MAX_INT64
  }

  function Target(size: nat, position: nat, offset: int64, whence: Whence): int {
    match whence
    case SeekCurrent => offset + position
    case SeekEnd => offset + size
    case _ => offset
  }

  datatype Call = ReadCall(n: nat) | SeekCall(offset: int64, whence: Whence) | CloseCall

  datatype Reply = Bytes(bytes: seq<byte>, err: ReadError) | At(at: int64, refused: bool, closeFailed: bool) | Closed(failed: bool)

  /**
   * What a plain file at `position` may answer, and where that leaves it: the bytes that stand
   * there, as few as it likes, its end reported only there; the positions it seeks to; and
   * nothing of a connection that drops or does not close, which moves nothing.
   */
  predicate FileAnswers(stored: seq<byte>, position: nat, call: Call, reply: Reply, next: nat) {
    match (call, reply)
    case (ReadCall(n), Bytes(bytes, err)) =>
      && |bytes| <= n && bytes <= Rest(stored, position) && next == position + |bytes|
      && (err.Eof? ==> n > 0 && next >= |stored|) && (n > 0 && position >= |stored| ==> err.Eof?)
      && (err.UnexpectedEof? ==> next < |stored|) && (n == 0 ==> err.Ok?)
    case (SeekCall(offset, whence), At(at, refused, closeFailed)) =>
      && (refused <==> SeekRefused(|stored|, position, offset, whence))
      && if refused || closeFailed then next == position else next == at == Target(|stored|, position, offset, whence)
    case (CloseCall, Closed(_)) => next == position
    case _ => false
  }

  class Reader {
    // The stored bytes; only a range request sees them.
    const stored: seq<byte>
    const size: nat
    var position: nat
    var body: Body?

    constructor (stored: seq<byte>, size: nat)
      requires size == |stored| <= MAX_INT64
      ensures Valid() && this.stored == stored && position == 0 && body == null
    {
      this.stored, this.size := stored, size;
      this.position, this.body := 0, null;
    }

    ghost predicate Valid()
      reads this, body
    {
      && size == |stored| <= MAX_INT64 && position <= MAX_INT64
      && (body != null ==> body.Valid() && BodyIsNext(body))
    }

    /** An open body's next byte is the object's byte at the position. */
    ghost predicate BodyIsNext(b: Body)
      reads this, b
    {
      b.at <= position <= |stored| && b.data <= stored[position - b.at..]
    }

    /** A range request from the position on; it may fail, and its reply may be cut short. */
    method GetObject() returns (reply: Body?)
      requires position <= |stored|
      ensures reply != null ==> fresh(reply) && reply.at == 0 && reply.data <= stored[position..]
    {
      reply := null;
      if * {
        var n: int := *;
        n := Clamp(n, |stored| - position);
        reply := new Body(stored[position..][..n]);
      }
    }

    /**
     * The bytes a plain file gives next, no more than asked for. The end of file is reported
     * at or past the object's end and nowhere else; a body that stops early says so.
     */
    method Read(n: nat) returns (bytes: seq<byte>, err: ReadError)
      requires Valid()
      modifies this, body
      ensures Valid() && (body != old(body) ==> fresh(body))
      ensures |bytes| <= n && bytes <= Rest(stored, old(position)) && position == old(position) + |bytes|
      ensures n > 0 && old(position) >= |stored| ==> err.Eof?
      ensures err.Eof? ==> n > 0 && position >= |stored|
      ensures err.UnexpectedEof? ==> position < |stored|
      ensures n == 0 ==> err.Ok?
    {
      if n == 0 {
        return [], Ok;
      }
      if position >= size {
        return [], Eof;
      }
      if body == null {
        var response := GetObject();
        if response == null {
          return [], Failed;
        }
        body := response;
      }
      ghost var start := position - body.at;
      ghost var from := body.at;
      var end: BodyError;
      bytes, end := body.Read(n);
      BytesAreNext(stored, body.data, start, from, body.at);
      position := position + |bytes|;
      err := match end case BodyOk => Ok case BodyEof => Eof case BodyBroken => Failed;
      if end.BodyEof? && position < size {
        err := UnexpectedEof;
      }
    }

    /** As a plain file seeks. Only closing the old body can fail besides, and moves nothing. */
    method Seek(offset: int64, whence: Whence) returns (at: int64, refused: bool, closeFailed: bool)
      requires Valid()
      modifies this, body
      ensures Valid() && (body == old(body) || body == null)
      ensures refused <==> SeekRefused(|stored|, old(position), offset, whence)
      ensures refused || closeFailed ==> position == old(position) && at == 0
      ensures !refused && !closeFailed ==> position == at == Target(|stored|, old(position), offset, whence)
      ensures position == old(position) && !closeFailed ==> body == old(body)
    {
      refused, closeFailed := false, false;
      var target: int64 := offset;
      match whence {
        case SeekStart =>
        case SeekCurrent =>
          target := Add64(target, position);
        case SeekEnd =>
          target := Add64(target, size);
        case SeekInvalid =>
          return 0, true, false;
      }
      if target < 0 {
        return 0, true, false;
      }
      if target != position {
        closeFailed := Close();
        if closeFailed {
          return 0, false, true;
        }
        position := target;
      }
      return position, false, false;
    }

    /** Closing forgets the body, whether or not the connection closes cleanly. */
    method Close() returns (err: bool)
      requires Valid()
      modifies this
      ensures Valid() && body == null && position == old(position)
      ensures old(body) == null ==> !err
    {
      if body == null {
        return false;
      }
      err := *;
      body := null;
    }

    /**
     * A copy by reads of any sizes until one is not Ok: what arrived is what a plain file holds
     * from the position, and a copy that ends at end of file has all of it.
     */
    method Copy(sizes: seq<nat>) returns (data: seq<byte>, err: ReadError)
      requires Valid()
      modifies this, body
      ensures Valid()
      ensures data <= Rest(stored, old(position)) && position == old(position) + |data|
      ensures err.Eof? ==> data == Rest(stored, old(position))
    {
      data, err := [], Ok;
      ghost var rest := Rest(stored, position);
      for i := 0 to |sizes|
        invariant Valid() && (body == old(body) || body == null || fresh(body))
        invariant data <= rest && position == old(position) + |data| && err.Ok?
      {
        ghost var before := position;
        var bytes: seq<byte>;
        bytes, err := Read(sizes[i]);
        RestContinues(stored, old(position), data, before, bytes);
        data := data + bytes;
        if !err.Ok? {
          return;
        }
      }
    }
  }

  /** One reader used in any way answers, call by call, as a plain file of the stored bytes. */
  method Use(reader: Reader, calls: seq<Call>) returns (replies: seq<Reply>, positions: seq<nat>)
    requires reader.Valid()
    modifies reader, reader.body
    ensures reader.Valid() && |replies| == |calls| && |positions| == |calls| + 1
    ensures positions[0] == old(reader.position) && positions[|calls|] == reader.position
    ensures forall i :: 0 <= i < |calls| ==> FileAnswers(reader.stored, positions[i], calls[i], replies[i], positions[i + 1])
  {
    replies, positions := [], [reader.position];
    ghost var body := reader.body;
    for k := 0 to |calls|
      invariant reader.Valid() && (reader.body == body || reader.body == null || fresh(reader.body))
      invariant |replies| == k && |positions| == k + 1
      invariant positions[0] == old(reader.position) && positions[k] == reader.position
      invariant forall i :: 0 <= i < k ==> FileAnswers(reader.stored, positions[i], calls[i], replies[i], positions[i + 1])
    {
      var reply := UseOnce(reader, calls[k]);
      replies, positions := replies + [reply], positions + [reader.position];
    }
  }

  method UseOnce(reader: Reader, call: Call) returns (reply: Reply)
    requires reader.Valid()
    modifies reader, reader.body
    ensures reader.Valid() && (reader.body == old(reader.body) || reader.body == null || fresh(reader.body))
    ensures FileAnswers(reader.stored, old(reader.position), call, reply, reader.position)
  {
    match call
    case ReadCall(n) =>
      var bytes, err := reader.Read(n);
      reply := Bytes(bytes, err);
    case SeekCall(offset, whence) =>
      var at, refused, closeFailed := reader.Seek(offset, whence);
      reply := At(at, refused, closeFailed);
    case CloseCall =>
      var failed := reader.Close();
      reply := Closed(failed);
  }

  lemma BytesAreNext(stored: seq<byte>, data: seq<byte>, start: nat, from: nat, to: nat)
    requires start <= |stored| && from <= to <= |data| && data <= stored[start..]
    ensures start + to <= |stored| && data[from..to] <= stored[start + from..]
  {
    assert data == stored[start..][..|data|];
    assert stored[start..][from..] == stored[start + from..];
    assert data[from..to] == stored[start..][from..to] == stored[start + from..][..to - from];
  }

  lemma RestContinues(stored: seq<byte>, position: nat, data: seq<byte>, next: nat, bytes: seq<byte>)
    requires data <= Rest(stored, position) && next == position + |data| && bytes <= Rest(stored, next)
    ensures data + bytes <= Rest(stored, position)
    ensures next + |bytes| >= |stored| ==> data + bytes == Rest(stored, position)
  {
    if position <= |stored| {
      var rest := stored[position..];
      assert rest == data + rest[|data|..];
      assert rest[|data|..] == stored[next..];
    }
  }
}
