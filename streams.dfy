/**
 * The stream capability (`struct eaarlio_stream`, stream_support.c), modelled as an
 * in-memory file: a byte sequence and a cursor.  Which operations are present is part
 * of the state (closing a stream empties it), and each operation can be made to fail
 * on demand, the way a failing device would.
 */
module Streams {
  import opened Bytes
  import opened Errors

  /** `whence` values of a seek. */
  const SEEK_SET: int := 0
  const SEEK_CUR: int := 1
  const SEEK_END: int := 2

  /** A run of `n` zero bytes. */
  function Zeros(n: nat): (z: seq<Byte>)
    ensures |z| == n && forall i | 0 <= i < n :: z[i] == 0
  {
    seq(n, _ => 0)
  }

  /** The file contents after writing `bytes` at `pos`; a gap past the end reads as zeros. */
  function Overwrite(data: seq<Byte>, pos: nat, bytes: seq<Byte>): (r: seq<Byte>)
    ensures |r| == if pos + |bytes| <= |data| then |data| else pos + |bytes|
    ensures r[pos..pos + |bytes|] == bytes
    ensures forall i | 0 <= i < |data| && !(pos <= i < pos + |bytes|) :: r[i] == data[i]
    ensures forall i | |data| <= i < pos :: r[i] == 0
  {
    var padded := if pos <= |data| then data else data + Zeros(pos - |data|);
    padded[..pos] + bytes + (if pos + |bytes| <= |padded| then padded[pos + |bytes|..] else [])
  }

  /** Writing at the end of a file appends. */
  lemma OverwriteAtEnd(data: seq<Byte>, bytes: seq<Byte>)
    ensures Overwrite(data, |data|, bytes) == data + bytes
  {
    var r := Overwrite(data, |data|, bytes);
    assert r[..|data|] == data;
    assert r[|data|..] == bytes;
    assert r == r[..|data|] + r[|data|..];
  }

  /** Two writes back to back leave what one write of both would. */
  lemma OverwriteTwice(data: seq<Byte>, pos: nat, a: seq<Byte>, b: seq<Byte>)
    ensures Overwrite(Overwrite(data, pos, a), pos + |a|, b) == Overwrite(data, pos, a + b)
  {
    var once := Overwrite(data, pos, a);
    var lhs := Overwrite(once, pos + |a|, b);
    var rhs := Overwrite(data, pos, a + b);
    assert |lhs| == |rhs|;
    forall i | 0 <= i < |lhs|
      ensures lhs[i] == rhs[i]
    {
      if pos + |a| <= i < pos + |a| + |b| {
        assert lhs[i] == lhs[pos + |a|..pos + |a| + |b|][i - pos - |a|];
        assert rhs[i] == rhs[pos..pos + |a| + |b|][i - pos];
      } else if pos <= i < pos + |a| {
        assert once[i] == once[pos..pos + |a|][i - pos];
        assert rhs[i] == rhs[pos..pos + |a| + |b|][i - pos];
      }
    }
  }

  /** The error of reading `n` bytes at `pos`. */
  function ReadError(data: seq<Byte>, pos: nat, n: nat, fails: bool): (e: Error)
    ensures e == Success <==> n == 0 || (!fails && pos + n <= |data|)
  {
    if n == 0 then Success
    else if fails then StreamReadError
    else if |data| < pos + n then StreamReadShort
    else Success
  }

  /** The bytes a read of `n` bytes at `pos` delivers: all of them, or what is left before the end. */
  function ReadBytes(data: seq<Byte>, pos: nat, n: nat, fails: bool): (got: seq<Byte>)
    ensures |got| <= n
    ensures n == 0 ==> got == []
    ensures n > 0 && ReadError(data, pos, n, fails) == Success ==> got == data[pos..pos + n]
  {
    if n == 0 || fails || |data| <= pos then []
    else if |data| < pos + n then data[pos..]
    else data[pos..pos + n]
  }

  /** The cursor after a read of `n` bytes at `pos`. */
  function ReadPos(data: seq<Byte>, pos: nat, n: nat, fails: bool): (p: nat)
    ensures ReadError(data, pos, n, fails) == Success ==> p == pos + n
  {
    pos + |ReadBytes(data, pos, n, fails)|
  }

  /**
   * The error of a seek: an unknown `whence` is refused before anything else, and a seek that
   * succeeds lands on a position inside or past the end of the file, never before its start.
   */
  function SeekError(data: seq<Byte>, pos: nat, offset: int, whence: int, fails: bool): (e: Error)
    ensures e == StreamSeekInvalid <==> whence != SEEK_SET && whence != SEEK_CUR && whence != SEEK_END
    ensures e == Success ==> !fails && SeekTarget(data, pos, offset, whence) >= 0
  {
    if whence != SEEK_SET && whence != SEEK_CUR && whence != SEEK_END then StreamSeekInvalid
    else if fails then StreamSeekError
    else if SeekTarget(data, pos, offset, whence) < 0 then StreamSeekError
    else Success
  }

  /** The position a seek asks for: from the start, from the cursor, or from the end of the file. */
  function SeekTarget(data: seq<Byte>, pos: nat, offset: int, whence: int): (t: int)
    ensures whence == SEEK_SET ==> t == offset
    ensures whence == SEEK_CUR ==> t - pos == offset
    ensures whence == SEEK_END ==> t - |data| == offset
  {
    if whence == SEEK_SET then offset
    else if whence == SEEK_CUR then pos + offset
    else |data| + offset
  }

  class Stream {
    /** The whole file. */
    var data: seq<Byte>
    /** The file position. */
    var pos: nat
    var hasClose: bool
    var hasRead: bool
    var hasWrite: bool
    var hasSeek: bool
    var hasTell: bool
    const readFails: bool
    const writeFails: bool
    const seekFails: bool
    const closeFails: bool

    /** An open stream over `data`, positioned at its start. */
    constructor (data: seq<Byte>, readFails: bool, writeFails: bool, seekFails: bool, closeFails: bool)
      ensures this.data == data && pos == 0
      ensures hasClose && hasRead && hasWrite && hasSeek && hasTell
      ensures this.readFails == readFails && this.writeFails == writeFails
      ensures this.seekFails == seekFails && this.closeFails == closeFails
    {
      this.data := data;
      pos := 0;
      hasClose, hasRead, hasWrite, hasSeek, hasTell := true, true, true, true, true;
      this.readFails, this.writeFails := readFails, writeFails;
      this.seekFails, this.closeFails := seekFails, closeFails;
    }

    /** `eaarlio_stream_empty()`: no contents and none of the five operations. */
    constructor Empty()
      ensures data == [] && pos == 0
      ensures !hasClose && !hasRead && !hasWrite && !hasSeek && !hasTell
      ensures !readFails && !writeFails && !seekFails && !closeFails
    {
      data := [];
      pos := 0;
      hasClose, hasRead, hasWrite, hasSeek, hasTell := false, false, false, false, false;
      readFails, writeFails, seekFails, closeFails := false, false, false, false;
    }

    /** Reads `n` bytes into `buf[at..]`: a short read delivers what is left and reports READ_SHORT. */
    method Read(n: nat, buf: array<Byte>, at: nat) returns (err: Error)
      requires hasRead && at + n <= buf.Length
      modifies this`pos, buf
      ensures err == ReadError(old(data), old(pos), n, readFails)
      ensures pos == ReadPos(old(data), old(pos), n, readFails)
      ensures var got := ReadBytes(old(data), old(pos), n, readFails);
        buf[..] == old(buf[..at]) + got + old(buf[at + |got|..])
    {
      var got := ReadBytes(data, pos, n, readFails);
      forall i | 0 <= i < |got| {
        buf[at + i] := got[i];
      }
      err := ReadError(data, pos, n, readFails);
      pos := pos + |got|;
    }

    /** Writes `buf[at..at+n]` at the file position and moves past it. */
    method Write(n: nat, buf: array<Byte>, at: nat) returns (err: Error)
      requires hasWrite && at + n <= buf.Length
      modifies this`data, this`pos
      ensures err == if n == 0 || !writeFails then Success else StreamWriteError
      ensures n > 0 && err == Success ==> data == Overwrite(old(data), old(pos), buf[at..at + n]) && pos == old(pos) + n
      ensures n == 0 || err != Success ==> data == old(data) && pos == old(pos)
    {
      if n == 0 {
        return Success;
      }
      if writeFails {
        return StreamWriteError;
      }
      data := Overwrite(data, pos, buf[at..at + n]);
      pos := pos + n;
      err := Success;
    }

    /** Moves the file position; a position before the start of the file is refused. */
    method Seek(offset: int, whence: int) returns (err: Error)
      requires hasSeek
      modifies this`pos
      ensures err == SeekError(old(data), old(pos), offset, whence, seekFails)
      ensures pos == if err == Success then SeekTarget(old(data), old(pos), offset, whence) else old(pos)
    {
      err := SeekError(data, pos, offset, whence, seekFails);
      if err == Success {
        pos := SeekTarget(data, pos, offset, whence);
      }
    }

    /** Reports the file position. */
    method Tell() returns (err: Error, position: int)
      requires hasTell
      ensures err == Success && position == pos
    {
      return Success, pos;
    }

    /** Closes the stream; a closed stream has no operations left. */
    method Close() returns (err: Error)
      requires hasClose
      modifies this
      ensures err == if closeFails then StreamCloseError else Success
      ensures data == old(data) && pos == old(pos)
      ensures err == Success ==> !hasClose && !hasRead && !hasWrite && !hasSeek && !hasTell
      ensures err != Success ==>
        (hasClose && hasRead == old(hasRead) && hasWrite == old(hasWrite)
         && hasSeek == old(hasSeek) && hasTell == old(hasTell))
    {
      if closeFails {
        return StreamCloseError;
      }
      hasClose, hasRead, hasWrite, hasSeek, hasTell := false, false, false, false, false;
      err := Success;
    }
  }

  /** `eaarlio_stream_valid`: a stream exists and all five of its operations are present. */
  predicate StreamValid(s: Stream?): (ok: bool)
    reads s
    ensures ok ==> s != null
  {
    s != null && s.hasClose && s.hasRead && s.hasWrite && s.hasSeek && s.hasTell
  }
}
