/**
 Reading an archive whose first bytes were looked at (internal/util/tar): the
 prefix reader, and the sniff that decides on the decompressor.
 */
module Archive {
  import opened Basics

  datatype ReadError = NoError | EndOfFile | Failure

  // An io.Reader over some content. A read may be short for no reason, may use the
  // rest of the buffer as scratch space, may report the end with the last bytes or
  // after them, and may fail at any time.
  class Stream {
    const content: seq<Byte>
    var pos: nat
    var failures: nat

    constructor (content: seq<Byte>)
      ensures this.content == content && pos == 0 && failures == 0
    {
      this.content := content;
      pos, failures := 0, 0;
    }

    method Read(p: array<Byte>) returns (n: nat, err: ReadError)
      requires pos <= |content|
      modifies this, p
      ensures n <= p.Length && pos == old(pos) + n <= |content|
      ensures p[..n] == content[old(pos)..pos]
      ensures err.EndOfFile? ==> pos == |content|
      ensures failures == old(failures) + if err.Failure? then 1 else 0
    {
      var most := if p.Length < |content| - pos then p.Length else |content| - pos;
      var some: int := *;
      n := if 0 <= some < most then some else most;
      for i := 0 to p.Length
        invariant forall k :: 0 <= k < i && k < n ==> p[k] == content[pos + k]
        modifies p
      {
        var scratch: int := *;
        p[i] := if i < n then content[pos + i] else if 0 <= scratch < 256 then scratch else p[i];
      }
      ghost var want := content[pos..pos + n];
      assert forall k :: 0 <= k < n ==> p[..n][k] == want[k];
      assert p[..n] == want;
      pos := pos + n;
      err := *;
      if err.EndOfFile? && pos < |content| { err := NoError; }
      if err.Failure? { failures := failures + 1; }
    }
  }

  // The bytes of a slice, then those of a reader.
  class ConcatReader {
    const data: seq<Byte>
    const reader: Stream
    ghost const start: nat
    var offset: nat

    // Everything there is to read.
    ghost function Contents(): seq<Byte>
      reads reader
      requires start <= |reader.content|
    {
      data + reader.content[start..]
    }

    // The slice is not done and the reader untouched, or the offset counts both.
    ghost predicate Valid()
      reads this, reader
    {
      && start <= reader.pos <= |reader.content|
      && (if offset < |data| then reader.pos == start else offset == |data| + (reader.pos - start))
    }

    constructor (data: seq<Byte>, reader: Stream)
      requires reader.pos <= |reader.content|
      ensures Valid() && this.data == data && this.reader == reader && start == reader.pos && offset == 0
    {
      this.data := data;
      this.reader := reader;
      start := reader.pos;
      offset := 0;
    }

    // The next bytes of the contents, in order, none left out and none repeated.
    method Read(p: array<Byte>) returns (n: nat, err: ReadError)
      requires Valid()
      modifies this, reader, p
      ensures Valid() && n <= p.Length && offset == old(offset) + n <= |Contents()|
      ensures p[..n] == Contents()[old(offset)..offset]
      ensures err.EndOfFile? ==> offset == |Contents()|
      ensures reader.failures == old(reader.failures) + if err.Failure? then 1 else 0
      ensures old(offset) < |data| ==> err.NoError? && (p.Length > 0 ==> n > 0)
    {
      if offset >= |data| {
        n, err := reader.Read(p);
        offset := offset + n;
      } else {
        n := if p.Length < |data| - offset then p.Length else |data| - offset;
        for i := 0 to n
          invariant forall k :: 0 <= k < i ==> p[k] == data[offset + k]
          modifies p
        {
          p[i] := data[offset + i];
        }
        offset := offset + n;
        err := NoError;
      }
    }

    method ReadBytes() returns (n: nat)
      ensures n == offset
    {
      n := offset;
    }
  }

  // Any sequence of reads, up to the first error: what came out is a prefix of the
  // contents, and ReadBytes counts it.
  method ReadAll(r: ConcatReader, sizes: seq<nat>) returns (out: seq<Byte>, counted: nat, err: ReadError)
    requires r.Valid() && r.offset == 0
    modifies r, r.reader
    ensures r.Valid() && out <= r.Contents() && counted == |out|
    ensures err.EndOfFile? ==> out == r.Contents()
    ensures err.Failure? <==> r.reader.failures > old(r.reader.failures)
  {
    out, err := [], NoError;
    var i := 0;
    while i < |sizes| && err.NoError?
      invariant r.Valid() && i <= |sizes| && r.offset == |out| <= |r.Contents()|
      invariant out == r.Contents()[..r.offset]
      invariant err.EndOfFile? ==> r.offset == |r.Contents()|
      invariant r.reader.failures == old(r.reader.failures) + if err.Failure? then 1 else 0
    {
      var p := new Byte[sizes[i]];
      var n: nat;
      n, err := r.Read(p);
      out := out + p[..n];
      i := i + 1;
    }
    counted := r.ReadBytes();
  }

  // ---------- The sniff ----------

  datatype Compression = Gzip | Xz | Bzip2 | Unknown

  function DetectCompressionType(dat: seq<Byte>): Compression {
    if |dat| < 3 then Unknown
    else if [0x1f, 0x8b] <= dat then Gzip
    else if [0xfd, 0x37, 0x7a, 0x58, 0x5a] <= dat then Xz
    else if [0x42, 0x5a, 0x68] <= dat then Bzip2
    else Unknown
  }

  lemma DetectIff(d: seq<Byte>)
    requires |d| == 5
    ensures DetectCompressionType(d) == Gzip <==> d[0] == 31 && d[1] == 139
    ensures DetectCompressionType(d) == Xz <==> d == [253, 55, 122, 88, 90]
    ensures DetectCompressionType(d) == Bzip2 <==> d[0] == 66 && d[1] == 90 && d[2] == 104
  {
    assert [0x1f, 0x8b] <= d <==> d[0] == 31 && d[1] == 139;
    assert [0xfd, 0x37, 0x7a, 0x58, 0x5a] <= d <==> d == [253, 55, 122, 88, 90];
    assert [0x42, 0x5a, 0x68] <= d <==> d[0] == 66 && d[1] == 90 && d[2] == 104;
  }

  // Reads the first five bytes and puts a reader of the whole archive together, unless
  // that read fails; that it is at the end of the archive is no failure. How
  // many bytes the read gave (got) is ignored, so the result reads as the archive if
  // and only if it gave all five; otherwise it is longer, by what the buffer held.
  method NewReader(reader: Stream) returns (r: ConcatReader?, kind: Compression, ghost got: nat)
    requires reader.pos <= |reader.content|
    modifies reader
    ensures r == null <==> reader.failures > old(reader.failures)
    ensures old(reader.failures) <= reader.failures <= old(reader.failures) + 1
    ensures got <= 5 && reader.pos == old(reader.pos) + got <= |reader.content|
    ensures r != null ==>
              && fresh(r) && r.reader == reader && r.Valid() && r.offset == 0 && |r.data| == 5
              && r.data[..got] == reader.content[old(reader.pos)..reader.pos]
              && |r.Contents()| == |reader.content| - old(reader.pos) + (5 - got)
              && (r.Contents() == reader.content[old(reader.pos)..] <==> got == 5)
              && kind == DetectCompressionType(r.data)
  {
    var first5Bytes := new Byte[5](i => 0);
    var n, err := reader.Read(first5Bytes);
    got := n;
    if err.Failure? {
      return null, Unknown, got;
    }
    r := new ConcatReader(first5Bytes[..], reader);
    kind := DetectCompressionType(first5Bytes[..]);
    ghost var rest := reader.content[old(reader.pos)..];
    assert r.data[..n] == rest[..n] && reader.content[reader.pos..] == rest[n..];
    if n == 5 {
      assert r.Contents() == rest;
    }
  }

  // Looking at the archive and then reading it: with a full first read nothing is
  // lost and nothing added, whatever the later reads do.
  method Extract(reader: Stream, sizes: seq<nat>)
    returns (out: seq<Byte>, counted: nat, ghost got: nat, err: ReadError)
    requires reader.pos == 0
    modifies reader
    ensures got <= 5 && counted == |out|
    ensures err.Failure? <==> reader.failures > old(reader.failures)
    ensures got == 5 ==> out <= reader.content && (err.EndOfFile? ==> out == reader.content)
  {
    var r, _, g := NewReader(reader);
    got := g;
    if r == null { return [], 0, got, Failure; }
    out, counted, err := ReadAll(r, sizes);
  }
}
