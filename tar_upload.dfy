/** The request body postTarStream sends: the archive file copied into the request sink
    through a 1024-byte buffer, one write per read. */
module TarUpload {
  import opened Base

  const BufferSize: nat := 1024

  /** The archive opened for reading: its bytes and how far reading has got. */
  class FileInput {
    const data: seq<byte>
    var position: nat

    ghost predicate Valid()
      reads this
    {
      position <= |data|
    }

    constructor (data: seq<byte>)
      ensures this.data == data && position == 0 && Valid()
    {
      this.data := data;
      this.position := 0;
    }

    /** FileInputStream.read(byte[]): -1 at the end of the file; otherwise at least one byte
        and at most a bufferful, copied to the front of the buffer. How many is the file
        system's choice. */
    method Read(buffer: array<byte>) returns (n: int)
      requires Valid() && buffer.Length > 0
      modifies this, buffer
      ensures Valid()
      ensures old(position) == |data| ==> n == -1 && position == old(position)
      ensures old(position) < |data| ==>
        1 <= n <= buffer.Length && position == old(position) + n && buffer[..n] == data[old(position)..position]
    {
      if position == |data| {
        return -1;
      }
      n :| 1 <= n <= buffer.Length && n <= |data| - position;
      var i := 0;
      while i < n
        invariant 0 <= i <= n
        invariant buffer[..i] == data[position..position + i]
        modifies buffer
      {
        buffer[i] := data[position + i];
        i := i + 1;
      }
      position := position + n;
    }
  }

  /** The request sink, by the writes it has received. */
  class Sink {
    var written: seq<seq<byte>>

    constructor ()
      ensures written == []
    {
      written := [];
    }

    /** BufferedSink.write(buffer, offset, count). */
    method Write(buffer: array<byte>, offset: nat, count: nat)
      requires offset + count <= buffer.Length
      modifies this
      ensures written == old(written) + [buffer[offset..offset + count]]
    {
      written := written + [buffer[offset..offset + count]];
    }
  }

  /** The bytes a sequence of writes puts into the sink, in order. */
  function Flatten(chunks: seq<seq<byte>>): seq<byte> {
    if |chunks| == 0 then [] else Flatten(chunks[..|chunks| - 1]) + chunks[|chunks| - 1]
  }

  lemma FlattenSnoc(chunks: seq<seq<byte>>, last: seq<byte>)
    ensures Flatten(chunks + [last]) == Flatten(chunks) + last
  {
    assert (chunks + [last])[..|chunks|] == chunks;
  }

  /** The body's writeTo: read a bufferful, write what was read, until the end of the file.
      The sink receives the rest of the file, in order, in pieces of one to 1024 bytes. */
  method WriteTarBody(fin: FileInput, sink: Sink)
    requires fin.Valid()
    modifies fin, sink
    ensures fin.Valid() && fin.position == |fin.data|
    ensures |sink.written| >= |old(sink.written)| && sink.written[..|old(sink.written)|] == old(sink.written)
    ensures Flatten(sink.written) == Flatten(old(sink.written)) + fin.data[old(fin.position)..]
    ensures forall i :: |old(sink.written)| <= i < |sink.written| ==> 1 <= |sink.written[i]| <= BufferSize
  {
    ghost var w0 := sink.written;
    ghost var p0 := fin.position;
    ghost var copied := p0;
    ghost var base := Flatten(w0);
    var buffer := new byte[BufferSize];
    var n := fin.Read(buffer);
    while n != -1
      invariant fin.Valid() && p0 <= copied <= fin.position
      invariant n == -1 ==> copied == fin.position == |fin.data|
      invariant n != -1 ==> 1 <= n <= BufferSize && copied + n == fin.position
      invariant n != -1 ==> buffer[..n] == fin.data[copied..fin.position]
      invariant |sink.written| >= |w0| && sink.written[..|w0|] == w0
      invariant Flatten(sink.written) == base + fin.data[p0..copied]
      invariant forall i :: |w0| <= i < |sink.written| ==> 1 <= |sink.written[i]| <= BufferSize
      decreases |fin.data| - copied
    {
      ghost var before := sink.written;
      sink.Write(buffer, 0, n);
      WrittenPiece(before, buffer[0..n], base, fin.data, p0, copied, fin.position);
      PrefixKept(before, buffer[0..n], w0);
      copied := fin.position;
      n := fin.Read(buffer);
    }
  }

  /** writeTo on an archive with the given contents: the file is opened at its start, so the
      sink receives the whole archive. */
  method WriteArchive(archive: seq<byte>, sink: Sink)
    modifies sink
    ensures Flatten(sink.written) == Flatten(old(sink.written)) + archive
    ensures forall i :: |old(sink.written)| <= i < |sink.written| ==> 1 <= |sink.written[i]| <= BufferSize
  {
    var fin := new FileInput(archive);
    WriteTarBody(fin, sink);
    assert fin.data[0..] == archive;
  }

  /** One write of the bytes just read extends what the sink holds by exactly those bytes. */
  lemma WrittenPiece(before: seq<seq<byte>>, piece: seq<byte>, base: seq<byte>,
                     data: seq<byte>, p0: nat, copied: nat, position: nat)
    requires p0 <= copied <= position <= |data| && piece == data[copied..position]
    requires Flatten(before) == base + data[p0..copied]
    ensures Flatten(before + [piece]) == base + data[p0..position]
  {
    FlattenSnoc(before, piece);
    SliceSplit(data, p0, copied, position);
    assert base + data[p0..copied] + data[copied..position] == base + (data[p0..copied] + data[copied..position]);
  }

  lemma SliceSplit(data: seq<byte>, i: nat, j: nat, k: nat)
    requires i <= j <= k <= |data|
    ensures data[i..j] + data[j..k] == data[i..k]
  {
  }

  lemma PrefixKept(before: seq<seq<byte>>, piece: seq<byte>, w0: seq<seq<byte>>)
    requires |before| >= |w0| && before[..|w0|] == w0
    ensures (before + [piece])[..|w0|] == w0
  {
    assert (before + [piece])[..|w0|] == before[..|w0|];
  }
}
