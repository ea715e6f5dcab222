/**
 * The chunk generator of a session (get_chunk_from_file): the audio file is
 * read `chunkSize` bytes at a time until a read comes back empty, every
 * non-empty read is yielded, and a final None tells the pacer the audio
 * has ended.
 */
module Chunker {
  import opened Types

  /** The read lengths a file opened with "rb" (a buffered reader)
      accepts: read(n) raises ValueError for any n below -1. */
  predicate ReadAccepts(n: int)
  {
    n >= -1
  }

  /** What file.read(n) returns with the file positioned at `pos`: up to n
      bytes for n > 0, nothing for n == 0, the rest of the file for n == -1. */
  function Read(data: seq<Byte>, pos: nat, n: int): seq<Byte>
    requires pos <= |data| && ReadAccepts(n)
  {
    if n < 0 || |data| - pos <= n then data[pos..] else data[pos..pos + n]
  }

  /** The chunks yielded before the sentinel, in file order. */
  function Chunks(data: seq<Byte>, n: int): seq<seq<Byte>>
    requires ReadAccepts(n)
    decreases |data|
  {
    var c := Read(data, 0, n);
    if c == [] then [] else [c] + Chunks(data[|c|..], n)
  }

  /** Every chunk is non-empty and, for a positive chunk size, at most that
      many bytes; a zero chunk size yields no chunk at all. */
  lemma {:induction false} ChunkSizes(data: seq<Byte>, n: int)
    requires ReadAccepts(n)
    ensures forall i :: 0 <= i < |Chunks(data, n)| ==> 0 < |Chunks(data, n)[i]|
    ensures n > 0 ==> forall i :: 0 <= i < |Chunks(data, n)| ==> |Chunks(data, n)[i]| <= n
    ensures n == 0 ==> Chunks(data, n) == []
    decreases |data|
  {
    var c := Read(data, 0, n);
    if c != [] {
      var rest := Chunks(data[|c|..], n);
      ChunkSizes(data[|c|..], n);
      assert Chunks(data, n) == [c] + rest;
      assert n > 0 ==> |c| <= n;
      forall i | 0 <= i < 1 + |rest|
        ensures 0 < |([c] + rest)[i]| && (n > 0 ==> |([c] + rest)[i]| <= n)
      {
        if i > 0 {
          assert ([c] + rest)[i] == rest[i - 1];
        }
      }
    }
  }

  /** Everything the generator yields: each chunk, then the None sentinel. */
  function Stream(data: seq<Byte>, n: int): (s: seq<Option<seq<Byte>>>)
    requires ReadAccepts(n)
    ensures |s| == |Chunks(data, n)| + 1
    ensures forall i :: 0 <= i < |s| ==> (s[i].None? <==> i == |s| - 1)
    ensures forall i :: 0 <= i < |s| - 1 ==> s[i] == Some(Chunks(data, n)[i])
  {
    var cs := Chunks(data, n);
    seq(|cs|, i requires 0 <= i < |cs| => Some(cs[i])) + [None]
  }

  /** The bytes of a list of chunks, joined in order. */
  function Concat(cs: seq<seq<Byte>>): seq<Byte>
  {
    if cs == [] then [] else cs[0] + Concat(cs[1..])
  }

  /** Joining the chunks gives back the whole file, for every chunk size the
      reader accepts but zero (a zero-byte read ends the generator at once):
      a positive size or -1. */
  lemma {:induction false} ChunksConcat(data: seq<Byte>, n: int)
    requires n > 0 || n == -1
    ensures Concat(Chunks(data, n)) == data
    decreases |data|
  {
    var c := Read(data, 0, n);
    if c != [] {
      ChunksConcat(data[|c|..], n);
      assert [c] + Chunks(data[|c|..], n) == Chunks(data, n);
      assert ([c] + Chunks(data[|c|..], n))[1..] == Chunks(data[|c|..], n);
      assert Concat(Chunks(data, n)) == c + Concat(Chunks(data[|c|..], n));
      assert c + data[|c|..] == data;
    } else {
      assert |data| == 0;
    }
  }

  /** A zero chunk size loses the whole file: only the sentinel is yielded. */
  lemma ZeroChunkSizeYieldsOnlySentinel(data: seq<Byte>)
    ensures Stream(data, 0) == [None]
  {
  }

  /** One read from position `pos`, when the chunks of the file are `done`
      followed by those of the bytes from `pos`: an empty read means `done`
      is all of them, a non-empty one is the next chunk. */
  lemma ChunkStep(data: seq<Byte>, n: int, pos: nat, done: seq<seq<Byte>>)
    requires ReadAccepts(n) && pos <= |data| && Chunks(data, n) == done + Chunks(data[pos..], n)
    ensures var c := Read(data, pos, n);
            && pos + |c| <= |data|
            && (c == [] ==> Chunks(data, n) == done)
            && (c != [] ==> Chunks(data, n) == (done + [c]) + Chunks(data[pos + |c|..], n))
  {
    var c := Read(data, pos, n);
    assert Read(data[pos..], 0, n) == c;
    assert data[pos..][|c|..] == data[pos + |c|..];
    if c != [] {
      assert Chunks(data[pos..], n) == [c] + Chunks(data[pos + |c|..], n);
      assert done + ([c] + Chunks(data[pos + |c|..], n)) == (done + [c]) + Chunks(data[pos + |c|..], n);
    }
  }

  /** The generator body: read, stop at the first empty read, then yield the
      sentinel. The result is the whole stream of yields, or `raised` when
      the first read raises (a chunk size the reader rejects), before
      anything is yielded. */
  method ChunkFile(data: seq<Byte>, n: int) returns (raised: bool, stream: seq<Option<seq<Byte>>>)
    ensures raised <==> !ReadAccepts(n)
    ensures raised ==> stream == []
    ensures !raised ==> stream == Stream(data, n)
  {
    stream := [];
    if !ReadAccepts(n) {
      // file.read(n) raises ValueError
      return true, stream;
    }
    raised := false;
    ghost var done: seq<seq<Byte>> := [];
    var pos := 0;
    while true
      invariant pos <= |data|
      invariant Chunks(data, n) == done + Chunks(data[pos..], n)
      invariant |stream| == |done|
      invariant forall i :: 0 <= i < |done| ==> stream[i] == Some(done[i])
      decreases |data| - pos
    {
      var chunk := Read(data, pos, n);
      ChunkStep(data, n, pos, done);
      if chunk == [] {
        break;
      }
      done := done + [chunk];
      stream := stream + [Some(chunk)];
      pos := pos + |chunk|;
    }
    StreamOfChunks(data, n, done, stream);
    stream := stream + [None];
  }

  /** The yields of the chunks followed by the sentinel are the stream. */
  lemma StreamOfChunks(data: seq<Byte>, n: int, cs: seq<seq<Byte>>, items: seq<Option<seq<Byte>>>)
    requires ReadAccepts(n) && cs == Chunks(data, n) && |items| == |cs|
    requires forall i :: 0 <= i < |cs| ==> items[i] == Some(cs[i])
    ensures items + [None] == Stream(data, n)
  {
  }
}
