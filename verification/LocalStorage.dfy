/** Blobs on disk, as a map from key to bytes, written and read a chunk at a time. */
module LocalStorage {
  import opened Common

  type Key = string

  const READ_CHUNK_BYTES: nat := 65536

  function Joined(chunks: seq<seq<Byte>>): seq<Byte> {
    if chunks == [] then [] else Joined(chunks[..|chunks| - 1]) + chunks[|chunks| - 1]
  }

  /** What saving an upload leaves on disk: the whole of it, or nothing if it is over the limit. */
  function Saved(files: map<Key, seq<Byte>>, key: Key, chunks: seq<seq<Byte>>, limit: nat): map<Key, seq<Byte>> {
    if |Joined(chunks)| <= limit then files[key := Joined(chunks)] else files - {key}
  }

  lemma {:induction false} PrefixIsShorter(chunks: seq<seq<Byte>>, n: nat)
    requires n <= |chunks|
    ensures |Joined(chunks[..n])| <= |Joined(chunks)|
    decreases |chunks| - n
  {
    if n < |chunks| {
      PrefixIsShorter(chunks, n + 1);
      assert chunks[..n + 1][..n] == chunks[..n];
    } else {
      assert chunks[..n] == chunks;
    }
  }

  class Disk {
    var files: map<Key, seq<Byte>>

    /**
      The write loop around the size-bounded stream: the file is opened empty, grows chunk
      by chunk, and is unlinked at the first chunk that takes it over the limit.
    */
    method Save(key: Key, chunks: seq<seq<Byte>>, limit: nat) returns (size: Option<nat>)
      modifies this
      ensures files == Saved(old(files), key, chunks, limit)
      ensures size == if |Joined(chunks)| <= limit then Some(|Joined(chunks)|) else None
    {
      files := files[key := []];
      var written := 0;
      var i := 0;
      while i < |chunks|
        invariant 0 <= i <= |chunks|
        invariant written == |Joined(chunks[..i])| <= limit
        invariant files == old(files)[key := Joined(chunks[..i])]
      {
        assert chunks[..i + 1][..i] == chunks[..i];
        written := written + |chunks[i]|;
        if written > limit {
          PrefixIsShorter(chunks, i + 1);
          files := files - {key};
          return None;
        }
        files := files[key := files[key] + chunks[i]];
        i := i + 1;
      }
      assert chunks[..i] == chunks;
      return Some(written);
    }

    /** Reading a blob back yields non-empty chunks that join to exactly what is stored. */
    method Open(key: Key) returns (chunks: seq<seq<Byte>>)
      requires key in files
      ensures Joined(chunks) == files[key]
      ensures forall c :: c in chunks ==> 0 < |c| <= 65536
    {
      chunks := [];
      var content := files[key];
      var at := 0;
      while at < |content|
        invariant 0 <= at <= |content|
        invariant Joined(chunks) == content[..at]
        invariant forall c :: c in chunks ==> 0 < |c| <= 65536
      {
        var stop := if at + READ_CHUNK_BYTES < |content| then at + READ_CHUNK_BYTES else |content|;
        var chunk := content[at..stop];
        assert (chunks + [chunk])[..|chunks|] == chunks;
        chunks := chunks + [chunk];
        at := stop;
      }
    }
  }
}
