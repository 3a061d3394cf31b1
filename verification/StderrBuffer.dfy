/** The stderr ring (`lldb-backend/src/subprocess.rs`). */
module StderrBuffers {
  import opened Types

  const DEFAULT_CAPACITY: nat := 4096

  function Capacity(size: nat): (r: nat)
    ensures r > 0
  {
    if size == 0 then DEFAULT_CAPACITY else size
  }

  function LastN(s: seq<Byte>, n: nat): (r: seq<Byte>)
    ensures |r| == if |s| <= n then |s| else n
    ensures r == s[|s| - |r|..]
  {
    if |s| <= n then s else s[|s| - n..]
  }

  function Concat(chunks: seq<seq<Byte>>): seq<Byte> {
    if chunks == [] then [] else Concat(chunks[..|chunks| - 1]) + chunks[|chunks| - 1]
  }

  /** Keeping the tail early loses nothing: the tail of a tail with more appended is the tail of all. */
  lemma TailOfTail(s: seq<Byte>, t: seq<Byte>, n: nat)
    ensures LastN(LastN(s, n) + t, n) == LastN(s + t, n)
  {
    var kept := LastN(s, n) + t;
    if |s| > n {
      assert kept == (s + t)[|s| - n..];
    }
  }

  lemma BigWrite(s: seq<Byte>, data: seq<Byte>, n: nat)
    requires |data| >= n
    ensures LastN(s + data, n) == data[|data| - n..]
  {
    if |s + data| > n {
      assert (s + data)[|s + data| - n..] == data[|data| - n..];
    } else {
      assert s == [];
      assert s + data == data;
    }
  }

  /** One call of `write`, as a function of the buffer. */
  function WriteStep(buf: seq<Byte>, data: seq<Byte>, size: nat): seq<Byte>
    requires size > 0
  {
    if |data| >= size then data[|data| - size..]
    else
      var all := buf + data;
      if |all| > size then all[|all| - size..] else all
  }

  lemma WriteStepKeepsLast(written: seq<Byte>, data: seq<Byte>, size: nat)
    requires size > 0
    ensures WriteStep(LastN(written, size), data, size) == LastN(written + data, size)
  {
    if |data| >= size {
      BigWrite(written, data, size);
    } else {
      TailOfTail(written, data, size);
    }
  }

  /**
   * `written` is everything ever written; `Valid` says the buffer is exactly its last
   * `size` bytes, so the contents do not depend on how the stream was cut into writes.
   */
  class StderrBuffer {
    var buf: seq<Byte>
    const size: nat
    ghost var written: seq<Byte>

    ghost predicate Valid()
      reads this
    {
      size > 0 && buf == LastN(written, size)
    }

    constructor (size: nat)
      ensures Valid() && this.size == Capacity(size) && written == []
    {
      this.size := Capacity(size);
      buf, written := [], [];
    }

    method Write(data: seq<Byte>) returns (n: nat)
      requires Valid()
      modifies this
      ensures Valid() && n == |data| && written == old(written) + data
    {
      n := |data|;
      WriteStepKeepsLast(written, data, size);
      written := written + data;
      if |data| >= size {
        buf := data[|data| - size..];
      } else {
        buf := buf + data;
        if |buf| > size {
          var excess := |buf| - size;
          buf := buf[excess..];
        }
      }
    }
  }

  function WriteAll(chunks: seq<seq<Byte>>, size: nat): seq<Byte>
    requires size > 0
  {
    if chunks == [] then [] else WriteStep(WriteAll(chunks[..|chunks| - 1], size), chunks[|chunks| - 1], size)
  }

  lemma {:induction false} WriteAllKeepsLast(chunks: seq<seq<Byte>>, size: nat)
    requires size > 0
    ensures WriteAll(chunks, size) == LastN(Concat(chunks), size)
  {
    if chunks != [] {
      var last := |chunks| - 1;
      WriteAllKeepsLast(chunks[..last], size);
      WriteStepKeepsLast(Concat(chunks[..last]), chunks[last], size);
    }
  }

  /** Any two ways of cutting one stream into writes leave the same contents. */
  lemma {:induction false} ChunkingDoesNotMatter(a: seq<seq<Byte>>, b: seq<seq<Byte>>, size: nat)
    requires size > 0 && Concat(a) == Concat(b)
    ensures WriteAll(a, size) == WriteAll(b, size)
  {
    WriteAllKeepsLast(a, size);
    WriteAllKeepsLast(b, size);
  }
}
