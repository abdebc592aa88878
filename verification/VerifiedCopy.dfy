/**
  Copying one file from a source that somebody else may be writing: the bytes are
  read twice, and the copy is kept only if both passes had the same digest.
*/
module VerifiedCopy {
  import opened Common

  const CHUNK_BYTES: nat := 1024 * 1024

  /**
    An open source descriptor under an adversary. The n-th read, at an offset, returns
    whatever the script says, cut to the size of the buffer; `None` is an I/O error.
    `delivered` is what the reads since the last rewind have returned.
  */
  class Source {
    const script: (nat, nat) -> Option<seq<Byte>>
    var readCount: nat
    var offset: nat
    ghost var delivered: seq<Byte>

    constructor (script: (nat, nat) -> Option<seq<Byte>>)
      ensures this.script == script && readCount == 0 && delivered == [] && AtStart()
    {
      this.script := script;
      readCount, offset, delivered := 0, 0, [];
    }

    ghost predicate AtStart()
      reads this
    {
      offset == 0 && delivered == []
    }

    method Read(limit: nat) returns (chunk: Option<seq<Byte>>)
      modifies this
      ensures readCount == old(readCount) + 1
      ensures chunk == match script(old(readCount), old(offset))
                       case None => None
                       case Some(bytes) => Some(bytes[..Min(limit, |bytes|)])
      ensures delivered == old(delivered) + if chunk.Some? then chunk.value else []
      ensures offset == old(offset) + if chunk.Some? then |chunk.value| else 0
    {
      match script(readCount, offset) {
        case None => chunk := None;
        case Some(bytes) => chunk := Some(bytes[..Min(limit, |bytes|)]);
      }
      readCount := readCount + 1;
      if chunk.Some? {
        offset := offset + |chunk.value|;
        delivered := delivered + chunk.value;
      }
    }

    method Rewind()
      modifies this`delivered, this`offset
      ensures AtStart()
    {
      offset, delivered := 0, [];
    }
  }

  ghost predicate Continues(bytes: seq<Byte>, at: nat, chunk: seq<Byte>) {
    if at < |bytes| then chunk != [] && chunk <= bytes[at..] else chunk == []
  }

  /** The freshly created target file; a write may fail. */
  class Target {
    const writable: nat -> bool
    var writes: nat
    var contents: seq<Byte>

    constructor (writable: nat -> bool)
      ensures this.writable == writable && writes == 0 && contents == []
    {
      this.writable := writable;
      writes, contents := 0, [];
    }

    /** Every write so far has worked. */
    ghost predicate Accepted()
      reads this
    {
      forall i | 0 <= i < writes :: writable(i)
    }

    method Write(bytes: seq<Byte>) returns (ok: bool)
      modifies this
      ensures writes == old(writes) + 1 && ok == writable(old(writes))
      ensures contents == if ok then old(contents) + bytes else old(contents)
    {
      ok := writable(writes);
      writes := writes + 1;
      if ok { contents := contents + bytes; }
    }
  }

  type Script = (nat, nat) -> Option<seq<Byte>>

  /** The n-th read at an offset, with a buffer of a given size. */
  function Cut(script: Script, n: nat, at: nat, limit: nat): Option<seq<Byte>> {
    match script(n, at)
    case None => None
    case Some(bytes) => Some(bytes[..Min(limit, |bytes|)])
  }

  /**
    What one pass over a file of an announced size gets from the n-th read on: the bytes and
    the number of the read after it. It gets nothing when a read fails, when the file ends
    early, or when there is one more byte than announced.
  */
  function Pass(script: Script, n: nat, at: nat, size: nat): (r: Option<(seq<Byte>, nat)>)
    requires at <= size
    ensures r.Some? ==> |r.value.0| == size - at
    decreases size - at
  {
    if at == size then
      if Cut(script, n, at, 1) == Some([]) then Some(([], n + 1)) else None
    else
      var chunk := Cut(script, n, at, Min(size - at, CHUNK_BYTES));
      if chunk == None || chunk.value == [] then None
      else
        var rest := Pass(script, n + 1, at + |chunk.value|, size);
        if rest == None then None else Some((chunk.value + rest.value.0, rest.value.1))
  }

  /** A pass of which a beginning has already been read. */
  function Onto(read: seq<Byte>, rest: Option<(seq<Byte>, nat)>): Option<(seq<Byte>, nat)> {
    if rest == None then None else Some((read + rest.value.0, rest.value.1))
  }

  lemma PassStarts(script: Script, n: nat, size: nat)
    ensures Onto([], Pass(script, n, 0, size)) == Pass(script, n, 0, size)
  {
    var whole := Pass(script, n, 0, size);
    assert whole.Some? ==> [] + whole.value.0 == whole.value.0;
  }

  lemma PassStep(script: Script, n: nat, at: nat, size: nat, read: seq<Byte>)
    requires at < size
    ensures var chunk := Cut(script, n, at, Min(size - at, CHUNK_BYTES));
            Onto(read, Pass(script, n, at, size))
            == if chunk == None || chunk.value == [] then None
               else Onto(read + chunk.value, Pass(script, n + 1, at + |chunk.value|, size))
  {
    var chunk := Cut(script, n, at, Min(size - at, CHUNK_BYTES));
    if chunk.Some? && chunk.value != [] {
      var rest := Pass(script, n + 1, at + |chunk.value|, size);
      if rest.Some? { assert read + (chunk.value + rest.value.0) == read + chunk.value + rest.value.0; }
    }
  }

  lemma PassEnds(script: Script, n: nat, size: nat, read: seq<Byte>)
    ensures Onto(read, Pass(script, n, size, size)) == if Cut(script, n, size, 1) == Some([]) then Some((read, n + 1)) else None
  {
    assert read + [] == read;
  }

  /** The bytes that two passes in a row both get, if they get the same. */
  function Delivered(script: Script, size: nat): (r: Option<seq<Byte>>)
    ensures r.Some? ==> |r.value| == size
  {
    var first := Pass(script, 0, 0, size);
    if first == None then None
    else
      var second := Pass(script, first.value.1, 0, size);
      if second.Some? && second.value.0 == first.value.0 then Some(first.value.0) else None
  }

  /** Nobody writes: every read returns a piece of these bytes, and nothing only at their end. */
  ghost predicate Quiet(script: Script, bytes: seq<Byte>) {
    forall n: nat, at: nat :: script(n, at).Some? && Continues(bytes, at, script(n, at).value)
  }

  lemma {:induction false} QuietPass(script: Script, bytes: seq<Byte>, n: nat, at: nat)
    requires Quiet(script, bytes) && at <= |bytes|
    ensures Pass(script, n, at, |bytes|).Some? && Pass(script, n, at, |bytes|).value.0 == bytes[at..]
    decreases |bytes| - at
  {
    assert script(n, at).Some? && Continues(bytes, at, script(n, at).value);
    if at < |bytes| {
      var chunk := Cut(script, n, at, Min(|bytes| - at, CHUNK_BYTES)).value;
      assert chunk == bytes[at..at + |chunk|];
      QuietPass(script, bytes, n + 1, at + |chunk|);
      assert bytes[at..] == chunk + bytes[at + |chunk|..];
    }
  }

  /** Of a file that nobody writes, both passes get its bytes. */
  lemma QuietDelivered(script: Script, bytes: seq<Byte>)
    requires Quiet(script, bytes)
    ensures Delivered(script, |bytes|) == Some(bytes)
  {
    QuietPass(script, bytes, 0, 0);
    QuietPass(script, bytes, Pass(script, 0, 0, |bytes|).value.1, 0);
    assert bytes[0..] == bytes;
  }

  /** One byte more than announced means that the source has grown. */
  method RejectSourceGrowth(source: Source) returns (ok: bool)
    modifies source
    ensures ok <==> Cut(source.script, old(source.readCount), old(source.offset), 1) == Some([])
    ensures ok ==> source.delivered == old(source.delivered)
    ensures source.readCount == old(source.readCount) + 1
  {
    var probe := source.Read(1);
    ok := probe.Some? && probe.value == [];
    assert ok ==> source.delivered == old(source.delivered) + [] == old(source.delivered);
  }

  method CopyExactWithDigest(source: Source, target: Target, size: nat) returns (digest: Option<Digest>)
    requires source.AtStart() && target.contents == [] && target.writes == 0
    modifies source, target
    ensures digest.Some? <==> Pass(source.script, old(source.readCount), 0, size).Some? && target.Accepted()
    ensures digest.Some? ==>
              && digest.value == Sha256(source.delivered)
              && target.contents == source.delivered && |source.delivered| == size
              && Pass(source.script, old(source.readCount), 0, size) == Some((source.delivered, source.readCount))
    ensures |target.contents| <= size
  {
    hide Pass, Onto;
    PassStarts(source.script, source.readCount, size);
    var hashed: seq<Byte> := [];
    var remaining := size;
    ghost var whole := Pass(source.script, source.readCount, 0, size);
    while remaining > 0
      invariant hashed == source.delivered == target.contents && target.Accepted()
      invariant 0 <= remaining && |hashed| + remaining == size && source.offset == |hashed|
      invariant whole == Onto(hashed, Pass(source.script, source.readCount, |hashed|, size))
    {
      PassStep(source.script, source.readCount, |hashed|, size, hashed);
      var chunk := source.Read(Min(remaining, CHUNK_BYTES));
      if chunk == None || chunk.value == [] { return None; }
      var written := target.Write(chunk.value);
      if !written { return None; }
      hashed := hashed + chunk.value;
      remaining := remaining - |chunk.value|;
    }
    PassEnds(source.script, source.readCount, size, hashed);
    var same := RejectSourceGrowth(source);
    digest := if same then Some(Sha256(hashed)) else None;
  }

  method HashExactSource(source: Source, size: nat) returns (digest: Option<Digest>)
    requires source.AtStart()
    modifies source
    ensures digest.Some? <==> Pass(source.script, old(source.readCount), 0, size).Some?
    ensures digest.Some? ==>
              && digest.value == Sha256(source.delivered) && |source.delivered| == size
              && Pass(source.script, old(source.readCount), 0, size) == Some((source.delivered, source.readCount))
  {
    hide Pass, Onto;
    PassStarts(source.script, source.readCount, size);
    var hashed: seq<Byte> := [];
    var remaining := size;
    ghost var whole := Pass(source.script, source.readCount, 0, size);
    while remaining > 0
      invariant hashed == source.delivered
      invariant 0 <= remaining && |hashed| + remaining == size && source.offset == |hashed|
      invariant whole == Onto(hashed, Pass(source.script, source.readCount, |hashed|, size))
    {
      PassStep(source.script, source.readCount, |hashed|, size, hashed);
      var chunk := source.Read(Min(remaining, CHUNK_BYTES));
      if chunk == None || chunk.value == [] { return None; }
      hashed := hashed + chunk.value;
      remaining := remaining - |chunk.value|;
    }
    PassEnds(source.script, source.readCount, size, hashed);
    var same := RejectSourceGrowth(source);
    digest := if same then Some(Sha256(hashed)) else None;
  }

  /**
    The two passes of a file copy. Whatever the adversary does between any two reads, a kept
    copy holds exactly the bytes that the first pass returned and exactly the bytes that the
    second pass returned; it is kept exactly when both got the same and every write worked.
  */
  method CopyTwice(source: Source, target: Target, size: nat)
    returns (kept: bool, ghost firstPass: seq<Byte>, ghost secondPass: seq<Byte>)
    requires source.AtStart() && source.readCount == 0 && target.contents == [] && target.writes == 0
    modifies source, target
    ensures kept <==> Delivered(source.script, size).Some? && target.Accepted()
    ensures kept ==> target.contents == firstPass == secondPass && |target.contents| == size
    ensures kept ==> source.delivered == secondPass && Delivered(source.script, size) == Some(target.contents)
    ensures |target.contents| <= size
  {
    var first := CopyExactWithDigest(source, target, size);
    firstPass, secondPass := source.delivered, [];
    if first == None { return false, firstPass, secondPass; }
    source.Rewind();
    var second := HashExactSource(source, size);
    secondPass := source.delivered;
    kept := second.Some? && first.value == second.value;
  }
}
