/**
 * Byte buffers and the byte chunker: a stream of buffers of any sizes is
 * re-cut into buffers of at least `minSize` and at most `maxSize` bytes,
 * except the last, without losing, adding or reordering a byte.
 */
module StreamByteChunker {
  import opened Base

  newtype byte = x: int | 0 <= x < 256

  /** A `ByteBuf`: a backing array `data` and the window [position, limit) that holds its payload. */
  datatype ByteBuf = ByteBuf(data: seq<byte>, position: nat, limit: nat)

  predicate WellFormed(b: ByteBuf) {
    b.position <= b.limit <= |b.data|
  }

  function Remaining(b: ByteBuf): nat
    requires WellFormed(b)
  {
    b.limit - b.position
  }

  /** The payload: `remaining()` bytes of the array, from `position()` on. */
  function Payload(b: ByteBuf): (p: seq<byte>)
    requires WellFormed(b)
    ensures |p| == Remaining(b)
  {
    b.data[b.position..b.limit]
  }

  /** The whole-array buffer of a byte sequence. */
  function Wrap(bytes: seq<byte>): (b: ByteBuf)
    ensures WellFormed(b) && Payload(b) == bytes
  {
    assert bytes[0..|bytes|] == bytes;
    ByteBuf(bytes, 0, |bytes|)
  }

  predicate AllWellFormed(bufs: seq<ByteBuf>) {
    forall i :: 0 <= i < |bufs| ==> WellFormed(bufs[i])
  }

  /** The payloads of a list of buffers, one after the other. */
  function Payloads(bufs: seq<ByteBuf>): seq<byte>
    requires AllWellFormed(bufs)
  {
    if bufs == [] then [] else Payloads(bufs[..|bufs| - 1]) + Payload(bufs[|bufs| - 1])
  }

  function TotalRemaining(bufs: seq<ByteBuf>): nat
    requires AllWellFormed(bufs)
  {
    if bufs == [] then 0 else TotalRemaining(bufs[..|bufs| - 1]) + Remaining(bufs[|bufs| - 1])
  }

  lemma {:induction false} PayloadsLength(bufs: seq<ByteBuf>)
    requires AllWellFormed(bufs)
    ensures |Payloads(bufs)| == TotalRemaining(bufs)
  {
    if bufs != [] {
      PayloadsLength(bufs[..|bufs| - 1]);
    }
  }

  /** The first loop of `byteBufsToByteArray`: the sum of the remaining sizes. */
  method TotalSize(bufs: seq<ByteBuf>) returns (size: nat)
    requires AllWellFormed(bufs)
    ensures size == TotalRemaining(bufs)
  {
    size := 0;
    var i := 0;
    while i < |bufs|
      invariant 0 <= i <= |bufs|
      invariant size == TotalRemaining(bufs[..i])
    {
      assert bufs[..i + 1][..i] == bufs[..i];
      size := size + Remaining(bufs[i]);
      i := i + 1;
    }
    assert bufs[..|bufs|] == bufs;
  }

  /**
   * `byteBufsToByteArray`: sums the remaining sizes, then copies every
   * payload into one array, one after the other.
   */
  method ByteBufsToByteArray(bufs: seq<ByteBuf>) returns (result: array<byte>)
    requires AllWellFormed(bufs)
    ensures fresh(result)
    ensures result[..] == Payloads(bufs)
  {
    var size := TotalSize(bufs);
    result := new byte[size];
    var pos := 0;
    var i := 0;
    while i < |bufs|
      invariant 0 <= i <= |bufs|
      invariant pos == TotalRemaining(bufs[..i]) <= size
      invariant result[..pos] == Payloads(bufs[..i])
    {
      PrefixStep(bufs, i);
      CopyPayload(result, pos, bufs[i]);
      pos := pos + Remaining(bufs[i]);
      i := i + 1;
    }
    assert bufs[..|bufs|] == bufs;
    PayloadsLength(bufs);
    assert result[..] == result[..pos];
  }

  /** One more buffer of the prefix: its payload and its size are added at the end. */
  lemma PrefixStep(bufs: seq<ByteBuf>, i: nat)
    requires AllWellFormed(bufs) && i < |bufs|
    ensures TotalRemaining(bufs[..i + 1]) == TotalRemaining(bufs[..i]) + Remaining(bufs[i])
    ensures Payloads(bufs[..i + 1]) == Payloads(bufs[..i]) + Payload(bufs[i])
    ensures TotalRemaining(bufs[..i + 1]) <= TotalRemaining(bufs)
  {
    assert bufs[..i + 1][..i] == bufs[..i];
    PrefixRemaining(bufs, i + 1);
  }

  /** The inner loop of `byteBufsToByteArray`: one payload copied into the array at `pos`. */
  method CopyPayload(result: array<byte>, pos: nat, b: ByteBuf)
    requires WellFormed(b) && pos + Remaining(b) <= result.Length
    modifies result
    ensures result[..pos] == old(result[..pos])
    ensures result[pos..pos + Remaining(b)] == Payload(b)
    ensures result[..pos + Remaining(b)] == old(result[..pos]) + Payload(b)
  {
    var j := 0;
    while j < Remaining(b)
      invariant 0 <= j <= Remaining(b)
      invariant result[..pos] == old(result[..pos])
      invariant result[pos..pos + j] == Payload(b)[..j]
    {
      result[pos + j] := b.data[b.position + j];
      assert result[pos..pos + j + 1] == result[pos..pos + j] + [result[pos + j]];
      j := j + 1;
    }
    assert result[..pos + Remaining(b)] == result[..pos] + result[pos..pos + Remaining(b)];
  }

  /** A prefix of the buffers holds no more bytes than all of them. */
  lemma {:induction false} PrefixRemaining(bufs: seq<ByteBuf>, n: nat)
    requires AllWellFormed(bufs) && n <= |bufs|
    ensures TotalRemaining(bufs[..n]) <= TotalRemaining(bufs)
  {
    if n < |bufs| {
      assert bufs[..|bufs| - 1][..n] == bufs[..n];
      PrefixRemaining(bufs[..|bufs| - 1], n);
    } else {
      assert bufs[..n] == bufs;
    }
  }

  /** The chunker's sizes: at most `maxSize` bytes per chunk, and at least `minSize` for all but the last. */
  predicate Sizes(minSize: nat, maxSize: nat) {
    0 < maxSize && minSize <= maxSize
  }

  /**
   * Cutting the pending bytes while at least `minSize` of them are waiting:
   * each chunk takes `maxSize` bytes, or all of them if fewer are pending.
   * The second component is what stays pending.
   */
  function Cut(minSize: nat, maxSize: nat, pending: seq<byte>): (r: (seq<seq<byte>>, seq<byte>))
    requires Sizes(minSize, maxSize)
    ensures Flatten(r.0) + r.1 == pending
    ensures forall i :: 0 <= i < |r.0| ==> ChunkSized(minSize, maxSize, r.0[i])
    ensures |r.1| < minSize || r.1 == []
    decreases |pending|
  {
    if pending != [] && |pending| >= minSize then
      var n := if |pending| < maxSize then |pending| else maxSize;
      var rest := Cut(minSize, maxSize, pending[n..]);
      CutCons(minSize, maxSize, pending, n, rest.0, rest.1);
      ([pending[..n]] + rest.0, rest.1)
    else
      ([], pending)
  }

  /** A full chunk: between `minSize` and `maxSize` bytes, and never empty. */
  predicate ChunkSized(minSize: nat, maxSize: nat, chunk: seq<byte>) {
    minSize <= |chunk| <= maxSize && chunk != []
  }

  /** Splitting a sequence at n and putting the parts back together. */
  lemma JoinAt<T>(s: seq<T>, n: nat, a: seq<T>, b: seq<T>)
    requires n <= |s| && a + b == s[n..]
    ensures (s[..n] + a) + b == s
  {
    assert (s[..n] + a) + b == s[..n] + (a + b);
  }

  lemma CutCons(minSize: nat, maxSize: nat, pending: seq<byte>, n: nat, chunks: seq<seq<byte>>, rest: seq<byte>)
    requires n <= |pending| && ChunkSized(minSize, maxSize, pending[..n])
    requires Flatten(chunks) + rest == pending[n..]
    requires forall i :: 0 <= i < |chunks| ==> ChunkSized(minSize, maxSize, chunks[i])
    ensures Flatten([pending[..n]] + chunks) + rest == pending
    ensures forall i :: 0 <= i < |chunks| + 1 ==> ChunkSized(minSize, maxSize, ([pending[..n]] + chunks)[i])
  {
    var all := [pending[..n]] + chunks;
    assert all[1..] == chunks;
    assert Flatten(all) == pending[..n] + Flatten(chunks);
    JoinAt(pending, n, Flatten(chunks), rest);
    forall i | 0 <= i < |all| ensures ChunkSized(minSize, maxSize, all[i]) {
      if i > 0 {
        assert all[i] == chunks[i - 1];
      }
    }
  }

  /**
   * The chunker over the rest of its input: each buffer's payload joins the
   * pending bytes, which are cut; at end-of-stream what is still pending,
   * if anything, goes out as the last chunk.
   */
  function ChunkFrom(minSize: nat, maxSize: nat, pending: seq<byte>, input: seq<ByteBuf>): seq<seq<byte>>
    requires Sizes(minSize, maxSize) && AllWellFormed(input)
    decreases |input|
  {
    if input == [] then (if pending == [] then [] else [pending])
    else
      var cut := Cut(minSize, maxSize, pending + Payload(input[0]));
      cut.0 + ChunkFrom(minSize, maxSize, cut.1, input[1..])
  }

  /** The output buffers of the chunker. */
  function Chunker(minSize: nat, maxSize: nat, input: seq<ByteBuf>): (out: seq<ByteBuf>)
    requires Sizes(minSize, maxSize) && AllWellFormed(input)
    ensures AllWellFormed(out)
  {
    var chunks := ChunkFrom(minSize, maxSize, [], input);
    seq(|chunks|, i requires 0 <= i < |chunks| => Wrap(chunks[i]))
  }

  /** The front-to-back concatenation of byte sequences. */
  function Concat(ss: seq<seq<byte>>): seq<byte> {
    if ss == [] then [] else Concat(ss[..|ss| - 1]) + ss[|ss| - 1]
  }

  lemma {:induction false} ConcatIsFlatten(ss: seq<seq<byte>>)
    ensures Concat(ss) == Flatten(ss)
  {
    if ss != [] {
      ConcatIsFlatten(ss[..|ss| - 1]);
      assert ss == ss[..|ss| - 1] + [ss[|ss| - 1]];
      FlattenAppend(ss[..|ss| - 1], [ss[|ss| - 1]]);
      assert Flatten([ss[|ss| - 1]]) == ss[|ss| - 1] + Flatten([]);
    }
  }

  /** The payloads of the input, front to back. */
  lemma PayloadsCons(input: seq<ByteBuf>)
    requires AllWellFormed(input) && input != []
    ensures Payloads(input) == Payload(input[0]) + Payloads(input[1..])
  {
    var x, rest := input[0], input[1..];
    assert AllWellFormed([x]) && AllWellFormed(rest);
    PayloadsAppend([x], rest);
    PayloadsSingle(x);
    assert [x] + rest == input;
  }

  lemma PayloadsSingle(x: ByteBuf)
    requires WellFormed(x)
    ensures Payloads([x]) == Payload(x)
  {
    assert [x][..0] == [];
  }

  /** The payloads of two lists of buffers, one after the other. */
  lemma {:induction false} PayloadsAppend(a: seq<ByteBuf>, b: seq<ByteBuf>)
    requires AllWellFormed(a) && AllWellFormed(b)
    ensures AllWellFormed(a + b) && Payloads(a + b) == Payloads(a) + Payloads(b)
  {
    if b == [] {
      assert a + b == a;
    } else {
      var init := b[..|b| - 1];
      PayloadsAppend(a, init);
      assert (a + b)[..|a + b| - 1] == a + init;
      var pa, pi, pl := Payloads(a), Payloads(init), Payload(b[|b| - 1]);
      assert (pa + pi) + pl == pa + (pi + pl);
    }
  }

  /** No byte is lost, added or reordered: the chunks hold the pending bytes and then the input's payloads. */
  lemma {:induction false} ChunkFromPreservesBytes(minSize: nat, maxSize: nat, pending: seq<byte>, input: seq<ByteBuf>)
    requires Sizes(minSize, maxSize) && AllWellFormed(input)
    ensures Flatten(ChunkFrom(minSize, maxSize, pending, input)) == pending + Payloads(input)
    decreases |input|
  {
    if input == [] {
      assert pending + [] == pending;
      if pending != [] {
        assert Flatten([pending]) == pending + Flatten([]);
      }
    } else {
      var cut := Cut(minSize, maxSize, pending + Payload(input[0]));
      var tail := ChunkFrom(minSize, maxSize, cut.1, input[1..]);
      ChunkFromPreservesBytes(minSize, maxSize, cut.1, input[1..]);
      FlattenAppend(cut.0, tail);
      PayloadsCons(input);
      Regroup(Flatten(cut.0), cut.1, Payloads(input[1..]), pending, Payload(input[0]));
    }
  }

  /** Regrouping a concatenation whose first two parts are split differently. */
  lemma Regroup<T>(a: seq<T>, b: seq<T>, c: seq<T>, p: seq<T>, q: seq<T>)
    requires a + b == p + q
    ensures a + (b + c) == p + (q + c)
  {
    assert a + (b + c) == (a + b) + c;
    assert p + (q + c) == (p + q) + c;
  }

  /** Every chunk is nonempty and at most `maxSize`; every chunk but the last is at least `minSize`. */
  predicate ChunksSized(minSize: nat, maxSize: nat, out: seq<seq<byte>>) {
    && (forall i :: 0 <= i < |out| ==> 0 < |out[i]| <= maxSize)
    && (forall i :: 0 <= i < |out| - 1 ==> minSize <= |out[i]|)
  }

  lemma {:induction false} ChunkFromSizes(minSize: nat, maxSize: nat, pending: seq<byte>, input: seq<ByteBuf>)
    requires Sizes(minSize, maxSize) && AllWellFormed(input)
    requires |pending| < minSize || pending == []
    ensures ChunksSized(minSize, maxSize, ChunkFrom(minSize, maxSize, pending, input))
    decreases |input|
  {
    if input != [] {
      var cut := Cut(minSize, maxSize, pending + Payload(input[0]));
      var tail := ChunkFrom(minSize, maxSize, cut.1, input[1..]);
      ChunkFromSizes(minSize, maxSize, cut.1, input[1..]);
      var out := cut.0 + tail;
      forall i | 0 <= i < |out|
        ensures 0 < |out[i]| <= maxSize
        ensures i < |out| - 1 ==> minSize <= |out[i]|
      {
        if i < |cut.0| {
          assert out[i] == cut.0[i];
          assert ChunkSized(minSize, maxSize, cut.0[i]);
        } else {
          assert out[i] == tail[i - |cut.0|];
        }
      }
    }
  }

  /**
   * The chunker's two promises about its output buffers: their payloads,
   * joined, are the input's payloads joined, and every buffer but the last
   * has between `minSize` and `maxSize` bytes remaining.
   */
  lemma ChunkerContract(minSize: nat, maxSize: nat, input: seq<ByteBuf>)
    requires Sizes(minSize, maxSize) && AllWellFormed(input)
    ensures Payloads(Chunker(minSize, maxSize, input)) == Payloads(input)
    ensures var out := Chunker(minSize, maxSize, input);
            forall i :: 0 <= i < |out| - 1 ==> minSize <= Remaining(out[i]) <= maxSize
  {
    var chunks := ChunkFrom(minSize, maxSize, [], input);
    var out := Chunker(minSize, maxSize, input);
    ChunkFromPreservesBytes(minSize, maxSize, [], input);
    ChunkFromSizes(minSize, maxSize, [], input);
    WrapPayloads(chunks, out);
    ConcatIsFlatten(chunks);
    assert [] + Payloads(input) == Payloads(input);
  }

  lemma {:induction false} WrapPayloads(chunks: seq<seq<byte>>, out: seq<ByteBuf>)
    requires |out| == |chunks| && forall i :: 0 <= i < |out| ==> out[i] == Wrap(chunks[i])
    ensures AllWellFormed(out) && Payloads(out) == Concat(chunks)
  {
    if chunks != [] {
      WrapPayloads(chunks[..|chunks| - 1], out[..|out| - 1]);
    }
  }
}
