/** cp.c: a copy that seeks over each block of zeros it reads instead of writing it. */
module SparseCopy {

  type byte = b | 0 <= b < 256

  const BUF_SIZE: nat := 4096

  /** An open file: its bytes, and the offset where read() and write() go on. */
  class File {
    var bytes: seq<byte>
    var offset: nat

    constructor (bytes: seq<byte>)
      ensures this.bytes == bytes && offset == 0
    {
      this.bytes, offset := bytes, 0;
    }

    /** read() of at most so many bytes; it may give fewer, but none only at the end of the file. want is how many the
        system is minded to give. */
    method Read(size: nat, want: nat) returns (data: seq<byte>)
      requires size > 0
      modifies this`offset
      ensures |data| <= size && old(offset) + |data| == offset
      ensures data == [] <==> old(offset) >= |bytes|
      ensures data != [] ==>
        offset <= |bytes| && data == bytes[old(offset)..offset]
    {
      if offset >= |bytes| {
        return [];
      }
      var n := if want == 0 then 1 else want;
      n := if n > size then size else n;
      n := if n > |bytes| - offset then |bytes| - offset else n;
      data := bytes[offset..offset + n];
      offset := offset + n;
    }

    /** write(): a gap between the end of the file and the offset becomes zeros. */
    method Write(data: seq<byte>)
      requires data != []
      modifies this
      ensures bytes == Written(old(bytes), old(offset), data) && offset == old(offset) + |data|
    {
      bytes, offset := Written(bytes, offset, data), offset + |data|;
    }

    /** lseek() with SEEK_SET: the file does not grow. */
    method Seek(to: nat)
      modifies this`offset
      ensures offset == to
    {
      offset := to;
    }
  }

  function Zeros(n: nat): seq<byte> {
    seq(n, _ => 0)
  }

  predicate AllZeros(data: seq<byte>) {
    forall i :: 0 <= i < |data| ==> data[i] == 0
  }

  function Written(bytes: seq<byte>, at: nat, data: seq<byte>): seq<byte> {
    var padded := if |bytes| < at then bytes + Zeros(at - |bytes|) else bytes;
    padded[..at] + data + if at + |data| <= |padded| then padded[at + |data|..] else []
  }

  // ---------------------------------------------------------------- what the copy holds

  function Sum(lengths: seq<nat>): nat {
    if lengths == [] then 0 else Sum(lengths[..|lengths| - 1]) + lengths[|lengths| - 1]
  }

  /** The lengths of the blocks in which a source may be read. */
  ghost predicate Reading(source: seq<byte>, lengths: seq<nat>) {
    Sum(lengths) == |source| && forall i :: 0 <= i < |lengths| ==> 0 < lengths[i] <= 4096
  }

  /** Where the last block ends that is not all zeros. */
  function KeptEnd(source: seq<byte>, lengths: seq<nat>): (n: nat)
    requires Sum(lengths) <= |source|
    ensures n <= Sum(lengths)
  {
    if lengths == [] then 0
    else
      var init := lengths[..|lengths| - 1];
      if AllZeros(source[Sum(init)..Sum(lengths)]) then KeptEnd(source, init) else Sum(lengths)
  }

  lemma {:induction false} ZerosAfter(source: seq<byte>, lengths: seq<nat>)
    requires Sum(lengths) <= |source|
    ensures AllZeros(source[KeptEnd(source, lengths)..Sum(lengths)])
    decreases |lengths|
  {
    if lengths == [] {
      assert source[0..0] == [];
    } else {
      var init := lengths[..|lengths| - 1];
      assert Sum(init) <= Sum(lengths);
      ZerosAfter(source, init);
      if AllZeros(source[Sum(init)..Sum(lengths)]) {
        ZerosJoin(source, KeptEnd(source, init), Sum(init), Sum(lengths));
        assert KeptEnd(source, lengths) == KeptEnd(source, init);
      } else {
        assert KeptEnd(source, lengths) == Sum(lengths);
      }
    }
  }

  lemma ZerosJoin(source: seq<byte>, a: nat, b: nat, c: nat)
    requires a <= b <= c <= |source| && AllZeros(source[a..b]) && AllZeros(source[b..c])
    ensures AllZeros(source[a..c])
  {
    assert source[a..c] == source[a..b] + source[b..c];
  }

  predicate LastBlockHasData(source: seq<byte>, lengths: seq<nat>)
    requires Sum(lengths) == |source|
  {
    lengths == [] || !AllZeros(source[Sum(lengths[..|lengths| - 1])..])
  }

  /** However the source was read, what the copy lacks of it is zeros, and it lacks nothing if and only if the last
      block read was not all zeros or the source is empty. */
  lemma CopyLacksZeros(source: seq<byte>, lengths: seq<nat>)
    requires Reading(source, lengths)
    ensures AllZeros(source[KeptEnd(source, lengths)..])
    ensures source[..KeptEnd(source, lengths)] == source <==> LastBlockHasData(source, lengths)
  {
    var kept := KeptEnd(source, lengths);
    ZerosAfter(source, lengths);
    assert source[kept..Sum(lengths)] == source[kept..];
    assert source[..kept] == source <==> kept == |source| by {
      assert |source[..kept]| == kept;
    }
    if lengths != [] {
      var init := lengths[..|lengths| - 1];
      assert Sum(init) < Sum(lengths);
      assert source[Sum(init)..Sum(lengths)] == source[Sum(init)..];
    }
  }

  lemma {:induction false} SumOfOnes(n: nat)
    ensures Sum(seq(n, _ => 1)) == n
    decreases n
  {
    if n > 0 {
      SumOfOnes(n - 1);
      assert seq(n, _ => 1)[..n - 1] == seq(n - 1, _ => 1);
    }
  }

  /** The copy is sure to equal the source, however it is read, if and only if the source does not end in a zero. */
  lemma EqualHoweverReadIff(source: seq<byte>)
    ensures (forall lengths :: Reading(source, lengths) ==> source[..KeptEnd(source, lengths)] == source)
       <==> source == [] || source[|source| - 1] != 0
  {
    forall lengths | Reading(source, lengths) && (source == [] || source[|source| - 1] != 0)
      ensures source[..KeptEnd(source, lengths)] == source
    {
      CopyLacksZeros(source, lengths);
    }
    if source != [] && source[|source| - 1] == 0 {
      var n := |source|;
      var ones: seq<nat> := seq(n, _ => 1);
      SumOfOnes(n);
      SumOfOnes(n - 1);
      assert ones[..n - 1] == seq(n - 1, _ => 1);
      assert Reading(source, ones);
      CopyLacksZeros(source, ones);
      assert source[n - 1..] == [0];
    }
  }

  // ---------------------------------------------------------------- the program

  method IsAllZeros(buf: seq<byte>) returns (allZeros: bool)
    ensures allZeros <==> AllZeros(buf)
  {
    allZeros := true;
    var i := 0;
    while i < |buf|
      invariant 0 <= i <= |buf| && allZeros
      invariant forall k :: 0 <= k < i ==> buf[k] == 0
    {
      if buf[i] != 0 {
        allZeros := false;
        break;
      }
      i := i + 1;
    }
  }

  lemma WrittenAfterPrefix(source: seq<byte>, kept: nat, from: nat, to: nat)
    requires kept <= from <= to <= |source| && AllZeros(source[kept..from])
    ensures Written(source[..kept], from, source[from..to]) == source[..to]
  {
    forall i | kept <= i < from ensures source[i] == 0 {
      assert source[kept..from][i - kept] == source[i];
    }
    assert source[..kept] + Zeros(from - kept) == source[..from];
  }

  /** The main loop. wants says how many bytes each read() is minded to give. The offsets of the two files move
      together. */
  method Copy(input: File, output: File, wants: nat -> nat) returns (ghost lengths: seq<nat>)
    requires input != output && input.offset == 0 && output.bytes == [] && output.offset == 0
    modifies input`offset, output
    ensures input.offset == output.offset == |input.bytes|
    ensures Reading(input.bytes, lengths)
    ensures output.bytes == input.bytes[..KeptEnd(input.bytes, lengths)]
  {
    lengths := [];
    ghost var source := input.bytes;
    var turn := 0;
    while true
      invariant input.bytes == source && input.offset == output.offset == Sum(lengths) <= |source|
      invariant forall i :: 0 <= i < |lengths| ==> 0 < lengths[i] <= BUF_SIZE
      invariant output.bytes == source[..KeptEnd(source, lengths)]
      decreases |source| - input.offset
    {
      var buf := input.Read(BUF_SIZE, wants(turn));
      if buf == [] {
        break;
      }
      var allZeros := IsAllZeros(buf);
      var currOffset := input.offset;
      ghost var was := lengths;
      lengths := lengths + [|buf|];
      assert lengths[..|lengths| - 1] == was;
      assert Sum(lengths) == currOffset && buf == source[Sum(was)..Sum(lengths)];
      if allZeros {
        output.Seek(currOffset);
      } else {
        ZerosAfter(source, was);
        WrittenAfterPrefix(source, KeptEnd(source, was), Sum(was), Sum(lengths));
        output.Write(buf);
      }
      turn := turn + 1;
    }
  }
}
