// Bytes on the wire: padding, block encryption and the key of a message. The block cipher and the hash
// are parameters.
module BlockCodec {
  import opened Common

  type Byte = b: int | 0 <= b < 0x100
  type Half = h: int | 0 <= h < 0x1_0000
  type Word = w: int | 0 <= w < 0x1_0000_0000

  const BLOCK := 16

  type Block = b: seq<Byte> | |b| == BLOCK witness seq(BLOCK, i => 0)

  datatype DecryptError = EmptyData | InvalidPadding | NotWholeBlocks

  function Filled(padding: Byte, n: nat): seq<Byte> {
    seq(n, i => padding)
  }

  // The padding of section 6.3 of RFC 5652, for blocks of 16.
  function Pad(data: seq<Byte>): (padded: seq<Byte>)
    ensures |padded| % BLOCK == 0 && |data| < |padded| <= |data| + BLOCK && padded[..|data|] == data
  {
    var padding := BLOCK - |data| % BLOCK;
    data + Filled(padding, padding)
  }

  // What a padding must be for it to be removed.
  predicate EndsInPadding(data: seq<Byte>) {
    && data != []
    && 1 <= data[|data| - 1] <= BLOCK && data[|data| - 1] <= |data|
    && forall i :: |data| - data[|data| - 1] <= i < |data| ==> data[i] == data[|data| - 1]
  }

  function Unpadded(data: seq<Byte>): Result<seq<Byte>, DecryptError> {
    if data == [] then Err(EmptyData)
    else if EndsInPadding(data) then Ok(data[..|data| - data[|data| - 1]])
    else Err(InvalidPadding)
  }

  method Unpad(data: seq<Byte>) returns (r: Result<seq<Byte>, DecryptError>)
    ensures r == Unpadded(data)
  {
    if |data| == 0 {
      return Err(EmptyData);
    }
    var padding := data[|data| - 1];
    if padding > |data| || padding > BLOCK || padding == 0 {
      return Err(InvalidPadding);
    }
    for i := |data| - padding to |data|
      invariant forall j :: |data| - padding <= j < i ==> data[j] == padding
    {
      if data[i] != padding {
        return Err(InvalidPadding);
      }
    }
    return Ok(data[..|data| - padding]);
  }

  // On whole blocks, removing the padding is exactly the inverse of adding it.
  lemma PadInverse(data: seq<Byte>, padded: seq<Byte>)
    requires |padded| % BLOCK == 0
    ensures Unpadded(padded) == Ok(data) <==> padded == Pad(data)
  {
    if padded == Pad(data) {
      var padding := BLOCK - |data| % BLOCK;
      assert padded[|padded| - 1] == Filled(padding, padding)[padding - 1] == padding;
      assert forall i :: |data| <= i < |padded| ==> padded[i] == Filled(padding, padding)[i - |data|];
    }
    if Unpadded(padded) == Ok(data) {
      var padding := padded[|padded| - 1];
      assert |padded| == |data| + padding;
      PaddingSize(|data|, padding);
      assert padded == data + Filled(padding, padding);
    }
  }

  lemma PaddingSize(n: nat, padding: nat)
    requires (n + padding) % BLOCK == 0 && 1 <= padding <= BLOCK
    ensures padding == BLOCK - n % BLOCK
  {
  }

  function Blocks(f: Block -> Block, data: seq<Byte>): (r: seq<Byte>)
    ensures |r| == |data| - |data| % BLOCK
  {
    if |data| < BLOCK then [] else f(data[..BLOCK]) + Blocks(f, data[BLOCK..])
  }

  lemma {:induction false} BlocksMore(f: Block -> Block, data: seq<Byte>, block: Block)
    requires |data| % BLOCK == 0
    ensures Blocks(f, data + block) == Blocks(f, data) + f(block)
  {
    if data == [] {
      assert data + block == block && (data + block)[BLOCK..] == [];
      assert (data + block)[..BLOCK] == block;
    } else {
      BlocksMore(f, data[BLOCK..], block);
      assert (data + block)[..BLOCK] == data[..BLOCK];
      assert (data + block)[BLOCK..] == data[BLOCK..] + block;
      var head: seq<Byte>, tail: seq<Byte>, last: seq<Byte> := f(data[..BLOCK]), Blocks(f, data[BLOCK..]), f(block);
      assert head + (tail + last) == (head + tail) + last;
    }
  }

  lemma {:induction false} BlocksInverse(f: Block -> Block, g: Block -> Block, data: seq<Byte>)
    requires |data| % BLOCK == 0 && forall b: Block :: g(f(b)) == b
    ensures Blocks(g, Blocks(f, data)) == data
  {
    if data != [] {
      BlocksInverse(f, g, data[BLOCK..]);
      var head: seq<Byte>, tail: seq<Byte> := f(data[..BLOCK]), Blocks(f, data[BLOCK..]);
      assert (head + tail)[..BLOCK] == head && (head + tail)[BLOCK..] == tail;
    }
  }

  // A block operation on every block, into a buffer of the same size.
  method OnBlocks(f: Block -> Block, data: seq<Byte>) returns (result: seq<Byte>)
    requires |data| % BLOCK == 0
    ensures result == Blocks(f, data)
  {
    var buffer := new Byte[|data|];
    var i := 0;
    while i < |data|
      invariant 0 <= i <= |data| && i % BLOCK == 0
      invariant buffer[..i] == Blocks(f, data[..i])
    {
      assert i + BLOCK <= |data|;
      var block := f(data[i..i + BLOCK]);
      forall j | 0 <= j < BLOCK {
        buffer[i + j] := block[j];
      }
      BlocksMore(f, data[..i], data[i..i + BLOCK]);
      assert data[..i] + data[i..i + BLOCK] == data[..i + BLOCK];
      assert buffer[i..i + BLOCK] == block;
      assert buffer[..i + BLOCK] == buffer[..i] + buffer[i..i + BLOCK];
      i := i + BLOCK;
    }
    assert buffer[..i] == buffer[..] && data[..i] == data;
    return buffer[..];
  }
}
