/** The stat string: arbitrary bytes encoded without NULs, seven at a time behind a control byte. */
module StatString {
  import opened Bytes

  function Pow2(k: nat): (p: nat)
    ensures p >= 1
  {
    if k == 0 then 1 else 2 * Pow2(k - 1)
  }

  /** Which of the bytes are odd, first byte in the lowest bit. */
  function Parities(chunk: seq<u8>): (bits: nat)
    ensures bits < Pow2(|chunk|)
  {
    if chunk == [] then 0 else chunk[0] % 2 + 2 * Parities(chunk[1..])
  }

  /** Even bytes are made odd. */
  function Mask(chunk: seq<u8>): (bytes: seq<u8>)
    ensures |bytes| == |chunk|
    ensures forall i | 0 <= i < |bytes| :: bytes[i] % 2 == 1
  {
    if chunk == [] then [] else [if chunk[0] % 2 == 0 then chunk[0] + 1 else chunk[0]] + Mask(chunk[1..])
  }

  lemma ChunkBits()
    ensures Pow2(7) == 128
  {
    assert Pow2(3) == 8;
    assert Pow2(5) == 32;
  }

  lemma {:induction false} Pow2Grows(a: nat, b: nat)
    requires a <= b
    ensures Pow2(a) <= Pow2(b)
  {
    if a < b {
      Pow2Grows(a, b - 1);
    }
  }

  function Control(chunk: seq<u8>): (control: u8)
    requires |chunk| <= 7
    ensures control % 2 == 1 && control / 2 == Parities(chunk)
  {
    ChunkBits();
    Pow2Grows(|chunk|, 7);
    1 + 2 * Parities(chunk)
  }

  function ChunkLength(n: nat): (length: nat)
  {
    if n > 7 then 7 else n
  }

  function Encode(source: seq<u8>): (output: seq<u8>)
  {
    if source == [] then []
    else
      var n := ChunkLength(|source|);
      [Control(source[..n])] + Mask(source[..n]) + Encode(source[n..])
  }

  function WrappingDecrement(b: u8): (r: u8)
  {
    if b == 0 then 255 else b - 1
  }

  /** Even bits undo the change of parity. */
  function Unmask(bits: nat, bytes: seq<u8>): (chunk: seq<u8>)
    ensures |chunk| == |bytes|
  {
    if bytes == [] then []
    else [if bits % 2 == 0 then WrappingDecrement(bytes[0]) else bytes[0]] + Unmask(bits / 2, bytes[1..])
  }

  function Decode(bytes: seq<u8>): (source: seq<u8>)
    decreases |bytes|
  {
    if bytes == [] then []
    else
      var n := ChunkLength(|bytes| - 1);
      Unmask(bytes[0] / 2, bytes[1..1 + n]) + Decode(bytes[1 + n..])
  }

  // Round trip and shape.

  lemma {:induction false} UnmaskMask(chunk: seq<u8>)
    ensures Unmask(Parities(chunk), Mask(chunk)) == chunk
  {
    if chunk != [] {
      UnmaskMask(chunk[1..]);
      assert Mask(chunk)[1..] == Mask(chunk[1..]);
    }
  }

  lemma {:induction false} RoundTrip(source: seq<u8>)
    ensures Decode(Encode(source)) == source
    decreases |source|
  {
    if source != [] {
      var n := ChunkLength(|source|);
      var bytes := Encode(source);
      var rest := Encode(source[n..]);
      RoundTrip(source[n..]);
      UnmaskMask(source[..n]);
      if n < 7 {
        assert source[n..] == [];
        assert rest == [];
      }
      assert ChunkLength(|bytes| - 1) == n;
      assert bytes[1..1 + n] == Mask(source[..n]);
      assert bytes[1 + n..] == rest;
      assert source[..n] + source[n..] == source;
    }
  }

  /** One control byte for every seven bytes or part of seven. */
  lemma {:induction false} LengthOfEncoding(source: seq<u8>)
    ensures |Encode(source)| == |source| + (|source| + 6) / 7
    decreases |source|
  {
    if source != [] {
      LengthOfEncoding(source[ChunkLength(|source|)..]);
    }
  }

  lemma {:induction false} EncodingIsOdd(source: seq<u8>)
    ensures forall i | 0 <= i < |Encode(source)| :: Encode(source)[i] % 2 == 1
    ensures 0 !in Encode(source)
    decreases |source|
  {
    if source != [] {
      EncodingIsOdd(source[ChunkLength(|source|)..]);
    }
  }

  // The encoder's loops.

  /** Setting bit `k`, as a bitwise or does. */
  function WithBit(x: nat, k: nat): (y: nat)
  {
    if x / Pow2(k) % 2 == 0 then x + Pow2(k) else x
  }

  lemma {:induction false} ParitiesAppend(chunk: seq<u8>, b: u8)
    ensures Parities(chunk + [b]) == Parities(chunk) + Pow2(|chunk|) * (b % 2)
  {
    if chunk == [] {
      assert ([] + [b])[1..] == [];
    } else {
      assert (chunk + [b])[1..] == chunk[1..] + [b];
      ParitiesAppend(chunk[1..], b);
    }
  }

  lemma {:induction false} MaskAppend(chunk: seq<u8>, b: u8)
    ensures Mask(chunk + [b]) == Mask(chunk) + [if b % 2 == 0 then b + 1 else b]
  {
    if chunk == [] {
      assert ([] + [b])[1..] == [];
    } else {
      assert (chunk + [b])[1..] == chunk[1..] + [b];
      MaskAppend(chunk[1..], b);
    }
  }

  lemma NextBit(chunk: seq<u8>, b: u8)
    requires |chunk| < 7
    ensures Control(chunk + [b]) == if b % 2 == 0 then Control(chunk) else WithBit(Control(chunk), |chunk| + 1)
  {
    hide Parities;
    ParitiesAppend(chunk, b);
    var p := Pow2(|chunk| + 1);
    SmallQuotient(Control(chunk), p);
  }

  lemma SmallQuotient(x: nat, p: nat)
    requires x < p
    ensures x / p == 0
  {
  }

  method EncodeStatString(source: seq<u8>) returns (output: seq<u8>)
    ensures output == Encode(source)
  {
    hide Encode, Parities, Mask, WithBit, Control;
    output := [];
    var start := 0;
    StartOfEncoding(source);
    while start < |source|
      invariant 0 <= start <= |source|
      invariant Encode(source) == output + Encode(source[start..])
    {
      var n := ChunkLength(|source| - start);
      var chunk := source[start..start + n];
      ghost var before := output;
      var controlPosition := |output|;
      output := output + [1];
      var control: u8 := 1;
      assert chunk[..0] == [];
      for index := 0 to |chunk|
        invariant control == Control(chunk[..index])
        invariant output == before + [1] + Mask(chunk[..index])
      {
        var byte := chunk[index];
        assert chunk[..index + 1] == chunk[..index] + [byte];
        MaskAppend(chunk[..index], byte);
        NextBit(chunk[..index], byte);
        if byte % 2 == 0 {
          output := output + [byte + 1];
        } else {
          output := output + [byte];
          control := WithBit(control, index + 1);
        }
      }
      output := output[controlPosition := control];
      NextChunk(source, start, n, before);
      assert chunk[..|chunk|] == chunk;
      assert output == before + ([Control(chunk)] + Mask(chunk));
      start := start + n;
    }
    assert source[|source|..] == [];
    EncodingOfNothing();
  }

  lemma StartOfEncoding(source: seq<u8>)
    ensures Encode(source) == [] + Encode(source[0..])
    ensures Control([]) == 1 && Mask([]) == []
  {
    assert source[0..] == source;
  }

  lemma EncodingOfNothing()
    ensures Encode([]) == []
  {
  }

  lemma NextChunk(source: seq<u8>, start: nat, n: nat, before: seq<u8>)
    requires start < |source| && n == ChunkLength(|source| - start)
    ensures var chunk := source[start..start + n];
            before + Encode(source[start..])
                == (before + ([Control(chunk)] + Mask(chunk))) + Encode(source[start + n..])
  {
    var rest := source[start..];
    assert rest[..n] == source[start..start + n];
    assert rest[n..] == source[start + n..];
  }
}
