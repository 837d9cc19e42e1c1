/** `to_big` and `from_big`: 256-bit words as 32 big-endian bytes. */
module ByteCodec {
  import opened Wrappers
  import opened Bytes
  import opened CurveMath

  /** `BigUint::to_bytes_be`: no leading zero byte, except that zero is one zero byte. */
  function ToBytesBe(value: nat): (bytes: seq<Byte>)
    ensures BeValue(bytes) == value
    ensures |bytes| >= 1 && (|bytes| > 1 ==> bytes[0] != 0)
  {
    if value < 256 then
      assert BeValue([value][..0]) == 0;
      [value]
    else
      var rest := ToBytesBe(value / 256);
      assert (rest + [value % 256])[..|rest|] == rest;
      rest + [value % 256]
  }

  /** `U256::to_be_bytes::<32>`, for any width. */
  function ToBeBytes(value: nat, width: nat): (bytes: seq<Byte>)
    ensures |bytes| == width
  {
    if width == 0 then [] else ToBeBytes(value / 256, width - 1) + [value % 256]
  }

  lemma WordRange()
    ensures MAX_U256 + 1 == Pow256(32)
    ensures MAX_U256 == 0xffffffff_ffffffff_ffffffff_ffffffff_ffffffff_ffffffff_ffffffff_ffffffff
  {
    assert |BLANK_WORD| == 32;
    assert Pow256(8) == 0x1_0000_0000_0000_0000;
    assert Pow256(16) == Pow256(8) * 0x1_0000_0000_0000_0000;
    assert Pow256(24) == Pow256(16) * 0x1_0000_0000_0000_0000;
    assert Pow256(32) == Pow256(24) * 0x1_0000_0000_0000_0000;
  }

  /** The word bound is far above every constant the curves use. */
  lemma WordIsWide()
    ensures MAX_U256 >= 10_000_000_000_000_000_000_000_000_000_000_000_000_000_000_000_000
  {
    WordRange();
  }

  lemma {:induction false} FixedWidthValue(value: nat, width: nat)
    requires value < Pow256(width)
    ensures BeValue(ToBeBytes(value, width)) == value
  {
    if width > 0 {
      FixedWidthValue(value / 256, width - 1);
      var rest := ToBeBytes(value / 256, width - 1);
      assert (rest + [value % 256])[..width - 1] == rest;
    }
  }

  /** A number below 256^k has at most k bytes, so the copy below stays in bounds. */
  lemma {:induction false} MinimalWidth(value: nat, k: nat)
    requires k >= 1 && value < Pow256(k)
    ensures |ToBytesBe(value)| <= k
  {
    if value >= 256 {
      assert k > 1 by {
        assert Pow256(1) == 256;
      }
      MinimalWidth(value / 256, k - 1);
    }
  }

  lemma {:induction false} LeadingZeros(zeros: seq<Byte>, bytes: seq<Byte>)
    requires forall i :: 0 <= i < |zeros| ==> zeros[i] == 0
    ensures BeValue(zeros + bytes) == BeValue(bytes)
  {
    var all := zeros + bytes;
    if bytes != [] {
      assert all[..|all| - 1] == zeros + bytes[..|bytes| - 1];
      LeadingZeros(zeros, bytes[..|bytes| - 1]);
    } else if zeros != [] {
      assert all == zeros;
      assert all[..|all| - 1] == zeros[..|zeros| - 1] + [];
      LeadingZeros(zeros[..|zeros| - 1], []);
    } else {
      assert all == [];
    }
  }

  /** `to_big` loses nothing. */
  lemma ToBigIsValue(value: U256)
    ensures BeValue(ToBeBytes(value, 32)) == value
  {
    WordRange();
    FixedWidthValue(value, 32);
  }

  /** `from_be_bytes` loses nothing either: a 32-byte buffer is the word it denotes. */
  lemma {:induction false} BytesOfValue(bytes: seq<Byte>)
    ensures BeValue(bytes) < Pow256(|bytes|)
    ensures ToBeBytes(BeValue(bytes), |bytes|) == bytes
  {
    if bytes != [] {
      var high := bytes[..|bytes| - 1];
      BytesOfValue(high);
      assert BeValue(bytes) / 256 == BeValue(high);
      assert bytes == high + [bytes[|bytes| - 1]];
    }
  }

  /** The copy in `from_big`: right-aligning the minimal bytes in a zeroed buffer gives the fixed-width bytes. */
  method PadToWord(value: nat) returns (padded: array<Byte>)
    requires value <= MAX_U256
    ensures padded.Length == 32 && padded[..] == ToBeBytes(value, 32)
  {
    var bytes := ToBytesBe(value);
    WordRange();
    MinimalWidth(value, 32);
    padded := new Byte[32](_ => 0);
    var start := if padded.Length < |bytes| then 0 else padded.Length - |bytes|;
    forall i | 0 <= i < |bytes| {
      padded[start + i] := bytes[i];
    }
    assert padded[..] == padded[..start] + bytes;
    LeadingZeros(padded[..start], bytes);
    BytesOfValue(padded[..]);
  }

  /** `from_big`: it succeeds exactly on 256-bit values, and its byte buffer keeps the value. */
  method FromBigBytes(value: nat) returns (r: Quote)
    ensures r == FromBig(value)
  {
    if value > MAX_U256 {
      return Err(MathOverflow);
    }
    var padded := PadToWord(value);
    ToBigIsValue(value);
    return Ok(BeValue(padded[..]));
  }
}
