/** How the token ledgers store a `u128`: sixteen bytes, most significant
    first (`u128::to_be_bytes` / `u128::from_be_bytes`), under a storage key
    that may be absent. */
module U128Codec {
  import opened Common

  type byte = b: nat | b < 256

  function Pow256(n: nat): (p: nat)
    ensures p > 0
  {
    if n == 0 then 1 else 256 * Pow256(n - 1)
  }

  lemma Pow256Sixteen()
    ensures Pow256(16) == U128_LIMIT
  {
    assert Pow256(4) == 0x1_0000_0000;
    assert Pow256(8) == 0x1_0000_0000_0000_0000 by {
      assert Pow256(8) == 256 * 256 * 256 * 256 * Pow256(4);
    }
    assert Pow256(12) == 0x1_0000_0000_0000_0000_0000_0000 by {
      assert Pow256(12) == 256 * 256 * 256 * 256 * Pow256(8);
    }
    assert Pow256(16) == 256 * 256 * 256 * 256 * Pow256(12);
  }

  /** The number a big-endian byte string denotes. */
  function FromBeBytes(s: seq<byte>): (v: nat)
    ensures v < Pow256(|s|)
  {
    if s == [] then 0 else FromBeBytes(s[..|s| - 1]) * 256 + s[|s| - 1]
  }

  /** The `n` low-order bytes of `v`, most significant first. */
  function ToBeBytes(v: nat, n: nat): (s: seq<byte>)
    ensures |s| == n
  {
    if n == 0 then [] else ToBeBytes(v / 256, n - 1) + [v % 256]
  }

  /** Encoding then decoding gives the number back when it fits. */
  lemma {:induction false} DecodeEncode(v: nat, n: nat)
    requires v < Pow256(n)
    ensures FromBeBytes(ToBeBytes(v, n)) == v
  {
    if n > 0 {
      var s := ToBeBytes(v, n);
      assert s[..n - 1] == ToBeBytes(v / 256, n - 1);
      assert s[n - 1] == v % 256;
      HighBytesFit(v, Pow256(n - 1));
      DecodeEncode(v / 256, n - 1);
      assert FromBeBytes(s) == FromBeBytes(s[..n - 1]) * 256 + s[n - 1];
    }
  }

  /** Dropping the last byte of a number below `256 * p` leaves one below `p`. */
  lemma HighBytesFit(v: nat, p: nat)
    requires v < 256 * p
    ensures v / 256 < p
  {
  }

  /** Decoding then encoding gives the bytes back. */
  lemma {:induction false} EncodeDecode(s: seq<byte>)
    ensures ToBeBytes(FromBeBytes(s), |s|) == s
  {
    if s != [] {
      var init := s[..|s| - 1];
      EncodeDecode(init);
      assert (FromBeBytes(init) * 256 + s[|s| - 1]) / 256 == FromBeBytes(init);
      assert s == init + [s[|s| - 1]];
    }
  }

  /** `u128::to_be_bytes`. */
  function U128ToBytes(v: u128): (s: seq<byte>)
    ensures |s| == 16
  {
    ToBeBytes(v, 16)
  }

  /** `bytes_to_u128`: the first sixteen bytes, big-endian. Slicing
      `data[0..16]` panics when fewer are stored; bytes past the sixteenth
      are ignored. */
  function BytesToU128(data: seq<byte>): (r: Result<u128>)
    ensures r.Ok? <==> |data| >= 16
    ensures r.Ok? ==> U128ToBytes(r.value) == data[..16]
  {
    if |data| < 16 then Result<u128>.Err(Abort("range end index 16 out of range for slice"))
    else
      Pow256Sixteen();
      EncodeDecode(data[..16]);
      Ok(FromBeBytes(data[..16]))
  }

  /** `bytes_to_u128` inverts `to_be_bytes`. */
  lemma RoundTrip(v: u128)
    ensures BytesToU128(U128ToBytes(v)) == Ok(v)
  {
    Pow256Sixteen();
    var s := U128ToBytes(v);
    assert s[..16] == s;
    DecodeEncode(v, 16);
  }

  /** `read_u128` (and `read_u128_pre` / `read_u128_ropre`, the same read
      through a writable or read-only prefixed store): an absent key reads
      as zero, a present one is decoded. */
  function ReadU128<K>(store: map<K, seq<byte>>, key: K): (r: Result<u128>)
    ensures key !in store ==> r == Ok(0)
    ensures key in store ==> r == BytesToU128(store[key])
  {
    if key in store then BytesToU128(store[key]) else Ok(0)
  }

  /** What a store written only through `to_be_bytes` reads back: the value
      last written under the key, zero under a key never written. */
  lemma ReadAfterWrite<K>(store: map<K, seq<byte>>, key: K, other: K, v: u128)
    ensures ReadU128(store[key := U128ToBytes(v)], key) == Ok(v)
    ensures other != key ==> ReadU128(store[key := U128ToBytes(v)], other) == ReadU128(store, other)
  {
    RoundTrip(v);
  }
}
