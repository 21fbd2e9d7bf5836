/** Fixed-width little-endian integers and exact reads from a byte image. */
module LittleEndian {
  import opened Bits32

  const TWO64: nat := 0x1_0000_0000_0000_0000

  /** Rust's u64, and usize on the 64-bit hosts the patcher is built for. */
  newtype u64 = x: int | 0 <= x < 0x1_0000_0000_0000_0000

  function Pow256(n: nat): (r: nat)
    ensures r > 0
  {
    if n == 0 then 1 else 256 * Pow256(n - 1)
  }

  lemma Powers256()
    ensures Pow256(2) == 0x1_0000 && Pow256(4) == TWO32 && Pow256(8) == TWO64
  {
    assert Pow256(4) == 0x1_0000_0000;
    assert Pow256(6) == 0x1_0000_0000_0000;
  }

  function Encode(value: nat, n: nat): (r: Bytes)
    ensures |r| == n
    decreases n, value
  {
    if n == 0 then [] else [value % 256] + Encode(value / 256, n - 1)
  }

  function Decode(bytes: Bytes): (v: nat)
    ensures v < Pow256(|bytes|)
  {
    if bytes == [] then 0 else bytes[0] + 256 * Decode(bytes[1..])
  }

  /** `u64::from_le_bytes` and the narrower ones, widened. */
  function Read(image: Bytes, at: nat, n: nat): (v: u64)
    requires at + n <= |image| && n in {2, 4, 8}
    ensures v as int < Pow256(n)
  {
    Powers256();
    Decode(image[at..at + n]) as u64
  }

  lemma {:induction false} DecodeEncode(value: nat, n: nat)
    requires value < Pow256(n)
    ensures Decode(Encode(value, n)) == value
    decreases n
  {
    if n > 0 {
      DecodeEncode(value / 256, n - 1);
      assert Encode(value, n)[1..] == Encode(value / 256, n - 1);
    }
  }

  lemma {:induction false} EncodeDecode(bytes: Bytes)
    ensures Encode(Decode(bytes), |bytes|) == bytes
  {
    if bytes != [] {
      EncodeDecode(bytes[1..]);
      var v := Decode(bytes);
      assert v % 256 == bytes[0] && v / 256 == Decode(bytes[1..]);
    }
  }

  /** A slice of a slice is a slice. */
  lemma SubSlice<T>(s: seq<T>, a: nat, b: nat, c: nat, d: nat)
    requires a <= b <= |s| && c <= d <= b - a
    ensures s[a..b][c..d] == s[a + c..a + d]
  {
    var left, right := s[a..b][c..d], s[a + c..a + d];
    forall i | 0 <= i < d - c ensures left[i] == right[i] {
      assert left[i] == s[a..b][c + i];
    }
    assert left == right;
  }
}
