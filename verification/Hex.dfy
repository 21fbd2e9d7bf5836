/** Hexadecimal text: JavaScript's toString(16)/padStart/toUpperCase against plain upper-case hex. */
module Hex {
  import opened Bits32
  import opened Sha256Spec

  const LOWER := "0123456789abcdef"
  const UPPER := "0123456789ABCDEF"

  /** Two upper-case digits per byte, as `hex::encode_upper` writes them. */
  function Encode(bytes: Bytes): string
  {
    if bytes == [] then ""
    else [UPPER[bytes[0] / 16], UPPER[bytes[0] % 16]] + Encode(bytes[1..])
  }

  /** `Number.prototype.toString(16)` */
  function ToString16(v: nat): string
  {
    if v < 16 then [LOWER[v]] else ToString16(v / 16) + [LOWER[v % 16]]
  }

  function Fill(n: nat): (z: string)
    ensures |z| == n && forall c <- z :: c == '0'
  {
    seq(n, _ => '0')
  }

  /** `String.prototype.padStart(n, '0')` */
  function PadStart(s: string, n: nat): string
  {
    if |s| >= n then s else Fill(n - |s|) + s
  }

  /** `String.prototype.toUpperCase()` on ASCII letters. */
  function ToUpper(s: string): (r: string)
    ensures |r| == |s|
  {
    seq(|s|, i requires 0 <= i < |s| => if 'a' <= s[i] <= 'z' then (s[i] as int - 32) as char else s[i])
  }

  function Fixed(v: nat, n: nat): string
    decreases n, v
  {
    if n == 0 then "" else Fixed(v / 16, n - 1) + [UPPER[v % 16]]
  }

  function Pow16(n: nat): nat { if n == 0 then 1 else 16 * Pow16(n - 1) }

  lemma UpperDigit(d: nat)
    requires d < 16
    ensures ToUpper([LOWER[d]]) == [UPPER[d]]
  {
  }

  lemma ToUpperAppend(s: string, t: string)
    ensures ToUpper(s + t) == ToUpper(s) + ToUpper(t)
  {
  }

  /** Padding commutes with dropping the last digit. */
  lemma PadLast(v: nat, n: nat)
    requires n > 1
    ensures PadStart(ToString16(v), n) == PadStart(ToString16(v / 16), n - 1) + [LOWER[v % 16]]
  {
    hide PadStart;
    if v < 16 {
      assert ToString16(v / 16) == "0" && ToString16(v) == [LOWER[v]];
      PadDigit(LOWER[v], n);
      PadDigit('0', n - 1);
      assert Fill(n - 1) == Fill(n - 2) + ['0'];
    } else {
      PadAppend(ToString16(v / 16), LOWER[v % 16], n);
    }
  }

  lemma PadAppend(s: string, c: char, n: nat)
    requires n > 0
    ensures PadStart(s + [c], n) == PadStart(s, n - 1) + [c]
  {
  }

  lemma PadDigit(c: char, n: nat)
    requires n > 0
    ensures PadStart([c], n) == Fill(n - 1) + [c]
  {
  }

  lemma PadOne(v: nat)
    requires v < 16
    ensures ToUpper(PadStart(ToString16(v), 1)) == Fixed(v, 1)
  {
    UpperDigit(v);
    assert Fixed(v, 1) == Fixed(v / 16, 0) + [UPPER[v % 16]];
  }

  lemma {:induction false} PaddedIsFixed(v: nat, n: nat)
    requires n > 0 && v < Pow16(n)
    ensures ToUpper(PadStart(ToString16(v), n)) == Fixed(v, n)
    decreases n
  {
    hide PadStart, ToString16, ToUpper;
    if n == 1 {
      PadOne(v);
    } else {
      PaddedIsFixed(v / 16, n - 1);
      PadLast(v, n);
      UpperDigit(v % 16);
      ToUpperAppend(PadStart(ToString16(v / 16), n - 1), [LOWER[v % 16]]);
    }
  }

  lemma {:induction false} EncodeAppend(a: Bytes, b: Bytes)
    ensures Encode(a + b) == Encode(a) + Encode(b)
  {
    if a == [] {
      assert a + b == b;
    } else {
      assert (a + b)[1..] == a[1..] + b;
      EncodeAppend(a[1..], b);
    }
  }

  /** The two hex digits of a byte are two steps of division by 16. */
  lemma ByteDigits(v: nat)
    ensures v % 256 / 16 == v / 16 % 16 && v % 256 % 16 == v % 16 && v / 256 == v / 16 / 16
  {
    var high, mid, low := v / 256, v % 256 / 16, v % 16;
    assert v == 256 * high + v % 256;
    assert v % 256 == 16 * mid + v % 256 % 16;
    assert v == 16 * (16 * high + mid) + v % 256 % 16;
    assert v / 16 == 16 * high + mid;
  }

  lemma FixedByte(v: nat, n: nat)
    ensures Fixed(v, n + 2) == Fixed(v / 256, n) + [UPPER[v % 256 / 16], UPPER[v % 256 % 16]]
  {
    ByteDigits(v);
    assert Fixed(v, n + 2) == Fixed(v / 16, n + 1) + [UPPER[v % 16]];
    assert Fixed(v / 16, n + 1) == Fixed(v / 16 / 16, n) + [UPPER[v / 16 % 16]];
  }

  lemma EncodeByte(b: Byte)
    ensures Encode([b]) == [UPPER[b / 16], UPPER[b % 16]]
  {
    assert [b][1..] == [];
  }

  lemma {:induction false} EncodedBigEndianIsFixed(v: nat, n: nat)
    ensures Encode(BigEndian(v, n)) == Fixed(v, 2 * n)
    decreases n
  {
    if n > 0 {
      EncodedBigEndianIsFixed(v / 256, n - 1);
      EncodeAppend(BigEndian(v / 256, n - 1), [v % 256]);
      EncodeByte(v % 256);
      FixedByte(v, 2 * n - 2);
    }
  }

  /** The page prints a 32-bit word as the hex of its four big-endian bytes. */
  lemma PrintedWord(w: Word)
    ensures ToUpper(PadStart(ToString16(w), 8)) == Encode(BigEndian(w, 4))
  {
    assert Pow16(8) == TWO32 by {
      assert Pow16(4) == 0x1_0000;
    }
    PaddedIsFixed(w, 8);
    EncodedBigEndianIsFixed(w, 4);
  }

  lemma SerializeSnoc(words: seq<Word>, w: Word)
    ensures Serialize(words + [w]) == Serialize(words) + BigEndian(w, 4)
  {
    if words == [] {
      assert [w][1..] == [];
    } else {
      assert (words + [w])[1..] == words[1..] + [w];
      SerializeSnoc(words[1..], w);
    }
  }
}
