/**
 * Generation tags on challenge nonces and download tokens
 * (crates/patcher-web/src/gateway.rs). A worker that serves behind the gateway
 * prefixes every token with "g<revision>."; the gateway reads the prefix back.
 */
module Tokens {
  import opened Wrappers

  const U32_MAX: nat := 0xFFFF_FFFF

  /** Seconds a challenge and a download grant live. */
  const CHALLENGE_TTL: nat := 180
  const GRANT_TTL: nat := 600

  predicate IsDigit(c: char) { '0' <= c <= '9' }

  function Digit(d: nat): (c: char)
    requires d < 10
    ensures IsDigit(c) && c as int - '0' as int == d
  {
    ('0' as int + d) as char
  }

  /** `u32` to decimal, as Rust's `format!` prints it. */
  function Decimal(n: nat): (s: string)
    ensures |s| > 0 && forall c <- s :: IsDigit(c)
  {
    if n < 10 then [Digit(n)] else Decimal(n / 10) + [Digit(n % 10)]
  }

  function DigitsValue(s: string): Option<nat>
  {
    if s == [] then Some(0)
    else
      var front := DigitsValue(s[..|s| - 1]);
      var last := s[|s| - 1];
      if front.None? || !IsDigit(last) then None
      else Some(10 * front.value + (last as int - '0' as int))
  }

  /** Rust's `str::parse::<u32>`: an optional '+', then at least one digit, in range. */
  function ParseU32(s: string): (r: Option<nat>)
    ensures r.Some? ==> r.value <= U32_MAX
  {
    var digits := if s != [] && s[0] == '+' then s[1..] else s;
    if digits == [] then None
    else
      var value := DigitsValue(digits);
      if value.Some? && value.value <= U32_MAX then value else None
  }

  /** `str::split_once('.')`: the position of the first dot. */
  function FirstDot(s: string): (r: Option<nat>)
    ensures r.Some? ==> r.value < |s| && s[r.value] == '.' && '.' !in s[..r.value]
    ensures r.None? ==> '.' !in s
  {
    if s == [] then None
    else if s[0] == '.' then Some(0)
    else
      match FirstDot(s[1..])
      case None => None
      case Some(i) =>
        assert s[..i + 1] == [s[0]] + s[1..][..i];
        Some(i + 1)
  }

  /** The revision a worker was started under, if its environment names one. */
  function TagToken(revision: Option<nat>, token: string): string
  {
    match revision
    case Some(r) => "g" + Decimal(r) + "." + token
    case None => token
  }

  function TokenRevision(token: string): (r: Option<nat>)
    ensures r.Some? ==> r.value <= U32_MAX
  {
    match FirstDot(token)
    case None => None
    case Some(i) =>
      if i > 0 && token[0] == 'g' then ParseU32(token[1..i]) else None
  }

  function UntagToken(token: string): string
  {
    match FirstDot(token)
    case None => token
    case Some(i) =>
      if i > 0 && token[0] == 'g' && ParseU32(token[1..i]).Some? then token[i + 1..] else token
  }

  // ---------------------------------------------------------------- round trips

  lemma {:induction false} DecimalParses(n: nat)
    ensures DigitsValue(Decimal(n)) == Some(n)
  {
    if n < 10 {
      assert Decimal(n)[..0] == [];
    } else {
      DecimalParses(n / 10);
      assert Decimal(n)[..|Decimal(n)| - 1] == Decimal(n / 10);
    }
  }

  lemma {:induction false} FirstDotOfHead(head: string, tail: string)
    requires '.' !in head
    ensures FirstDot(head + "." + tail) == Some(|head|)
  {
    var s := head + "." + tail;
    if head != [] {
      assert s[0] == head[0] && head[0] in head;
      assert s[1..] == head[1..] + "." + tail;
      FirstDotOfHead(head[1..], tail);
    }
  }

  /** Tagging and parsing undo each other for every u32 revision and every token. */
  lemma TagRoundTrip(revision: nat, token: string)
    requires revision <= U32_MAX
    ensures TokenRevision(TagToken(Some(revision), token)) == Some(revision)
    ensures UntagToken(TagToken(Some(revision), token)) == token
  {
    var digits := Decimal(revision);
    var head := "g" + digits;
    assert TagToken(Some(revision), token) == head + "." + token;
    assert '.' !in head by {
      forall c | c in head ensures c != '.' {
        assert c == 'g' || c in digits;
      }
    }
    FirstDotOfHead(head, token);
    assert (head + "." + token)[1..|head|] == digits;
    DecimalParses(revision);
    assert digits[0] in digits;
  }

  /** Untagging is the identity exactly on the tokens that carry no revision. */
  lemma UntagIdentity(token: string)
    ensures UntagToken(token) == token <==> TokenRevision(token) == None
  {
    if FirstDot(token).Some? {
      assert |token[FirstDot(token).value + 1..]| < |token|;
    }
  }

  /** Tags never collide: one tagged string has one issuer and one inner token. */
  lemma TagInjective(r1: nat, t1: string, r2: nat, t2: string)
    requires r1 <= U32_MAX && r2 <= U32_MAX
    requires TagToken(Some(r1), t1) == TagToken(Some(r2), t2)
    ensures r1 == r2 && t1 == t2
  {
    TagRoundTrip(r1, t1);
    TagRoundTrip(r2, t2);
  }

  /** A hex token issued without a tag is never mistaken for a tagged one. */
  lemma HexIsUntagged(token: string)
    requires '.' !in token
    ensures TokenRevision(token) == None && UntagToken(token) == token
  {
  }

  predicate IsHex(c: char) { IsDigit(c) || 'a' <= c <= 'f' || 'A' <= c <= 'F' }

  /** What `random_token` returns: 32 random bytes in hex. */
  predicate IsRandomToken(token: string)
  {
    |token| == 64 && forall c <- token :: IsHex(c)
  }

  lemma DecimalLength(n: nat, k: nat)
    requires k > 0 && n < Pow10(k)
    ensures |Decimal(n)| <= k
    decreases k
  {
    if n >= 10 {
      DecimalLength(n / 10, k - 1);
    }
  }

  function Pow10(k: nat): nat { if k == 0 then 1 else 10 * Pow10(k - 1) }

  lemma U32DecimalLength(n: nat)
    requires n <= U32_MAX
    ensures |Decimal(n)| <= 10
  {
    assert Pow10(10) == 10_000_000_000 by {
      assert Pow10(2) == 100;
      assert Pow10(4) == 10_000;
      assert Pow10(6) == 1_000_000;
      assert Pow10(8) == 100_000_000;
    }
    DecimalLength(n, 10);
  }

  // ---------------------------------------------------------------- exactly which tokens carry a tag

  predicate AllZeros(s: string) { forall c <- s :: c == '0' }

  /** The token reads "g", an optional plus sign, zeros, the revision in decimal, a dot, and `rest`. */
  predicate IsTagged(token: string, plus: bool, zeros: string, revision: nat, rest: string)
  {
    && AllZeros(zeros) && revision <= 4294967295
    && token == "g" + (if plus then "+" else "") + zeros + Decimal(revision) + "." + rest
  }

  /** A run of digits is zeros and a decimal numeral, and its value is the numeral's. */
  lemma {:induction false} DigitsAreDecimal(s: string) returns (zeros: string, value: nat)
    requires s != [] && forall c <- s :: IsDigit(c)
    ensures AllZeros(zeros) && s == zeros + Decimal(value) && DigitsValue(s) == Some(value)
    decreases |s|
  {
    var front, last := s[..|s| - 1], s[|s| - 1];
    assert last in s && s == front + [last];
    var d := last as int - '0' as int;
    assert Digit(d) == last;
    if front == [] {
      zeros, value := [], d;
      assert DigitsValue(front) == Some(0) && Decimal(d) == [last];
    } else {
      var z, v := DigitsAreDecimal(front);
      if v == 0 {
        zeros, value := front, d;
        assert Decimal(0) == [Digit(0)] && front == z + [Digit(0)];
      } else {
        zeros, value := z, 10 * v + d;
        assert Decimal(10 * v + d) == Decimal(v) + [Digit(d)];
      }
    }
  }

  lemma {:induction false} ValueNeedsDigits(s: string)
    requires DigitsValue(s).Some?
    ensures forall c <- s :: IsDigit(c)
    decreases |s|
  {
    if s != [] {
      ValueNeedsDigits(s[..|s| - 1]);
      assert s == s[..|s| - 1] + [s[|s| - 1]];
    }
  }

  lemma {:induction false} ZerosAddNothing(zeros: string, n: nat)
    requires AllZeros(zeros)
    ensures DigitsValue(zeros + Decimal(n)) == Some(n)
    decreases n
  {
    var s := zeros + Decimal(n);
    if n < 10 {
      assert s[..|s| - 1] == zeros;
      ZerosAreNothing(zeros);
    } else {
      ZerosAddNothing(zeros, n / 10);
      assert s[..|s| - 1] == zeros + Decimal(n / 10);
    }
  }

  lemma {:induction false} ZerosAreNothing(zeros: string)
    requires AllZeros(zeros)
    ensures DigitsValue(zeros) == Some(0)
    decreases |zeros|
  {
    if zeros != [] {
      var front := zeros[..|zeros| - 1];
      assert zeros == front + [zeros[|zeros| - 1]] && zeros[|zeros| - 1] in zeros;
      assert AllZeros(front) by {
        forall c | c in front ensures c in zeros {
        }
      }
      ZerosAreNothing(front);
    }
  }

  /** What follows the "g" and precedes the dot of a tag. */
  function Numeral(plus: bool, zeros: string, revision: nat): string
  {
    (if plus then "+" else "") + zeros + Decimal(revision)
  }

  lemma NumeralParses(plus: bool, zeros: string, revision: nat)
    requires AllZeros(zeros) && revision <= U32_MAX
    ensures ParseU32(Numeral(plus, zeros, revision)) == Some(revision) && '.' !in Numeral(plus, zeros, revision)
  {
    var digits := zeros + Decimal(revision);
    ZerosAddNothing(zeros, revision);
    forall c | c in digits ensures IsDigit(c) {
    }
    assert digits[0] in digits;
    if plus {
      assert Numeral(plus, zeros, revision)[1..] == digits;
    } else {
      assert Numeral(plus, zeros, revision) == digits;
    }
  }

  lemma ParsedNumeral(s: string) returns (plus: bool, zeros: string)
    requires ParseU32(s).Some?
    ensures AllZeros(zeros) && s == Numeral(plus, zeros, ParseU32(s).value)
  {
    plus := s[0] == '+';
    var digits := if plus then s[1..] else s;
    ValueNeedsDigits(digits);
    var value;
    zeros, value := DigitsAreDecimal(digits);
  }

  /**
   * Exactly which tokens name a generation, and what remains of them: "g", a u32 as Rust
   * parses it, a dot, and any rest.
   */
  lemma TaggedExactly(token: string)
    ensures forall revision: nat :: TokenRevision(token) == Some(revision) <==>
              exists plus, zeros, rest :: IsTagged(token, plus, zeros, revision, rest)
    ensures forall plus, zeros, revision: nat, rest :: IsTagged(token, plus, zeros, revision, rest) ==>
              UntagToken(token) == rest
  {
    forall plus, zeros, revision: nat, rest | IsTagged(token, plus, zeros, revision, rest)
      ensures TokenRevision(token) == Some(revision) && UntagToken(token) == rest
    {
      TagIsRead(token, plus, zeros, revision, rest);
    }
    if TokenRevision(token).Some? {
      var dot := FirstDot(token).value;
      var plus, zeros := ParsedNumeral(token[1..dot]);
      var revision := TokenRevision(token).value;
      assert token == [token[0]] + token[1..dot] + [token[dot]] + token[dot + 1..];
      assert IsTagged(token, plus, zeros, revision, token[dot + 1..]);
    }
  }

  lemma TagIsRead(token: string, plus: bool, zeros: string, revision: nat, rest: string)
    requires IsTagged(token, plus, zeros, revision, rest)
    ensures TokenRevision(token) == Some(revision) && UntagToken(token) == rest
  {
    var numeral := Numeral(plus, zeros, revision);
    var head := "g" + numeral;
    NumeralParses(plus, zeros, revision);
    assert token == head + "." + rest;
    FirstDotOfHead(head, rest);
    assert token[1..|head|] == numeral;
  }

  /** The tokens of the gateway's own unit test. */
  lemma KnownTokens()
    ensures TagToken(Some(42), "ABCD") == "g42.ABCD" && TagToken(None, "LEGACY") == "LEGACY"
    ensures TokenRevision("g42.ABCD") == Some(42) && UntagToken("g42.ABCD") == "ABCD"
    ensures TokenRevision("http://evil.invalid") == None && UntagToken("LEGACY") == "LEGACY"
  {
    assert Decimal(42) == Decimal(4) + [Digit(2)] && Decimal(4) == [Digit(4)];
    assert Decimal(42) == "42";
    TagRoundTrip(42, "ABCD");
    HexIsUntagged("LEGACY");
    assert "http://evil.invalid"[0] != 'g';
  }
}
