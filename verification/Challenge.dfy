/** The possession challenge (crates/patcher-core/src/challenge.rs). */
module Challenge {
  import opened Wrappers
  import opened Bits32
  import Sha256Spec
  import Hex

  const I64_MAX: int := 0x7FFF_FFFF_FFFF_FFFF

  datatype Error =
    | Io
    | SourceTooSmall
    | InvalidParameters
    | Expired
    | NonceMismatch
    | ChunkCount
    | Encoding
    | ChunkLength
    | ProofMismatch

  datatype Public = Public(nonce: string, sourceSize: nat, chunkSize: nat, offsets: seq<nat>, expiresAt: int)

  datatype State = State(challenge: Public, digests: seq<Bytes>)

  function SaturatingAdd(x: int, y: int): int { if x + y > I64_MAX then I64_MAX else x + y }

  function BigEndianValue(bytes: Bytes): nat
  {
    if bytes == [] then 0 else 256 * BigEndianValue(bytes[..|bytes| - 1]) + bytes[|bytes| - 1]
  }

  /** Offset `index` drawn from the nonce, below `limit`. */
  function Offset(nonce: Bytes, index: nat, limit: nat): (r: nat)
    requires limit > 0
    ensures r < limit
  {
    BigEndianValue(Sha256Spec.Digest(nonce + Sha256Spec.BigEndian(index, 8))[..8]) % limit
  }

  /** What `issue` demands of its parameters. */
  predicate ValidParameters(chunkSize: nat, chunkCount: nat, ttl: int)
  {
    4096 <= chunkSize <= 1024 * 1024 && 2 <= chunkCount <= 16 && 30 <= ttl <= 600
  }

  function Slice(source: Bytes, offset: nat, size: nat): Bytes
    requires offset + size <= |source|
  {
    source[offset..offset + size]
  }

  /** `ChallengeState::issue`; `nonce` is the 32 random bytes. */
  method Issue(source: Bytes, chunkSize: nat, chunkCount: nat, now: int, ttl: int, nonce: Bytes)
    returns (r: Result<State, Error>)
    ensures var valid := 4096 <= chunkSize <= 1048576 && 2 <= chunkCount <= 16 && 30 <= ttl <= 600;
            && (r == Err(InvalidParameters) <==> !valid)
            && (r == Err(SourceTooSmall) <==> valid && |source| < 2 * chunkSize)
            && (r.Ok? <==> valid && |source| >= 2 * chunkSize)
    ensures r.Ok? ==>
              && Issued(r.value, source, chunkSize, chunkCount, nonce)
              && r.value.challenge.expiresAt
                 == (if now + ttl > 0x7FFF_FFFF_FFFF_FFFF then 0x7FFF_FFFF_FFFF_FFFF else now + ttl)
  {
    hide Offset, Sha256Spec.Digest, Hex.Encode;
    if !ValidParameters(chunkSize, chunkCount, ttl) {
      return Err(InvalidParameters);
    }
    if |source| < chunkSize * 2 {
      return Err(SourceTooSmall);
    }
    var maxOffset := |source| - chunkSize;
    var offsets, digests := [], [];
    var index := 0;
    while index < chunkCount
      invariant 0 <= index <= chunkCount && |offsets| == |digests| == index
      invariant forall i :: 0 <= i < index ==>
                  offsets[i] == Offset(nonce, i, maxOffset + 1) && offsets[i] + chunkSize <= |source|
      invariant forall i :: 0 <= i < index ==> digests[i] == Sha256Spec.Digest(Slice(source, offsets[i], chunkSize))
    {
      OffsetInRange(nonce, index, maxOffset + 1);
      var offset := Offset(nonce, index, maxOffset + 1);
      offsets := offsets + [offset];
      digests := digests + [Sha256Spec.Digest(Slice(source, offset, chunkSize))];
      index := index + 1;
    }
    var challenge := Public(Hex.Encode(nonce), |source|, chunkSize, offsets, SaturatingAdd(now, ttl));
    return Ok(State(challenge, digests));
  }

  lemma OffsetInRange(nonce: Bytes, index: nat, limit: nat)
    requires limit > 0
    ensures Offset(nonce, index, limit) < limit
  {
  }

  /** The ranges lie in the source, are drawn from the nonce, and their digests are recorded. */
  ghost predicate Issued(s: State, source: Bytes, chunkSize: nat, chunkCount: nat, nonce: Bytes)
  {
    && s.challenge.nonce == Hex.Encode(nonce)
    && s.challenge.sourceSize == |source| && s.challenge.chunkSize == chunkSize <= |source|
    && |s.challenge.offsets| == |s.digests| == chunkCount
    && forall i :: 0 <= i < chunkCount ==>
         && s.challenge.offsets[i] == Offset(nonce, i, |source| - chunkSize + 1)
         && s.challenge.offsets[i] + chunkSize <= |source|
         && s.digests[i] == Sha256Spec.Digest(Slice(source, s.challenge.offsets[i], chunkSize))
  }

  lemma {:induction false} BigEndianOfValue(bytes: Bytes)
    ensures Sha256Spec.BigEndian(BigEndianValue(bytes), |bytes|) == bytes
    decreases |bytes|
  {
    if bytes != [] {
      BigEndianOfValue(bytes[..|bytes| - 1]);
      assert BigEndianValue(bytes) / 256 == BigEndianValue(bytes[..|bytes| - 1]);
      assert bytes == bytes[..|bytes| - 1] + [bytes[|bytes| - 1]];
    }
  }

  /** The first eight bytes of the digest of nonce and index are a multiple of `limit` above the offset. */
  ghost predicate DrawnAs(nonce: Bytes, index: nat, limit: nat, offset: nat)
  {
    && offset < limit
    && exists q: nat ::
         Sha256Spec.BigEndian(q * limit + offset, 8)
         == Sha256Spec.Digest(nonce + Sha256Spec.BigEndian(index, 8))[..8]
  }

  lemma OffsetIsDrawn(nonce: Bytes, index: nat, limit: nat)
    requires limit > 0
    ensures DrawnAs(nonce, index, limit, Offset(nonce, index, limit))
  {
    hide Sha256Spec.Digest, Sha256Spec.BigEndian, BigEndianValue;
    var bytes := Sha256Spec.Digest(nonce + Sha256Spec.BigEndian(index, 8))[..8];
    BigEndianOfValue(bytes);
    var value := BigEndianValue(bytes);
    var q := value / limit;
    assert value == q * limit + value % limit by {
      assert value == limit * (value / limit) + value % limit;
      assert limit * q == q * limit;
    }
    assert Sha256Spec.BigEndian(q * limit + Offset(nonce, index, limit), 8) == bytes;
  }

  /**
   * Each range of an issued challenge is drawn by its own index and is within the source, and
   * what is recorded of it is the digest of just these bytes.
   */
  lemma RangesAreDrawn(s: State, source: Bytes, chunkSize: nat, chunkCount: nat, nonce: Bytes)
    requires Issued(s, source, chunkSize, chunkCount, nonce)
    ensures |s.challenge.offsets| == |s.digests| == chunkCount && s.challenge.nonce == Hex.Encode(nonce)
    ensures s.challenge.sourceSize == |source| && s.challenge.chunkSize == chunkSize
    ensures forall i :: 0 <= i < chunkCount ==>
              var offset := s.challenge.offsets[i];
              && DrawnAs(nonce, i, |source| - chunkSize + 1, offset)
              && s.digests[i] == Sha256Spec.Digest(source[offset..offset + chunkSize])
  {
    hide Sha256Spec.Digest, Hex.Encode, Offset, DrawnAs;
    forall i | 0 <= i < chunkCount ensures DrawnAs(nonce, i, |source| - chunkSize + 1, s.challenge.offsets[i]) {
      OffsetIsDrawn(nonce, i, |source| - chunkSize + 1);
    }
  }

  // ------------------------------------------------------------ verification

  datatype Proof = Proof(nonce: string, chunks: seq<string>)

  /** Accumulate `difference | (a ^ b)` over bytes. */
  function Differences(left: Bytes, right: Bytes): (d: nat)
    requires |left| == |right|
  {
    if left == [] then 0
    else
      var n := |left| - 1;
      Bitwise(OR, Differences(left[..n], right[..n]), Bitwise(XOR, left[n], right[n], 8), 8)
  }

  function ConstantTimeEqual(left: Bytes, right: Bytes): bool
  {
    |left| == |right| && Differences(left, right) == 0
  }

  lemma {:induction false} XorIsZero(x: nat, y: nat, width: nat)
    requires x < Pow2(width) && y < Pow2(width)
    ensures Bitwise(XOR, x, y, width) == 0 <==> x == y
    decreases width
  {
    if width > 0 {
      XorIsZero(x / 2, y / 2, width - 1);
    }
  }

  lemma {:induction false} OrIsZero(x: nat, y: nat, width: nat)
    requires x < Pow2(width) && y < Pow2(width)
    ensures Bitwise(OR, x, y, width) == 0 <==> x == 0 && y == 0
    decreases width
  {
    if width > 0 {
      OrIsZero(x / 2, y / 2, width - 1);
    }
  }

  lemma SplitLast(left: Bytes, right: Bytes)
    requires |left| == |right| > 0
    ensures var n := |left| - 1; left == right <==> left[..n] == right[..n] && left[n] == right[n]
  {
    var n := |left| - 1;
    assert left == left[..n] + [left[n]] && right == right[..n] + [right[n]];
  }

  lemma Pow8()
    ensures Pow2(8) == 256
  {
  }

  lemma {:induction false} DifferencesVanish(left: Bytes, right: Bytes)
    requires |left| == |right|
    ensures Differences(left, right) < 256 && (Differences(left, right) == 0 <==> left == right)
    decreases |left|
  {
    if left != [] {
      var n := |left| - 1;
      DifferencesVanish(left[..n], right[..n]);
      Pow8();
      XorIsZero(left[n], right[n], 8);
      OrIsZero(Differences(left[..n], right[..n]), Bitwise(XOR, left[n], right[n], 8), 8);
      hide Bitwise, Pow2;
      SplitLast(left, right);
    }
  }

  /** The byte fold accepts exactly equal digests. */
  lemma ConstantTimeEqualIsEquality(left: Bytes, right: Bytes)
    ensures ConstantTimeEqual(left, right) <==> left == right
  {
    if |left| == |right| {
      DifferencesVanish(left, right);
    }
  }

  /** Why chunk i is refused, if it is; `decode` is the base64 library. */
  function ChunkFault(s: State, proof: Proof, i: nat, decode: string -> Option<Bytes>): Option<Error>
    requires i < |proof.chunks| == |s.digests|
  {
    match decode(proof.chunks[i])
    case None => Some(Encoding)
    case Some(chunk) =>
      if |chunk| != s.challenge.chunkSize then Some(ChunkLength)
      else if Sha256Spec.Digest(chunk) != s.digests[i] then Some(ProofMismatch)
      else None
  }

  function FirstFault(s: State, proof: Proof, i: nat, decode: string -> Option<Bytes>): Option<Error>
    requires i <= |proof.chunks| == |s.digests|
    decreases |proof.chunks| - i
  {
    if i == |proof.chunks| then None
    else
      var fault := ChunkFault(s, proof, i, decode);
      if fault.Some? then fault else FirstFault(s, proof, i + 1, decode)
  }

  /** The verdict on a proof at unix time `now`; None is acceptance. */
  function Verdict(s: State, proof: Proof, now: int, decode: string -> Option<Bytes>): Option<Error>
  {
    if now > s.challenge.expiresAt then Some(Expired)
    else if proof.nonce != s.challenge.nonce then Some(NonceMismatch)
    else if |proof.chunks| != |s.digests| then Some(ChunkCount)
    else FirstFault(s, proof, 0, decode)
  }

  /** `ChallengeState::verify` */
  method Verify(s: State, proof: Proof, now: int, decode: string -> Option<Bytes>) returns (r: Option<Error>)
    ensures r == Verdict(s, proof, now, decode)
  {
    if now > s.challenge.expiresAt {
      return Some(Expired);
    }
    if proof.nonce != s.challenge.nonce {
      return Some(NonceMismatch);
    }
    if |proof.chunks| != |s.digests| {
      return Some(ChunkCount);
    }
    var i := 0;
    while i < |proof.chunks|
      invariant 0 <= i <= |proof.chunks|
      invariant FirstFault(s, proof, 0, decode) == FirstFault(s, proof, i, decode)
    {
      hide Sha256Spec.Digest, ConstantTimeEqual;
      var decoded := decode(proof.chunks[i]);
      if decoded.None? {
        return Some(Encoding);
      }
      var chunk := decoded.value;
      if |chunk| != s.challenge.chunkSize {
        return Some(ChunkLength);
      }
      var actual := Sha256Spec.Digest(chunk);
      ConstantTimeEqualIsEquality(actual, s.digests[i]);
      if !ConstantTimeEqual(actual, s.digests[i]) {
        return Some(ProofMismatch);
      }
      i := i + 1;
    }
    return None;
  }

  lemma {:induction false} NoFault(s: State, proof: Proof, i: nat, decode: string -> Option<Bytes>)
    requires i <= |proof.chunks| == |s.digests|
    ensures FirstFault(s, proof, i, decode).None?
            <==> forall j | i <= j < |proof.chunks| :: ChunkFault(s, proof, j, decode).None?
    decreases |proof.chunks| - i
  {
    hide ChunkFault;
    if i < |proof.chunks| {
      NoFault(s, proof, i + 1, decode);
    }
  }

  /** A proof that answers with the source's own chunks, in time, is accepted. */
  lemma HonestProofAccepted(
    s: State, source: Bytes, chunkSize: nat, chunkCount: nat, nonce: Bytes, proof: Proof, now: int,
    decode: string -> Option<Bytes>)
    requires Issued(s, source, chunkSize, chunkCount, nonce) && now <= s.challenge.expiresAt
    requires proof.nonce == s.challenge.nonce && |proof.chunks| == chunkCount
    requires forall i :: 0 <= i < chunkCount ==>
               decode(proof.chunks[i]) == Some(Slice(source, s.challenge.offsets[i], chunkSize))
    ensures Verdict(s, proof, now, decode) == None
  {
    hide Sha256Spec.Digest, Offset;
    NoFault(s, proof, 0, decode);
  }

  /** An accepted proof is in time, names the nonce, and each chunk hashes to the recorded digest. */
  lemma AcceptedProof(s: State, proof: Proof, now: int, decode: string -> Option<Bytes>)
    ensures Verdict(s, proof, now, decode) == None <==>
              && now <= s.challenge.expiresAt && proof.nonce == s.challenge.nonce
              && |proof.chunks| == |s.digests|
              && forall i :: 0 <= i < |proof.chunks| ==>
                   && decode(proof.chunks[i]).Some?
                   && |decode(proof.chunks[i]).value| == s.challenge.chunkSize
                   && Sha256Spec.Digest(decode(proof.chunks[i]).value) == s.digests[i]
  {
    hide Sha256Spec.Digest, FirstFault;
    if |proof.chunks| == |s.digests| {
      NoFault(s, proof, 0, decode);
      forall i | 0 <= i < |proof.chunks|
        ensures ChunkFault(s, proof, i, decode).None? <==>
                  && decode(proof.chunks[i]).Some?
                  && |decode(proof.chunks[i]).value| == s.challenge.chunkSize
                  && Sha256Spec.Digest(decode(proof.chunks[i]).value) == s.digests[i]
      {
      }
    }
  }

  /** Why a chunk is refused, if it is: undecodable, of another length, or with another digest. */
  predicate Refused(s: State, proof: Proof, i: nat, decode: string -> Option<Bytes>, error: Error)
    requires i < |proof.chunks| == |s.digests|
  {
    var chunk := decode(proof.chunks[i]);
    || (error == Encoding && chunk.None?)
    || (error == ChunkLength && chunk.Some? && |chunk.value| != s.challenge.chunkSize)
    || (error == ProofMismatch && chunk.Some? && |chunk.value| == s.challenge.chunkSize
        && Sha256Spec.Digest(chunk.value) != s.digests[i])
  }

  /** No error fits the chunk. */
  ghost predicate Passes(s: State, proof: Proof, i: nat, decode: string -> Option<Bytes>)
    requires i < |proof.chunks| == |s.digests|
  {
    forall error :: !Refused(s, proof, i, decode, error)
  }

  /** Chunk k is refused, and those from i up to it pass. */
  ghost predicate FirstRefused(s: State, proof: Proof, i: nat, k: nat, decode: string -> Option<Bytes>, error: Error)
    requires |proof.chunks| == |s.digests|
  {
    && i <= k < |proof.chunks| && Refused(s, proof, k, decode, error)
    && forall j :: i <= j < k ==> Passes(s, proof, j, decode)
  }

  lemma {:induction false} FaultExactly(
    s: State, proof: Proof, i: nat, decode: string -> Option<Bytes>, error: Error)
    requires i <= |proof.chunks| == |s.digests|
    ensures FirstFault(s, proof, i, decode) == Some(error) <==>
              exists k: nat :: FirstRefused(s, proof, i, k, decode, error)
    decreases |proof.chunks| - i
  {
    hide Refused, Passes, ChunkFault;
    if i < |proof.chunks| {
      FaultExactly(s, proof, i + 1, decode, error);
      OneFault(s, proof, i, decode);
      if ChunkFault(s, proof, i, decode).Some? {
        if ChunkFault(s, proof, i, decode) == Some(error) {
          assert FirstRefused(s, proof, i, i, decode, error);
        }
      } else {
        var next := i + 1;
        if k: nat :| FirstRefused(s, proof, next, k, decode, error) {
          assert FirstRefused(s, proof, i, k, decode, error);
        }
        if k: nat :| FirstRefused(s, proof, i, k, decode, error) {
          assert k != i && FirstRefused(s, proof, i + 1, k, decode, error);
        }
      }
    }
  }

  lemma OneFault(s: State, proof: Proof, i: nat, decode: string -> Option<Bytes>)
    requires i < |proof.chunks| == |s.digests|
    ensures forall error :: ChunkFault(s, proof, i, decode) == Some(error) <==> Refused(s, proof, i, decode, error)
    ensures ChunkFault(s, proof, i, decode).None? <==> Passes(s, proof, i, decode)
  {
    hide Sha256Spec.Digest;
    var fault := ChunkFault(s, proof, i, decode);
    if fault.Some? {
      assert Refused(s, proof, i, decode, fault.value);
    }
  }

  /** Exactly which proofs are refused, and why: too late, another nonce, another count, or the first bad chunk. */
  lemma RefusedExactly(s: State, proof: Proof, now: int, decode: string -> Option<Bytes>, error: Error)
    ensures Verdict(s, proof, now, decode) == Some(error) <==>
              if now > s.challenge.expiresAt then error == Expired
              else if proof.nonce != s.challenge.nonce then error == NonceMismatch
              else if |proof.chunks| != |s.digests| then error == ChunkCount
              else exists k: nat :: FirstRefused(s, proof, 0, k, decode, error)
  {
    hide FirstFault, FirstRefused;
    if |proof.chunks| == |s.digests| {
      FaultExactly(s, proof, 0, decode, error);
    }
  }
}
