/** Message encoding for ISO/IEC 9796-2 digital signature schemes 2 and 3
    (signatures with partial message recovery). The recoverable part of the
    message, a delimiter, a salt and a hash are packed into one block whose
    data part is masked with MGF1. The hash, MGF1 and the random salt are
    parameters: a hash is given by its name, its output length and the
    bytes of its digest, MGF1 by the bytes of its output stream. */
module Iso9796 {
  import opened Wrappers
  import opened Octets
  import HashId

  /** `digest(x, i)` is byte `i` of the digest of `x`. */
  type DigestFn = (seq<Byte>, nat) -> Byte

  /** `mask(seed, i)` is byte `i` of the MGF1 output for `seed`. */
  type MaskFn = (seq<Byte>, nat) -> Byte

  datatype Hash = Hash(name: string, size: nat, digest: DigestFn, mgf1: MaskFn)

  const SizeMax: nat := 0x1_0000_0000_0000_0000

  /** Unsigned 64-bit subtraction results. */
  function Wrap64(x: int): (r: nat)
    ensures r < SizeMax
    ensures 0 <= x < SizeMax ==> r == x
  {
    x % SizeMax
  }

  function Digest(h: Hash, x: seq<Byte>): (r: seq<Byte>)
    ensures |r| == h.size
  {
    seq(h.size, i requires 0 <= i => h.digest(x, i))
  }

  /** XOR with the MGF1 stream of `seed`. */
  function Mask(h: Hash, seed: seq<Byte>, db: seq<Byte>): (r: seq<Byte>)
    ensures |r| == |db|
    ensures forall i :: 0 <= i < |db| ==> r[i] == db[i] ^ h.mgf1(seed, i)
  {
    seq(|db|, i requires 0 <= i < |db| => db[i] ^ h.mgf1(seed, i))
  }

  /** Masking twice with the same seed gives the data back. */
  lemma MaskTwice(h: Hash, seed: seq<Byte>, db: seq<Byte>)
    ensures Mask(h, seed, Mask(h, seed, db)) == db
  {
    var once := Mask(h, seed, db);
    forall i | 0 <= i < |db|
      ensures Mask(h, seed, once)[i] == db[i]
    {
      XorTwice(db[i], h.mgf1(seed, i));
    }
  }

  lemma XorTwice(a: Byte, m: Byte)
    ensures (a ^ m) ^ m == a
  {
  }

  /** `EM[0] &= 0x7F`: the leftmost bit is cleared. */
  function ClearTop(s: seq<Byte>): (r: seq<Byte>)
    requires |s| > 0
    ensures |r| == |s| && r[0] == s[0] & 0x7F && r[1..] == s[1..]
    ensures forall i :: 0 < i < |s| ==> r[i] == s[i]
  {
    s[0 := s[0] & 0x7F]
  }

  function OutputLength(bits: nat): nat {
    (bits + 7) / 8
  }

  function TrailerLength(implicit: bool): (t: nat)
    ensures t == 1 || t == 2
  {
    if implicit then 1 else 2
  }

  /** The message is split at `capacity`: the prefix is recoverable from
      the block, the rest is only hashed. */
  function Split(msg: seq<Byte>, capacity: nat): (r: (seq<Byte>, seq<Byte>))
    ensures r.0 + r.1 == msg
    ensures |msg| > capacity ==> |r.0| == capacity
    ensures |msg| <= capacity ==> r.0 == msg && r.1 == []
  {
    if |msg| > capacity then (msg[..capacity], msg[capacity..]) else (msg, [])
  }

  /** `C || msg1 || H(msg2) || S`: the 64-bit big-endian bit length of the
      recoverable part, the part itself, the digest of the rest and the
      salt. */
  function HashInput(msg1: seq<Byte>, msg2Digest: seq<Byte>, salt: seq<Byte>): (r: seq<Byte>)
    ensures |r| == 8 + |msg1| + |msg2Digest| + |salt|
    ensures r[..8] == BigEndian(Wrap64(|msg1| * 8), 8)
    ensures r[8..] == msg1 + msg2Digest + salt
  {
    BigEndian(Wrap64(|msg1| * 8), 8) + msg1 + msg2Digest + salt
  }

  /** The data block before masking: zeros, the delimiter 0x01, the
      recoverable part, the salt. */
  function DataBlock(offset: nat, msg1: seq<Byte>, salt: seq<Byte>): (db: seq<Byte>)
    ensures |db| == offset + 1 + |msg1| + |salt|
  {
    seq(offset, _ => 0) + [0x01] + msg1 + salt
  }

  function Trailer(implicit: bool, id: Byte): (r: seq<Byte>)
    ensures |r| == TrailerLength(implicit)
  {
    if implicit then [0xBC] else [id, 0xCC]
  }

  /** The encoded block: masked data block, hash, trailer, with the
      leftmost bit cleared. */
  function Block(h: Hash, db: seq<Byte>, hv: seq<Byte>, trailer: seq<Byte>): (em: seq<Byte>)
    requires |db| > 0
    ensures |em| == |db| + |hv| + |trailer|
  {
    ClearTop(Mask(h, hv, db) + hv + trailer)
  }

  datatype EncodingError = OutputTooSmall | NoHashIdentifier(name: string)

  /** The hash the signer commits to for `msg`, given the capacity and the
      salt. */
  function SignedHash(h: Hash, msg: seq<Byte>, capacity: nat, salt: seq<Byte>): (r: seq<Byte>)
    ensures |r| == h.size
  {
    var (msg1, msg2) := Split(msg, capacity);
    Digest(h, HashInput(msg1, Digest(h, msg2), salt))
  }

  /** `iso9796_encoding`. `salt` is what the random number generator
      returns for `saltSize` bytes. */
  function Encode(msg: seq<Byte>, outputBits: nat, h: Hash, saltSize: nat, implicit: bool, salt: seq<Byte>)
    : (r: Result<seq<Byte>, EncodingError>)
    requires |salt| == saltSize
    ensures OutputLength(outputBits) <= h.size + saltSize + TrailerLength(implicit) ==> r == Failure(OutputTooSmall)
    ensures r.Failure? && OutputLength(outputBits) > h.size + saltSize + TrailerLength(implicit) ==>
      !implicit && HashId.Ieee1363HashId(h.name) == 0 && r == Failure(NoHashIdentifier(h.name))
    ensures r.Success? ==> |r.value| == OutputLength(outputBits) && r.value[0] & 0x80 == 0
    ensures r.Success? && implicit ==> r.value[|r.value| - 1] == 0xBC
    ensures r.Success? && !implicit ==>
      r.value[|r.value| - 1] == 0xCC && r.value[|r.value| - 2] == HashId.Ieee1363HashId(h.name) != 0
  {
    var outLen := OutputLength(outputBits);
    var t := TrailerLength(implicit);
    if outLen <= h.size + saltSize + t then Failure(OutputTooSmall)
    else
      var capacity := outLen - h.size - saltSize - t - 1;
      var msg1 := Split(msg, capacity).0;
      var hv := SignedHash(h, msg, capacity, salt);
      var db := DataBlock(outLen - h.size - saltSize - t - |msg1| - 1, msg1, salt);
      var id := HashId.Ieee1363HashId(h.name);
      if !implicit && id == 0 then Failure(NoHashIdentifier(h.name))
      else
        var em := Block(h, db, hv, Trailer(implicit, id));
        assert em[|em| - 1] == Trailer(implicit, id)[t - 1];
        assert !implicit ==> em[|em| - 2] == id;
        Success(em)
  }

  // -- the delimiter scan ------------------------------------------------------

  /** The number of leading zero bytes. */
  function LeadingZeros(db: seq<Byte>): (z: nat)
    ensures z <= |db|
    ensures forall i :: 0 <= i < z ==> db[i] == 0
    ensures z < |db| ==> db[z] != 0
  {
    if |db| == 0 || db[0] != 0 then 0 else 1 + LeadingZeros(db[1..])
  }

  /** The scan rejects the block iff no byte is non-zero or the first
      non-zero byte is not the delimiter 0x01; the recoverable part starts
      one past it. */
  function ScanSpec(db: seq<Byte>): (r: (nat, bool))
    ensures r.0 == 1 + LeadingZeros(db)
    ensures r.1 <==> LeadingZeros(db) == |db| || db[LeadingZeros(db)] != 0x01
  {
    var z := LeadingZeros(db);
    (1 + z, z == |db| || db[z] != 0x01)
  }

  /** `ct::is_equal` and `ct::is_zero`: all ones or all zeros. */
  function MaskIf(b: bool): (m: Byte)
    ensures b ==> m == 0xFF
    ensures !b ==> m == 0
  {
    if b then 0xFF else 0
  }

  /** The constant-time loop of the verifier: every byte is visited, and
      the state is carried in all-ones/all-zeros masks. */
  method ScanDelimiter(db: seq<Byte>) returns (msg1Offset: nat, badInput: Byte)
    ensures msg1Offset == ScanSpec(db).0
    ensures badInput != 0 <==> ScanSpec(db).1
  {
    var z := LeadingZeros(db);
    msg1Offset := 1;
    var waitingForDelim: Byte := 0xFF;
    badInput := 0;
    var j := 0;
    while j < |db|
      invariant j <= |db|
      invariant waitingForDelim == MaskIf(j <= z)
      invariant msg1Offset == 1 + (if j <= z then j else z)
      invariant badInput == MaskIf(z < j && db[z] != 0x01)
    {
      var oneM := MaskIf(db[j] == 0x01);
      var zeroM := MaskIf(db[j] == 0);
      var addM := waitingForDelim & zeroM;
      badInput := badInput | (waitingForDelim & !(zeroM | oneM));
      msg1Offset := msg1Offset + (if addM == 0xFF then 1 else 0);
      waitingForDelim := waitingForDelim & zeroM;
      j := j + 1;
    }
    badInput := badInput | waitingForDelim;
  }

  // -- verification --------------------------------------------------------------

  function KeyBytes(keyBits: nat): nat {
    (keyBits + 7) / 8
  }

  /** What the verifier reads back from a block with trailer length `t`:
      the unmasked data block (leftmost bit cleared) and the hash field. */
  datatype Recovered = Recovered(db: seq<Byte>, hashField: seq<Byte>)

  function Recover(coded: seq<Byte>, h: Hash, t: nat): (r: Recovered)
    requires h.size + t <= |coded|
    ensures |r.db| == |coded| - h.size - t && |r.hashField| == h.size
    ensures r.hashField == coded[|coded| - h.size - t..|coded| - t]
  {
    var dbSize := |coded| - h.size - t;
    var hashField := coded[dbSize..dbSize + h.size];
    var db := Mask(h, hashField, coded[..dbSize]);
    Recovered(if dbSize > 0 then ClearTop(db) else db, hashField)
  }

  /** The recoverable part and the salt, once the scan accepted. */
  function RecoveredParts(db: seq<Byte>, z: nat, saltSize: nat): (r: (seq<Byte>, seq<Byte>))
    requires z + 1 + saltSize <= |db|
    ensures r.0 + r.1 == db[z + 1..] && |r.1| == saltSize
  {
    (db[z + 1..|db| - saltSize], db[|db| - saltSize..])
  }

  /** The capacity the verifier derives from the key size. */
  function VerifierCapacity(keyBits: nat, h: Hash, saltSize: nat, t: nat): (c: nat)
    ensures c < SizeMax
  {
    Wrap64((keyBits + 5) / 8 - h.size - saltSize - t - 1)
  }

  /** The trailer check: `Some(t)` with the trailer length, or `None` for a
      wrong explicit trailer. */
  function TrailerOf(coded: seq<Byte>, h: Hash): (r: Option<nat>)
    requires |coded| >= 2 || (|coded| == 1 && coded[0] == 0xBC)
    ensures r.Some? ==> r.value == 1 || r.value == 2
    ensures r == Some(1) <==> coded[|coded| - 1] == 0xBC
    ensures r == Some(2) <==>
      && coded[|coded| - 1] == 0xCC
      && coded[|coded| - 2] != 0
      && coded[|coded| - 2] == HashId.Ieee1363HashId(h.name)
  {
    if coded[|coded| - 1] == 0xBC then Some(1)
    else if coded[|coded| - 2] == 0 || coded[|coded| - 2] != HashId.Ieee1363HashId(h.name) || coded[|coded| - 1] != 0xCC then None
    else Some(2)
  }

  /** The comparison the verifier makes once the scan accepted: the hash
      recomputed from the raw message's split against the one recomputed
      from the recovered part, both with the recovered salt. */
  function HashesAgree(h: Hash, raw: seq<Byte>, capacity: nat, msg1: seq<Byte>, salt: seq<Byte>): (b: bool)
  {
    var (raw1, raw2) := Split(raw, capacity);
    var m2 := Digest(h, raw2);
    Digest(h, HashInput(raw1, m2, salt)) == Digest(h, HashInput(msg1, m2, salt))
  }

  datatype Fault =
    | ReadBeforeStart   // the trailer bytes of a block shorter than the trailer
    | DataBlockSizeWraps  // a block shorter than hash and trailer
    | NegativeRange     // the recoverable part of a rejected short block

  /** `iso9796_verification` as written. Reads outside the block are faults. */
  function VerifyAsWritten(coded: seq<Byte>, raw: seq<Byte>, keyBits: nat, h: Hash, saltSize: nat): (r: Result<bool, Fault>)
  {
    if |coded| != KeyBytes(keyBits) then Success(false)
    else if |coded| == 0 then Failure(ReadBeforeStart)
    else if coded[|coded| - 1] != 0xBC && |coded| < 2 then Failure(ReadBeforeStart)
    else
      match TrailerOf(coded, h)
      case None => Success(false)
      case Some(t) =>
        if |coded| < h.size + t then Failure(DataBlockSizeWraps)
        else
          var db := Recover(coded, h, t).db;
          var (offset, scanBad) := ScanSpec(db);
          var bad := scanBad || |coded| < t + h.size + offset + saltSize;
          if bad then
            if |coded| < t + h.size + saltSize then Failure(NegativeRange) else Success(false)
          else
            var (msg1, salt) := RecoveredParts(db, offset - 1, saltSize);
            Success(HashesAgree(h, raw, VerifierCapacity(keyBits, h, saltSize, t), msg1, salt))
  }

  /** The verifier with both defects corrected: short blocks are rejected
      before any read, and the hash field of the block must equal the hash
      recomputed from the recovered part, the raw message's rest and the
      recovered salt. */
  function Verify(coded: seq<Byte>, raw: seq<Byte>, keyBits: nat, h: Hash, saltSize: nat): (ok: bool)
    ensures ok ==> |coded| == KeyBytes(keyBits)
  {
    if |coded| != KeyBytes(keyBits) || |coded| == 0 then false
    else if coded[|coded| - 1] != 0xBC && |coded| < 2 then false
    else
      match TrailerOf(coded, h)
      case None => false
      case Some(t) =>
        if |coded| < h.size + t + saltSize + 1 then false
        else
          var rec := Recover(coded, h, t);
          var (offset, scanBad) := ScanSpec(rec.db);
          if scanBad || |coded| < t + h.size + offset + saltSize then false
          else
            var (msg1, salt) := RecoveredParts(rec.db, offset - 1, saltSize);
            var capacity := VerifierCapacity(keyBits, h, saltSize, t);
            && HashesAgree(h, raw, capacity, msg1, salt)
            && rec.hashField == SignedHash(h, raw, capacity, salt)
  }

  /** Whatever the block, the corrected verifier never accepts what the
      verifier as written rejects, and rejects every block the verifier as
      written faults on. */
  lemma VerifyRefinesAsWritten(coded: seq<Byte>, raw: seq<Byte>, keyBits: nat, h: Hash, saltSize: nat)
    ensures VerifyAsWritten(coded, raw, keyBits, h, saltSize).Failure? ==> !Verify(coded, raw, keyBits, h, saltSize)
    ensures Verify(coded, raw, keyBits, h, saltSize) ==> VerifyAsWritten(coded, raw, keyBits, h, saltSize) == Success(true)
  {
  }

  /** A block of one byte, or one shorter than its hash and trailer, makes
      the verifier as written read outside the block. */
  lemma ShortBlockFaults(h: Hash, saltSize: nat)
    requires h.size >= 1
    ensures VerifyAsWritten([0xBC], [], 8, h, saltSize) == Failure(DataBlockSizeWraps)
    ensures VerifyAsWritten([0x00], [], 8, h, saltSize) == Failure(ReadBeforeStart)
  {
  }

  /** The corrected verifier rejects every block too short to hold the
      trailer, the hash, the salt and the delimiter. */
  lemma ShortBlockRejected(coded: seq<Byte>, raw: seq<Byte>, keyBits: nat, h: Hash, saltSize: nat)
    requires |coded| < h.size + saltSize + 2
    ensures !Verify(coded, raw, keyBits, h, saltSize)
  {
  }

  // -- what an encoded block decodes to ----------------------------------------

  lemma {:induction false} DataBlockLayout(offset: nat, msg1: seq<Byte>, salt: seq<Byte>)
    ensures var db := DataBlock(offset, msg1, salt);
      && LeadingZeros(db) == offset
      && db[offset] == 0x01
      && db[0] & 0x80 == 0
      && offset + 1 + |salt| <= |db|
      && RecoveredParts(db, offset, |salt|) == (msg1, salt)
  {
    var db := DataBlock(offset, msg1, salt);
    assert db[offset] == 0x01;
    assert db[offset + 1..] == msg1 + salt;
    if offset > 0 {
      DataBlockLayout(offset - 1, msg1, salt);
      assert db[1..] == DataBlock(offset - 1, msg1, salt);
    }
  }

  lemma BlockSlices(x: seq<Byte>, hv: seq<Byte>, trailer: seq<Byte>)
    requires |x| > 0
    ensures ClearTop(x + hv + trailer)[..|x|] == ClearTop(x)
    ensures ClearTop(x + hv + trailer)[|x|..|x| + |hv|] == hv
  {
    var em := ClearTop(x + hv + trailer);
    assert em == ClearTop(x) + hv + trailer;
  }

  lemma UnmaskMasked(h: Hash, seed: seq<Byte>, db: seq<Byte>)
    requires |db| > 0 && db[0] & 0x80 == 0
    ensures ClearTop(Mask(h, seed, ClearTop(Mask(h, seed, db)))) == db
  {
    var masked := Mask(h, seed, db);
    ClearBeforeMask(h, seed, masked);
    MaskTwice(h, seed, db);
    ClearTopKeeps(db);
  }

  /** Clearing the top bit before masking makes no difference once it is
      cleared again after. */
  lemma ClearBeforeMask(h: Hash, seed: seq<Byte>, x: seq<Byte>)
    requires |x| > 0
    ensures ClearTop(Mask(h, seed, ClearTop(x))) == ClearTop(Mask(h, seed, x))
  {
    var r1 := ClearTop(Mask(h, seed, ClearTop(x)));
    var r2 := ClearTop(Mask(h, seed, x));
    ClearXorClear(x[0], h.mgf1(seed, 0));
    assert r1[0] == r2[0];
    assert r1[1..] == r2[1..];
  }

  lemma ClearXorClear(a: Byte, m: Byte)
    ensures ((a & 0x7F) ^ m) & 0x7F == (a ^ m) & 0x7F
  {
  }

  lemma ClearTopKeeps(s: seq<Byte>)
    requires |s| > 0 && s[0] & 0x80 == 0
    ensures ClearTop(s) == s
  {
    assert s[0] & 0x7F == s[0];
  }

  /** Unmasking an encoded block with its own hash field gives back the
      data block and the hash. */
  lemma RecoverBlock(h: Hash, db: seq<Byte>, hv: seq<Byte>, trailer: seq<Byte>)
    requires |db| > 0 && db[0] & 0x80 == 0 && |hv| == h.size
    ensures Recover(Block(h, db, hv, trailer), h, |trailer|) == Recovered(db, hv)
  {
    var em := Block(h, db, hv, trailer);
    var masked := Mask(h, hv, db);
    BlockSlices(masked, hv, trailer);
    UnmaskMasked(h, hv, db);
    assert em[..|db|] == ClearTop(masked);
    assert em[|db|..|db| + h.size] == hv;
  }

  /** The block `Encode` produces, taken apart. */
  datatype Parts = Parts(capacity: nat, t: nat, db: seq<Byte>, hv: seq<Byte>, trailer: seq<Byte>)

  function PartsOf(msg: seq<Byte>, outputBits: nat, h: Hash, saltSize: nat, implicit: bool, salt: seq<Byte>): (p: Parts)
    requires |salt| == saltSize
    requires OutputLength(outputBits) > h.size + saltSize + TrailerLength(implicit)
    ensures p.t == |p.trailer| == TrailerLength(implicit)
  {
    var outLen := OutputLength(outputBits);
    var t := TrailerLength(implicit);
    var capacity := outLen - h.size - saltSize - t - 1;
    var msg1 := Split(msg, capacity).0;
    Parts(capacity, t,
          DataBlock(outLen - h.size - saltSize - t - |msg1| - 1, msg1, salt),
          SignedHash(h, msg, capacity, salt),
          Trailer(implicit, HashId.Ieee1363HashId(h.name)))
  }

  /** The sizes under which a block encoded for `outputBits` is checked
      against a key of `keyBits`: the block has the key's byte length and
      the verifier derives the signer's capacity. */
  predicate SizesMatch(outputBits: nat, keyBits: nat) {
    && OutputLength(outputBits) == KeyBytes(keyBits) == (keyBits + 5) / 8
    && KeyBytes(keyBits) < SizeMax
  }

  lemma DecodeEncoded(msg: seq<Byte>, outputBits: nat, h: Hash, saltSize: nat, implicit: bool, salt: seq<Byte>, keyBits: nat)
    requires |salt| == saltSize
    requires Encode(msg, outputBits, h, saltSize, implicit, salt).Success?
    requires SizesMatch(outputBits, keyBits)
    ensures var em := Encode(msg, outputBits, h, saltSize, implicit, salt).value;
      var p := PartsOf(msg, outputBits, h, saltSize, implicit, salt);
      var msg1 := Split(msg, p.capacity).0;
      var z := LeadingZeros(p.db);
      && em == Block(h, p.db, p.hv, p.trailer)
      && |em| == KeyBytes(keyBits) >= h.size + saltSize + p.t + 1
      && TrailerOf(em, h) == Some(p.t)
      && Recover(em, h, p.t) == Recovered(p.db, p.hv)
      && !ScanSpec(p.db).1
      && |em| >= p.t + h.size + ScanSpec(p.db).0 + saltSize
      && z + 1 + saltSize <= |p.db|
      && RecoveredParts(p.db, z, saltSize) == (msg1, salt)
      && VerifierCapacity(keyBits, h, saltSize, p.t) == p.capacity
  {
    var p := PartsOf(msg, outputBits, h, saltSize, implicit, salt);
    var msg1 := Split(msg, p.capacity).0;
    var offset := OutputLength(outputBits) - h.size - saltSize - p.t - |msg1| - 1;
    EncodedIsBlock(msg, outputBits, h, saltSize, implicit, salt);
    EncodedTrailer(msg, outputBits, h, saltSize, implicit, salt);
    DataBlockLayout(offset, msg1, salt);
    RecoverBlock(h, p.db, p.hv, p.trailer);
    CapacityRecovered(outputBits, keyBits, h, saltSize, p.t);
  }

  /** The verifier derives the capacity the signer used. */
  lemma CapacityRecovered(outputBits: nat, keyBits: nat, h: Hash, saltSize: nat, t: nat)
    requires SizesMatch(outputBits, keyBits)
    requires OutputLength(outputBits) > h.size + saltSize + t
    ensures VerifierCapacity(keyBits, h, saltSize, t) == OutputLength(outputBits) - h.size - saltSize - t - 1
  {
  }

  lemma EncodedIsBlock(msg: seq<Byte>, outputBits: nat, h: Hash, saltSize: nat, implicit: bool, salt: seq<Byte>)
    requires |salt| == saltSize
    requires Encode(msg, outputBits, h, saltSize, implicit, salt).Success?
    ensures OutputLength(outputBits) > h.size + saltSize + TrailerLength(implicit)
    ensures var p := PartsOf(msg, outputBits, h, saltSize, implicit, salt);
      && p.db == DataBlock(OutputLength(outputBits) - h.size - saltSize - p.t - |Split(msg, p.capacity).0| - 1, Split(msg, p.capacity).0, salt)
      && Encode(msg, outputBits, h, saltSize, implicit, salt).value == Block(h, p.db, p.hv, p.trailer)
  {
  }

  lemma EncodedTrailer(msg: seq<Byte>, outputBits: nat, h: Hash, saltSize: nat, implicit: bool, salt: seq<Byte>)
    requires |salt| == saltSize
    requires Encode(msg, outputBits, h, saltSize, implicit, salt).Success?
    ensures OutputLength(outputBits) > h.size + saltSize + TrailerLength(implicit)
    ensures TrailerOf(Encode(msg, outputBits, h, saltSize, implicit, salt).value, h) == Some(PartsOf(msg, outputBits, h, saltSize, implicit, salt).t)
  {
    var em := Encode(msg, outputBits, h, saltSize, implicit, salt).value;
    assert |em| >= 2;
  }

  /** Round trip: a block the encoder produced for `msg` is accepted by the
      corrected verifier for `msg`. */
  lemma EncodeThenVerify(msg: seq<Byte>, outputBits: nat, h: Hash, saltSize: nat, implicit: bool, salt: seq<Byte>, keyBits: nat)
    requires |salt| == saltSize
    requires Encode(msg, outputBits, h, saltSize, implicit, salt).Success?
    requires SizesMatch(outputBits, keyBits)
    ensures Verify(Encode(msg, outputBits, h, saltSize, implicit, salt).value, msg, keyBits, h, saltSize)
  {
    DecodeEncoded(msg, outputBits, h, saltSize, implicit, salt, keyBits);
  }

  /** As written, the verifier accepts the block for `msg` with any raw
      message that has the same recoverable part: the part that is only
      hashed is never checked, because the hash field of the block is not
      compared with anything. */
  lemma UnrecoverablePartNotBound(msg: seq<Byte>, outputBits: nat, h: Hash, saltSize: nat, implicit: bool, salt: seq<Byte>, keyBits: nat, raw: seq<Byte>)
    requires |salt| == saltSize
    requires Encode(msg, outputBits, h, saltSize, implicit, salt).Success?
    requires SizesMatch(outputBits, keyBits)
    requires var c := PartsOf(msg, outputBits, h, saltSize, implicit, salt).capacity;
      |msg| > c && |raw| > c && raw[..c] == msg[..c]
    ensures VerifyAsWritten(Encode(msg, outputBits, h, saltSize, implicit, salt).value, raw, keyBits, h, saltSize) == Success(true)
  {
    DecodeEncoded(msg, outputBits, h, saltSize, implicit, salt, keyBits);
  }

  /** The corrected verifier accepts the block for `msg` with a raw message
      only if the raw message hashes to what the signer hashed. */
  lemma VerifyBindsSignedHash(msg: seq<Byte>, outputBits: nat, h: Hash, saltSize: nat, implicit: bool, salt: seq<Byte>, keyBits: nat, raw: seq<Byte>)
    requires |salt| == saltSize
    requires Encode(msg, outputBits, h, saltSize, implicit, salt).Success?
    requires SizesMatch(outputBits, keyBits)
    requires Verify(Encode(msg, outputBits, h, saltSize, implicit, salt).value, raw, keyBits, h, saltSize)
    ensures var c := PartsOf(msg, outputBits, h, saltSize, implicit, salt).capacity;
      SignedHash(h, raw, c, salt) == SignedHash(h, msg, c, salt)
  {
    DecodeEncoded(msg, outputBits, h, saltSize, implicit, salt, keyBits);
  }

  // -- the two schemes -----------------------------------------------------------

  /** DS2 is probabilistic with a salt of `saltSize` bytes; DS3 is
      deterministic, with no salt. */
  datatype Scheme = DS2(hash: Hash, implicit: bool, saltSize: nat) | DS3(hash: Hash, implicit: bool)

  /** The DS2 constructor without a salt size: the salt is as long as the
      hash output. */
  function MakeDS2(h: Hash, implicit: bool): (s: Scheme)
    ensures s.DS2? && s.hash == h && s.implicit == implicit
    ensures SaltSize(s) == h.size
  {
    DS2(h, implicit, h.size)
  }

  function SaltSize(s: Scheme): (n: nat)
    ensures s.DS3? ==> n == 0
    ensures s.DS2? ==> n == s.saltSize
  {
    if s.DS2? then s.saltSize else 0
  }

  /** The decimal digits of `n`. */
  function Decimal(n: nat): (r: string)
    ensures |r| >= 1
    ensures forall i :: 0 <= i < |r| ==> '0' <= r[i] <= '9'
  {
    var d := ['0' + (n % 10) as char];
    if n < 10 then d else Decimal(n / 10) + d
  }

  function Name(s: Scheme): (r: string)
  {
    var mode := if s.implicit then "imp" else "exp";
    match s
    case DS2(h, _, saltSize) => "ISO_9796_DS2(" + h.name + "," + mode + "," + Decimal(saltSize) + ")"
    case DS3(h, _) => "ISO_9796_DS3(" + h.name + "," + mode + ")"
  }

  /** The name tells the scheme and the trailer mode apart. */
  lemma NameShowsSchemeAndMode(s1: Scheme, s2: Scheme)
    requires s1.hash.name == s2.hash.name
    requires s1.DS2? == s2.DS2? && SaltSize(s1) == SaltSize(s2)
    ensures Name(s1) == Name(s2) <==> s1.implicit == s2.implicit
    ensures Name(s1)[..12] == if s1.DS2? then "ISO_9796_DS2" else "ISO_9796_DS3"
  {
    var k := 13 + |s1.hash.name| + 1;
    if s1.implicit != s2.implicit {
      assert Name(s1)[k] != Name(s2)[k];
    }
  }

  /** A signature operation: its scheme and the message bytes buffered so
      far. */
  datatype Emsa = Emsa(scheme: Scheme, buffer: seq<Byte>)

  /** `update(input, length)`. */
  function Update(e: Emsa, input: seq<Byte>): (r: Emsa)
    ensures r.scheme == e.scheme && r.buffer == e.buffer + input
  {
    e.(buffer := e.buffer + input)
  }

  /** `raw_data()`: the buffered bytes, and an emptied buffer. */
  function RawData(e: Emsa): (r: (seq<Byte>, Emsa))
    ensures r.0 == e.buffer && r.1 == Emsa(e.scheme, [])
  {
    (e.buffer, e.(buffer := []))
  }

  /** `clone()`: the same scheme with an empty buffer. */
  function Clone(e: Emsa): (r: Emsa)
    ensures r.scheme == e.scheme && r.buffer == []
  {
    Emsa(e.scheme, [])
  }

  function UpdateAll(e: Emsa, inputs: seq<seq<Byte>>): Emsa
    decreases |inputs|
  {
    if |inputs| == 0 then e else UpdateAll(Update(e, inputs[0]), inputs[1..])
  }

  function Concat(inputs: seq<seq<Byte>>): seq<Byte>
  {
    if |inputs| == 0 then [] else inputs[0] + Concat(inputs[1..])
  }

  /** `raw_data` returns everything passed to `update` since the last
      `raw_data`, in order, and leaves the buffer empty. */
  lemma {:induction false} RawDataReturnsAllUpdates(e: Emsa, inputs: seq<seq<Byte>>)
    ensures UpdateAll(e, inputs) == Emsa(e.scheme, e.buffer + Concat(inputs))
    ensures RawData(UpdateAll(Emsa(e.scheme, []), inputs)) == (Concat(inputs), Emsa(e.scheme, []))
    decreases |inputs|
  {
    if |inputs| > 0 {
      RawDataReturnsAllUpdates(Update(e, inputs[0]), inputs[1..]);
      assert e.buffer + inputs[0] + Concat(inputs[1..]) == e.buffer + Concat(inputs);
      RawDataReturnsAllUpdates(Emsa(e.scheme, []), inputs[1..]);
      RawDataReturnsAllUpdates(Update(Emsa(e.scheme, []), inputs[0]), inputs[1..]);
      assert [] + inputs[0] + Concat(inputs[1..]) == Concat(inputs);
    }
  }

  /** `encoding_of`: DS2 with its salt size, DS3 with none. */
  function EncodingOf(e: Emsa, msg: seq<Byte>, outputBits: nat, salt: seq<Byte>): (r: Result<seq<Byte>, EncodingError>)
    requires |salt| == SaltSize(e.scheme)
    ensures e.scheme.DS2? ==> r == Encode(msg, outputBits, e.scheme.hash, e.scheme.saltSize, e.scheme.implicit, salt)
    ensures e.scheme.DS3? ==> salt == [] && r == Encode(msg, outputBits, e.scheme.hash, 0, e.scheme.implicit, [])
  {
    Encode(msg, outputBits, e.scheme.hash, SaltSize(e.scheme), e.scheme.implicit, salt)
  }

  /** Round trip through the scheme object: whatever the scheme encodes for
      the data collected so far, the corrected verifier with the scheme's
      hash and salt size accepts for that data. */
  lemma EncodingOfThenVerify(e: Emsa, inputs: seq<seq<Byte>>, outputBits: nat, salt: seq<Byte>, keyBits: nat)
    requires |salt| == SaltSize(e.scheme)
    requires SizesMatch(outputBits, keyBits)
    ensures var msg := RawData(UpdateAll(e, inputs)).0;
      var r := EncodingOf(e, msg, outputBits, salt);
      r.Success? ==> Verify(r.value, msg, keyBits, e.scheme.hash, SaltSize(e.scheme))
  {
    var msg := RawData(UpdateAll(e, inputs)).0;
    if EncodingOf(e, msg, outputBits, salt).Success? {
      EncodeThenVerify(msg, outputBits, e.scheme.hash, SaltSize(e.scheme), e.scheme.implicit, salt, keyBits);
    }
  }
}
