/** Hash identifiers: the DigestInfo prefixes of PKCS #1 (RFC 3447 section
    9.2), which precede a digest in an EMSA-PKCS1-v1_5 encoding, and the
    one-byte hash identifiers of IEEE 1363. */
module HashId {
  import opened Wrappers
  import opened Octets

  const Md5PkcsId: seq<Byte> :=
    [0x30, 0x20, 0x30, 0x0C, 0x06, 0x08, 0x2A, 0x86, 0x48, 0x86, 0xF7, 0x0D, 0x02, 0x05, 0x05, 0x00, 0x04, 0x10]
  const Ripemd160PkcsId: seq<Byte> :=
    [0x30, 0x21, 0x30, 0x09, 0x06, 0x05, 0x2B, 0x24, 0x03, 0x02, 0x01, 0x05, 0x00, 0x04, 0x14]
  const Sha512_256PkcsId: seq<Byte> :=
    [0x30, 0x31, 0x30, 0x0D, 0x06, 0x09, 0x60, 0x86, 0x48, 0x01, 0x65, 0x03, 0x04, 0x02, 0x06, 0x05, 0x00, 0x04, 0x20]
  const Sha3_224PkcsId: seq<Byte> :=
    [0x30, 0x2D, 0x30, 0x0D, 0x06, 0x09, 0x60, 0x86, 0x48, 0x01, 0x65, 0x03, 0x04, 0x02, 0x07, 0x05, 0x00, 0x04, 0x1C]
  const Sha3_256PkcsId: seq<Byte> :=
    [0x30, 0x31, 0x30, 0x0D, 0x06, 0x09, 0x60, 0x86, 0x48, 0x01, 0x65, 0x03, 0x04, 0x02, 0x08, 0x05, 0x00, 0x04, 0x20]
  const Sha3_384PkcsId: seq<Byte> :=
    [0x30, 0x41, 0x30, 0x0D, 0x06, 0x09, 0x60, 0x86, 0x48, 0x01, 0x65, 0x03, 0x04, 0x02, 0x09, 0x05, 0x00, 0x04, 0x30]
  const Sha3_512PkcsId: seq<Byte> :=
    [0x30, 0x51, 0x30, 0x0D, 0x06, 0x09, 0x60, 0x86, 0x48, 0x01, 0x65, 0x03, 0x04, 0x02, 0x0A, 0x05, 0x00, 0x04, 0x40]
  const Sm3PkcsId: seq<Byte> :=
    [0x30, 0x30, 0x30, 0x0C, 0x06, 0x08, 0x2A, 0x81, 0x1C, 0xCF, 0x55, 0x01, 0x83, 0x11, 0x05, 0x00, 0x04, 0x20]
  const TigerPkcsId: seq<Byte> :=
    [0x30, 0x29, 0x30, 0x0D, 0x06, 0x09, 0x2B, 0x06, 0x01, 0x04, 0x01, 0xDA, 0x47, 0x0C, 0x02, 0x05, 0x00, 0x04, 0x18]

  /** The combined MD5 and SHA-1 hash of TLS signatures, which has no
      prefix. */
  const ParallelMd5Sha1 := "Parallel(MD5,SHA-160)"

  /** The output length in bytes of each hash with a PKCS #1 prefix. */
  function DigestLength(name: string): (r: Option<nat>)
  {
    if name == "MD5" then Some(16)
    else if name == "RIPEMD-160" then Some(20)
    else if name == "SHA-512-256" then Some(32)
    else if name == "SHA-3(224)" then Some(28)
    else if name == "SHA-3(256)" then Some(32)
    else if name == "SHA-3(384)" then Some(48)
    else if name == "SHA-3(512)" then Some(64)
    else if name == "SM3" then Some(32)
    else if name == "Tiger(24,3)" then Some(24)
    else None
  }

  datatype HashIdError = NoPkcsIdentifier(name: string)

  /** `pkcs_hash_id(name)`. */
  function PkcsHashId(name: string): (r: Result<seq<Byte>, HashIdError>)
    ensures name == ParallelMd5Sha1 ==> r == Success([])
    ensures r.Failure? <==> name != ParallelMd5Sha1 && DigestLength(name).None?
    ensures r.Failure? ==> r.error == NoPkcsIdentifier(name)
  {
    if name == ParallelMd5Sha1 then Success([])
    else if name == "MD5" then Success(Md5PkcsId)
    else if name == "RIPEMD-160" then Success(Ripemd160PkcsId)
    else if name == "SHA-512-256" then Success(Sha512_256PkcsId)
    else if name == "SHA-3(224)" then Success(Sha3_224PkcsId)
    else if name == "SHA-3(256)" then Success(Sha3_256PkcsId)
    else if name == "SHA-3(384)" then Success(Sha3_384PkcsId)
    else if name == "SHA-3(512)" then Success(Sha3_512PkcsId)
    else if name == "SM3" then Success(Sm3PkcsId)
    else if name == "Tiger(24,3)" then Success(TigerPkcsId)
    else Failure(NoPkcsIdentifier(name))
  }

  /** A DER DigestInfo header for a digest of `digestLen` bytes: an outer
      SEQUENCE whose length covers the rest of the header and the digest, an
      AlgorithmIdentifier SEQUENCE holding an OID and a NULL parameter, and
      the OCTET STRING tag and length of the digest. */
  predicate DigestInfoPrefix(p: seq<Byte>, digestLen: nat) {
    && 10 <= |p|
    && digestLen < 128 && |p| + digestLen - 2 < 128
    && p[0] == 0x30 && p[1] as int == |p| + digestLen - 2
    && p[2] == 0x30 && p[3] as int == |p| - 6
    && p[4] == 0x06 && p[5] as int == |p| - 10
    && p[|p| - 4..] == [0x05, 0x00, 0x04, digestLen as Byte]
  }

  /** Every prefix is a well-formed DigestInfo header for its hash's
      digest length: it ends with 0x04 and the digest length, and its second
      byte is the outer SEQUENCE length. */
  lemma PkcsIdsAreDigestInfoPrefixes(name: string)
    requires DigestLength(name).Some?
    ensures PkcsHashId(name).Success?
    ensures DigestInfoPrefix(PkcsHashId(name).value, DigestLength(name).value)
  {
    if name == "MD5" {
      Md5PkcsIdIsPrefix(name);
    } else if name == "RIPEMD-160" {
      Ripemd160PkcsIdIsPrefix(name);
    } else if name == "SHA-512-256" {
      Sha512_256PkcsIdIsPrefix(name);
    } else if name == "SHA-3(224)" {
      Sha3_224PkcsIdIsPrefix(name);
    } else if name == "SHA-3(256)" {
      Sha3_256PkcsIdIsPrefix(name);
    } else if name == "SHA-3(384)" {
      Sha3_384PkcsIdIsPrefix(name);
    } else if name == "SHA-3(512)" {
      Sha3_512PkcsIdIsPrefix(name);
    } else if name == "SM3" {
      Sm3PkcsIdIsPrefix(name);
    } else {
      TigerPkcsIdIsPrefix(name);
    }
  }

  lemma Md5PkcsIdIsPrefix(name: string)
    requires name == "MD5"
    ensures DigestLength(name) == Some(16) && PkcsHashId(name) == Success(Md5PkcsId)
    ensures DigestInfoPrefix(Md5PkcsId, 16)
  {
  }

  lemma Ripemd160PkcsIdIsPrefix(name: string)
    requires name == "RIPEMD-160"
    ensures DigestLength(name) == Some(20) && PkcsHashId(name) == Success(Ripemd160PkcsId)
    ensures DigestInfoPrefix(Ripemd160PkcsId, 20)
  {
  }

  lemma Sha512_256PkcsIdIsPrefix(name: string)
    requires name == "SHA-512-256"
    ensures DigestLength(name) == Some(32) && PkcsHashId(name) == Success(Sha512_256PkcsId)
    ensures DigestInfoPrefix(Sha512_256PkcsId, 32)
  {
  }

  lemma Sha3_224PkcsIdIsPrefix(name: string)
    requires name == "SHA-3(224)"
    ensures DigestLength(name) == Some(28) && PkcsHashId(name) == Success(Sha3_224PkcsId)
    ensures DigestInfoPrefix(Sha3_224PkcsId, 28)
  {
  }

  lemma Sha3_256PkcsIdIsPrefix(name: string)
    requires name == "SHA-3(256)"
    ensures DigestLength(name) == Some(32) && PkcsHashId(name) == Success(Sha3_256PkcsId)
    ensures DigestInfoPrefix(Sha3_256PkcsId, 32)
  {
  }

  lemma Sha3_384PkcsIdIsPrefix(name: string)
    requires name == "SHA-3(384)"
    ensures DigestLength(name) == Some(48) && PkcsHashId(name) == Success(Sha3_384PkcsId)
    ensures DigestInfoPrefix(Sha3_384PkcsId, 48)
  {
  }

  lemma Sha3_512PkcsIdIsPrefix(name: string)
    requires name == "SHA-3(512)"
    ensures DigestLength(name) == Some(64) && PkcsHashId(name) == Success(Sha3_512PkcsId)
    ensures DigestInfoPrefix(Sha3_512PkcsId, 64)
  {
  }

  lemma Sm3PkcsIdIsPrefix(name: string)
    requires name == "SM3"
    ensures DigestLength(name) == Some(32) && PkcsHashId(name) == Success(Sm3PkcsId)
    ensures DigestInfoPrefix(Sm3PkcsId, 32)
  {
  }

  lemma TigerPkcsIdIsPrefix(name: string)
    requires DigestLength(name).Some? && name != "MD5" && name != "RIPEMD-160" && name != "SHA-512-256" && name != "SHA-3(224)" && name != "SHA-3(256)" && name != "SHA-3(384)" && name != "SHA-3(512)" && name != "SM3"
    ensures DigestLength(name) == Some(24) && PkcsHashId(name) == Success(TigerPkcsId)
    ensures DigestInfoPrefix(TigerPkcsId, 24)
  {
  }

  /** `ieee1363_hash_id(name)`. */
  function Ieee1363HashId(name: string): (r: Byte)
    ensures r != 0 <==> name == "RIPEMD-160" || name == "Whirlpool"
    ensures name == "RIPEMD-160" ==> r == 0x31
    ensures name == "Whirlpool" ==> r == 0x37
  {
    if name == "RIPEMD-160" then 0x31
    else if name == "Whirlpool" then 0x37
    else 0
  }
}
