/** Deterministic vote identity for Senate votes (packages/etl/src/lib/hash.ts).
    The MD5 digest is a parameter: any function from text to a 128-bit number.
    Everything proved here holds for every such function, so it holds for MD5. */
module Hash {
  import opened Strings

  /** A 128-bit digest read as an unsigned integer (`BigInt("0x" + hex)`). */
  type Digest = d: nat | d < 0x1_0000_0000_0000_0000_0000_0000_0000_0000

  /** Characters of the vote subject that enter the key. */
  const SubjectLimit: nat := 50
  /** Lower end of the synthesised band. */
  const IdBase: nat := 100_000_000
  /** Width of the synthesised band. */
  const IdSpan: nat := 900_000_000
  /** Bound the Chamber of Deputies' native vote ids stay under. */
  const NativeIdBound: nat := 100_000

  /** The text that is hashed: `${boletin}-${fecha}-${tema.substring(0, 50)}`,
      with no change of case or white space. */
  function KeyText(boletin: string, fecha: string, tema: string): (k: string)
    ensures |k| == |boletin| + |fecha| + 2 + |Take(tema, SubjectLimit)|
    ensures k[..|boletin|] == boletin
    ensures k[|boletin|] == '-' && k[|boletin| + 1 + |fecha|] == '-'
    ensures k[|boletin| + 1..|boletin| + 1 + |fecha|] == fecha
    ensures k[|boletin| + |fecha| + 2..] == Take(tema, SubjectLimit)
  {
    boletin + "-" + fecha + "-" + Take(tema, SubjectLimit)
  }

  /** `generateVotacionId(boletin, fecha, tema)`: the band number congruent to
      the digest of the key text. */
  function GenerateVotacionId(md5: string -> Digest, boletin: string, fecha: string, tema: string): (id: nat)
    ensures IdBase <= id <= 999_999_999
    ensures (id - IdBase) % IdSpan == md5(KeyText(boletin, fecha, tema)) % IdSpan
  {
    IdBase + md5(KeyText(boletin, fecha, tema)) % IdSpan
  }

  /** Every synthesised id is above every native Chamber id, so the two id
      spaces written to the same vote table cannot meet. */
  lemma IdsDisjointFromNative(md5: string -> Digest, boletin: string, fecha: string, tema: string, nativeId: int)
    requires nativeId < NativeIdBound
    ensures GenerateVotacionId(md5, boletin, fecha, tema) != nativeId
    ensures GenerateVotacionId(md5, boletin, fecha, tema) > nativeId
  {
  }

  /** Only the first 50 characters of the subject matter. */
  lemma SubjectPrefixDetermines(md5: string -> Digest, boletin: string, fecha: string, t1: string, t2: string)
    requires Take(t1, SubjectLimit) == Take(t2, SubjectLimit)
    ensures GenerateVotacionId(md5, boletin, fecha, t1) == GenerateVotacionId(md5, boletin, fecha, t2)
  {
  }

  /** Truncating the subject before the call, as the Senate extractor does,
      gives the same id. */
  lemma PreTruncationHarmless(md5: string -> Digest, boletin: string, fecha: string, tema: string)
    ensures GenerateVotacionId(md5, boletin, fecha, Take(tema, SubjectLimit))
         == GenerateVotacionId(md5, boletin, fecha, tema)
  {
    TakeIdempotent(tema, SubjectLimit);
  }

  /** The id depends on the key text alone: triples that print to the same key
      text share an id, whatever their split into parts. */
  lemma IdDependsOnKeyText(md5: string -> Digest, b1: string, f1: string, t1: string, b2: string, f2: string, t2: string)
    requires KeyText(b1, f1, t1) == KeyText(b2, f2, t2)
    ensures GenerateVotacionId(md5, b1, f1, t1) == GenerateVotacionId(md5, b2, f2, t2)
  {
  }

  /** The top of the band is reachable: the range is closed at 999999999. */
  lemma TopOfBandReachable(boletin: string, fecha: string, tema: string)
    ensures GenerateVotacionId(_ => 899_999_999, boletin, fecha, tema) == 999_999_999
  {
  }
}
