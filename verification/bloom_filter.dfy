/** A Bloom filter over a fixed-size bit vector: keys are inserted by setting
    the bits at a chain of hash-derived positions, and queried by checking that
    all of those bits are set. */
module BloomFilterHW {
  import opened Bits

  /** The seeded hash the filter is built on: deterministic in (key, seed). */
  type Hash = (string, int) -> int

  datatype Option<T> = None | Some(value: T)

  // ---------------------------------------------------------------------------
  // The chained hash
  // ---------------------------------------------------------------------------

  /** How many hash values one insert or find derives: the first one, plus one
      more for each of 1 .. numHashes - 1 (none when numHashes <= 1). */
  function ProbeCount(numHashes: int): (n: nat)
    ensures n >= 1
  {
    if numHashes <= 1 then 1 else numHashes
  }

  /** The i-th hash value of `key`: seed 0 first, then each value seeds the next. */
  function NthHash(hash: Hash, key: string, i: nat): int
  {
    if i == 0 then hash(key, 0) else hash(key, NthHash(hash, key, i - 1))
  }

  /** The list of the first n chained hash values, grown one value at a time. */
  function Chain(hash: Hash, key: string, n: nat): (r: seq<int>)
    requires n >= 1
    ensures |r| == n
  {
    if n == 1 then [hash(key, 0)]
    else
      var front := Chain(hash, key, n - 1);
      front + [hash(key, front[n - 2])]
  }

  /** The chain starts at seed 0, each later value is seeded by the one before,
      and its i-th entry is NthHash(i). */
  lemma {:induction false} ChainShape(hash: Hash, key: string, n: nat)
    requires n >= 1
    ensures Chain(hash, key, n)[0] == hash(key, 0)
    ensures forall i :: 1 <= i < n ==> Chain(hash, key, n)[i] == hash(key, Chain(hash, key, n)[i - 1])
    ensures forall i :: 0 <= i < n ==> Chain(hash, key, n)[i] == NthHash(hash, key, i)
  {
    if n > 1 {
      ChainShape(hash, key, n - 1);
      assert Chain(hash, key, n)[..n - 1] == Chain(hash, key, n - 1);
    }
  }

  /** The bit positions probed for `key` in a vector of `bits` positions. */
  function ProbeIndices(hash: Hash, key: string, numHashes: int, bits: nat): (r: seq<nat>)
    requires bits >= 1
    ensures |r| == ProbeCount(numHashes)
    ensures InRange(r, bits)
    ensures forall j :: 0 <= j < |r| ==> r[j] == NthHash(hash, key, j) % bits
  {
    var c := Chain(hash, key, ProbeCount(numHashes));
    ChainShape(hash, key, ProbeCount(numHashes));
    seq(|c|, j requires 0 <= j < |c| => c[j] % bits)
  }

  // ---------------------------------------------------------------------------
  // The filter
  // ---------------------------------------------------------------------------

  class BloomFilter {
    const numKeys: int
    const numHashes: int
    const maxFalsePositive: real
    /** Size of the bit vector. */
    const bits: nat
    const hash: Hash
    /** The bit vector. */
    const b: array<Bit>
    /** Running count of bits that went from 0 to 1. */
    var bitsSet: int
    /** Every key inserted so far. */
    ghost var inserted: set<string>

    /** Probe positions of `key` in this filter. */
    function Probes(key: string): (r: seq<nat>)
      requires bits >= 1
      ensures |r| == ProbeCount(numHashes) && InRange(r, bits)
    {
      ProbeIndices(hash, key, numHashes, bits)
    }

    /** The object invariant: the counter is the number of 1 bits, and every
        inserted key has all of its probe positions set. */
    ghost predicate Valid()
      reads this, b
    {
      bits >= 1 && b.Length == bits &&
      bitsSet == CountOnes(b[..]) && 0 <= bitsSet <= bits &&
      Remembers(b[..], inserted)
    }

    /** Every key of `keys` has all of its probe positions set in `s`. */
    ghost predicate Remembers(s: seq<Bit>, keys: set<string>)
      requires bits >= 1 && |s| == bits
    {
      forall k :: k in keys ==> AllSet(s, Probes(k))
    }

    /** Setting more bits keeps every remembered key remembered. */
    lemma {:induction false} RemembersMarked(s: seq<Bit>, keys: set<string>, idx: seq<nat>)
      requires bits >= 1 && |s| == bits && InRange(idx, bits)
      requires Remembers(s, keys)
      ensures Remembers(Marked(s, idx), keys)
    {
      forall k | k in keys ensures AllSet(Marked(s, idx), Probes(k)) {
        MarkedKeepsAllSet(s, Probes(k), idx);
      }
    }

    /** A filter over an all-zero vector of `bits` positions. The size is given
        rather than derived from numKeys, numHashes and maxFalsePositive. */
    constructor (numKeys: int, numHashes: int, maxFalsePositive: real, bits: nat, hash: Hash)
      requires bits >= 1
      ensures Valid() && fresh(b)
      ensures this.numKeys == numKeys && this.numHashes == numHashes
      ensures this.maxFalsePositive == maxFalsePositive
      ensures this.bits == bits && this.hash == hash
      ensures forall i :: 0 <= i < bits ==> b[i] == 0
      ensures bitsSet == 0 && inserted == {}
    {
      this.numKeys := numKeys;
      this.numHashes := numHashes;
      this.maxFalsePositive := maxFalsePositive;
      bitsSet := 0;
      this.bits := bits;
      this.hash := hash;
      b := new Bit[bits](_ => 0);
      inserted := {};
      new;
      CountOnesZero(b[..]);
    }

    /** The chained hash values of `key`, built as insert and find both build them. */
    method Hashes(key: string) returns (hashed: seq<int>)
      ensures hashed == Chain(hash, key, ProbeCount(numHashes))
    {
      hashed := [hash(key, 0)];
      var i := 1;
      while i < numHashes
        invariant 1 <= i <= ProbeCount(numHashes)
        invariant hashed == Chain(hash, key, i)
      {
        hashed := hashed + [hash(key, hashed[i - 1])];
        i := i + 1;
      }
    }

    /** Sets every probe position of `key` to 1, counting each 0-to-1 change once. */
    method Insert(key: string)
      requires Valid()
      modifies this, b
      ensures Valid()
      ensures b[..] == Marked(old(b[..]), Probes(key))
      ensures AllSet(b[..], Probes(key))
      ensures forall i :: 0 <= i < bits && old(b[i]) == 1 ==> b[i] == 1
      ensures old(bitsSet) <= bitsSet <= bits
      ensures old(AllSet(b[..], Probes(key))) ==> b[..] == old(b[..]) && bitsSet == old(bitsSet)
      ensures inserted == old(inserted) + {key}
    {
      var hashed := Hashes(key);
      ghost var before := b[..];
      ghost var idx := Probes(key);
      for j := 0 to |hashed|
        invariant b[..] == Marked(before, idx[..j])
        invariant bitsSet == CountOnes(b[..])
        invariant inserted == old(inserted)
      {
        var element := hashed[j];
        CountOnesSet(b[..], element % bits);
        if b[element % bits] != 1 {
          bitsSet := bitsSet + 1;
        }
        b[element % bits] := 1;
        assert idx[..j + 1][..j] == idx[..j];
      }
      assert idx[..|hashed|] == idx;
      MarkedFacts(before, idx);
      RemembersMarked(before, inserted, idx);
      inserted := inserted + {key};
    }

    /** False as soon as a probe position of `key` holds 0, true otherwise. */
    method Find(key: string) returns (found: bool)
      requires Valid()
      ensures found <==> AllSet(b[..], Probes(key))
      ensures !found <==> exists j :: 0 <= j < |Probes(key)| && b[Probes(key)[j]] == 0
      ensures key in inserted ==> found
    {
      var hashed := Hashes(key);
      ghost var idx := Probes(key);
      assert forall m :: 0 <= m < |hashed| ==> idx[m] == hashed[m] % bits;
      for j := 0 to |hashed|
        invariant forall m :: 0 <= m < j ==> b[idx[m]] == 1
      {
        var element := hashed[j];
        if b[element % bits] == 0 {
          assert b[idx[j]] == 0;
          return false;
        }
      }
      return true;
    }

    /** The running count of set bits. */
    function NumBitsSet(): (n: int)
      reads this, b
      requires Valid()
      ensures n == CountOnes(b[..])
      ensures 0 <= n <= bits
    {
      bitsSet
    }

    /** Occupancy-based estimate of the false-positive rate, on exact reals:
        (1 - phi) ^ numHashes where phi is the fraction of bits still 0. None
        when a zero base is raised to a negative power. */
    function FalsePositiveRate(): (p: Option<real>)
      reads this, b
      requires Valid()
      ensures p.None? <==> numHashes < 0 && bitsSet == 0
      ensures p.Some? && numHashes >= 0 ==> 0.0 <= p.value <= 1.0
      ensures p.Some? && numHashes >= 1 && bitsSet == 0 ==> p.value == 0.0
      ensures p.Some? && bitsSet == bits ==> p.value == 1.0
      ensures numHashes >= 0 ==> p == Some(Pow(bitsSet as real / bits as real, numHashes))
    {
      var phi := (bits - bitsSet) as real / bits as real;
      OccupiedFraction(bits as real, bitsSet as real);
      IntPow(1.0 - phi, numHashes)
    }
  }

  // ---------------------------------------------------------------------------
  // Powers, for the false-positive estimate
  // ---------------------------------------------------------------------------

  /** With B positions of which S are set, 1 - (B - S) / B is the fraction S / B,
      which lies in [0, 1] when S does. */
  lemma OccupiedFraction(B: real, S: real)
    requires B > 0.0
    ensures 1.0 - (B - S) / B == S / B
    ensures 0.0 <= S <= B ==> 0.0 <= S / B <= 1.0
  {
    assert (B - S) / B == B / B - S / B;
  }

  function Pow(x: real, n: nat): real
  {
    if n == 0 then 1.0 else x * Pow(x, n - 1)
  }

  /** x raised to an integer power; None for a zero base and a negative exponent. */
  function IntPow(x: real, n: int): (r: Option<real>)
    ensures r.None? <==> n < 0 && x == 0.0
    ensures r.Some? && n >= 0 && 0.0 <= x <= 1.0 ==> 0.0 <= r.value <= 1.0
    ensures r.Some? && n >= 1 && x == 0.0 ==> r.value == 0.0
    ensures r.Some? && x == 1.0 ==> r.value == 1.0
  {
    if n >= 0 then
      PowUnit(x, n);
      Some(Pow(x, n))
    else if x == 0.0 then None
    else
      PowUnit(x, -n);
      Some(1.0 / Pow(x, -n))
  }

  /** Powers of a number in [0, 1] stay in [0, 1]; 0 and 1 are fixed points. */
  lemma {:induction false} PowUnit(x: real, n: nat)
    ensures 0.0 <= x <= 1.0 ==> 0.0 <= Pow(x, n) <= 1.0
    ensures n >= 1 && x == 0.0 ==> Pow(x, n) == 0.0
    ensures x == 1.0 ==> Pow(x, n) == 1.0
    ensures x != 0.0 ==> Pow(x, n) != 0.0
  {
    if n > 0 {
      PowUnit(x, n - 1);
      if 0.0 <= x <= 1.0 {
        assert x * Pow(x, n - 1) <= 1.0 * Pow(x, n - 1);
      }
    }
  }
}
