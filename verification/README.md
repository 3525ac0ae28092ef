# Bloom filter over a fixed-size bit vector

A model of the `BloomFilter` class of `BloomFilterHW.py`. The filter owns a bit
vector of `bits` positions and a counter `bitsSet`. `insert(key)` derives a
chain of hash values. The first is `BitHash(key, 0)`, and each later one is
`BitHash(key, previous)`. For every value `h` it sets bit `h % bits` to 1, and it
increments the counter only when that bit was still 0. `find(key)` walks the same
chain and returns `False` at the first 0 bit, and `True` otherwise.
`numBitsSet()` returns the counter. `falsePositiveRate()` estimates the current
false-positive probability from the share of bits that are set.

Two modules:

- `Bits` (`bits.dfy`) describes the bit vector as a value. A `Bit` is 0 or 1.
  `CountOnes` counts the 1 bits. `Marked(s, idx)` is the vector after the
  positions `idx` are set to 1 one after the other, which is what the write loop
  of `insert` does. The lemmas give its pointwise meaning, and show that bits are
  never cleared, that re-marking is idempotent, and how marking one position
  changes the count.
- `BloomFilterHW` (`bloom_filter.dfy`) holds the rest:
  - the hash chain: `NthHash` is a direct reference definition, and `Chain` is
    the list grown one value at a time;
  - the probe positions, `ProbeIndices`;
  - the class `BloomFilter`, with the bit vector as an `array<Bit>` and the
    counter as a mutable field;
  - the false-positive estimate, computed on exact reals.

The class keeps a ghost set `inserted` of every key inserted so far. Its
invariant `Valid()` states three things:

- `bitsSet` is the number of 1 bits;
- `0 <= bitsSet <= bits`;
- every inserted key has all of its probe positions set.

`Insert` preserves this invariant. `Find` does not modify anything. Together they
give "no false negatives": after any sequence of calls, `Find` returns true for
every key that was inserted.

Parameters instead of collaborators:

- `BitHash` becomes the constructor parameter `hash: (string, int) -> int`, a
  deterministic total function stored in the filter.
- The vector size `bits` is a constructor parameter with `bits >= 1`. It is not
  computed by the sizing formula.
- `BitVector` becomes a Dafny `array<Bit>` created all zero.

The source performs no explicit argument checks. Its size computation
`__bitsNeeded` (BloomFilterHW.py:9-19) does fail for some hash counts:

- `numHashes == 0` raises `ZeroDivisionError` at `1/numHashes` (line 13);
- a negative `numHashes` with a rate in (0, 1) makes `phi` negative. With
  `numKeys >= 2`, `phi ** (1/numKeys)` is a complex number and `round` fails
  on it (lines 16-19). With `numKeys == 1`, the size comes out at most 0: a
  size of 0 makes insert and find fail on `% 0`, and what a negative size
  does is up to `BitVector`, which is not part of this model.

So a filter of the source whose vector has at least one bit always has
`numHashes >= 1`.
The insert and find code itself makes exactly one probe for any
`numHashes <= 1`, because `range(1, numHashes)` is empty (`ProbeCount`). The
model describes that code for every integer `numHashes`.

## Model

| member | source | states |
|---|---|---|
| `BloomFilterHW.ProbeCount` | BloomFilterHW.py:52-56 | the chain has at least one value even when numHashes <= 1 |
| `BloomFilterHW.Chain` | BloomFilterHW.py:49-60 | the hash list built for n hashes has exactly n values |
| `BloomFilterHW.ChainShape` | BloomFilterHW.py:52-60 | entry 0 is hash(key, 0); each entry i >= 1 is hash(key, entry i-1); entry i equals the independently defined NthHash(i) |
| `BloomFilterHW.ProbeIndices` | BloomFilterHW.py:63-69 | there are max(1, numHashes) probe positions; each is below bits; position j is NthHash(j) % bits |
| `BloomFilterHW.BloomFilter.Probes` | BloomFilterHW.py:100-103 | the positions probed by one filter have max(1, numHashes) entries, all inside the vector |
| `BloomFilterHW.BloomFilter.constructor` | BloomFilterHW.py:25-42 | stores the configuration; the vector has `bits` zero bits, the counter is 0, no key has been inserted, and the invariant holds |
| `BloomFilterHW.BloomFilter.Hashes` | BloomFilterHW.py:86-97 | the loop that insert and find both run builds exactly Chain(key, max(1, numHashes)), so both compute the same sequence |
| `BloomFilterHW.BloomFilter.Insert` | BloomFilterHW.py:45-78 | the new vector is the old one with the key's probe positions set to 1 and every other bit unchanged; the counter still equals the number of 1 bits and lies in [old counter, bits]; no bit is cleared; re-inserting a key whose bits are all set leaves vector and counter unchanged; the key joins the inserted keys and every earlier key stays fully set |
| `BloomFilterHW.BloomFilter.RemembersMarked` | BloomFilterHW.py:76-78 | setting more bits never makes an inserted key lose one of its probe bits |
| `BloomFilterHW.BloomFilter.Find` | BloomFilterHW.py:84-111 | returns false exactly when some probe position holds 0 and true when all hold 1; changes nothing; returns true for every inserted key (no false negatives) |
| `BloomFilterHW.BloomFilter.NumBitsSet` | BloomFilterHW.py:128-131 | returns the number of 1 bits in the vector, which lies in [0, bits]; reads only |
| `BloomFilterHW.BloomFilter.FalsePositiveRate` | BloomFilterHW.py:113-125 | (1 - phi) ^ numHashes with phi the share of 0 bits, which for numHashes >= 0 is (bitsSet / bits) ^ numHashes: undefined exactly for a zero base and a negative exponent; in [0, 1] for numHashes >= 0; 0 when nothing is set and numHashes >= 1; 1 when every bit is set |
| `BloomFilterHW.OccupiedFraction` | BloomFilterHW.py:119-124 | 1 - (bits - bitsSet) / bits is the set fraction bitsSet / bits, and it lies in [0, 1] |
| `BloomFilterHW.IntPow` | BloomFilterHW.py:124 | a power with an integer exponent fails exactly for base 0 and a negative exponent; for a non-negative exponent it stays in [0, 1] when the base is in [0, 1]; a positive power of 0 is 0; every power of 1 is 1 |
| `BloomFilterHW.PowUnit` | BloomFilterHW.py:124 | natural powers of a base in [0, 1] stay in [0, 1]; a positive power of 0 is 0; every power of 1 is 1; every power of a non-zero base is non-zero |
| `Bits.Marked` | BloomFilterHW.py:63-78 | setting a list of positions keeps the vector's length |
| `Bits.MarkedAt` | BloomFilterHW.py:63-78 | after marking, a listed position holds 1 and every other position keeps its old bit |
| `Bits.MarkedAllSet` | BloomFilterHW.py:76-78 | after marking, every marked position holds 1 |
| `Bits.MarkedMonotone` | BloomFilterHW.py:76-78 | marking never clears a bit |
| `Bits.MarkedKeepsAllSet` | BloomFilterHW.py:100-111 | positions that were all 1 stay all 1 after any further marking |
| `Bits.MarkedIdempotent` | BloomFilterHW.py:69-78 | marking positions that are already all 1 leaves the vector unchanged |
| `Bits.CountOnesBound` | BloomFilterHW.py:128-131 | a vector has at most as many 1 bits as positions |
| `Bits.CountOnesZero` | BloomFilterHW.py:34-42 | the all-zero vector built at construction has no 1 bits, which matches the counter's initial 0 |
| `Bits.CountOnesSet` | BloomFilterHW.py:69-78 | setting one position to 1 adds exactly one 1 bit when it was 0 and none when it was 1, as the counter's update does |
| `Bits.CountOnesMarked` | BloomFilterHW.py:69-78 | marking never lowers the number of 1 bits and never lifts it past the length |

## Left out

- `__bitsNeeded` (BloomFilterHW.py:9-19) uses floating-point fractional powers and `round`. The model takes `bits >= 1` as a constructor argument instead, and stores `numKeys` and `maxFalsePositive` without using them.
- `BloomFilterHW.BloomFilter.constructor` takes `bits >= 1` as a parameter, so it also accepts `numHashes <= 0`. The source cannot build a filter with at least one bit from such a value, because the size computation either raises or yields a size <= 0. For those values the model describes only what the insert, find and estimator code would do.
- `BloomFilterHW.BloomFilter.FalsePositiveRate`: it is computed on exact reals, not IEEE doubles, so rounding is not modelled. Python's `ZeroDivisionError` for `0.0` raised to a negative power is modelled as `None`.
- `BitHash` and `BitVector` are modules that are not part of this model. The hash is a total function `(string, int) -> int` given to the constructor, so its width and distribution are not modelled. The vector is an `array<Bit>` of fixed length.
- `__main` (BloomFilterHW.py:134-206) is a demonstration driver. It reads a word list, prints, and counts false positives empirically, so it is left out.
- Keys are strings. Other key types accepted by `BitHash` are not modelled.
- Concurrency is not modelled. The source is single-threaded.
