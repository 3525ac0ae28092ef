/** The bit vector behind a Bloom filter, seen as a value: a sequence of bits,
    the number of bits that are 1, and the vector obtained by setting a list of
    positions to 1 one after the other. */
module Bits {

  /** One position of the bit vector. */
  newtype Bit = x: int | 0 <= x <= 1

  /** Every index of `idx` addresses a position of a vector of length `n`. */
  predicate InRange(idx: seq<nat>, n: nat)
  {
    forall j :: 0 <= j < |idx| ==> idx[j] < n
  }

  /** The number of positions of `s` that hold 1. */
  function CountOnes(s: seq<Bit>): nat
  {
    if s == [] then 0 else (if s[0] == 1 then 1 else 0) + CountOnes(s[1..])
  }

  /** The vector `s` after setting the positions `idx` to 1, in order. */
  function Marked(s: seq<Bit>, idx: seq<nat>): (r: seq<Bit>)
    requires InRange(idx, |s|)
    ensures |r| == |s|
    decreases |idx|
  {
    if idx == [] then s
    else Marked(s, idx[..|idx| - 1])[idx[|idx| - 1] := 1]
  }

  /** Every position listed in `idx` holds 1 in `s`. */
  predicate AllSet(s: seq<Bit>, idx: seq<nat>)
    requires InRange(idx, |s|)
  {
    forall j :: 0 <= j < |idx| ==> s[idx[j]] == 1
  }

  /** Pointwise meaning of Marked: a listed position is 1, any other keeps its value. */
  lemma {:induction false} MarkedAt(s: seq<Bit>, idx: seq<nat>, i: nat)
    requires InRange(idx, |s|)
    requires i < |s|
    ensures Marked(s, idx)[i] == if i in idx then 1 else s[i]
    decreases |idx|
  {
    if idx != [] {
      var front := idx[..|idx| - 1];
      MarkedAt(s, front, i);
      assert idx == front + [idx[|idx| - 1]];
    }
  }

  /** After marking, every marked position holds 1. */
  lemma {:induction false} MarkedAllSet(s: seq<Bit>, idx: seq<nat>)
    requires InRange(idx, |s|)
    ensures AllSet(Marked(s, idx), idx)
  {
    forall j | 0 <= j < |idx| ensures Marked(s, idx)[idx[j]] == 1 {
      MarkedAt(s, idx, idx[j]);
    }
  }

  /** Marking never clears a bit: a 1 stays a 1. */
  lemma {:induction false} MarkedMonotone(s: seq<Bit>, idx: seq<nat>, i: nat)
    requires InRange(idx, |s|)
    requires i < |s| && s[i] == 1
    ensures Marked(s, idx)[i] == 1
  {
    MarkedAt(s, idx, i);
  }

  /** Positions already all 1 stay all 1 after any further marking. */
  lemma {:induction false} MarkedKeepsAllSet(s: seq<Bit>, idx: seq<nat>, other: seq<nat>)
    requires InRange(idx, |s|) && InRange(other, |s|)
    requires AllSet(s, idx)
    ensures AllSet(Marked(s, other), idx)
  {
    forall j | 0 <= j < |idx| ensures Marked(s, other)[idx[j]] == 1 {
      MarkedMonotone(s, other, idx[j]);
    }
  }

  /** Marking positions that are already 1 changes nothing. */
  lemma {:induction false} MarkedIdempotent(s: seq<Bit>, idx: seq<nat>)
    requires InRange(idx, |s|)
    requires AllSet(s, idx)
    ensures Marked(s, idx) == s
  {
    forall i | 0 <= i < |s| ensures Marked(s, idx)[i] == s[i] {
      MarkedAt(s, idx, i);
      if i in idx {
        var j :| 0 <= j < |idx| && idx[j] == i;
      }
    }
  }

  /** A vector has at most as many 1 bits as positions. */
  lemma {:induction false} CountOnesBound(s: seq<Bit>)
    ensures CountOnes(s) <= |s|
  {
    if s != [] {
      CountOnesBound(s[1..]);
    }
  }

  /** An all-zero vector has no 1 bits. */
  lemma {:induction false} CountOnesZero(s: seq<Bit>)
    requires forall i :: 0 <= i < |s| ==> s[i] == 0
    ensures CountOnes(s) == 0
  {
    if s != [] {
      CountOnesZero(s[1..]);
    }
  }

  /** Setting one position to 1 adds one to the count exactly when it was 0. */
  lemma {:induction false} CountOnesSet(s: seq<Bit>, i: nat)
    requires i < |s|
    ensures CountOnes(s[i := 1]) == CountOnes(s) + (if s[i] == 0 then 1 else 0)
  {
    if i == 0 {
      assert s[i := 1][1..] == s[1..];
    } else {
      assert s[i := 1][1..] == s[1..][i - 1 := 1];
      CountOnesSet(s[1..], i - 1);
    }
  }

  /** Marking never lowers the count of 1 bits, and never lifts it past the length. */
  lemma {:induction false} CountOnesMarked(s: seq<Bit>, idx: seq<nat>)
    requires InRange(idx, |s|)
    ensures CountOnes(s) <= CountOnes(Marked(s, idx)) <= |s|
    decreases |idx|
  {
    CountOnesBound(Marked(s, idx));
    if idx != [] {
      var front := idx[..|idx| - 1];
      CountOnesMarked(s, front);
      CountOnesSet(Marked(s, front), idx[|idx| - 1]);
    }
  }

  /** Everything the filter's insert relies on about marking, in one place. */
  lemma MarkedFacts(s: seq<Bit>, idx: seq<nat>)
    requires InRange(idx, |s|)
    ensures AllSet(Marked(s, idx), idx)
    ensures forall i :: 0 <= i < |s| && s[i] == 1 ==> Marked(s, idx)[i] == 1
    ensures CountOnes(s) <= CountOnes(Marked(s, idx)) <= |s|
    ensures AllSet(s, idx) ==> Marked(s, idx) == s
  {
    MarkedAllSet(s, idx);
    CountOnesMarked(s, idx);
    forall i | 0 <= i < |s| && s[i] == 1 ensures Marked(s, idx)[i] == 1 {
      MarkedMonotone(s, idx, i);
    }
    if AllSet(s, idx) {
      MarkedIdempotent(s, idx);
    }
  }
}
