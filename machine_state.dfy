/**
 * Bit sets as the JDK's BitSet presents them (the set of indices whose bit
 * is set, compared by content whatever the backing length), and the machine
 * state snapshot built on one.
 */
module BitSets {
  import opened Gdl

  type Bits = set<nat>

  /** The set bits of a vector. */
  function BitsOf(v: seq<bool>): (b: Bits)
    ensures forall i: nat :: i in b <==> i < |v| && v[i]
  {
    set i | 0 <= i < |v| && v[i]
  }

  /** A non-empty finite set of naturals has a largest element. */
  lemma {:induction false} HasMax(b: Bits)
    requires b != {}
    ensures exists m :: m in b && forall x :: x in b ==> x <= m
    decreases |b|
  {
    var x :| x in b;
    if b != {x} {
      HasMax(b - {x});
      var m :| m in b - {x} && forall y :: y in b - {x} ==> y <= m;
      var w := if x > m then x else m;
      forall y | y in b
        ensures y <= w
      {
        if y != x {
          assert y in b - {x};
        }
      }
      assert w in b;
    }
  }

  /** The highest set bit. */
  function Max(b: Bits): (m: nat)
    requires b != {}
    ensures m in b && forall x :: x in b ==> x <= m
  {
    HasMax(b);
    var m :| m in b && forall x :: x in b ==> x <= m;
    m
  }

  /** Number of 64-bit words up to and including the one holding the highest set bit. */
  function WordsInUse(b: Bits): nat
  {
    if b == {} then 0 else Max(b) / 64 + 1
  }

  /** Bits 0 .. j - 1 of word `i`: bit `k` of the word is index `64 * i + k`. */
  function WordPrefix(b: Bits, i: nat, j: nat): bv64
    requires j <= 64
  {
    if j == 0 then 0
    else WordPrefix(b, i, j - 1) | (if 64 * i + (j - 1) in b then (1 as bv64) << (j - 1) else 0)
  }

  function Word(b: Bits, i: nat): bv64
  {
    WordPrefix(b, i, 64)
  }

  /** The hash accumulator after the first `n` words: 1234, xor each word times its position plus one. */
  function Mix(b: Bits, n: nat): bv64
  {
    if n == 0 then 1234 else Step(Mix(b, n - 1), Word(b, n - 1), Long(n))
  }

  /** One round of the accumulator: xor in the word times its position. */
  function Step(acc: bv64, w: bv64, k: bv64): bv64
  {
    acc ^ (w * k)
  }

  /** A zero word leaves the accumulator alone. */
  lemma StepZero(acc: bv64, k: bv64)
    ensures Step(acc, 0, k) == acc
  {
    ZeroTimes(k);
    XorZero(acc);
  }

  /** A count as a 64-bit word, wrapping around: one more than the count before it. */
  function Long(n: nat): bv64
  {
    if n == 0 then 0 else Long(n - 1) + 1
  }

  /** The 32-bit hash: the accumulator's two halves xored, read as a signed int. */
  function Hash(b: Bits): (h: int)
    ensures IntMin <= h <= IntMax
  {
    var m := Mix(b, WordsInUse(b));
    var low := (((m >> 32) ^ m) & 0xFFFF_FFFF) as int;
    if low >= 0x8000_0000 then low - 0x1_0000_0000 else low
  }

  /** A word above the highest set bit is zero. */
  lemma {:induction false} WordAboveIsZero(b: Bits, i: nat, j: nat)
    requires j <= 64 && i >= WordsInUse(b)
    ensures WordPrefix(b, i, j) == 0
  {
    if j > 0 {
      WordAboveIsZero(b, i, j - 1);
      if b != {} {
        assert 64 * i + (j - 1) > Max(b);
      }
    }
  }

  /** A whole word above the highest set bit is zero. */
  lemma WordAbove(b: Bits, i: nat)
    requires i >= WordsInUse(b)
    ensures Word(b, i) == 0
  {
    WordAboveIsZero(b, i, 64);
  }

  /** A word above the highest set bit leaves the accumulator alone. */
  lemma MixZeroWord(b: Bits, n: nat)
    requires n > WordsInUse(b)
    ensures Mix(b, n) == Mix(b, n - 1)
  {
    WordAbove(b, n - 1);
    StepZero(Mix(b, n - 1), Long(n));
  }

  /** Zero words past the last one in use leave the accumulator alone: the hash does not depend on the backing length. */
  lemma {:induction false} MixIgnoresTrailingWords(b: Bits, n: nat)
    requires n >= WordsInUse(b)
    ensures Mix(b, n) == Mix(b, WordsInUse(b))
  {
    if n > WordsInUse(b) {
      MixIgnoresTrailingWords(b, n - 1);
      MixZeroWord(b, n);
    }
  }

  lemma ZeroTimes(k: bv64)
    ensures 0 * k == 0
  {
  }

  lemma XorZero(k: bv64)
    ensures k ^ 0 == k
  {
  }

  /** The empty set hashes to 1234. */
  lemma EmptyHash()
    ensures Hash({}) == 1234
  {
    assert WordsInUse({}) == 0;
    assert Mix({}, 0) == 1234;
    assert ((((1234 as bv64) >> 32) ^ 1234) & 0xFFFF_FFFF) == 1234;
  }
}

/**
 * A machine state: an immutable snapshot of a bit vector, together with the
 * per-state cache fields the engine can attach to it.
 */
module MachineStates {
  import opened Gdl
  import opened BitSets

  class MachineState {
    const bits: Bits
    var cacheActive: bool
    var cacheCurrent: Option<Bits>
    var cacheNext: Option<Bits>

    /** The snapshot holds the vector's content as a value, so later changes to the vector are not seen. */
    constructor (b: Bits)
      ensures bits == b && !cacheActive && cacheCurrent == None && cacheNext == None
    {
      bits := b;
      cacheActive := false;
      cacheCurrent := None;
      cacheNext := None;
    }

    /** The snapshot's hash is the hash of its bits. */
    function HashCode(): (h: int)
      ensures IntMin <= h <= IntMax
    {
      Hash(bits)
    }

    /** Two snapshots are equal exactly when they hold the same bits; nothing equals null. */
    predicate Equals(o: MachineState?)
      reads this, o
    {
      o != null && o.bits == bits
    }

    /** A fresh snapshot of the same bits, with no cache. */
    method Clone() returns (c: MachineState)
      ensures fresh(c) && c.bits == bits && Equals(c) && c.Equals(this)
      ensures !c.cacheActive && c.cacheCurrent == None && c.cacheNext == None
    {
      c := new MachineState(bits);
    }

    function IsCached(): bool
      reads this
    {
      cacheActive
    }

    /** Records copies of both vectors and marks the snapshot cached. */
    method SetCache(cur: Bits, nxt: Bits)
      modifies this
      ensures cacheActive && cacheCurrent == Some(cur) && cacheNext == Some(nxt)
    {
      cacheActive := true;
      cacheCurrent := Some(cur);
      cacheNext := Some(nxt);
    }

    /**
     * The two mismatches the cache check reports: a vector mismatches when it
     * differs from the cached copy or when nothing is cached.  Nothing changes.
     */
    method CheckCache(cur: Bits, nxt: Bits) returns (currentMismatch: bool, nextMismatch: bool)
      ensures currentMismatch <==> !(cacheCurrent.Some? && cacheCurrent.value == cur)
      ensures nextMismatch <==> !(cacheNext.Some? && cacheNext.value == nxt)
    {
      currentMismatch := cacheCurrent != Some(cur);
      nextMismatch := cacheNext != Some(nxt);
    }
  }

  /** Equality of snapshots is reflexive and symmetric, and equal snapshots hash equally. */
  lemma EqualsHash(s: MachineState, t: MachineState)
    ensures s.Equals(s)
    ensures s.Equals(t) <==> t.Equals(s)
    ensures s.Equals(t) ==> s.HashCode() == t.HashCode()
  {
  }
}
