/** The mask `setRandomDays` builds: `n` ones placed in the first slots of an
    eight-slot array, shuffled Fisher-Yates style over the seven weekday
    slots, then packed into bits 1..7 of a byte. */
module RandomDays {
  import opened TimerDefs

  /** Bit `k` of `m`. */
  predicate Bit(m: bv8, k: nat)
    requires k < 8
  {
    (m >> k) & 1 == 1
  }

  /** How many of the bits 0..k-1 of `m` are set. */
  function CountBits(m: bv8, k: nat): nat
    requires k <= 8
  {
    if k == 0 then 0 else CountBits(m, k - 1) + (if Bit(m, k - 1) then 1 else 0)
  }

  /** How many bits of `m` are set. */
  function PopCount(m: bv8): nat
  {
    CountBits(m, 8)
  }

  function Min(a: int, b: int): int
  {
    if a < b then a else b
  }

  /** The draws of `random(i, 7)` for i = 0..6: each lies in [i, 6]. */
  predicate ValidPicks(picks: seq<int>)
  {
    |picks| == 7 && forall i :: 0 <= i < 7 ==> i <= picks[i] < 7
  }

  /** Shifting left by one moves every bit one place up and clears bit 0. */
  lemma ShiftLeftBits(b: bv8, k: nat)
    requires 1 <= k < 8
    ensures Bit(b << 1, k) == Bit(b, k - 1)
    ensures !Bit(b << 1, 0)
  {
  }

  /** Shifting left by one moves bits 0..k-1 to bits 1..k, so the count of
      bits 0..k of the shifted byte is the count of bits 0..k-1 of the
      original; bit 7 of the original is the only one lost. */
  lemma {:induction false} ShiftLeftCount(b: bv8, k: nat)
    requires k < 8
    ensures CountBits(b << 1, k + 1) == CountBits(b, k)
  {
    if k == 0 {
      ShiftLeftBits(b, 1);
    } else {
      ShiftLeftCount(b, k - 1);
      ShiftLeftBits(b, k);
    }
  }

  /** How many slots of `s` hold 1. */
  function Ones(s: seq<Uint8>): nat
  {
    if s == [] then 0 else Ones(s[..|s| - 1]) + (if s[|s| - 1] == 1 then 1 else 0)
  }

  /** `Ones` is the multiplicity of 1, so a permutation keeps it. */
  lemma {:induction false} OnesIsMultiplicity(s: seq<Uint8>)
    ensures Ones(s) == multiset(s)[1]
  {
    if s != [] {
      var init := s[..|s| - 1];
      OnesIsMultiplicity(init);
      assert s == init + [s[|s| - 1]];
      assert multiset(s) == multiset(init) + multiset{s[|s| - 1]};
      assert multiset(s)[1] == multiset(init)[1] + multiset{s[|s| - 1]}[1];
    }
  }

  /** n ones followed by zeros hold n ones. */
  lemma {:induction false} OnesOfFilled(s: seq<Uint8>, n: nat)
    requires n <= |s|
    requires forall k :: 0 <= k < n ==> s[k] == 1
    requires forall k :: n <= k < |s| ==> s[k] == 0
    ensures Ones(s) == n
  {
    if s != [] {
      var init := s[..|s| - 1];
      OnesOfFilled(init, if n == |s| then n - 1 else n);
    }
  }

  /** The set bits among 0..k-1 count the ones among the first k slots. */
  lemma {:induction false} CountMatchesOnes(b: bv8, s: seq<Uint8>, k: nat)
    requires k <= 8 && k <= |s|
    requires forall i :: 0 <= i < k ==> Bit(b, i) == (s[i] == 1)
    ensures CountBits(b, k) == Ones(s[..k])
  {
    if k > 0 {
      CountMatchesOnes(b, s, k - 1);
      assert s[..k][..k - 1] == s[..k - 1];
    }
  }

  /** The second loop: swap slot i with slot `picks[i]` for i = 0..6. The
      contents are permuted and slot 7 is never touched. */
  method Shuffle(slots: array<Uint8>, picks: seq<int>)
    requires slots.Length == 8 && ValidPicks(picks)
    modifies slots
    ensures multiset(slots[..]) == multiset(old(slots[..]))
    ensures slots[7] == old(slots[7])
  {
    for i := 0 to 7
      invariant multiset(slots[..]) == multiset(old(slots[..]))
      invariant slots[7] == old(slots[7])
    {
      var index := picks[i];
      var temp := slots[i];
      slots[i] := slots[index];
      slots[index] := temp;
    }
  }

  /** The third loop: OR slot i, which holds 0 or 1, into bit i. */
  method Pack(slots: array<Uint8>) returns (bits: bv8)
    requires slots.Length == 8
    requires forall k :: 0 <= k < 7 ==> slots[k] == 0 || slots[k] == 1
    ensures forall k :: 0 <= k < 7 ==> Bit(bits, k) == (slots[k] == 1)
    ensures !Bit(bits, 7)
  {
    bits := 0;
    for i := 0 to 7
      invariant forall k :: 0 <= k < i ==> Bit(bits, k) == (slots[k] == 1)
      invariant forall k :: i <= k < 8 ==> !Bit(bits, k)
    {
      bits := bits | ((slots[i] as bv8) << i);
    }
  }

  /** The new start-day mask: exactly min(n, 7) of the weekday bits 7..1 set,
      the helper bit 0 clear. The draw for slot i is `picks[i]`. */
  method RandomDayMask(n: Uint8, picks: seq<int>) returns (mask: bv8)
    requires n <= 8 && ValidPicks(picks)
    ensures mask & 1 == 0
    ensures PopCount(mask) == Min(n, 7)
  {
    var slots := new Uint8[8](_ => 0);
    for i := 0 to n
      invariant forall k :: 0 <= k < i ==> slots[k] == 1
      invariant forall k :: i <= k < 8 ==> slots[k] == 0
    {
      slots[i] := 1;
    }
    ghost var filled := slots[..];
    OnesOfFilled(filled, n);
    OnesIsMultiplicity(filled);
    Shuffle(slots, picks);
    ZeroOneSlots(filled, slots[..]);
    var bits := Pack(slots);
    mask := bits << 1;
    ShiftLeftBits(bits, 1);
    ShiftLeftCount(bits, 7);
    CountMatchesOnes(bits, slots[..], 7);
    OnesIsMultiplicity(slots[..]);
    OnesIsMultiplicity(slots[..7]);
    assert slots[..][..7] == slots[..7];
    assert slots[..] == slots[..7] + [slots[7]];
    assert multiset(slots[..]) == multiset(slots[..7]) + multiset{slots[7]};
  }

  /** A permutation of a sequence of zeros and ones holds only zeros and ones. */
  lemma ZeroOneSlots(s: seq<Uint8>, t: seq<Uint8>)
    requires forall k :: 0 <= k < |s| ==> s[k] == 0 || s[k] == 1
    requires multiset(t) == multiset(s)
    ensures forall k :: 0 <= k < |t| ==> t[k] == 0 || t[k] == 1
  {
    forall k | 0 <= k < |t|
      ensures t[k] == 0 || t[k] == 1
    {
      assert t[k] in multiset(t);
      assert t[k] in multiset(s);
    }
  }
}
