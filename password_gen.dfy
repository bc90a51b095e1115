/**
 * Password synthesis: validate a profile, build the fill alphabet, draw the
 * forced characters of each class, top the list up from the fill alphabet and
 * emit the collected characters in shuffled order.
 *
 * Every random choice is an input.  Each single draw from an alphabet is the
 * position it selects (one sequence of positions per drawing loop, in a
 * `Draws` record), and the shuffle is the permutation of positions that the
 * random-number library would have produced.
 */
module PasswordGen {
  import opened Alphabets
  import opened Selection

  const TwoTo63: int := 0x8000_0000_0000_0000
  const TwoTo64: int := 0x1_0000_0000_0000_0000

  /** Go's `int` on a 64-bit platform: a signed 64-bit integer. */
  newtype int64 = x: int | -TwoTo63 <= x < TwoTo63

  predicate InInt64(x: int) { -TwoTo63 <= x < TwoTo63 }

  /** The caller's password profile: total length, and per class a fill flag and a forced minimum. */
  datatype Profile = Profile(
    length: int64,
    useLower: bool, forceLower: int64,
    useUpper: bool, forceUpper: int64,
    useNumeric: bool, forceNumeric: int64,
    useSpecial: bool, forceSpecial: int64)

  datatype Option<T> = None | Some(value: T)

  /** The only error: the forced minimums add up to more than the requested length. */
  datatype ProfileError = ForcedSumExceedsLength

  /** One random position per draw, for each of the five drawing loops in order. */
  datatype Draws = Draws(lower: seq<nat>, upper: seq<nat>, numeric: seq<nat>, special: seq<nat>, fill: seq<nat>)

  /** Go's addition of two 64-bit integers: the exact sum, wrapped around by 2^64 when it overflows. */
  function Add64(a: int64, b: int64): (r: int64)
    ensures InInt64(a as int + b as int) ==> r as int == a as int + b as int
    ensures r as int - (a as int + b as int) in {-TwoTo64, 0, TwoTo64}
  {
    var sum := a as int + b as int;
    if sum >= TwoTo63 then (sum - TwoTo64) as int64
    else if sum < -TwoTo63 then (sum + TwoTo64) as int64
    else sum as int64
  }

  /** The mathematical sum of the four forced minimums. */
  function ExactForcedSum(p: Profile): int {
    p.forceLower as int + p.forceUpper as int + p.forceNumeric as int + p.forceSpecial as int
  }

  /**
   * The sum of the forced minimums as the validation computes it, with three
   * wrapping additions: it equals the exact sum whenever that fits in 64 bits,
   * even if a partial sum overflowed on the way.
   */
  function ForcedSum(p: Profile): (s: int64)
    ensures InInt64(ExactForcedSum(p)) ==> s as int == ExactForcedSum(p)
  {
    Add64(Add64(Add64(p.forceLower, p.forceUpper), p.forceNumeric), p.forceSpecial)
  }

  /** The validation that fails a profile before anything is drawn. */
  predicate Rejects(p: Profile): (r: bool)
    ensures InInt64(ExactForcedSum(p)) ==> (r <==> ExactForcedSum(p) > p.length as int)
  {
    ForcedSum(p) > p.length
  }

  /** How often a loop counting i from 0 while i < n runs: never when n is not positive. */
  function Count(n: int64): (c: nat)
    ensures n >= 0 ==> c == n as int
    ensures n < 0 ==> c == 0
  {
    if n > 0 then n as nat else 0
  }

  /** The number of forced characters drawn. */
  function ForcedCount(p: Profile): (n: nat)
    ensures n >= ExactForcedSum(p)
    ensures NonNegativeForces(p) ==> n == ExactForcedSum(p)
  {
    Count(p.forceLower) + Count(p.forceUpper) + Count(p.forceNumeric) + Count(p.forceSpecial)
  }

  /** The number of characters drawn from the fill alphabet to reach the requested length. */
  function FillCount(p: Profile): (c: nat)
    ensures c > 0 ==> ForcedCount(p) + c == p.length as int
    ensures c == 0 ==> ForcedCount(p) >= p.length as int
  {
    if ForcedCount(p) < p.length as int then p.length as int - ForcedCount(p) else 0
  }

  /** The number of characters collected before the shuffle. */
  function CollectedCount(p: Profile): (n: nat)
    ensures n == if ForcedCount(p) < p.length as int then p.length as int else ForcedCount(p)
  {
    ForcedCount(p) + FillCount(p)
  }

  predicate AnyEnabled(p: Profile) {
    p.useLower || p.useUpper || p.useNumeric || p.useSpecial
  }

  function Enabled(use: bool, alphabet: string): string {
    if use then alphabet else ""
  }

  /** The alphabets of the enabled classes, concatenated in the order lower, upper, numeric, special. */
  function FillAlphabet(p: Profile): (r: string)
    ensures r == "" <==> !AnyEnabled(p)
  {
    Enabled(p.useLower, Lower) + Enabled(p.useUpper, Upper) +
    Enabled(p.useNumeric, Numeric) + Enabled(p.useSpecial, Special)
  }

  /** A character is in the fill alphabet exactly when its class is enabled. */
  lemma FillAlphabetMembers(p: Profile, c: char)
    ensures c in FillAlphabet(p) <==>
      (p.useLower && c in Lower) || (p.useUpper && c in Upper) ||
      (p.useNumeric && c in Numeric) || (p.useSpecial && c in Special)
  {
  }

  /** The alphabet fill characters are drawn from: the enabled classes, or all four when none is enabled. */
  function FillPool(p: Profile): (r: string)
    ensures |r| > 0
    ensures AnyEnabled(p) ==> r == FillAlphabet(p)
    ensures !AnyEnabled(p) ==> r == All
  {
    if FillAlphabet(p) == "" then All else FillAlphabet(p)
  }

  /** The draws supply exactly one in-range position for every draw the routine makes. */
  predicate DrawsFit(p: Profile, d: Draws) {
    |d.lower| == Count(p.forceLower) && Indexes(d.lower, |Lower|) &&
    |d.upper| == Count(p.forceUpper) && Indexes(d.upper, |Upper|) &&
    |d.numeric| == Count(p.forceNumeric) && Indexes(d.numeric, |Numeric|) &&
    |d.special| == Count(p.forceSpecial) && Indexes(d.special, |Special|) &&
    |d.fill| == FillCount(p) && Indexes(d.fill, |FillPool(p)|)
  }

  /** The characters collected before the shuffle, in the order they were drawn. */
  function Collected(p: Profile, d: Draws): (chars: string)
    requires DrawsFit(p, d)
    ensures |chars| == CollectedCount(p)
  {
    Pick(Lower, d.lower) + Pick(Upper, d.upper) + Pick(Numeric, d.numeric) +
    Pick(Special, d.special) + Pick(FillPool(p), d.fill)
  }

  /** The password returned for an accepted profile: the collected characters in permuted order. */
  function Password(p: Profile, d: Draws, perm: seq<nat>): (pw: string)
    requires DrawsFit(p, d) && IsPermutation(perm, CollectedCount(p))
    ensures |pw| == CollectedCount(p)
  {
    PermutationUsesEachPositionOnce(perm, CollectedCount(p));
    Pick(Collected(p, d), perm)
  }

  /** Appends one drawn character of sourceChars per loop iteration, count times. */
  method AppendRunes(passwordChars: string, sourceChars: string, count: int64, positions: seq<nat>)
    returns (chars: string)
    requires |positions| == Count(count) && Indexes(positions, |sourceChars|)
    ensures chars == passwordChars + Pick(sourceChars, positions)
  {
    chars := passwordChars;
    var i: int64 := 0;
    while i < count
      invariant 0 <= i as int <= Count(count)
      invariant chars == passwordChars + Pick(sourceChars, positions[..i])
    {
      var character := GetRune(sourceChars, positions[i]);
      assert positions[..i + 1][..i] == positions[..i];
      chars := chars + character;
      i := i + 1;
    }
    assert positions[..i] == positions;
  }

  /** Concatenates the collected characters in the order the permutation lists their positions. */
  method EmitPermuted(passwordChars: string, perm: seq<nat>) returns (password: string)
    requires IsPermutation(perm, |passwordChars|)
    ensures Indexes(perm, |passwordChars|)
    ensures password == Pick(passwordChars, perm)
  {
    PermutationUsesEachPositionOnce(perm, |passwordChars|);
    password := "";
    for k := 0 to |perm|
      invariant password == Pick(passwordChars, perm[..k])
    {
      assert perm[..k + 1][..k] == perm[..k];
      password := password + [passwordChars[perm[k]]];
    }
    assert perm[..|perm|] == perm;
  }

  /**
   * Builds the fill alphabet and collects the characters: the forced draws of
   * each class in the order lower, upper, numeric, special, then the fill
   * draws that top the list up to the requested length.
   */
  method CollectChars(p: Profile, d: Draws) returns (passwordChars: string)
    requires DrawsFit(p, d)
    ensures passwordChars == Collected(p, d)
  {
    var allChars: string := "";
    passwordChars := "";

    if p.useLower {
      allChars := allChars + Lower;
    }
    passwordChars := AppendRunes(passwordChars, Lower, p.forceLower, d.lower);
    assert allChars == Enabled(p.useLower, Lower);
    assert passwordChars == Pick(Lower, d.lower);

    if p.useUpper {
      allChars := allChars + Upper;
    }
    passwordChars := AppendRunes(passwordChars, Upper, p.forceUpper, d.upper);
    assert allChars == Enabled(p.useLower, Lower) + Enabled(p.useUpper, Upper);

    if p.useNumeric {
      allChars := allChars + Numeric;
    }
    passwordChars := AppendRunes(passwordChars, Numeric, p.forceNumeric, d.numeric);
    assert allChars == Enabled(p.useLower, Lower) + Enabled(p.useUpper, Upper) + Enabled(p.useNumeric, Numeric);

    if p.useSpecial {
      allChars := allChars + Special;
    }
    passwordChars := AppendRunes(passwordChars, Special, p.forceSpecial, d.special);
    assert allChars == FillAlphabet(p);

    if |passwordChars| < p.length as int {
      if allChars == "" {
        allChars := Lower + Upper + Numeric + Special;
      }
      var moreCharsLen := (p.length as int - |passwordChars|) as int64;
      passwordChars := AppendRunes(passwordChars, allChars, moreCharsLen, d.fill);
    } else {
      assert passwordChars == passwordChars + Pick(FillPool(p), d.fill);
    }
  }

  /**
   * Generates a password for profile p, or reports that its forced minimums
   * exceed its length, before drawing anything.  On success the result is the
   * collected characters shuffled by perm.
   */
  method GenPassword(p: Profile, d: Draws, perm: seq<nat>) returns (password: string, err: Option<ProfileError>)
    requires !Rejects(p) ==> DrawsFit(p, d) && IsPermutation(perm, CollectedCount(p))
    ensures err == if Rejects(p) then Some(ForcedSumExceedsLength) else None
    ensures InInt64(ExactForcedSum(p)) ==> (err.Some? <==> ExactForcedSum(p) > p.length as int)
    ensures err.Some? ==> password == ""
    ensures err.None? ==> password == Password(p, d, perm)
    ensures err.None? && NonNegativeForces(p) && InInt64(ExactForcedSum(p)) ==> |password| == p.length as int
  {
    if ForcedSum(p) > p.length {
      return "", Some(ForcedSumExceedsLength);
    }
    var passwordChars := CollectChars(p, d);
    password := EmitPermuted(passwordChars, perm);
    err := None;
    PasswordLength(p, d, perm);
  }

  predicate NonNegativeForces(p: Profile) {
    p.forceLower >= 0 && p.forceUpper >= 0 && p.forceNumeric >= 0 && p.forceSpecial >= 0
  }

  /**
   * An accepted profile yields max(length, forced count) characters; with
   * non-negative minimums whose sum fits in 64 bits, exactly the requested length.
   */
  lemma PasswordLength(p: Profile, d: Draws, perm: seq<nat>)
    requires !Rejects(p) && DrawsFit(p, d) && IsPermutation(perm, CollectedCount(p))
    ensures |Password(p, d, perm)| == if ForcedCount(p) < p.length as int then p.length as int else ForcedCount(p)
    ensures NonNegativeForces(p) && InInt64(ExactForcedSum(p)) ==> |Password(p, d, perm)| == p.length as int
  {
    PermutationUsesEachPositionOnce(perm, CollectedCount(p));
  }

  /** The shuffle neither loses nor invents characters: the password is a rearrangement of the collected ones. */
  lemma ShuffleKeepsCollected(p: Profile, d: Draws, perm: seq<nat>)
    requires DrawsFit(p, d) && IsPermutation(perm, CollectedCount(p))
    ensures multiset(Password(p, d, perm)) == multiset(Collected(p, d))
  {
    ShuffleKeepsCharacters(Collected(p, d), perm);
  }

  /** How many collected characters of cls each drawing loop contributed. */
  lemma CollectedCountIn(p: Profile, d: Draws, cls: string)
    requires DrawsFit(p, d)
    ensures CountIn(Collected(p, d), cls) ==
      CountIn(Pick(Lower, d.lower), cls) + CountIn(Pick(Upper, d.upper), cls) +
      CountIn(Pick(Numeric, d.numeric), cls) + CountIn(Pick(Special, d.special), cls) +
      CountIn(Pick(FillPool(p), d.fill), cls)
  {
    var a, b, c, e, f := Pick(Lower, d.lower), Pick(Upper, d.upper), Pick(Numeric, d.numeric),
      Pick(Special, d.special), Pick(FillPool(p), d.fill);
    CountInAppend(a, b, cls);
    CountInAppend(a + b, c, cls);
    CountInAppend(a + b + c, e, cls);
    CountInAppend(a + b + c + e, f, cls);
  }

  /** The shuffle keeps the number of characters of every class. */
  lemma ShuffleKeepsCounts(p: Profile, d: Draws, perm: seq<nat>, cls: string)
    requires DrawsFit(p, d) && IsPermutation(perm, CollectedCount(p))
    ensures CountIn(Password(p, d, perm), cls) == CountIn(Collected(p, d), cls)
  {
    ShuffleKeepsCollected(p, d, perm);
    CountInPermuted(Password(p, d, perm), Collected(p, d), cls);
  }

  /** Every forced minimum is met, whether or not its class is enabled for the fill. */
  lemma ForcedMinimums(p: Profile, d: Draws, perm: seq<nat>)
    requires DrawsFit(p, d) && IsPermutation(perm, CollectedCount(p))
    ensures CountIn(Password(p, d, perm), Lower) >= p.forceLower as int
    ensures CountIn(Password(p, d, perm), Upper) >= p.forceUpper as int
    ensures CountIn(Password(p, d, perm), Numeric) >= p.forceNumeric as int
    ensures CountIn(Password(p, d, perm), Special) >= p.forceSpecial as int
  {
    ShuffleKeepsCounts(p, d, perm, Lower);
    CollectedCountIn(p, d, Lower);
    CountInPick(Lower, d.lower);
    ShuffleKeepsCounts(p, d, perm, Upper);
    CollectedCountIn(p, d, Upper);
    CountInPick(Upper, d.upper);
    ShuffleKeepsCounts(p, d, perm, Numeric);
    CollectedCountIn(p, d, Numeric);
    CountInPick(Numeric, d.numeric);
    ShuffleKeepsCounts(p, d, perm, Special);
    CollectedCountIn(p, d, Special);
    CountInPick(Special, d.special);
  }

  /**
   * Every character of the password is a forced character of a class with a
   * positive minimum or a character of the fill pool.
   */
  lemma PasswordAlphabet(p: Profile, d: Draws, perm: seq<nat>, c: char)
    requires DrawsFit(p, d) && IsPermutation(perm, CollectedCount(p))
    requires c in Password(p, d, perm)
    ensures (c in Lower && p.forceLower > 0) || (c in Upper && p.forceUpper > 0) ||
            (c in Numeric && p.forceNumeric > 0) || (c in Special && p.forceSpecial > 0) ||
            c in FillPool(p)
    ensures c in All && IsAscii(c)
  {
    ShuffleKeepsCollected(p, d, perm);
    assert c in multiset(Password(p, d, perm));
    CollectedFrom(p, d, c);
    FillAlphabetMembers(p, c);
    AllAscii(c);
  }

  /** Which drawing loop a collected character can have come from. */
  lemma CollectedFrom(p: Profile, d: Draws, c: char)
    requires DrawsFit(p, d) && c in Collected(p, d)
    ensures (c in Lower && p.forceLower > 0) || (c in Upper && p.forceUpper > 0) ||
            (c in Numeric && p.forceNumeric > 0) || (c in Special && p.forceSpecial > 0) ||
            c in FillPool(p)
  {
    if c in Pick(Lower, d.lower) {
      PickFrom(Lower, d.lower, c);
    } else if c in Pick(Upper, d.upper) {
      PickFrom(Upper, d.upper, c);
    } else if c in Pick(Numeric, d.numeric) {
      PickFrom(Numeric, d.numeric, c);
    } else if c in Pick(Special, d.special) {
      PickFrom(Special, d.special, c);
    } else {
      PickFrom(FillPool(p), d.fill, c);
    }
  }

  /**
   * When at least one class is enabled, a class that is neither enabled nor
   * forced never appears in the password.
   */
  lemma UnusedClassAbsent(p: Profile, d: Draws, perm: seq<nat>, c: char)
    requires DrawsFit(p, d) && IsPermutation(perm, CollectedCount(p))
    requires AnyEnabled(p) && c in Password(p, d, perm)
    ensures !p.useLower && p.forceLower <= 0 ==> c !in Lower
    ensures !p.useUpper && p.forceUpper <= 0 ==> c !in Upper
    ensures !p.useNumeric && p.forceNumeric <= 0 ==> c !in Numeric
    ensures !p.useSpecial && p.forceSpecial <= 0 ==> c !in Special
  {
    PasswordAlphabet(p, d, perm, c);
    ClassesDisjoint(c);
  }

  /** When some class is enabled, the fill pool holds no character of a disabled class. */
  lemma FillPoolSeparate(p: Profile)
    requires AnyEnabled(p)
    ensures !p.useLower ==> Separate(FillPool(p), Lower)
    ensures !p.useUpper ==> Separate(FillPool(p), Upper)
    ensures !p.useNumeric ==> Separate(FillPool(p), Numeric)
    ensures !p.useSpecial ==> Separate(FillPool(p), Special)
  {
    forall c | c in FillPool(p)
      ensures (!p.useLower ==> c !in Lower) && (!p.useUpper ==> c !in Upper)
      ensures (!p.useNumeric ==> c !in Numeric) && (!p.useSpecial ==> c !in Special)
    {
      FillAlphabetMembers(p, c);
      ClassesDisjoint(c);
    }
  }

  /**
   * When some class is enabled, the fill draws only from enabled classes, so a
   * disabled class occurs in the password exactly as often as it was forced.
   */
  lemma DisabledClassOnlyForced(p: Profile, d: Draws, perm: seq<nat>)
    requires DrawsFit(p, d) && IsPermutation(perm, CollectedCount(p)) && AnyEnabled(p)
    ensures !p.useLower ==> CountIn(Password(p, d, perm), Lower) == Count(p.forceLower)
    ensures !p.useUpper ==> CountIn(Password(p, d, perm), Upper) == Count(p.forceUpper)
    ensures !p.useNumeric ==> CountIn(Password(p, d, perm), Numeric) == Count(p.forceNumeric)
    ensures !p.useSpecial ==> CountIn(Password(p, d, perm), Special) == Count(p.forceSpecial)
  {
    if !p.useLower {
      LowerOnlyForced(p, d, perm);
    }
    if !p.useUpper {
      UpperOnlyForced(p, d, perm);
    }
    if !p.useNumeric {
      NumericOnlyForced(p, d, perm);
    }
    if !p.useSpecial {
      SpecialOnlyForced(p, d, perm);
    }
  }

  /** The per-class cases of DisabledClassOnlyForced. */
  lemma LowerOnlyForced(p: Profile, d: Draws, perm: seq<nat>)
    requires DrawsFit(p, d) && IsPermutation(perm, CollectedCount(p)) && AnyEnabled(p) && !p.useLower
    ensures CountIn(Password(p, d, perm), Lower) == Count(p.forceLower)
  {
    FillPoolSeparate(p);
    ClassesSeparate();
    DisabledCount(p, d, perm, Lower);
    CountInPick(Lower, d.lower);
    CountInSeparate(Upper, d.upper, Lower);
    CountInSeparate(Numeric, d.numeric, Lower);
    CountInSeparate(Special, d.special, Lower);
  }

  lemma UpperOnlyForced(p: Profile, d: Draws, perm: seq<nat>)
    requires DrawsFit(p, d) && IsPermutation(perm, CollectedCount(p)) && AnyEnabled(p) && !p.useUpper
    ensures CountIn(Password(p, d, perm), Upper) == Count(p.forceUpper)
  {
    FillPoolSeparate(p);
    ClassesSeparate();
    DisabledCount(p, d, perm, Upper);
    CountInSeparate(Lower, d.lower, Upper);
    CountInPick(Upper, d.upper);
    CountInSeparate(Numeric, d.numeric, Upper);
    CountInSeparate(Special, d.special, Upper);
  }

  lemma NumericOnlyForced(p: Profile, d: Draws, perm: seq<nat>)
    requires DrawsFit(p, d) && IsPermutation(perm, CollectedCount(p)) && AnyEnabled(p) && !p.useNumeric
    ensures CountIn(Password(p, d, perm), Numeric) == Count(p.forceNumeric)
  {
    FillPoolSeparate(p);
    ClassesSeparate();
    DisabledCount(p, d, perm, Numeric);
    CountInSeparate(Lower, d.lower, Numeric);
    CountInSeparate(Upper, d.upper, Numeric);
    CountInPick(Numeric, d.numeric);
    CountInSeparate(Special, d.special, Numeric);
  }

  lemma SpecialOnlyForced(p: Profile, d: Draws, perm: seq<nat>)
    requires DrawsFit(p, d) && IsPermutation(perm, CollectedCount(p)) && AnyEnabled(p) && !p.useSpecial
    ensures CountIn(Password(p, d, perm), Special) == Count(p.forceSpecial)
  {
    FillPoolSeparate(p);
    ClassesSeparate();
    DisabledCount(p, d, perm, Special);
    CountInSeparate(Lower, d.lower, Special);
    CountInSeparate(Upper, d.upper, Special);
    CountInSeparate(Numeric, d.numeric, Special);
    CountInPick(Special, d.special);
  }

  /** A class the fill pool avoids is counted only among the four forced runs. */
  lemma DisabledCount(p: Profile, d: Draws, perm: seq<nat>, cls: string)
    requires DrawsFit(p, d) && IsPermutation(perm, CollectedCount(p)) && Separate(FillPool(p), cls)
    ensures CountIn(Password(p, d, perm), cls) ==
      CountIn(Pick(Lower, d.lower), cls) + CountIn(Pick(Upper, d.upper), cls) +
      CountIn(Pick(Numeric, d.numeric), cls) + CountIn(Pick(Special, d.special), cls)
  {
    ShuffleKeepsCounts(p, d, perm, cls);
    CollectedCountIn(p, d, cls);
    CountInSeparate(FillPool(p), d.fill, cls);
  }

  /** Fill characters always come from a non-empty alphabet, so every fill draw has a position to pick. */
  lemma FillPoolFallback(p: Profile)
    ensures |FillPool(p)| > 0
    ensures forall c :: c in FillPool(p) <==> c in FillAlphabet(p) || (!AnyEnabled(p) && c in All)
  {
  }

  /** The demonstration profile: a forced minimum of a class whose fill flag is off still passes validation. */
  lemma DemoProfileAccepted()
    ensures var p := Profile(10, true, 2, true, 2, true, 2, false, 2);
      !Rejects(p) && ForcedCount(p) == 8 && FillCount(p) == 2
  {
  }

  /**
   * Whatever the draws and the shuffle, the demonstration profile yields ten
   * characters with at least two of each class, special characters included.
   */
  lemma DemoPassword(d: Draws, perm: seq<nat>)
    requires var p := Profile(10, true, 2, true, 2, true, 2, false, 2);
      DrawsFit(p, d) && IsPermutation(perm, CollectedCount(p))
    ensures var pw := Password(Profile(10, true, 2, true, 2, true, 2, false, 2), d, perm);
      |pw| == 10 && CountIn(pw, Lower) >= 2 && CountIn(pw, Upper) >= 2 &&
      CountIn(pw, Numeric) >= 2 && CountIn(pw, Special) >= 2
  {
    var p := Profile(10, true, 2, true, 2, true, 2, false, 2);
    DemoProfileAccepted();
    PasswordLength(p, d, perm);
    ForcedMinimums(p, d, perm);
  }

  /** Three lower-case and three upper-case minimums cannot fit in five characters. */
  lemma OverfullProfileRejected()
    ensures Rejects(Profile(5, false, 3, false, 3, false, 0, false, 0))
  {
  }

  /**
   * A negative minimum passes validation but draws nothing, so the other
   * minimums can exceed the length: here four characters for a length of three.
   */
  lemma NegativeMinimumOverfills()
    ensures var p := Profile(3, false, -2, false, 4, false, 0, false, 0);
      !Rejects(p) && CollectedCount(p) == 4
  {
  }

  /**
   * Minimums whose sum overflows 64 bits wrap to a negative sum and pass
   * validation: 2^63 characters for a length of zero.
   */
  lemma OverflowingMinimumsAccepted()
    ensures var p := Profile(0, false, (TwoTo63 - 1) as int64, false, 1, false, 0, false, 0);
      !Rejects(p) && CollectedCount(p) == TwoTo63
  {
  }
}
