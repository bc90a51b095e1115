/**
 * Selecting characters by position: the shape shared by a random draw from an
 * alphabet and by the final shuffle of the collected characters.
 */
module Selection {

  /** Every index is a valid position in a sequence of length n. */
  predicate Indexes(idxs: seq<nat>, n: nat) {
    forall k :: 0 <= k < |idxs| ==> idxs[k] < n
  }

  /** The one-character string holding the character of s at the chosen position. */
  function GetRune(s: string, charPosition: nat): (r: string)
    requires charPosition < |s|
    ensures |r| == 1 && r[0] in s
    ensures r[0] == s[charPosition]
  {
    [s[charPosition]]
  }

  /** The characters of s at positions idxs, one per index, in index order. */
  function Pick(s: string, idxs: seq<nat>): (r: string)
    requires Indexes(idxs, |s|)
    ensures |r| == |idxs|
  {
    if idxs == [] then "" else Pick(s, idxs[..|idxs| - 1]) + GetRune(s, idxs[|idxs| - 1])
  }

  /** The k-th picked character is the character of s at the k-th index. */
  lemma {:induction false} PickAt(s: string, idxs: seq<nat>, k: nat)
    requires Indexes(idxs, |s|) && k < |idxs|
    ensures Pick(s, idxs)[k] == s[idxs[k]]
  {
    if k < |idxs| - 1 {
      PickAt(s, idxs[..|idxs| - 1], k);
    }
  }

  /** Every picked character is a character of the source. */
  lemma {:induction false} PickFrom(s: string, idxs: seq<nat>, c: char)
    requires Indexes(idxs, |s|) && c in Pick(s, idxs)
    ensures c in s
  {
    if c != s[idxs[|idxs| - 1]] {
      PickFrom(s, idxs[..|idxs| - 1], c);
    }
  }

  /** The positions 0, 1, ..., n - 1 in order. */
  function Positions(n: nat): (r: seq<nat>)
    ensures |r| == n
    ensures forall k :: 0 <= k < n ==> r[k] == k
  {
    if n == 0 then [] else Positions(n - 1) + [n - 1]
  }

  /** perm lists every position of [0, n) exactly once, in some order. */
  predicate IsPermutation(perm: seq<nat>, n: nat) {
    multiset(perm) == multiset(Positions(n))
  }

  /** The number of positions of s holding a character of cls. */
  function CountIn(s: string, cls: string): (n: nat)
    ensures n <= |s|
  {
    if s == "" then 0 else CountIn(s[..|s| - 1], cls) + (if s[|s| - 1] in cls then 1 else 0)
  }

  /** Each position below n occurs exactly once in Positions(n), and no other value occurs. */
  lemma {:induction false} PositionsOnce(n: nat, i: nat)
    ensures multiset(Positions(n))[i] == if i < n then 1 else 0
  {
    if n > 0 {
      var last: nat := n - 1;
      PositionsOnce(last, i);
      assert Positions(n) == Positions(last) + [last];
      SnocCount(Positions(last), last, i);
    }
  }

  /** Appending x adds one occurrence of x and leaves every other count alone. */
  lemma SnocCount(s: seq<nat>, x: nat, i: nat)
    ensures multiset(s + [x])[i] == multiset(s)[i] + (if i == x then 1 else 0)
  {
    assert multiset(s + [x]) == multiset(s) + multiset{x};
  }

  /** A permutation of [0, n) has n entries, each a position in [0, n) used exactly once. */
  lemma PermutationUsesEachPositionOnce(perm: seq<nat>, n: nat)
    requires IsPermutation(perm, n)
    ensures |perm| == n && Indexes(perm, n)
    ensures forall i :: 0 <= i < n ==> multiset(perm)[i] == 1
  {
    assert |perm| == |multiset(perm)| == |multiset(Positions(n))| == n;
    forall k | 0 <= k < |perm|
      ensures perm[k] < n
    {
      assert perm[k] in multiset(perm);
      PositionsOnce(n, perm[k]);
    }
    forall i | 0 <= i < n
      ensures multiset(perm)[i] == 1
    {
      PositionsOnce(n, i);
    }
  }

  /** Indexes valid for one ordering are valid for every reordering. */
  lemma IndexesPermuted(a: seq<nat>, b: seq<nat>, n: nat)
    requires Indexes(a, n) && multiset(a) == multiset(b)
    ensures Indexes(b, n)
  {
    forall k | 0 <= k < |b| ensures b[k] < n {
      assert b[k] in multiset(a);
    }
  }

  /** Picking the same positions in another order yields the same characters in another order. */
  lemma {:induction false} PickPermuted(s: string, a: seq<nat>, b: seq<nat>)
    requires Indexes(a, |s|) && multiset(a) == multiset(b)
    ensures Indexes(b, |s|)
    ensures multiset(Pick(s, a)) == multiset(Pick(s, b))
  {
    IndexesPermuted(a, b, |s|);
    if a == [] {
      assert |b| == |multiset(b)| == 0;
    } else {
      var init, x := a[..|a| - 1], a[|a| - 1];
      assert x in multiset(b);
      var j :| 0 <= j < |b| && b[j] == x;
      assert multiset(init) == multiset(Without(b, j)) by {
        assert a == init + [x];
        WithoutMultiset(b, j);
      }
      PickPermuted(s, init, Without(b, j));
      PickLastMatched(s, a, b, j);
    }
  }

  /**
   * If a's last index also stands at position j of b, and the rest of a picks
   * what b picks without j, then a and b pick the same characters.
   */
  lemma PickLastMatched(s: string, a: seq<nat>, b: seq<nat>, j: nat)
    requires Indexes(a, |s|) && Indexes(b, |s|) && a != [] && j < |b| && b[j] == a[|a| - 1]
    requires Indexes(Without(b, j), |s|)
    requires multiset(Pick(s, a[..|a| - 1])) == multiset(Pick(s, Without(b, j)))
    ensures multiset(Pick(s, a)) == multiset(Pick(s, b))
  {
    PickDropped(s, b, j);
    PickLast(s, a);
  }

  /** The last index of a contributes its character to what a picks. */
  lemma PickLast(s: string, a: seq<nat>)
    requires Indexes(a, |s|) && a != []
    ensures multiset(Pick(s, a)) == multiset(Pick(s, a[..|a| - 1])) + multiset{s[a[|a| - 1]]}
  {
  }

  /** Dropping position j of b removes one occurrence of the character it picked. */
  lemma PickDropped(s: string, b: seq<nat>, j: nat)
    requires Indexes(b, |s|) && j < |b|
    ensures Indexes(Without(b, j), |s|)
    ensures s[b[j]] in multiset(Pick(s, b))
    ensures multiset(Pick(s, Without(b, j))) == multiset(Pick(s, b)) - multiset{s[b[j]]}
  {
    PickWithout(s, b, j);
    PickAt(s, b, j);
    WithoutMultiset(Pick(s, b), j);
  }

  /** b with the entry at position j removed. */
  function Without<T>(b: seq<T>, j: nat): (r: seq<T>)
    requires j < |b|
    ensures |r| == |b| - 1
    ensures forall k :: 0 <= k < |r| ==> r[k] == if k < j then b[k] else b[k + 1]
  {
    b[..j] + b[j + 1..]
  }

  lemma WithoutMultiset<T>(b: seq<T>, j: nat)
    requires j < |b|
    ensures multiset(Without(b, j)) == multiset(b) - multiset{b[j]}
  {
    assert b == b[..j] + [b[j]] + b[j + 1..];
  }

  /** Dropping an index drops the character it picked. */
  lemma PickWithout(s: string, b: seq<nat>, j: nat)
    requires Indexes(b, |s|) && j < |b|
    ensures Indexes(Without(b, j), |s|)
    ensures Pick(s, Without(b, j)) == Without(Pick(s, b), j)
  {
    var rest := Without(b, j);
    forall k | 0 <= k < |rest|
      ensures Pick(s, rest)[k] == Without(Pick(s, b), j)[k]
    {
      PickAt(s, rest, k);
      PickAt(s, b, if k < j then k else k + 1);
    }
  }

  /** Picking the first n positions in order gives the first n characters. */
  lemma {:induction false} PickPositions(s: string, n: nat)
    requires n <= |s|
    ensures Indexes(Positions(n), |s|)
    ensures Pick(s, Positions(n)) == s[..n]
  {
    if n > 0 {
      PickPositions(s, n - 1);
      assert Positions(n)[..n - 1] == Positions(n - 1);
      assert s[..n] == s[..n - 1] + [s[n - 1]];
    }
  }

  /** A permutation of positions rearranges a sequence without losing or adding characters. */
  lemma ShuffleKeepsCharacters(s: string, perm: seq<nat>)
    requires IsPermutation(perm, |s|)
    ensures Indexes(perm, |s|)
    ensures |Pick(s, perm)| == |s|
    ensures multiset(Pick(s, perm)) == multiset(s)
  {
    PermutationUsesEachPositionOnce(perm, |s|);
    PickPositions(s, |s|);
    assert s[..|s|] == s;
    PickPermuted(s, perm, Positions(|s|));
  }

  lemma {:induction false} CountInAppend(a: string, b: string, cls: string)
    ensures CountIn(a + b, cls) == CountIn(a, cls) + CountIn(b, cls)
  {
    if b != "" {
      assert (a + b)[..|a + b| - 1] == a + b[..|b| - 1];
      CountInAppend(a, b[..|b| - 1], cls);
    } else {
      assert a + b == a;
    }
  }

  /** Every character picked from s is counted as a character of s. */
  lemma {:induction false} CountInPick(s: string, idxs: seq<nat>)
    requires Indexes(idxs, |s|)
    ensures CountIn(Pick(s, idxs), s) == |idxs|
  {
    if idxs != [] {
      var init := idxs[..|idxs| - 1];
      CountInPick(s, init);
      assert Pick(s, idxs)[..|idxs| - 1] == Pick(s, init);
    }
  }

  /** No character of a occurs in b. */
  predicate Separate(a: string, b: string) {
    forall c :: c in a ==> c !in b
  }

  /** Nothing picked from an alphabet separate from cls counts as a character of cls. */
  lemma {:induction false} CountInSeparate(s: string, idxs: seq<nat>, cls: string)
    requires Indexes(idxs, |s|) && Separate(s, cls)
    ensures CountIn(Pick(s, idxs), cls) == 0
  {
    if idxs != [] {
      var init := idxs[..|idxs| - 1];
      CountInSeparate(s, init, cls);
      assert Pick(s, idxs)[..|idxs| - 1] == Pick(s, init);
    }
  }

  /** Removing position j removes its contribution to the count and nothing else. */
  lemma {:induction false} CountInWithout(b: string, j: nat, cls: string)
    requires j < |b|
    ensures CountIn(b, cls) == CountIn(Without(b, j), cls) + (if b[j] in cls then 1 else 0)
  {
    var n := |b|;
    var init := b[..n - 1];
    var rest := Without(b, j);
    if j == n - 1 {
      assert rest == init;
    } else {
      CountInWithout(init, j, cls);
      assert CountIn(rest, cls) == CountIn(Without(init, j), cls) + (if b[n - 1] in cls then 1 else 0) by {
        assert rest[..|rest| - 1] == Without(init, j);
        assert rest[|rest| - 1] == b[n - 1];
      }
    }
  }

  /** The count of a class depends only on which characters occur, not on their order. */
  lemma {:induction false} CountInPermuted(a: string, b: string, cls: string)
    requires multiset(a) == multiset(b)
    ensures CountIn(a, cls) == CountIn(b, cls)
  {
    if a == "" {
      assert |b| == |multiset(b)| == 0;
    } else {
      var x := a[|a| - 1];
      assert x in multiset(b);
      var j :| 0 <= j < |b| && b[j] == x;
      assert a == a[..|a| - 1] + [x];
      WithoutMultiset(b, j);
      CountInPermuted(a[..|a| - 1], Without(b, j), cls);
      CountInWithout(b, j, cls);
    }
  }
}
