/** Why the two-stage trie search finds the smallest sufficient chunk. */
module Search {
  import opened Words
  import opened TreeIndex
  import opened Tries

  /** v is the best node seen so far and rsize its excess over nb; with none seen, rsize is the
      unsigned negation of nb, which no real excess reaches. */
  ghost predicate Best(ht: map<int, nat>, size: map<int, int>, nb: int, v: int, rsize: int)
    requires Sized(ht, size)
  {
    && (v == 0 ==> rsize == WORD - nb)
    && (v != 0 ==> v in ht && rsize == size[v] - nb >= 0)
  }

  ghost predicate Beaten(size: map<int, int>, nb: int, rsize: int, y: int)
    requires y in size
  {
    size[y] >= nb ==> rsize <= size[y] - nb
  }

  /** Comparing wrapped excesses: a chunk below nb wraps to an excess no candidate can have. */
  lemma WrapRejects(ht: map<int, nat>, size: map<int, int>, nb: int, v: int, rsize: int, s: int)
    requires Sized(ht, size) && Best(ht, size, nb, v, rsize) && 0 < nb < WORD && 0 < s < WORD
    ensures Wrap(s - nb) < rsize <==> (s >= nb && s - nb < rsize)
    ensures s >= nb ==> Wrap(s - nb) == s - nb
  {
  }

  /** y is in the subtree of t, or larger than t. */
  ghost predicate UnderOrAbove(ht: map<int, nat>, size: map<int, int>, t: int, y: int)
    requires Sized(ht, size) && y in ht
  {
    t in ht && (Sub(ht, size, t, y) || size[y] > size[t])
  }

  // ---- first stage: the walk along nb's own path ----

  ghost predicate OnOwnPath(ht: map<int, nat>, size: map<int, int>, nb: int, t: int)
    requires Sized(ht, size)
  {
    t in ht && LargeSize(nb) && Index(size[t]) == Index(nb) && Shr(size[t], ht[t]) == Shr(nb, ht[t])
  }

  /** The deepest untaken right subtree: all of it is above nb, and it hangs off the walked path. */
  ghost predicate UntakenRight(ht: map<int, nat>, size: map<int, int>, nb: int, rst: int, e: nat)
    requires Sized(ht, size) && LargeSize(nb)
  {
    rst != 0 ==>
      rst in ht && ht[rst] >= e && Index(size[rst]) == Index(nb) && Shr(size[rst], ht[rst]) > Shr(nb, ht[rst])
  }

  ghost predicate PathCovers(ht: map<int, nat>, size: map<int, int>, nb: int, rsize: int, t: int, rst: int)
    requires Sized(ht, size) && LargeSize(nb)
  {
    forall y {:trigger Beaten(size, nb, rsize, y)} :: y in ht && Index(size[y]) == Index(nb) ==>
      || Beaten(size, nb, rsize, y)
      || (t in ht && Sub(ht, size, t, y))
      || UnderOrAbove(ht, size, rst, y)
  }

  lemma StartCovers(t: Tree, ht: map<int, nat>, size: map<int, int>, nb: int, rsize: int)
    requires TrieOK(t, ht, size) && LargeSize(nb) && Index(nb) < NTREEBINS
    ensures PathCovers(ht, size, nb, rsize, t.roots[Index(nb)], 0)
    ensures t.roots[Index(nb)] != 0 ==> OnOwnPath(ht, size, nb, t.roots[Index(nb)])
    ensures t.roots[Index(nb)] != 0 ==> ht[t.roots[Index(nb)]] == Height(Index(nb))
  {
    var r := t.roots[Index(nb)];
    assert RootOK(t, ht, size, Index(nb));
    if r != 0 { SameBinAgrees(nb, size[r]); }
    forall y | y in ht && Index(size[y]) == Index(nb)
      ensures r in ht && Sub(ht, size, r, y)
    {
      RootExists(t, ht, size, y);
    }
  }

  /** The right child when the walk turns left. */
  ghost predicate NewRight(t: Tree, nb: int, x: int, c: int, rst: int, rst': int)
  {
    rst' == if Child(t, x, 1) != 0 && Child(t, x, 1) != c then Child(t, x, 1) else rst
  }

  lemma WalkBits(t: Tree, ht: map<int, nat>, size: map<int, int>, nb: int, x: int)
    requires TrieOK(t, ht, size) && OnOwnPath(ht, size, nb, x)
    ensures 5 <= ht[x] <= 32
  {
    assert NodeOK(t, ht, size, x);
  }

  /** Sizes reached through an older untaken subtree exceed everything in a deeper one. */
  lemma RightBeforeOlder(ht: map<int, nat>, size: map<int, int>, nb: int, r: int, rst: int, y: int, e: nat)
    requires Sized(ht, size) && LargeSize(nb) && y in ht && Index(size[y]) == Index(nb)
    requires r in ht && ht[r] == e && Shr(size[r], e + 1) == Shr(nb, e + 1)
    requires rst != 0 && UntakenRight(ht, size, nb, rst, e + 1) && UnderOrAbove(ht, size, rst, y)
    ensures size[y] > size[r]
  {
    var f := ht[rst];
    ShrAgreeUp(size[r], nb, e + 1, f);
    if size[y] <= size[r] {
      ShrMonotone(size[y], size[r], f);
      if size[y] > size[rst] { ShrMonotone(size[rst], size[y], f); }
    }
  }

  lemma WalkStepOne(t: Tree, ht: map<int, nat>, size: map<int, int>, nb: int, rsize: int, x: int, c: int, rst: int,
                    rst': int, y: int)
    requires TrieOK(t, ht, size) && OnOwnPath(ht, size, nb, x)
    requires UntakenRight(ht, size, nb, rst, ht[x]) && PathCovers(ht, size, nb, rsize, x, rst)
    requires ht[x] > 0 && Beaten(size, nb, rsize, x)
    requires c == Child(t, x, Bit(nb, ht[x] - 1)) && NewRight(t, nb, x, c, rst, rst')
    requires y in ht && Index(size[y]) == Index(nb)
    ensures Beaten(size, nb, rsize, y) || (c in ht && Sub(ht, size, c, y)) || UnderOrAbove(ht, size, rst', y)
  {
    assert NodeOK(t, ht, size, x);
    if !Beaten(size, nb, rsize, y) {
      if Sub(ht, size, x, y) {
        SubSplit(t, ht, size, x, y);
        if Bit(size[y], ht[x] - 1) == 0 && Bit(nb, ht[x] - 1) == 1 {
          // the left side of a right turn is below nb
          ShrMonotone(nb, size[y], ht[x] - 1);
        }
      } else if rst' != rst {
        RightBeforeOlder(ht, size, nb, rst', rst, y, ht[x] - 1);
      }
    }
  }

  /** One step of the walk keeps every candidate within reach. */
  lemma WalkStep(t: Tree, ht: map<int, nat>, size: map<int, int>, nb: int, rsize: int, x: int, c: int, rst: int,
                 rst': int)
    requires TrieOK(t, ht, size) && OnOwnPath(ht, size, nb, x)
    requires UntakenRight(ht, size, nb, rst, ht[x]) && PathCovers(ht, size, nb, rsize, x, rst)
    requires ht[x] > 0 && Beaten(size, nb, rsize, x)
    requires c == Child(t, x, Bit(nb, ht[x] - 1)) && NewRight(t, nb, x, c, rst, rst')
    ensures c != 0 ==> OnOwnPath(ht, size, nb, c) && ht[c] == ht[x] - 1
    ensures UntakenRight(ht, size, nb, rst', ht[x] - 1)
    ensures PathCovers(ht, size, nb, rsize, c, rst')
  {
    assert NodeOK(t, ht, size, x);
    forall y | y in ht && Index(size[y]) == Index(nb)
      ensures Beaten(size, nb, rsize, y) || (c in ht && Sub(ht, size, c, y)) || UnderOrAbove(ht, size, rst', y)
    {
      WalkStepOne(t, ht, size, nb, rsize, x, c, rst, rst', y);
    }
  }

  // ---- second stage: the smallest chunk of a subtree ----

  /** Every candidate is beaten, or waits in (or above) the subtree still to be searched. */
  ghost predicate Remaining(ht: map<int, nat>, size: map<int, int>, nb: int, rsize: int, t: int)
    requires Sized(ht, size)
  {
    forall y {:trigger Beaten(size, nb, rsize, y)} :: y in ht ==>
      Beaten(size, nb, rsize, y) || UnderOrAbove(ht, size, t, y)
  }

  ghost predicate AllAbove(ht: map<int, nat>, size: map<int, int>, nb: int, t: int)
    requires Sized(ht, size)
  {
    t in ht && forall y {:trigger Sub(ht, size, t, y)} :: y in ht && Sub(ht, size, t, y) ==> size[y] >= nb
  }

  /** Leaving the walk with nothing further on the path: only the untaken right subtree can matter. */
  lemma WalkEnds(ht: map<int, nat>, size: map<int, int>, nb: int, v: int, rsize: int, rst: int, e: nat)
    requires Sized(ht, size) && LargeSize(nb) && Best(ht, size, nb, v, rsize)
    requires UntakenRight(ht, size, nb, rst, e) && PathCovers(ht, size, nb, rsize, 0, rst)
    requires v != 0 ==> Index(size[v]) == Index(nb)
    requires v != 0 || rst != 0
    ensures Remaining(ht, size, nb, rsize, rst)
    ensures rst != 0 ==> AllAbove(ht, size, nb, rst)
  {
    forall y | y in ht
      ensures Beaten(size, nb, rsize, y) || UnderOrAbove(ht, size, rst, y)
    {
      if size[y] >= nb {
        IndexMonotone(nb, size[y]);
        if Index(size[y]) != Index(nb) {
          var w := if v != 0 then v else rst;
          if size[y] <= size[w] { IndexMonotone(size[y], size[w]); }
        }
      }
    }
    if rst != 0 {
      forall y | y in ht && Sub(ht, size, rst, y)
        ensures size[y] >= nb
      {
        if size[y] < nb { ShrMonotone(size[y], nb, ht[rst]); }
      }
    }
  }

  /** With nothing in nb's own bin, the next non-empty bin holds the smallest candidates. */
  lemma NextBin(t: Tree, ht: map<int, nat>, size: map<int, int>, nb: int, rsize: int, i: nat)
    requires TrieOK(t, ht, size) && LargeSize(nb) && Index(nb) < i < NTREEBINS && t.roots[i] != 0
    requires forall j: nat :: Index(nb) < j < i ==> t.roots[j] == 0
    requires PathCovers(ht, size, nb, rsize, 0, 0)
    ensures Remaining(ht, size, nb, rsize, t.roots[i]) && AllAbove(ht, size, nb, t.roots[i])
  {
    assert RootOK(t, ht, size, i);
    forall y | y in ht
      ensures Beaten(size, nb, rsize, y) || UnderOrAbove(ht, size, t.roots[i], y)
    {
      if size[y] >= nb {
        IndexMonotone(nb, size[y]);
        if Index(size[y]) != Index(nb) {
          RootExists(t, ht, size, y);
          if Index(size[y]) != i && size[y] <= size[t.roots[i]] { IndexMonotone(size[y], size[t.roots[i]]); }
        }
      }
    }
    forall y | y in ht && Sub(ht, size, t.roots[i], y)
      ensures size[y] >= nb
    {
      if size[y] < nb { IndexMonotone(size[y], nb); }
    }
  }

  lemma NoLaterBin(t: Tree, ht: map<int, nat>, size: map<int, int>, nb: int, rsize: int)
    requires TrieOK(t, ht, size) && LargeSize(nb) && Index(nb) < NTREEBINS
    requires forall j: nat :: Index(nb) < j < NTREEBINS ==> t.roots[j] == 0
    requires PathCovers(ht, size, nb, rsize, 0, 0)
    ensures Remaining(ht, size, nb, rsize, 0)
  {
    forall y | y in ht
      ensures Beaten(size, nb, rsize, y)
    {
      if size[y] >= nb {
        IndexMonotone(nb, size[y]);
        RootExists(t, ht, size, y);
      }
    }
  }

  /** The lowest non-empty bin holds the smallest of all large chunks. */
  lemma LowestBin(t: Tree, ht: map<int, nat>, size: map<int, int>, nb: int, rsize: int, i: nat)
    requires TrieOK(t, ht, size) && nb < MIN_LARGE_SIZE && i < NTREEBINS && t.roots[i] != 0
    requires forall j: nat :: j < i ==> t.roots[j] == 0
    ensures Remaining(ht, size, nb, rsize, t.roots[i]) && AllAbove(ht, size, nb, t.roots[i])
  {
    assert RootOK(t, ht, size, i);
    forall y | y in ht
      ensures UnderOrAbove(ht, size, t.roots[i], y)
    {
      RootExists(t, ht, size, y);
      if Index(size[y]) != i && size[y] <= size[t.roots[i]] { IndexMonotone(size[y], size[t.roots[i]]); }
    }
  }

  /** One step of the leftmost descent. */
  lemma DescendStep(t: Tree, ht: map<int, nat>, size: map<int, int>, nb: int, rsize: int, x: int, c: int)
    requires TrieOK(t, ht, size) && AllAbove(ht, size, nb, x) && Remaining(ht, size, nb, rsize, x)
    requires Beaten(size, nb, rsize, x)
    requires c == if Child(t, x, 0) != 0 then Child(t, x, 0) else Child(t, x, 1)
    ensures c != 0 ==> AllAbove(ht, size, nb, c) && ht[c] < ht[x]
    ensures Remaining(ht, size, nb, rsize, c)
  {
    assert NodeOK(t, ht, size, x);
    assert Sub(ht, size, x, x);
    if c != 0 {
      forall y | y in ht && Sub(ht, size, c, y)
        ensures size[y] >= nb
      {
        ShrAgreeUp(size[y], size[c], ht[c], ht[x]);
        assert Sub(ht, size, x, y);
      }
    }
    forall y | y in ht
      ensures Beaten(size, nb, rsize, y) || UnderOrAbove(ht, size, c, y)
    {
      if !Beaten(size, nb, rsize, y) {
        if Sub(ht, size, x, y) && y != x {
          SubSplit(t, ht, size, x, y);
          if Bit(size[y], ht[x] - 1) == 1 && Child(t, x, 0) != 0 {
            SidesOrdered(ht, size, x, c, y);
          }
        }
      }
    }
  }

  /** A subtree worth descending: all of it fits, or an exact fit is already in hand. */
  ghost predicate Searchable(ht: map<int, nat>, size: map<int, int>, nb: int, rsize: int, t: int)
    requires Sized(ht, size)
  {
    t in ht && (rsize == 0 || AllAbove(ht, size, nb, t))
  }

  /** An exact fit beats everything. */
  lemma ExactFit(ht: map<int, nat>, size: map<int, int>, nb: int, c: int)
    requires Sized(ht, size)
    ensures Remaining(ht, size, nb, 0, c)
  {
  }

  lemma DescendAny(t: Tree, ht: map<int, nat>, size: map<int, int>, nb: int, rsize: int, x: int, c: int)
    requires TrieOK(t, ht, size) && Searchable(ht, size, nb, rsize, x) && Remaining(ht, size, nb, rsize, x)
    requires Beaten(size, nb, rsize, x)
    requires c == if Child(t, x, 0) != 0 then Child(t, x, 0) else Child(t, x, 1)
    ensures c != 0 ==> Searchable(ht, size, nb, rsize, c) && ht[c] < ht[x]
    ensures Remaining(ht, size, nb, rsize, c)
  {
    if AllAbove(ht, size, nb, x) {
      DescendStep(t, ht, size, nb, rsize, x, c);
    } else {
      assert NodeOK(t, ht, size, x);
      ExactFit(ht, size, nb, c);
    }
  }

  /** When no subtree remains, v is the best fit, or nothing fits. */
  lemma SearchDone(ht: map<int, nat>, size: map<int, int>, nb: int, v: int, rsize: int)
    requires Sized(ht, size) && Best(ht, size, nb, v, rsize) && Remaining(ht, size, nb, rsize, 0)
    ensures v == 0 ==> forall y :: y in ht ==> size[y] < nb
    ensures v != 0 ==> v in ht && size[v] >= nb && forall y :: y in ht && size[y] >= nb ==> size[v] <= size[y]
  {
    forall y | y in ht && size[y] >= nb
      ensures v != 0 && v in ht && size[v] <= size[y]
    {
      assert Beaten(size, nb, rsize, y);
    }
  }
}
