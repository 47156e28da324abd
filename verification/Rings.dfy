/** Circular doubly linked lists threaded through the fd and bk words of chunks. A ring is named by
    its head: a small-bin header, or the one chunk of a size that is linked into a trie. */
module Rings {
  import opened Words

  function Next(j: nat, n: nat): (k: nat)
    requires j < n
    ensures k < n
  {
    if j + 1 == n then 0 else j + 1
  }

  function Prev(j: nat, n: nat): (k: nat)
    requires j < n
    ensures k < n
  {
    if j == 0 then n - 1 else j - 1
  }

  predicate LinkedForward(fd: map<int, int>, s: seq<int>) {
    forall j: nat {:trigger Rd(fd, s[j])} :: j < |s| ==> Rd(fd, s[j]) == s[Next(j, |s|)]
  }

  predicate LinkedBackward(bk: map<int, int>, s: seq<int>) {
    forall j: nat {:trigger Rd(bk, s[j])} :: j < |s| ==> Rd(bk, s[j]) == s[Prev(j, |s|)]
  }

  /** s lists the members of one ring in forward order. */
  predicate Ring(fd: map<int, int>, bk: map<int, int>, s: seq<int>) {
    |s| > 0 && Distinct(s) && LinkedForward(fd, s) && LinkedBackward(bk, s)
  }

  ghost predicate SameOn(f: map<int, int>, g: map<int, int>, s: seq<int>) {
    forall j: nat :: j < |s| ==> Rd(f, s[j]) == Rd(g, s[j])
  }

  lemma RingFrame(fd: map<int, int>, bk: map<int, int>, fd': map<int, int>, bk': map<int, int>, s: seq<int>)
    requires Ring(fd, bk, s) && SameOn(fd, fd', s) && SameOn(bk, bk', s)
    ensures Ring(fd', bk', s)
  {
  }

  /** The link writes of an insertion directly after the head s[0]. */
  lemma RingInsert(fd: map<int, int>, bk: map<int, int>, s: seq<int>, x: int)
    requires Ring(fd, bk, s) && x !in s
    ensures var f := Rd(fd, s[0]);
            Ring(fd[s[0] := x][x := f], bk[f := x][x := s[0]], [s[0], x] + s[1..])
  {
    var f, n := Rd(fd, s[0]), |s|;
    var s' := [s[0], x] + s[1..];
    assert f == s[Next(0, n)];
    assert forall j :: 2 <= j <= n ==> s'[j] == s[j - 1];
    var fd', bk' := fd[s[0] := x][x := f], bk[f := x][x := s[0]];
    forall j: nat | j <= n
      ensures Rd(fd', s'[j]) == s'[Next(j, n + 1)]
    {
      if j >= 2 { assert Rd(fd, s[j - 1]) == s[Next(j - 1, n)]; }
    }
    forall j: nat | j <= n
      ensures Rd(bk', s'[j]) == s'[Prev(j, n + 1)]
    {
      var i := if j == 0 then 0 else j - 1;
      assert Rd(bk, s[i]) == s[Prev(i, n)];
    }
  }

  lemma NeighbourLinks(fd: map<int, int>, bk: map<int, int>, s: seq<int>, k: nat)
    requires Ring(fd, bk, s) && k < |s|
    ensures Rd(fd, s[k]) == s[Next(k, |s|)] && Rd(bk, s[Next(k, |s|)]) == s[k]
    ensures Rd(bk, s[k]) == s[Prev(k, |s|)] && Rd(fd, s[Prev(k, |s|)]) == s[k]
  {
    assert Prev(Next(k, |s|), |s|) == k && Next(Prev(k, |s|), |s|) == k;
  }

  lemma DistinctWithout(s: seq<int>, k: nat)
    requires k < |s| && Distinct(s)
    ensures Distinct(s[..k] + s[k + 1..])
  {
  }

  lemma RemoveFd(fd: map<int, int>, s: seq<int>, k: nat)
    requires k < |s| && |s| >= 2 && Distinct(s) && LinkedForward(fd, s)
    ensures LinkedForward(fd[s[Prev(k, |s|)] := s[Next(k, |s|)]], s[..k] + s[k + 1..])
  {
    var n, s' := |s|, s[..k] + s[k + 1..];
    assert forall j :: 0 <= j < n - 1 ==> s'[j] == if j < k then s[j] else s[j + 1];
    forall j: nat | j < n - 1
      ensures Rd(fd[s[Prev(k, n)] := s[Next(k, n)]], s'[j]) == s'[Next(j, n - 1)]
    {
      var i := if j < k then j else j + 1;
      assert Rd(fd, s[i]) == s[Next(i, n)];
    }
  }

  lemma RemoveBk(bk: map<int, int>, s: seq<int>, k: nat)
    requires k < |s| && |s| >= 2 && Distinct(s) && LinkedBackward(bk, s)
    ensures LinkedBackward(bk[s[Next(k, |s|)] := s[Prev(k, |s|)]], s[..k] + s[k + 1..])
  {
    var n, s' := |s|, s[..k] + s[k + 1..];
    var f, r := Next(k, n), Prev(k, n);
    forall j: nat | j < n - 1
      ensures Rd(bk[s[f] := s[r]], s'[j]) == s'[Prev(j, n - 1)]
    {
      var i := if j < k then j else j + 1;
      assert s'[j] == s[i];
      assert s[i] == s[f] <==> i == f by { assert Distinct(s); }
      assert Rd(bk, s[i]) == s[Prev(i, n)];
      var p := Prev(j, n - 1);
      assert s'[p] == s[if p < k then p else p + 1];
    }
  }

  /** The link writes that take member k out of a ring of at least two. */
  lemma RingRemove(fd: map<int, int>, bk: map<int, int>, s: seq<int>, k: nat)
    requires Ring(fd, bk, s) && k < |s| && |s| >= 2
    ensures var f, r := Rd(fd, s[k]), Rd(bk, s[k]);
            && f == s[Next(k, |s|)] && Rd(bk, f) == s[k]
            && r == s[Prev(k, |s|)] && Rd(fd, r) == s[k]
            && Ring(fd[r := f], bk[f := r], s[..k] + s[k + 1..])
  {
    NeighbourLinks(fd, bk, s, k);
    RemoveFd(fd, s, k);
    RemoveBk(bk, s, k);
    DistinctWithout(s, k);
    hide LinkedForward, LinkedBackward, Distinct, Next, Prev;
  }

  lemma RotatedAt(s: seq<int>)
    requires |s| > 0 && Distinct(s)
    ensures var s' := [s[|s| - 1]] + s[..|s| - 1];
            && |s'| == |s| && Distinct(s')
            && forall j: nat :: j < |s| ==>
              s'[j] == s[Prev(j, |s|)] && Next(Prev(j, |s|), |s|) == j == Prev(Next(j, |s|), |s|)
  {
    var s' := [s[|s| - 1]] + s[..|s| - 1];
    forall i, j | 0 <= i < j < |s|
      ensures s'[i] != s'[j]
    {
      assert s'[i] == s[Prev(i, |s|)] && s'[j] == s[Prev(j, |s|)];
    }
  }

  /** A ring may be listed from its last member. */
  lemma RingRotate(fd: map<int, int>, bk: map<int, int>, s: seq<int>)
    requires Ring(fd, bk, s)
    ensures Ring(fd, bk, [s[|s| - 1]] + s[..|s| - 1])
  {
    var n := |s|;
    var s' := [s[n - 1]] + s[..n - 1];
    RotatedAt(s);
    forall j: nat | j < n
      ensures Rd(fd, s'[j]) == s'[Next(j, n)]
    {
      assert Rd(fd, s[Prev(j, n)]) == s[Next(Prev(j, n), n)];
    }
    forall j: nat | j < n
      ensures Rd(bk, s'[j]) == s'[Prev(j, n)]
    {
      assert Rd(bk, s[Prev(j, n)]) == s[Prev(Prev(j, n), n)];
    }
  }

  ghost predicate HomesOK(rings: map<int, seq<int>>, home: map<int, int>) {
    && (forall h, j: nat :: h in rings && j < |rings[h]| ==> rings[h][j] in home && home[rings[h][j]] == h)
    && (forall c :: c in home ==> home[c] in rings && c in rings[home[c]])
  }

  /** All rings at once: `rings` lists each ring from its head, `home` names the ring each member is in. */
  ghost predicate RingsOK(fd: map<int, int>, bk: map<int, int>, rings: map<int, seq<int>>, home: map<int, int>) {
    && (forall h :: h in rings ==> Ring(fd, bk, rings[h]) && rings[h][0] == h)
    && HomesOK(rings, home)
  }

  /** Writes that touch only members of ring h leave the other rings as they were. */
  ghost predicate OnlyRing(f: map<int, int>, g: map<int, int>, home: map<int, int>, h: int) {
    forall c :: c in home && home[c] != h ==> Rd(f, c) == Rd(g, c)
  }

  lemma OtherRing(f: map<int, int>, g: map<int, int>, rings: map<int, seq<int>>, home: map<int, int>, h: int, k: int)
    requires HomesOK(rings, home) && OnlyRing(f, g, home, h) && k in rings && k != h
    ensures SameOn(f, g, rings[k])
  {
    forall j: nat | j < |rings[k]|
      ensures Rd(f, rings[k][j]) == Rd(g, rings[k][j])
    {
      assert rings[k][j] in home && home[rings[k][j]] == k;
    }
  }

  lemma OtherRings(fd: map<int, int>, bk: map<int, int>, fd': map<int, int>, bk': map<int, int>,
                   rings: map<int, seq<int>>, home: map<int, int>, h: int)
    requires RingsOK(fd, bk, rings, home) && OnlyRing(fd, fd', home, h) && OnlyRing(bk, bk', home, h)
    ensures forall g :: g in rings && g != h ==> Ring(fd', bk', rings[g])
  {
    hide Ring, SameOn, HomesOK, OnlyRing;
    forall g | g in rings && g != h
      ensures Ring(fd', bk', rings[g])
    {
      OtherRing(fd, fd', rings, home, h, g);
      OtherRing(bk, bk', rings, home, h, g);
      RingFrame(fd, bk, fd', bk', rings[g]);
    }
  }

  lemma HeadHome(fd: map<int, int>, bk: map<int, int>, rings: map<int, seq<int>>, home: map<int, int>, h: int)
    requires RingsOK(fd, bk, rings, home) && h in rings
    ensures h in home && home[h] == h
  {
    assert rings[h][0] == h;
  }

  /** The index of a member in its ring. */
  ghost function Pos(s: seq<int>, x: int): (k: nat)
    requires x in s
    ensures k < |s| && s[k] == x
  {
    var k :| 0 <= k < |s| && s[k] == x;
    k
  }

  ghost function HomeIn(home: map<int, int>, s: seq<int>, h: int): map<int, int> {
    map c | c in home.Keys + (set c | c in s) :: if c in s then h else home[c]
  }

  lemma AddRingHomes(rings: map<int, seq<int>>, home: map<int, int>, s: seq<int>)
    requires |s| > 0 && s[0] !in rings
    requires HomesOK(rings, home)
    requires forall c :: c in home ==> c !in s
    ensures HomesOK(rings[s[0] := s], HomeIn(home, s, s[0]))
  {
    var rings', home' := rings[s[0] := s], HomeIn(home, s, s[0]);
    forall h, j: nat | h in rings' && j < |rings'[h]|
      ensures rings'[h][j] in home' && home'[rings'[h][j]] == h
    {
      var c := rings'[h][j];
      if h == s[0] {
        assert c in s;
      } else {
        assert c == rings[h][j];
        assert c in home && home[c] == h;
        assert c !in s;
      }
    }
  }

  /** A fresh ring. */
  lemma AddRing(fd: map<int, int>, bk: map<int, int>, fd': map<int, int>, bk': map<int, int>,
                rings: map<int, seq<int>>, home: map<int, int>, s: seq<int>)
    requires RingsOK(fd, bk, rings, home) && Ring(fd', bk', s)
    requires forall c :: c in home ==> c !in s
    requires forall c :: c in home ==> Rd(fd, c) == Rd(fd', c) && Rd(bk, c) == Rd(bk', c)
    ensures RingsOK(fd', bk', rings[s[0] := s], HomeIn(home, s, s[0]))
  {
    var h := s[0];
    assert h in s;
    if h in rings { HeadHome(fd, bk, rings, home, h); }
    OtherRings(fd, bk, fd', bk', rings, home, h);
    hide Ring, HomeIn;
    AddRingHomes(rings, home, s);
    hide HomesOK;
  }

  lemma ReplaceHomes(rings: map<int, seq<int>>, home: map<int, int>, home': map<int, int>, h: int, s: seq<int>)
    requires HomesOK(rings, home) && h in rings
    requires forall c :: c in home' <==> (c in home && home[c] != h) || c in s
    requires forall c :: c in home' ==> home'[c] == if c in s then h else home[c]
    requires forall c :: c in s ==> c !in home || home[c] == h
    ensures HomesOK(rings[h := s], home')
  {
    var rings' := rings[h := s];
    forall g, j: nat | g in rings' && j < |rings'[g]|
      ensures rings'[g][j] in home' && home'[rings'[g][j]] == g
    {
      var c := rings'[g][j];
      if g == h {
        assert c in s;
      } else {
        assert c == rings[g][j] && c in home && home[c] == g;
        assert c !in s;
      }
    }
  }

  /** Replacing the listing of ring h after a member was linked in or out. */
  lemma ReplaceRing(fd: map<int, int>, bk: map<int, int>, fd': map<int, int>, bk': map<int, int>,
                    rings: map<int, seq<int>>, home: map<int, int>, home': map<int, int>, h: int, s: seq<int>)
    requires RingsOK(fd, bk, rings, home) && h in rings
    requires Ring(fd', bk', s) && s[0] == h
    requires OnlyRing(fd, fd', home, h) && OnlyRing(bk, bk', home, h)
    requires forall c :: c in home' <==> (c in home && home[c] != h) || c in s
    requires forall c :: c in home' ==> home'[c] == if c in s then h else home[c]
    requires forall c :: c in s ==> c !in home || home[c] == h
    ensures RingsOK(fd', bk', rings[h := s], home')
  {
    OtherRings(fd, bk, fd', bk', rings, home, h);
    hide Ring, OnlyRing;
    ReplaceHomes(rings, home, home', h, s);
    hide HomesOK;
  }

  lemma InsertedMembers(s: seq<int>, x: int)
    requires |s| > 0
    ensures forall c :: c in [s[0], x] + s[1..] <==> c == x || c in s
  {
    assert s == [s[0]] + s[1..];
  }

  lemma InsertedHome(rings: map<int, seq<int>>, home: map<int, int>, h: int, x: int)
    requires HomesOK(rings, home) && h in rings && |rings[h]| > 0 && x !in home
    ensures forall c :: c in home[x := h] <==> (c in home && home[c] != h) || c == x || c in rings[h]
    ensures forall c :: c in home[x := h] ==> home[x := h][c] == if c == x || c in rings[h] then h else home[c]
    ensures forall c :: c in rings[h] ==> c in home && home[c] == h
  {
  }

  lemma TwoWrites(f: map<int, int>, home: map<int, int>, h: int, a: int, x: int, b: int, y: int)
    requires (a in home ==> home[a] == h) && (b in home ==> home[b] == h)
    ensures OnlyRing(f, f[a := x][b := y], home, h)
  {
  }

  lemma HeadFollower(fd: map<int, int>, bk: map<int, int>, rings: map<int, seq<int>>, home: map<int, int>, h: int)
    requires RingsOK(fd, bk, rings, home) && h in rings
    ensures rings[h][0] == h
    ensures var f := Rd(fd, h); f in home && home[f] == h && Rd(bk, f) == h
  {
    var s := rings[h];
    var k := Next(0, |s|);
    assert Ring(fd, bk, s);
    assert Rd(fd, s[0]) == s[k] && Rd(bk, s[k]) == s[0];
    assert s[k] in home && home[s[k]] == h;
  }

  /** Linking x in directly after head h. */
  lemma InsertAfterHead(fd: map<int, int>, bk: map<int, int>, rings: map<int, seq<int>>, home: map<int, int>, h: int,
                        x: int)
    requires RingsOK(fd, bk, rings, home) && h in rings && x !in home
    ensures var f := Rd(fd, h);
            && f in home && home[f] == h && Rd(bk, f) == h
            && RingsOK(fd[h := x][x := f], bk[f := x][x := h], rings[h := [h, x] + rings[h][1..]], home[x := h])
  {
    hide LinkedForward, LinkedBackward, Distinct, HomesOK, Rd, OnlyRing;
    var s := rings[h];
    HeadFollower(fd, bk, rings, home, h);
    HeadHome(fd, bk, rings, home, h);
    var f := Rd(fd, h);
    InsertedHome(rings, home, h, x);
    RingInsert(fd, bk, s, x);
    InsertedMembers(s, x);
    TwoWrites(fd, home, h, h, x, x, f);
    TwoWrites(bk, home, h, f, x, x, h);
    ReplaceRing(fd, bk, fd[h := x][x := f], bk[f := x][x := h], rings, home, home[x := h], h, [h, x] + s[1..]);
  }

  ghost function Without(s: seq<int>, x: int): seq<int>
    requires x in s
  {
    s[..Pos(s, x)] + s[Pos(s, x) + 1..]
  }

  lemma WithoutMembers(s: seq<int>, x: int)
    requires x in s && Distinct(s)
    ensures forall c :: c in Without(s, x) <==> c in s && c != x
  {
    var k := Pos(s, x);
    var t := Without(s, x);
    forall c | c in s && c != x
      ensures c in t
    {
      var i := Pos(s, c);
      assert t[if i < k then i else i - 1] == c;
    }
  }

  lemma MemberLinks(fd: map<int, int>, bk: map<int, int>, s: seq<int>, x: int)
    requires Ring(fd, bk, s) && x in s && s[0] != x
    ensures Ring(fd[Rd(bk, x) := Rd(fd, x)], bk[Rd(fd, x) := Rd(bk, x)], Without(s, x)) && Without(s, x)[0] == s[0]
  {
    RingRemove(fd, bk, s, Pos(s, x));
  }

  lemma Neighbours(fd: map<int, int>, bk: map<int, int>, rings: map<int, seq<int>>, home: map<int, int>, x: int)
    requires RingsOK(fd, bk, rings, home) && x in home && home[x] != x
    ensures var h, f, r := home[x], Rd(fd, x), Rd(bk, x);
            && h in rings && Ring(fd, bk, rings[h]) && x in rings[h] && |rings[h]| >= 2 && rings[h][0] == h
            && f in home && home[f] == h && r in home && home[r] == h && f != x && r != x
            && Rd(bk, f) == x && Rd(fd, r) == x
  {
    var s := rings[home[x]];
    var k := Pos(s, x);
    RingRemove(fd, bk, s, k);
    assert s[Next(k, |s|)] != s[k] && s[Prev(k, |s|)] != s[k];
    assert s[Next(k, |s|)] in home && s[Prev(k, |s|)] in home;
  }

  lemma WithoutHomes(rings: map<int, seq<int>>, home: map<int, int>, x: int)
    requires HomesOK(rings, home) && x in home && Distinct(rings[home[x]])
    ensures var s := Without(rings[home[x]], x); var h := home[x];
            && (forall c :: c in home - {x} <==> (c in home && home[c] != h) || c in s)
            && (forall c :: c in home - {x} ==> home[c] == if c in s then h else home[c])
            && (forall c :: c in s ==> c in home && home[c] == h)
  {
    var h := home[x];
    var r := rings[h];
    WithoutMembers(r, x);
    hide Without;
    forall c | c in r
      ensures c in home && home[c] == h
    {
      var j := Pos(r, c);
      assert rings[h][j] in home;
    }
  }

  /** Unlinking a member that is not the head; the ring keeps its head. */
  lemma RemoveMember(fd: map<int, int>, bk: map<int, int>, rings: map<int, seq<int>>, home: map<int, int>, x: int)
    requires RingsOK(fd, bk, rings, home) && x in home && home[x] != x
    ensures var h, f, r := home[x], Rd(fd, x), Rd(bk, x);
            && h in rings && x in rings[h] && |rings[h]| >= 2
            && f in home && home[f] == h && r in home && home[r] == h && f != x && r != x
            && Rd(bk, f) == x && Rd(fd, r) == x
            && RingsOK(fd[r := f], bk[f := r], rings[h := Without(rings[h], x)], home - {x})
  {
    var h := home[x];
    var s := rings[h];
    Neighbours(fd, bk, rings, home, x);
    WithoutMembers(s, x);
    WithoutHomes(rings, home, x);
    MemberLinks(fd, bk, s, x);
    hide Ring, RingsOK, HomesOK, Without;
    ReplaceRing(fd, bk, fd[Rd(bk, x) := Rd(fd, x)], bk[Rd(fd, x) := Rd(bk, x)], rings, home, home - {x}, h,
      Without(s, x));
  }

  /** A ring whose members are given up altogether; no link is written. */
  lemma DropRing(fd: map<int, int>, bk: map<int, int>, rings: map<int, seq<int>>, home: map<int, int>, h: int)
    requires RingsOK(fd, bk, rings, home) && h in rings
    ensures RingsOK(fd, bk, rings - {h}, home - (set c | c in rings[h]))
  {
    var home' := home - (set c | c in rings[h]);
    forall g, j: nat | g in rings - {h} && j < |rings[g]|
      ensures rings[g][j] in home' && home'[rings[g][j]] == g
    {
      assert rings[g][j] in home && home[rings[g][j]] == g;
    }
    forall c | c in home'
      ensures home'[c] in rings - {h}
    {
      assert c in rings[home[c]];
    }
  }

  ghost function Rehomed(home: map<int, int>, x: int, r: int): map<int, int> {
    map c | c in home && c != x :: if home[c] == x then r else home[c]
  }

  ghost function Rotated(s: seq<int>): seq<int>
    requires |s| >= 2
  {
    [s[|s| - 1]] + s[1..|s| - 1]
  }

  lemma HeadOut(fd: map<int, int>, bk: map<int, int>, s: seq<int>)
    requires Ring(fd, bk, s) && |s| >= 2
    ensures var f, r := Rd(fd, s[0]), Rd(bk, s[0]);
            && f == s[1] && r == s[|s| - 1] && Rd(bk, f) == s[0] && Rd(fd, r) == s[0]
            && Ring(fd[r := f], bk[f := r], Rotated(s))
  {
    hide LinkedForward, LinkedBackward, Distinct, Rd;
    RingRemove(fd, bk, s, 0);
    var f, r := Rd(fd, s[0]), Rd(bk, s[0]);
    var t := s[1..];
    assert s[..0] + s[1..] == t;
    RingRotate(fd[r := f], bk[f := r], t);
    assert [t[|t| - 1]] + t[..|t| - 1] == Rotated(s);
  }

  lemma RehomedOK(rings: map<int, seq<int>>, home: map<int, int>, x: int, r: int)
    requires x in rings && |rings[x]| >= 2 && rings[x][0] == x && Distinct(rings[x])
    requires r == rings[x][|rings[x]| - 1] && r !in rings
    requires HomesOK(rings, home)
    ensures HomesOK((rings - {x})[r := Rotated(rings[x])], Rehomed(home, x, r))
  {
    var s := rings[x];
    var rings' := (rings - {x})[r := Rotated(s)];
    var home' := Rehomed(home, x, r);
    forall h, j: nat | h in rings' && j < |rings'[h]|
      ensures rings'[h][j] in home' && home'[rings'[h][j]] == h
    {
      if h == r {
        var i := if j == 0 then |s| - 1 else j;
        assert rings'[h][j] == s[i];
        assert s[i] in home && home[s[i]] == x;
        assert s[0] == x;
      } else {
        assert rings[h][j] in home && home[rings[h][j]] == h;
      }
    }
    forall c | c in home'
      ensures home'[c] in rings' && c in rings'[home'[c]]
    {
      if home[c] == x {
        var i := Pos(s, c);
        assert s[0] == x;
        assert Rotated(s)[if i == |s| - 1 then 0 else i] == c;
      }
    }
  }

  /** Unlinking the head of a ring of at least two: its bk neighbour becomes the head. */
  lemma RemoveHead(fd: map<int, int>, bk: map<int, int>, rings: map<int, seq<int>>, home: map<int, int>, x: int)
    requires RingsOK(fd, bk, rings, home) && x in rings && |rings[x]| >= 2
    ensures var f, r := Rd(fd, x), Rd(bk, x);
            && f in home && home[f] == x && r in home && home[r] == x && r != x && f != x && r !in rings
            && Rd(bk, f) == x && Rd(fd, r) == x
            && RingsOK(fd[r := f], bk[f := r], (rings - {x})[r := Rotated(rings[x])], Rehomed(home, x, r))
  {
    var s := rings[x];
    HeadOut(fd, bk, s);
    var f, r := Rd(fd, x), Rd(bk, x);
    assert home[s[1]] == x && home[s[|s| - 1]] == x && home[s[Next(0, |s|)]] == x;
    if r in rings { HeadHome(fd, bk, rings, home, r); }
    OtherRings(fd, bk, fd[r := f], bk[f := r], rings, home, x);
    hide Ring;
    RehomedOK(rings, home, x, r);
  }

  /** Both neighbours coincide exactly in a ring of two. */
  lemma OnlyOther(fd: map<int, int>, bk: map<int, int>, rings: map<int, seq<int>>, home: map<int, int>, x: int)
    requires RingsOK(fd, bk, rings, home) && x in home && home[x] != x
    ensures home[x] in rings && |rings[home[x]]| >= 2
    ensures Rd(fd, x) == Rd(bk, x) <==> |rings[home[x]]| == 2
    ensures |rings[home[x]]| == 2 ==> rings[home[x]] == [home[x], x]
  {
    var s := rings[home[x]];
    var k := Pos(s, x);
    assert Ring(fd, bk, s) && s[0] == home[x];
    assert Rd(fd, s[k]) == s[Next(k, |s|)] && Rd(bk, s[k]) == s[Prev(k, |s|)];
    assert Next(k, |s|) == Prev(k, |s|) <==> |s| == 2;
  }

  /** A chunk is its own neighbour exactly when its ring has no other member. */
  lemma Alone(fd: map<int, int>, bk: map<int, int>, rings: map<int, seq<int>>, home: map<int, int>, x: int)
    requires RingsOK(fd, bk, rings, home) && x in home
    ensures home[x] in rings
    ensures Rd(bk, x) == x <==> |rings[home[x]]| == 1
    ensures |rings[home[x]]| == 1 ==> home[x] == x && rings[x] == [x]
  {
    var s := rings[home[x]];
    var k := Pos(s, x);
    assert Ring(fd, bk, s) && s[0] == home[x];
    assert Rd(bk, s[k]) == s[Prev(k, |s|)];
    assert Prev(k, |s|) == k <==> |s| == 1;
  }
}
