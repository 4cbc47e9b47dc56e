// The shape of a pointer forest as a mathematical value: who is whose parent, and the order of
// each sibling list.  The heap model of `struct MuttThread` is tied to such a value by
// Threads.Linked; everything that needs induction is proved here, on the value.
module Forests {
  import opened Wrappers

  // `roots` is the list of top-level nodes.  A node without a parent that is not in `roots` is
  // dangling.  `lvl` grows strictly from parent to child and stays below `depth`: it is the
  // witness that the parent relation has no cycle.
  datatype Forest<T(==)> = Forest(roots: seq<T>, par: map<T, Option<T>>, kids: map<T, seq<T>>,
                                  lvl: map<T, nat>, depth: nat)

  ghost predicate NoDup<T>(s: seq<T>) {
    s == [] || (s[0] !in s[1..] && NoDup(s[1..]))
  }

  ghost predicate WF<T>(f: Forest<T>) {
    && f.kids.Keys == f.par.Keys == f.lvl.Keys
    && (forall n :: n in f.par && f.par[n].Some? ==> ParentOK(f, n, f.par[n].value))
    && (forall n :: n in f.kids ==> KidsOK(f, n))
    && (forall n :: n in f.lvl ==> f.lvl[n] < f.depth)
    && NoDup(f.roots)
    && (forall r :: r in f.roots ==> r in f.par && f.par[r].None?)
  }

  ghost predicate ParentOK<T>(f: Forest<T>, n: T, p: T)
    requires f.kids.Keys == f.par.Keys == f.lvl.Keys && n in f.par
  {
    p in f.par && n in f.kids[p] && f.lvl[p] < f.lvl[n]
  }

  ghost predicate KidsOK<T>(f: Forest<T>, n: T)
    requires f.kids.Keys == f.par.Keys == f.lvl.Keys && n in f.par
  {
    && NoDup(f.kids[n])
    && (forall k :: k in f.kids[n] ==> k in f.par && f.par[k] == Some(n))
  }

  // Every table covers the same nodes, and nobody is their own parent.
  lemma Tables<T>(f: Forest<T>)
    requires WF(f)
    ensures f.kids.Keys == f.par.Keys == f.lvl.Keys
    ensures forall n :: n in f.par && f.par[n].Some? ==> f.par[n].value in f.par && f.par[n].value != n
  {
    forall n | n in f.par && f.par[n].Some? ensures f.par[n].value in f.par && f.par[n].value != n {
      assert ParentOK(f, n, f.par[n].value);
    }
  }

  // --- walking up ---

  ghost function Lvl<T>(f: Forest<T>, n: T): nat {
    if n in f.lvl then f.lvl[n] else 0
  }

  // The parent; None at a top-level or dangling node.
  ghost function Up<T>(f: Forest<T>, n: T): (p: Option<T>)
    ensures p.Some? ==> Lvl(f, p.value) < Lvl(f, n)
  {
    if n in f.par && f.par[n].Some? && Lvl(f, f.par[n].value) < Lvl(f, n) then f.par[n] else None
  }

  // b is a, or one of the ancestors of a.
  ghost predicate IsUnder<T>(f: Forest<T>, a: T, b: T)
    decreases Lvl(f, a)
  {
    a == b || (Up(f, a).Some? && IsUnder(f, Up(f, a).value, b))
  }

  // The end of the parent chain.
  ghost function Root<T>(f: Forest<T>, a: T): T
    decreases Lvl(f, a)
  {
    if Up(f, a).Some? then Root(f, Up(f, a).value) else a
  }

  lemma UnderTrans<T>(f: Forest<T>, a: T, b: T, c: T)
    requires IsUnder(f, a, b) && IsUnder(f, b, c)
    ensures IsUnder(f, a, c)
    decreases Lvl(f, a)
  {
    if a != b { UnderTrans(f, Up(f, a).value, b, c); }
  }

  // The parent relation has no cycle: a chain of parents does not come back to where it started.
  lemma {:induction false} NoCycle<T>(f: Forest<T>, chain: seq<T>)
    requires WF(f) && |chain| >= 2
    requires forall i :: 0 <= i < |chain| - 1 ==> chain[i] in f.par && f.par[chain[i]] == Some(chain[i + 1])
    ensures chain[0] in f.lvl && chain[|chain| - 1] in f.lvl && f.lvl[chain[|chain| - 1]] < f.lvl[chain[0]]
    ensures chain[0] != chain[|chain| - 1]
  {
    assert ParentOK(f, chain[0], chain[1]);
    if |chain| > 2 {
      var rest := chain[1..];
      forall i | 0 <= i < |rest| - 1 ensures rest[i] in f.par && f.par[rest[i]] == Some(rest[i + 1]) {
        assert rest[i] == chain[i + 1];
      }
      NoCycle(f, rest);
    }
  }

  // Two nodes that are under each other are the same node.
  lemma {:induction false} UnderBoth<T>(f: Forest<T>, a: T, b: T)
    requires IsUnder(f, a, b) && IsUnder(f, b, a)
    ensures a == b
  {
    UnderLvl(f, a, b);
    UnderLvl(f, b, a);
  }

  lemma {:induction false} UnderLvl<T>(f: Forest<T>, a: T, b: T)
    requires IsUnder(f, a, b)
    ensures a == b || Lvl(f, b) < Lvl(f, a)
    decreases Lvl(f, a)
  {
    if a != b { UnderLvl(f, Up(f, a).value, b); }
  }

  lemma {:induction false} UnderRoot<T>(f: Forest<T>, a: T)
    ensures IsUnder(f, a, Root(f, a)) && Up(f, Root(f, a)).None?
    decreases Lvl(f, a)
  {
    if Up(f, a).Some? { UnderRoot(f, Up(f, a).value); }
  }

  // A node on the way up from a, reached from a node whose chain it joins.
  lemma {:induction false} UnderComparable<T>(f: Forest<T>, a: T, b: T, c: T)
    requires IsUnder(f, a, b) && IsUnder(f, a, c)
    ensures IsUnder(f, b, c) || IsUnder(f, c, b)
    decreases Lvl(f, a)
  {
    if a != b && a != c { UnderComparable(f, Up(f, a).value, b, c); }
  }

  lemma {:induction false} UnderIn<T>(f: Forest<T>, a: T, b: T)
    requires WF(f) && a in f.par && IsUnder(f, a, b)
    ensures b in f.par
    decreases Lvl(f, a)
  {
    if a != b {
      assert ParentOK(f, a, f.par[a].value);
      UnderIn(f, f.par[a].value, b);
    }
  }

  // --- sibling order ---

  ghost function Later<T>(list: seq<T>, n: T): seq<T> {
    if list == [] then [] else if list[0] == n then list[1..] else Later(list[1..], n)
  }

  ghost function NextIn<T>(list: seq<T>, n: T): Option<T> {
    var l := Later(list, n);
    if l == [] then None else Some(l[0])
  }

  ghost function PrevIn<T>(list: seq<T>, n: T): Option<T> {
    if |list| < 2 || list[0] == n then None
    else if list[1] == n then Some(list[0])
    else PrevIn(list[1..], n)
  }

  ghost function First<T>(list: seq<T>): Option<T> {
    if list == [] then None else Some(list[0])
  }

  // The list n stands in.
  ghost function Sibs<T>(f: Forest<T>, n: T): seq<T> {
    if n in f.par && f.par[n].Some? then (if f.par[n].value in f.kids then f.kids[f.par[n].value] else [])
    else f.roots
  }

  ghost function NextOf<T>(f: Forest<T>, n: T): Option<T> { NextIn(Sibs(f, n), n) }
  ghost function PrevOf<T>(f: Forest<T>, n: T): Option<T> { PrevIn(Sibs(f, n), n) }
  ghost function FirstKid<T>(f: Forest<T>, n: T): Option<T> { if n in f.kids then First(f.kids[n]) else None }

  // The list l with x in front.
  lemma {:induction false} ConsOrder<T>(l: seq<T>, x: T, n: T)
    requires x !in l && n in l && NoDup(l)
    ensures NextIn([x] + l, n) == NextIn(l, n) && NextIn([x] + l, x) == First(l)
    ensures PrevIn([x] + l, x) == None
    ensures PrevIn([x] + l, n) == if n == l[0] then Some(x) else PrevIn(l, n)
  {
    assert ([x] + l)[1..] == l;
  }

  lemma {:induction false} RemoveOrder<T>(l: seq<T>, x: T, n: T)
    requires x in l && n in l && n != x && NoDup(l)
    ensures NextIn(Remove(l, x), n) == if NextIn(l, n) == Some(x) then NextIn(l, x) else NextIn(l, n)
    ensures PrevIn(Remove(l, x), n) == if PrevIn(l, n) == Some(x) then PrevIn(l, x) else PrevIn(l, n)
  {
    var t := l[1..];
    if l[0] == x {
      OrderIn(t, n);
    } else if l[0] == n {
      NextSwap(t, x);
    } else {
      RemoveOrder(t, x, n);
      assert Remove(l, x)[1..] == Remove(t, x);
      assert Remove(t, x)[0] == if t[0] == x then t[1] else t[0];
    }
  }

  // A neighbour is in the list.
  lemma {:induction false} OrderIn<T>(l: seq<T>, n: T)
    ensures NextIn(l, n).Some? ==> NextIn(l, n).value in l
    ensures PrevIn(l, n).Some? ==> PrevIn(l, n).value in l
  {
    if l != [] { OrderIn(l[1..], n); }
  }

  lemma {:induction false} NextSwap<T>(l: seq<T>, x: T)
    requires x in l && NoDup(l)
    ensures First(Remove(l, x)) == if l[0] == x then NextIn(l, x) else First(l)
  {
  }

  lemma {:induction false} NextPrev<T>(l: seq<T>, a: T, b: T)
    requires a in l && b in l && NoDup(l)
    ensures NextIn(l, a) == Some(b) <==> PrevIn(l, b) == Some(a)
  {
    var t := l[1..];
    OrderIn(t, a);
    OrderIn(t, b);
    if l[0] == a || l[0] == b {
    } else {
      NextPrev(t, a, b);
    }
  }

  // --- editing ---

  function Remove<T(==)>(s: seq<T>, x: T): (r: seq<T>)
    ensures x !in s ==> r == s
    ensures forall y :: y in r ==> y in s
    ensures forall y :: y in s && y != x ==> y in r
  {
    if s == [] then [] else if s[0] == x then s[1..] else [s[0]] + Remove(s[1..], x)
  }

  lemma {:induction false} RemoveNoDup<T>(s: seq<T>, x: T)
    requires NoDup(s)
    ensures x !in Remove(s, x) && NoDup(Remove(s, x))
  {
    if s != [] && s[0] != x {
      RemoveNoDup(s[1..], x);
    }
  }

  // c, dangling, becomes the first child of p.
  ghost function Insert<T>(f: Forest<T>, p: T, c: T): Forest<T>
    requires p in f.kids && p in f.lvl
  {
    var up := f.lvl[p] + 1;
    Forest(f.roots, f.par[c := Some(p)], f.kids[p := [c] + f.kids[p]],
           map n | n in f.lvl :: if IsUnder(f, n, c) then f.lvl[n] + up else f.lvl[n],
           f.depth + up)
  }

  ghost predicate Dangling<T>(f: Forest<T>, c: T) {
    c in f.par && f.par[c].None? && c !in f.roots
  }

  lemma InsertWF<T>(f: Forest<T>, p: T, c: T)
    requires WF(f) && p in f.par && Dangling(f, c) && !IsUnder(f, p, c)
    ensures WF(Insert(f, p, c))
  {
    var g := Insert(f, p, c);
    assert c !in f.kids[p];
    forall n | n in g.par && g.par[n].Some? ensures ParentOK(g, n, g.par[n].value) {
      if n != c {
        assert ParentOK(f, n, f.par[n].value);
        assert Up(f, n) == f.par[n];
      }
    }
    forall n | n in g.kids ensures KidsOK(g, n) {
      assert KidsOK(f, n);
    }
  }

  // After the insertion a is under b if it was, or if a was under c and p was under b.
  lemma InsertUnder<T>(f: Forest<T>, p: T, c: T, a: T, b: T)
    requires WF(f) && p in f.par && Dangling(f, c) && !IsUnder(f, p, c)
    ensures IsUnder(Insert(f, p, c), a, b) <==> IsUnder(f, a, b) || (IsUnder(f, a, c) && IsUnder(f, p, b))
    decreases Lvl(f, a) + (if IsUnder(f, a, c) then f.depth else 0)
  {
    var g := Insert(f, p, c);
    InsertWF(f, p, c);
    if a == b {
    } else if a == c {
      assert ParentOK(g, c, p);
      assert Up(g, a) == Some(p) && Up(f, a).None?;
      InsertUnder(f, p, c, p, b);
    } else if a in f.par && f.par[a].Some? {
      var q := f.par[a].value;
      assert ParentOK(f, a, q) && ParentOK(g, a, q);
      assert Up(g, a) == Some(q) == Up(f, a);
      InsertUnder(f, p, c, q, b);
    } else {
      assert Up(g, a).None? && Up(f, a).None?;
    }
  }

  // c leaves the child list of its parent.
  ghost function Unlink<T>(f: Forest<T>, c: T): Forest<T>
    requires c in f.par && f.par[c].Some? && f.par[c].value in f.kids
  {
    var p := f.par[c].value;
    f.(par := f.par[c := None], kids := f.kids[p := Remove(f.kids[p], c)])
  }

  // c leaves the list of top-level nodes.
  ghost function UnlinkRoot<T>(f: Forest<T>, c: T): Forest<T> {
    f.(roots := Remove(f.roots, c))
  }

  lemma UnlinkWF<T>(f: Forest<T>, c: T)
    requires WF(f) && c in f.par && f.par[c].Some?
    ensures WF(Unlink(f, c)) && Dangling(Unlink(f, c), c)
  {
    var g := Unlink(f, c);
    var p := f.par[c].value;
    assert ParentOK(f, c, p) && KidsOK(f, p);
    RemoveNoDup(f.kids[p], c);
    forall n | n in g.par && g.par[n].Some? ensures ParentOK(g, n, g.par[n].value) {
      assert ParentOK(f, n, f.par[n].value);
    }
    forall n | n in g.kids ensures KidsOK(g, n) {
      assert KidsOK(f, n);
      forall k | k in g.kids[n] ensures k in g.par && g.par[k] == Some(n) {
        assert k in f.kids[n];
      }
    }
  }

  lemma UnlinkRootWF<T>(f: Forest<T>, c: T)
    requires WF(f) && c in f.roots
    ensures WF(UnlinkRoot(f, c)) && Dangling(UnlinkRoot(f, c), c)
  {
    RemoveNoDup(f.roots, c);
    assert forall n :: n in f.kids ==> KidsOK(f, n) ==> KidsOK(UnlinkRoot(f, c), n);
    assert forall n :: n in f.par && f.par[n].Some? ==> ParentOK(f, n, f.par[n].value) ==> ParentOK(UnlinkRoot(f, c), n, f.par[n].value);
  }

  // Unlinking c cuts exactly the chains that passed through c.
  lemma UnlinkUnder<T>(f: Forest<T>, c: T, a: T, b: T)
    requires WF(f) && c in f.par && f.par[c].Some?
    ensures IsUnder(Unlink(f, c), a, b) <==> IsUnder(f, a, b) && (IsUnder(f, a, c) ==> IsUnder(f, b, c))
    decreases Lvl(f, a)
  {
    var g := Unlink(f, c);
    UnlinkWF(f, c);
    if a == b {
    } else if a == c {
      if IsUnder(f, c, b) && IsUnder(f, b, c) { UnderBoth(f, b, c); }
    } else if a in f.par && f.par[a].Some? {
      var q := f.par[a].value;
      assert ParentOK(f, a, q) && ParentOK(g, a, q);
      UnlinkUnder(f, c, q, b);
    } else {
    }
  }

  // --- what an edit does to the links of each node ---

  ghost predicate Attached<T>(f: Forest<T>, n: T) {
    n in f.par && !Dangling(f, n)
  }

  lemma AttachedInSibs<T>(f: Forest<T>, n: T)
    requires WF(f) && Attached(f, n)
    ensures n in Sibs(f, n) && NoDup(Sibs(f, n))
    ensures forall k :: k in Sibs(f, n) ==> Attached(f, k) && f.par[k] == f.par[n]
  {
    if f.par[n].Some? {
      assert ParentOK(f, n, f.par[n].value);
      assert KidsOK(f, f.par[n].value);
    }
  }

  // What an insertion does to node n, without the recursion behind it.
  ghost predicate InsertAt<T>(f: Forest<T>, g: Forest<T>, p: T, c: T, n: T) {
    && FirstKid(g, n) == (if n == p then Some(c) else FirstKid(f, n))
    && (n == c ==> NextOf(g, n) == FirstKid(f, p) && PrevOf(g, n) == None)
    && (Attached(g, n) <==> Attached(f, n) || n == c)
    && (Attached(f, n) ==>
          && NextOf(g, n) == NextOf(f, n)
          && PrevOf(g, n) == if FirstKid(f, p) == Some(n) then Some(c) else PrevOf(f, n))
    && (FirstKid(f, p) == Some(n) ==> Attached(f, n))
  }

  lemma InsertLinks<T>(f: Forest<T>, p: T, c: T, n: T)
    requires WF(f) && p in f.par && Dangling(f, c) && !IsUnder(f, p, c) && n in f.par
    ensures InsertAt(f, Insert(f, p, c), p, c, n)
  {
    var l := f.kids[p];
    assert KidsOK(f, p);
    assert c !in l;
    if n == c {
      assert ([c] + l)[1..] == l;
    } else if Attached(f, n) {
      AttachedInSibs(f, n);
      if f.par[n] == Some(p) { ConsOrder(l, c, n); }
    }
  }

  ghost predicate UnlinkAt<T>(f: Forest<T>, g: Forest<T>, c: T, n: T) {
    && FirstKid(g, n) == (if FirstKid(f, n) == Some(c) then NextOf(f, c) else FirstKid(f, n))
    && (FirstKid(f, n) == Some(c) <==> Up(f, c) == Some(n) && PrevOf(f, c) == None)
    && (Attached(g, n) <==> Attached(f, n) && n != c)
    && (Attached(g, n) ==>
          && NextOf(g, n) == (if PrevOf(f, c) == Some(n) then NextOf(f, c) else NextOf(f, n))
          && PrevOf(g, n) == (if NextOf(f, c) == Some(n) then PrevOf(f, c) else PrevOf(f, n)))
    && (PrevOf(f, c) == Some(n) || NextOf(f, c) == Some(n) ==> Attached(f, n))
  }

  lemma UnlinkLinks<T>(f: Forest<T>, c: T, n: T)
    requires WF(f) && c in f.par && f.par[c].Some? && n in f.par
    ensures UnlinkAt(f, Unlink(f, c), c, n)
  {
    UnlinkWF(f, c);
    UnlinkFirstKid(f, c, n);
    AttachedInSibs(f, c);
    OrderIn(Sibs(f, c), c);
    if Attached(f, n) && n != c { UnlinkSibs(f, c, n); }
  }

  // The same for a top-level node.
  ghost predicate UnlinkRootAt<T>(f: Forest<T>, g: Forest<T>, c: T, n: T) {
    && FirstKid(g, n) == FirstKid(f, n)
    && (Attached(g, n) <==> Attached(f, n) && n != c)
    && (Attached(g, n) ==>
          && NextOf(g, n) == (if PrevOf(f, c) == Some(n) then NextOf(f, c) else NextOf(f, n))
          && PrevOf(g, n) == (if NextOf(f, c) == Some(n) then PrevOf(f, c) else PrevOf(f, n)))
    && (PrevOf(f, c) == Some(n) || NextOf(f, c) == Some(n) ==> Attached(f, n))
  }

  lemma UnlinkRootLinks<T>(f: Forest<T>, c: T, n: T)
    requires WF(f) && c in f.roots && n in f.par
    ensures UnlinkRootAt(f, UnlinkRoot(f, c), c, n)
  {
    UnlinkRootWF(f, c);
    OrderIn(f.roots, c);
    RemoveNoDup(f.roots, c);
    if Attached(f, n) && n != c {
      AttachedInSibs(f, n);
      if f.par[n].None? { RemoveLinks(f.roots, c, n); }
    }
  }

  // Leaving the top level cuts no chain.
  lemma UnlinkRootUnder<T>(f: Forest<T>, c: T, a: T, b: T)
    requires WF(f) && c in f.roots
    ensures IsUnder(UnlinkRoot(f, c), a, b) <==> IsUnder(f, a, b)
    decreases Lvl(f, a)
  {
    var g := UnlinkRoot(f, c);
    assert Up(g, a) == Up(f, a);
    if a != b && Up(f, a).Some? { UnlinkRootUnder(f, c, Up(f, a).value, b); }
  }

  lemma UnlinkFirstKid<T>(f: Forest<T>, c: T, n: T)
    requires WF(f) && c in f.par && f.par[c].Some? && n in f.par
    ensures FirstKid(Unlink(f, c), n) == (if FirstKid(f, n) == Some(c) then NextOf(f, c) else FirstKid(f, n))
    ensures FirstKid(f, n) == Some(c) <==> Some(n) == Up(f, c) && PrevOf(f, c) == None
  {
    AttachedInSibs(f, c);
    assert KidsOK(f, n);
    if f.par[c] == Some(n) {
      NextSwap(f.kids[n], c);
      FirstPrev(f.kids[n], c);
    }
  }

  lemma RemoveLinks<T>(l: seq<T>, x: T, n: T)
    requires x in l && n in l && n != x && NoDup(l)
    ensures NextIn(Remove(l, x), n) == if PrevIn(l, x) == Some(n) then NextIn(l, x) else NextIn(l, n)
    ensures PrevIn(Remove(l, x), n) == if NextIn(l, x) == Some(n) then PrevIn(l, x) else PrevIn(l, n)
  {
    RemoveOrder(l, x, n);
    NextPrev(l, n, x);
    NextPrev(l, x, n);
  }

  lemma UnlinkSibs<T>(f: Forest<T>, c: T, n: T)
    requires WF(f) && c in f.par && f.par[c].Some? && Attached(f, n) && n != c
    ensures NextOf(Unlink(f, c), n) == (if PrevOf(f, c) == Some(n) then NextOf(f, c) else NextOf(f, n))
    ensures PrevOf(Unlink(f, c), n) == (if NextOf(f, c) == Some(n) then PrevOf(f, c) else PrevOf(f, n))
  {
    hide NextIn, PrevIn, Remove;
    var l := f.kids[f.par[c].value];
    AttachedInSibs(f, c);
    AttachedInSibs(f, n);
    if f.par[n] == f.par[c] {
      RemoveLinks(l, c, n);
    } else {
      OrderIn(l, c);
    }
  }

  lemma FirstPrev<T>(l: seq<T>, c: T)
    requires c in l && NoDup(l)
    ensures PrevIn(l, c) == None <==> l[0] == c
  {
  }

  lemma {:induction false} NextAt<T>(l: seq<T>, i: nat)
    requires i < |l| && NoDup(l)
    ensures NextIn(l, l[i]) == if i + 1 < |l| then Some(l[i + 1]) else None
  {
    if i > 0 {
      assert l[1..][i - 1] == l[i];
      NextAt(l[1..], i - 1);
    }
  }

  lemma {:induction false} NoDupTail<T>(a: seq<T>, b: seq<T>)
    requires NoDup(a + b)
    ensures NoDup(b)
  {
    if a == [] {
      assert [] + b == b;
    } else {
      assert (a + b)[1..] == a[1..] + b;
      NoDupTail(a[1..], b);
    }
  }

  lemma {:induction false} RemoveAt<T>(a: seq<T>, x: T, b: seq<T>)
    requires NoDup(a + [x] + b)
    ensures Remove(a + [x] + b, x) == a + b
  {
    if a == [] {
      assert [] + [x] + b == [x] + b;
    } else {
      var l := a + [x] + b;
      assert l[1..] == a[1..] + [x] + b && l[|a|] == x;
      assert l[1..][|a| - 1] == x;
      RemoveAt(a[1..], x, b);
      assert [a[0]] + (a[1..] + b) == a + b;
    }
  }

  // --- new nodes, and the temporary node on top ---

  ghost predicate SameLinks<T>(f: Forest<T>, g: Forest<T>, a: T) {
    && FirstKid(g, a) == FirstKid(f, a) && Attached(g, a) == Attached(f, a)
    && (Attached(f, a) ==> NextOf(g, a) == NextOf(f, a) && PrevOf(g, a) == PrevOf(f, a))
  }

  ghost function AddNode<T>(f: Forest<T>, n: T): Forest<T> {
    Forest(f.roots, f.par[n := None], f.kids[n := []], f.lvl[n := 0], f.depth + 1)
  }

  lemma AddNodeWF<T>(f: Forest<T>, n: T)
    requires WF(f) && n !in f.par
    ensures WF(AddNode(f, n)) && Dangling(AddNode(f, n), n)
  {
    var g := AddNode(f, n);
    forall a | a in g.par && g.par[a].Some? ensures ParentOK(g, a, g.par[a].value) {
      assert ParentOK(f, a, f.par[a].value);
    }
    forall a | a in f.kids ensures KidsOK(g, a) { assert KidsOK(f, a); }
  }

  lemma AddNodeLinks<T>(f: Forest<T>, n: T, a: T)
    requires WF(f) && n !in f.par && a in f.par
    ensures SameLinks(f, AddNode(f, n), a)
  {
    if Attached(f, a) { AttachedInSibs(f, a); }
    if f.par[a].Some? { assert ParentOK(f, a, f.par[a].value); }
  }

  lemma {:induction false} AddNodeUnder<T>(f: Forest<T>, n: T, a: T, b: T)
    requires WF(f) && n !in f.par
    ensures IsUnder(AddNode(f, n), a, b) == IsUnder(f, a, b)
    decreases Lvl(f, a)
  {
    AddNodeWF(f, n);
    if a in f.par && f.par[a].Some? {
      assert ParentOK(f, a, f.par[a].value);
      AddNodeUnder(f, n, f.par[a].value, b);
    }
  }

  // All top-level nodes become the children of the new node t.
  ghost function RaiseTop<T>(f: Forest<T>, t: T): Forest<T> {
    Forest([],
           map n | n in f.par.Keys + {t} :: if n == t || n !in f.par then None else if n in f.roots then Some(t) else f.par[n],
           map n | n in f.kids.Keys + {t} :: if n == t || n !in f.kids then f.roots else f.kids[n],
           map n | n in f.lvl.Keys + {t} :: if n == t || n !in f.lvl then 0 else f.lvl[n] + 1,
           f.depth + 1)
  }

  // The children of the parentless node t become top-level, and t goes away.
  ghost function DropTop<T>(f: Forest<T>, t: T): Forest<T>
    requires t in f.kids
  {
    Forest(f.kids[t], map n | n in f.par && n != t :: if f.par[n] == Some(t) then None else f.par[n],
           map n | n in f.kids && n != t :: f.kids[n], map n | n in f.lvl && n != t :: f.lvl[n], f.depth)
  }

  lemma RaiseTopWF<T>(f: Forest<T>, t: T)
    requires WF(f) && t !in f.par
    ensures WF(RaiseTop(f, t))
  {
    var g := RaiseTop(f, t);
    forall a | a in g.par && g.par[a].Some? ensures ParentOK(g, a, g.par[a].value) {
      if a !in f.roots { assert ParentOK(f, a, f.par[a].value); }
    }
    forall a | a in g.kids ensures KidsOK(g, a) {
      if a != t { assert KidsOK(f, a); }
    }
  }

  lemma RaiseTopLinks<T>(f: Forest<T>, t: T, a: T)
    requires WF(f) && t !in f.par && a in f.par
    ensures SameLinks(f, RaiseTop(f, t), a)
  {
    if Attached(f, a) { AttachedInSibs(f, a); }
    if f.par[a].Some? { assert ParentOK(f, a, f.par[a].value); }
  }

  lemma DropTopWF<T>(f: Forest<T>, t: T)
    requires WF(f) && t in f.par && f.par[t].None? && f.roots == []
    ensures WF(DropTop(f, t))
  {
    var g := DropTop(f, t);
    assert KidsOK(f, t);
    forall a | a in g.par && g.par[a].Some? ensures ParentOK(g, a, g.par[a].value) {
      assert ParentOK(f, a, f.par[a].value);
    }
    forall a | a in g.kids ensures KidsOK(g, a) {
      assert KidsOK(f, a);
    }
  }

  lemma DropTopLinks<T>(f: Forest<T>, t: T, a: T)
    requires WF(f) && t in f.par && f.par[t].None? && f.roots == [] && a in f.par && a != t
    ensures SameLinks(f, DropTop(f, t), a)
  {
    assert KidsOK(f, t);
    if f.par[a].Some? { assert ParentOK(f, a, f.par[a].value); }
  }

  lemma {:induction false} DropTopUnder<T>(f: Forest<T>, t: T, a: T, b: T)
    requires WF(f) && t in f.par && f.par[t].None? && f.roots == []
    requires a != t && b != t
    ensures IsUnder(DropTop(f, t), a, b) == IsUnder(f, a, b)
    decreases Lvl(f, a)
  {
    DropTopWF(f, t);
    if a != b && a in f.par && f.par[a].Some? {
      assert ParentOK(f, a, f.par[a].value);
      if f.par[a] != Some(t) {
        assert ParentOK(DropTop(f, t), a, f.par[a].value);
        DropTopUnder(f, t, f.par[a].value, b);
      }
    }
  }
}
