// The preorder of a forest, and what a pointer walk through it still has ahead of it.
module Preorder {
  import opened Wrappers
  import opened Forests

  ghost function Room<T>(f: Forest<T>, n: T): nat {
    if n in f.lvl && f.lvl[n] < f.depth then f.depth - f.lvl[n] else 0
  }

  // The children.
  ghost function Down<T>(f: Forest<T>, n: T): (ks: seq<T>)
    ensures forall k :: k in ks ==> Room(f, k) < Room(f, n)
  {
    if n in f.kids && forall k :: k in f.kids[n] ==> Room(f, k) < Room(f, n) then f.kids[n] else []
  }

  ghost function MaxRoom<T>(f: Forest<T>, ns: seq<T>): (r: nat)
    ensures forall k :: k in ns ==> Room(f, k) <= r
    ensures ns == [] || exists k :: k in ns && Room(f, k) == r
  {
    if ns == [] then 0
    else
      var r := MaxRoom(f, ns[1..]);
      if Room(f, ns[0]) >= r then Room(f, ns[0]) else r
  }

  ghost function Pre<T>(f: Forest<T>, n: T): seq<T>
    decreases Room(f, n), 1, 0
  {
    [n] + if Down(f, n) == [] then [] else PreAll(f, Down(f, n))
  }

  ghost function PreAll<T>(f: Forest<T>, ns: seq<T>): seq<T>
    decreases MaxRoom(f, ns), 2, |ns|
  {
    if ns == [] then [] else Pre(f, ns[0]) + PreAll(f, ns[1..])
  }

  lemma DownKids<T>(f: Forest<T>, n: T)
    requires WF(f) && n in f.par
    ensures n in f.kids && Down(f, n) == f.kids[n]
    ensures Pre(f, n) == [n] + PreAll(f, f.kids[n])
  {
    forall k | k in f.kids[n] ensures Room(f, k) < Room(f, n) {
      assert KidsOK(f, n) && ParentOK(f, k, n);
    }
  }

  lemma {:induction false} PreAllAppend<T>(f: Forest<T>, a: seq<T>, b: seq<T>)
    ensures PreAll(f, a + b) == PreAll(f, a) + PreAll(f, b)
    decreases |a|
  {
    if a == [] {
      assert [] + b == b;
    } else {
      assert (a + b)[1..] == a[1..] + b;
      PreAllAppend(f, a[1..], b);
    }
  }

  // --- membership: the preorder of n is the set of nodes under n ---

  lemma {:induction false} PreUnder<T>(f: Forest<T>, n: T, x: T)
    requires WF(f) && n in f.par && x in Pre(f, n)
    ensures x in f.par && IsUnder(f, x, n)
    decreases Room(f, n), 1, 0
  {
    DownKids(f, n);
    if x != n {
      assert KidsOK(f, n);
      PreAllUnder(f, f.kids[n], n, x);
    }
  }

  lemma {:induction false} PreAllUnder<T>(f: Forest<T>, ns: seq<T>, p: T, x: T)
    requires WF(f) && x in PreAll(f, ns) && forall k :: k in ns ==> k in f.par && f.par[k] == Some(p)
    ensures x in f.par && x != p && IsUnder(f, x, p) && exists k :: k in ns && IsUnder(f, x, k)
    decreases MaxRoom(f, ns), 2, |ns|
  {
    if x in Pre(f, ns[0]) {
      var k := ns[0];
      PreUnder(f, k, x);
      assert ParentOK(f, k, p);
      assert Up(f, k) == Some(p);
      UnderTrans(f, x, k, p);
      UnderLvl(f, x, k);
    } else {
      PreAllUnder(f, ns[1..], p, x);
    }
  }

  lemma {:induction false} UnderPre<T>(f: Forest<T>, n: T, x: T)
    requires WF(f) && x in f.par && IsUnder(f, x, n)
    ensures n in f.par && x in Pre(f, n)
    decreases Lvl(f, x)
  {
    if x == n {
      DownKids(f, n);
    } else {
      var p := f.par[x].value;
      assert ParentOK(f, x, p);
      UnderPre(f, n, p);
      PreStep(f, n, p, x);
    }
  }

  // The preorder of n goes on below every node in it.
  lemma {:induction false} PreStep<T>(f: Forest<T>, n: T, p: T, x: T)
    requires WF(f) && n in f.par && p in Pre(f, n) && p in f.par && p in f.kids && x in f.kids[p]
    ensures x in Pre(f, n)
    decreases Room(f, n), 1, 0
  {
    DownKids(f, n);
    assert KidsOK(f, n);
    if p == n {
      InPreAll(f, f.kids[n], x);
    } else {
      PreAllStep(f, f.kids[n], p, x);
    }
  }

  lemma {:induction false} InPreAll<T>(f: Forest<T>, ns: seq<T>, x: T)
    requires x in ns
    ensures x in PreAll(f, ns)
    decreases |ns|
  {
    if x != ns[0] { InPreAll(f, ns[1..], x); }
  }

  lemma {:induction false} PreAllStep<T>(f: Forest<T>, ns: seq<T>, p: T, x: T)
    requires WF(f) && p in PreAll(f, ns) && p in f.par && p in f.kids && x in f.kids[p] && forall k :: k in ns ==> k in f.par
    ensures x in PreAll(f, ns)
    decreases MaxRoom(f, ns), 2, |ns|
  {
    if p in Pre(f, ns[0]) {
      PreStep(f, ns[0], p, x);
    } else {
      PreAllStep(f, ns[1..], p, x);
    }
  }

  // --- every node once ---

  lemma {:induction false} NoDupConcat<T>(a: seq<T>, b: seq<T>)
    requires NoDup(a) && NoDup(b) && forall x :: x in a ==> x !in b
    ensures NoDup(a + b)
  {
    if a == [] {
      assert [] + b == b;
    } else {
      assert (a + b)[1..] == a[1..] + b;
      NoDupConcat(a[1..], b);
    }
  }

  // Subtrees of two siblings share no node.
  lemma SiblingsApart<T>(f: Forest<T>, a: T, b: T, x: T)
    requires WF(f) && a in f.par && b in f.par && f.par[a] == f.par[b] && IsUnder(f, x, a) && IsUnder(f, x, b)
    ensures a == b
  {
    UnderComparable(f, x, a, b);
    if a != b {
      if IsUnder(f, a, b) { UnderParent(f, a, b); } else { UnderParent(f, b, a); }
    }
  }

  lemma UnderParent<T>(f: Forest<T>, a: T, b: T)
    requires WF(f) && a in f.par && b in f.par && f.par[a] == f.par[b] && a != b
    ensures !IsUnder(f, a, b)
  {
    UpIsPar(f, a);
    if f.par[a].Some? {
      var p := f.par[a].value;
      assert ParentOK(f, b, p);
      if IsUnder(f, p, b) { UnderLvl(f, p, b); }
    }
  }

  lemma {:induction false} PreNoDup<T>(f: Forest<T>, n: T)
    requires WF(f) && n in f.par
    ensures NoDup(Pre(f, n))
    decreases Room(f, n), 1, 0
  {
    DownKids(f, n);
    assert KidsOK(f, n);
    PreAllNoDup(f, f.kids[n], Some(n));
    if n in PreAll(f, f.kids[n]) { PreAllUnder(f, f.kids[n], n, n); }
    assert Pre(f, n)[1..] == PreAll(f, f.kids[n]);
  }

  lemma {:induction false} PreAllNoDup<T>(f: Forest<T>, ns: seq<T>, p: Option<T>)
    requires WF(f) && NoDup(ns) && forall k :: k in ns ==> k in f.par && f.par[k] == p
    ensures NoDup(PreAll(f, ns))
    decreases MaxRoom(f, ns), 2, |ns|
  {
    if ns != [] {
      PreNoDup(f, ns[0]);
      PreAllNoDup(f, ns[1..], p);
      forall x | x in Pre(f, ns[0]) ensures x !in PreAll(f, ns[1..]) {
        if x in PreAll(f, ns[1..]) {
          PreUnder(f, ns[0], x);
          var k := PreAllOwner(f, ns[1..], x);
          SiblingsApart(f, ns[0], k, x);
        }
      }
      NoDupConcat(Pre(f, ns[0]), PreAll(f, ns[1..]));
    }
  }

  lemma {:induction false} PreAllOwner<T>(f: Forest<T>, ns: seq<T>, x: T) returns (k: T)
    requires WF(f) && x in PreAll(f, ns) && forall k :: k in ns ==> k in f.par
    ensures k in ns && x in f.par && IsUnder(f, x, k)
    decreases |ns|
  {
    if x in Pre(f, ns[0]) {
      PreUnder(f, ns[0], x);
      k := ns[0];
    } else {
      k := PreAllOwner(f, ns[1..], x);
    }
  }

  // The whole forest, in order: each node whose chain of parents ends at the top level, once.
  lemma ForestOnce<T>(f: Forest<T>)
    requires WF(f)
    ensures NoDup(PreAll(f, f.roots))
    ensures forall x :: x in PreAll(f, f.roots) ==> x in f.par && Root(f, x) in f.roots
    ensures forall x :: x in f.par && Root(f, x) in f.roots ==> x in PreAll(f, f.roots)
  {
    PreAllNoDup(f, f.roots, None);
    forall x | x in PreAll(f, f.roots) ensures x in f.par && Root(f, x) in f.roots {
      var r := PreAllOwner(f, f.roots, x);
      RootAt(f, x, r);
    }
    forall x | x in f.par && Root(f, x) in f.roots ensures x in PreAll(f, f.roots) {
      UnderRoot(f, x);
      UnderPre(f, Root(f, x), x);
      PreInAll(f, f.roots, Root(f, x), x);
    }
  }

  lemma {:induction false} RootAt<T>(f: Forest<T>, x: T, r: T)
    requires IsUnder(f, x, r) && Up(f, r).None?
    ensures Root(f, x) == r
    decreases Lvl(f, x)
  {
    if x != r { RootAt(f, Up(f, x).value, r); }
  }

  lemma {:induction false} PreInAll<T>(f: Forest<T>, ns: seq<T>, n: T, x: T)
    requires n in ns && x in Pre(f, n)
    ensures x in PreAll(f, ns)
    decreases |ns|
  {
    if n != ns[0] { PreInAll(f, ns[1..], n, x); }
  }

  // --- what is ahead of a walk that stands at n ---

  ghost function After<T>(f: Forest<T>, n: T): seq<T>
    decreases Lvl(f, n)
  {
    PreAll(f, Later(Sibs(f, n), n)) + if Up(f, n).Some? then After(f, Up(f, n).value) else []
  }

  lemma {:induction false} LaterNext<T>(l: seq<T>, n: T)
    requires n in l && NoDup(l) && Later(l, n) != []
    ensures Later(l, Later(l, n)[0]) == Later(l, n)[1..] && Later(l, n)[0] in l
  {
    if l[0] != n {
      LaterNext(l[1..], n);
    }
  }

  lemma ToChild<T>(f: Forest<T>, n: T)
    requires WF(f) && n in f.par && n in f.kids && f.kids[n] != []
    ensures var k := f.kids[n][0];
            k in f.par && f.par[k] == Some(n) && Pre(f, n) + After(f, n) == [n] + (Pre(f, k) + After(f, k))
  {
    var k := f.kids[n][0];
    DownKids(f, n);
    assert KidsOK(f, n) && ParentOK(f, k, n);
    assert Later(f.kids[n], k) == f.kids[n][1..];
    var rest := PreAll(f, f.kids[n][1..]);
    assert [n] + (Pre(f, k) + rest) + After(f, n) == [n] + (Pre(f, k) + (rest + After(f, n)));
  }

  lemma ToNext<T>(f: Forest<T>, n: T)
    requires WF(f) && Attached(f, n) && NextOf(f, n).Some?
    ensures var m := NextOf(f, n).value;
            Attached(f, m) && f.par[m] == f.par[n] && After(f, n) == Pre(f, m) + After(f, m)
  {
    AttachedInSibs(f, n);
    var l := Sibs(f, n);
    var m := NextOf(f, n).value;
    LaterNext(l, n);
    assert Later(l, n) == [m] + Later(l, m);
    UpIsPar(f, n);
    UpIsPar(f, m);
    var up := if Up(f, n).Some? then After(f, Up(f, n).value) else [];
    assert (Pre(f, m) + PreAll(f, Later(l, m))) + up == Pre(f, m) + (PreAll(f, Later(l, m)) + up);
  }

  lemma UpIsPar<T>(f: Forest<T>, n: T)
    requires WF(f) && n in f.par
    ensures Up(f, n) == f.par[n]
  {
    if f.par[n].Some? { assert ParentOK(f, n, f.par[n].value); }
  }

  lemma ToParent<T>(f: Forest<T>, n: T)
    requires WF(f) && Attached(f, n) && NextOf(f, n).None?
    ensures f.par[n].None? ==> After(f, n) == []
    ensures f.par[n].Some? ==> Attached(f, f.par[n].value) || f.par[f.par[n].value].None?
    ensures f.par[n].Some? ==> f.par[n].value in f.par && After(f, n) == After(f, f.par[n].value)
  {
    UpIsPar(f, n);
    if f.par[n].Some? { assert ParentOK(f, n, f.par[n].value); }
    assert PreAll(f, []) == [];
  }

  lemma AtFirst<T>(f: Forest<T>)
    requires WF(f) && f.roots != []
    ensures Attached(f, f.roots[0]) && PreAll(f, f.roots) == Pre(f, f.roots[0]) + After(f, f.roots[0])
  {
    UpIsPar(f, f.roots[0]);
    assert Later(f.roots, f.roots[0]) == f.roots[1..];
  }
}
