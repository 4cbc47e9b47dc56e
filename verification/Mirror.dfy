// The forest with every sibling list turned round: walking it forwards is walking the original
// one backwards.
module Mirror {
  import opened Wrappers
  import opened Forests
  import opened Preorder

  ghost function Rev<T>(s: seq<T>): (r: seq<T>)
    ensures |r| == |s|
    ensures forall i :: 0 <= i < |s| ==> r[i] == s[|s| - 1 - i]
  {
    seq(|s|, i requires 0 <= i < |s| => s[|s| - 1 - i])
  }

  lemma {:induction false} NoDupIndex<T>(s: seq<T>, i: nat, j: nat)
    requires NoDup(s) && i < j < |s|
    ensures s[i] != s[j]
  {
    if i > 0 {
      assert s[1..][i - 1] == s[i] && s[1..][j - 1] == s[j];
      NoDupIndex(s[1..], i - 1, j - 1);
    } else {
      assert s[1..][j - 1] == s[j];
    }
  }

  lemma {:induction false} NoDupFromIndex<T>(s: seq<T>)
    requires forall i, j :: 0 <= i < j < |s| ==> s[i] != s[j]
    ensures NoDup(s)
  {
    if s != [] {
      NoDupFromIndex(s[1..]);
    }
  }

  lemma {:induction false} PrevAt<T>(l: seq<T>, i: nat)
    requires i < |l| && NoDup(l)
    ensures PrevIn(l, l[i]) == if i > 0 then Some(l[i - 1]) else None
  {
    if i > 0 {
      assert l[1..][i - 1] == l[i];
      if i > 1 { assert l[1..][i - 2] == l[i - 1]; }
      PrevAt(l[1..], i - 1);
    }
  }

  lemma RevOrder<T>(l: seq<T>, n: T)
    requires NoDup(l) && n in l
    ensures NoDup(Rev(l)) && n in Rev(l)
    ensures NextIn(Rev(l), n) == PrevIn(l, n)
  {
    var i :| 0 <= i < |l| && l[i] == n;
    var r := Rev(l);
    RevNoDup(l);
    assert r[|l| - 1 - i] == n;
    NextAt(r, |l| - 1 - i);
    PrevAt(l, i);
  }

  lemma RevNoDup<T>(l: seq<T>)
    requires NoDup(l)
    ensures NoDup(Rev(l))
    ensures forall x :: x in Rev(l) ==> x in l
    ensures forall x :: x in l ==> x in Rev(l)
  {
    var r := Rev(l);
    forall i, j | 0 <= i < j < |r| ensures r[i] != r[j] { NoDupIndex(l, |l| - 1 - j, |l| - 1 - i); }
    NoDupFromIndex(r);
    forall x | x in l ensures x in r {
      var i :| 0 <= i < |l| && l[i] == x;
      assert r[|l| - 1 - i] == x;
    }
  }

  ghost function MirrorOf<T>(f: Forest<T>): Forest<T> {
    f.(roots := Rev(f.roots), kids := map n | n in f.kids :: Rev(f.kids[n]))
  }

  lemma MirrorWF<T>(f: Forest<T>)
    requires WF(f)
    ensures WF(MirrorOf(f))
  {
    var g := MirrorOf(f);
    RevNoDup(f.roots);
    forall n | n in g.kids ensures KidsOK(g, n) {
      assert KidsOK(f, n);
      RevNoDup(f.kids[n]);
    }
    forall n | n in g.par && g.par[n].Some? ensures ParentOK(g, n, g.par[n].value) {
      var p := f.par[n].value;
      assert ParentOK(f, n, p) && KidsOK(f, p);
      RevNoDup(f.kids[p]);
    }
  }

  lemma MirrorLinks<T>(f: Forest<T>, n: T)
    requires WF(f) && Attached(f, n)
    ensures Attached(MirrorOf(f), n) && NextOf(MirrorOf(f), n) == PrevOf(f, n)
  {
    AttachedInSibs(f, n);
    RevOrder(Sibs(f, n), n);
    RevNoDup(f.roots);
  }

  lemma {:induction false} MirrorUnder<T>(f: Forest<T>, a: T, b: T)
    ensures IsUnder(MirrorOf(f), a, b) == IsUnder(f, a, b) && Root(MirrorOf(f), a) == Root(f, a)
    decreases Lvl(f, a)
  {
    if Up(f, a).Some? { MirrorUnder(f, Up(f, a).value, b); }
  }
}
