// What calculate_visibility leaves in the tree, in terms of who is below whom.
module TreeDisplay {
  import opened Wrappers
  import opened Forests
  import opened Preorder
  import opened Threads
  import opened Linearize
  import opened SubjectDisplay
  import opened Visibility
  import opened HiddenTops

  // --- how much there is to see ---

  // x can be seen, at n or below it.
  ghost predicate SeenAt(f: ThreadForest, vis: set<MuttThread>, n: MuttThread, x: MuttThread) {
    x in f.par && x in vis && IsUnder(f, x, n)
  }

  lemma SeenIs(f: ThreadForest, vis: set<MuttThread>, n: MuttThread)
    requires WF(f) && n in f.par
    ensures SubtreeVisible(f, vis, n) > 0 <==> exists x :: SeenAt(f, vis, n, x)
  {
    SubtreeVisibleIff(f, vis, n);
    if x :| x in Pre(f, n) && x in vis {
      PreUnder(f, n, x);
      assert SeenAt(f, vis, n, x);
    }
    if x :| SeenAt(f, vis, n, x) {
      UnderPre(f, n, x);
    }
  }

  lemma {:induction false} AmongIs(f: ThreadForest, vis: set<MuttThread>, ns: seq<MuttThread>)
    ensures VisibleAmong(f, vis, ns) > 0 <==> exists i :: 0 <= i < |ns| && SubtreeVisible(f, vis, ns[i]) > 0
    ensures VisibleAmong(f, vis, ns) > 1 <==> exists i, j :: 0 <= i < j < |ns| && SubtreeVisible(f, vis, ns[i]) > 0 && SubtreeVisible(f, vis, ns[j]) > 0
  {
    hide SubtreeVisible;
    if ns != [] {
      var rest := ns[1..];
      AmongIs(f, vis, rest);
      if i :| 0 <= i < |rest| && SubtreeVisible(f, vis, rest[i]) > 0 { assert ns[i + 1] == rest[i]; }
      if i, j :| 0 <= i < j < |rest| && SubtreeVisible(f, vis, rest[i]) > 0 && SubtreeVisible(f, vis, rest[j]) > 0 {
        assert ns[i + 1] == rest[i] && ns[j + 1] == rest[j];
      }
      if i :| 0 <= i < |ns| && SubtreeVisible(f, vis, ns[i]) > 0 { assert i > 0 ==> rest[i - 1] == ns[i]; }
      if i, j :| 0 <= i < j < |ns| && SubtreeVisible(f, vis, ns[i]) > 0 && SubtreeVisible(f, vis, ns[j]) > 0 {
        assert rest[j - 1] == ns[j] && (i > 0 ==> rest[i - 1] == ns[i]);
      }
    }
  }

  // Two nodes that can be seen come together at n: no child of n has both below it.
  ghost predicate Meet(f: ThreadForest, vis: set<MuttThread>, n: MuttThread, a: MuttThread, b: MuttThread) {
    SeenAt(f, vis, n, a) && SeenAt(f, vis, n, b) && a != b && forall k :: k in f.par && f.par[k] == Some(n) ==> !(IsUnder(f, a, k) && IsUnder(f, b, k))
  }

  // The child that x is below.
  lemma ChildAbove(f: ThreadForest, n: MuttThread, x: MuttThread) returns (i: nat)
    requires WF(f) && n in f.par && x in f.par && IsUnder(f, x, n) && x != n
    ensures n in f.kids && i < |f.kids[n]| && IsUnder(f, x, f.kids[n][i]) && f.kids[n][i] in f.par && f.par[f.kids[n][i]] == Some(n)
  {
    UnderPre(f, n, x);
    DownKids(f, n);
    assert KidsOK(f, n);
    PreAllUnder(f, f.kids[n], n, x);
    var k :| k in f.kids[n] && IsUnder(f, x, k);
    i :| 0 <= i < |f.kids[n]| && f.kids[n][i] == k;
  }

  // A visible part below a child.
  lemma SeenChild(f: ThreadForest, vis: set<MuttThread>, n: MuttThread, x: MuttThread) returns (i: nat)
    requires WF(f) && n in f.par && SeenAt(f, vis, n, x) && x != n
    ensures n in f.kids && i < |f.kids[n]| && IsUnder(f, x, f.kids[n][i]) && SubtreeVisible(f, vis, f.kids[n][i]) > 0
    ensures f.kids[n][i] in f.par && f.par[f.kids[n][i]] == Some(n)
  {
    i := ChildAbove(f, n, x);
    SeenIs(f, vis, f.kids[n][i]);
    assert SeenAt(f, vis, f.kids[n][i], x);
  }

  lemma ChildSeen(f: ThreadForest, vis: set<MuttThread>, n: MuttThread, i: nat) returns (x: MuttThread)
    requires WF(f) && n in f.par && n in f.kids && i < |f.kids[n]| && SubtreeVisible(f, vis, f.kids[n][i]) > 0
    ensures SeenAt(f, vis, n, x) && IsUnder(f, x, f.kids[n][i]) && x != n && f.kids[n][i] in f.par && f.par[f.kids[n][i]] == Some(n)
  {
    var k := f.kids[n][i];
    assert KidsOK(f, n) && k in f.kids[n];
    assert ParentOK(f, k, n);
    SeenIs(f, vis, k);
    x :| SeenAt(f, vis, k, x);
    assert IsUnder(f, k, n);
    UnderTrans(f, x, k, n);
    UnderLvl(f, x, k);
  }

  lemma CountIs(f: ThreadForest, vis: set<MuttThread>, n: MuttThread)
    requires WF(f) && n in f.par
    ensures n in f.kids && SubtreeVisible(f, vis, n) == Cap((if n in vis then 1 else 0) + VisibleAmong(f, vis, f.kids[n]))
  {
    DownKids(f, n);
    assert f.kids[n] == [] ==> VisibleAmong(f, vis, f.kids[n]) == 0;
  }

  // The count is 2 exactly where visible parts come together.
  lemma TogetherIff(f: ThreadForest, vis: set<MuttThread>, n: MuttThread)
    requires WF(f) && n in f.par
    ensures SubtreeVisible(f, vis, n) == 2 <==> exists a, b :: Meet(f, vis, n, a, b)
  {
    hide *;
    CountIs(f, vis, n);
    AmongIs(f, vis, f.kids[n]);
    CapIs((if n in vis then 1 else 0) + VisibleAmong(f, vis, f.kids[n]));
    if SubtreeVisible(f, vis, n) == 2 {
      if n in vis {
        var i :| 0 <= i < |f.kids[n]| && SubtreeVisible(f, vis, f.kids[n][i]) > 0;
        MeetHere(f, vis, n, i);
      } else {
        var i, j :| 0 <= i < j < |f.kids[n]| && SubtreeVisible(f, vis, f.kids[n][i]) > 0 && SubtreeVisible(f, vis, f.kids[n][j]) > 0;
        MeetBelow(f, vis, n, i, j);
      }
    }
    if a, b :| Meet(f, vis, n, a, b) {
      MeetSeen(f, vis, n, a, b);
    }
  }

  lemma CapIs(k: int)
    ensures Cap(k) == 2 <==> k > 1
  {
  }

  lemma MeetHere(f: ThreadForest, vis: set<MuttThread>, n: MuttThread, i: nat)
    requires WF(f) && n in f.par && n in vis && n in f.kids && i < |f.kids[n]| && SubtreeVisible(f, vis, f.kids[n][i]) > 0
    ensures exists a, b :: Meet(f, vis, n, a, b)
  {
    hide SubtreeVisible;
    var x := ChildSeen(f, vis, n, i);
    forall k | k in f.par && f.par[k] == Some(n) ensures !IsUnder(f, n, k) {
      assert ParentOK(f, k, n);
      if IsUnder(f, n, k) { UnderLvl(f, n, k); }
    }
    assert SeenAt(f, vis, n, n);
    assert Meet(f, vis, n, n, x);
  }

  lemma MeetBelow(f: ThreadForest, vis: set<MuttThread>, n: MuttThread, i: nat, j: nat)
    requires WF(f) && n in f.par && n in f.kids && i < j < |f.kids[n]|
    requires SubtreeVisible(f, vis, f.kids[n][i]) > 0 && SubtreeVisible(f, vis, f.kids[n][j]) > 0
    ensures exists a, b :: Meet(f, vis, n, a, b)
  {
    hide SubtreeVisible;
    var a := ChildSeen(f, vis, n, i);
    var b := ChildSeen(f, vis, n, j);
    KidsApart(f, n, i, j);
    forall k | k in f.par && f.par[k] == Some(n) && IsUnder(f, a, k) && IsUnder(f, b, k) ensures false {
      SiblingsApart(f, k, f.kids[n][i], a);
      SiblingsApart(f, k, f.kids[n][j], b);
    }
    assert Meet(f, vis, n, a, b);
  }

  lemma KidsApart(f: ThreadForest, n: MuttThread, i: nat, j: nat)
    requires WF(f) && n in f.kids && i < j < |f.kids[n]|
    ensures f.kids[n][i] != f.kids[n][j]
  {
    assert KidsOK(f, n);
    NoDupAt(f.kids[n], i, j);
  }

  lemma {:induction false} NoDupAt<T>(l: seq<T>, i: nat, j: nat)
    requires NoDup(l) && i < j < |l|
    ensures l[i] != l[j]
  {
    if i > 0 { NoDupAt(l[1..], i - 1, j - 1); }
  }

  lemma MeetSeen(f: ThreadForest, vis: set<MuttThread>, n: MuttThread, a: MuttThread, b: MuttThread)
    requires WF(f) && n in f.par && Meet(f, vis, n, a, b)
    ensures n in f.kids && if n in vis then exists i :: 0 <= i < |f.kids[n]| && SubtreeVisible(f, vis, f.kids[n][i]) > 0
      else exists i, j :: 0 <= i < j < |f.kids[n]| && SubtreeVisible(f, vis, f.kids[n][i]) > 0 && SubtreeVisible(f, vis, f.kids[n][j]) > 0
  {
    hide SubtreeVisible, IsUnder;
    if n in vis {
      var i := SeenChild(f, vis, n, if a == n then b else a);
    } else {
      var i := SeenChild(f, vis, n, a);
      var j := SeenChild(f, vis, n, b);
      assert i != j;
      assert i < j || j < i;
    }
  }

  // --- depth ---

  // How deep a node is: the nodes above it.
  lemma {:induction false} DepthIs(f: ThreadForest, n: MuttThread) returns (above: seq<MuttThread>)
    ensures |above| == Depth(f, n) && forall a :: a in above <==> a != n && IsUnder(f, n, a)
    ensures forall i, j :: 0 <= i < j < |above| ==> above[i] != above[j]
    decreases Lvl(f, n)
  {
    if Up(f, n).None? {
      return [];
    }
    var p := Up(f, n).value;
    above := DepthIs(f, p);
    above := above + [p];
    assert IsUnder(f, p, p);
    forall a | IsUnder(f, p, a) ensures a != n && IsUnder(f, n, a) { UnderLvl(f, p, a); }
  }

  // A node that may be passed on the way down: it is hidden, all there is to see is below one child of it,
  // and it is not to be shown, here or at the top of a thread.
  ghost predicate Passes(f: ThreadForest, msg: map<MuttThread, Email>, vis: set<MuttThread>, h: Hiding, a: MuttThread) {
    a !in vis && SubtreeVisible(f, vis, a) == 1 && if a in msg then h.limited || h.topLimited else h.missing || h.topMissing
  }

  lemma {:induction false} ReachedIff(f: ThreadForest, msg: map<MuttThread, Email>, vis: set<MuttThread>, h: Hiding, n: MuttThread)
    ensures Reached(f, msg, vis, h, n) <==> forall a :: a != n && IsUnder(f, n, a) ==> Passes(f, msg, vis, h, a)
    decreases Lvl(f, n)
  {
    hide SubtreeVisible;
    if Up(f, n).Some? {
      var p := Up(f, n).value;
      ReachedIff(f, msg, vis, h, p);
      assert IsUnder(f, p, p) && IsUnder(f, n, p) && p != n;
      forall a | a != n && IsUnder(f, n, a) ensures IsUnder(f, p, a) { }
      forall a | IsUnder(f, p, a) ensures a != n && IsUnder(f, n, a) { UnderLvl(f, p, a); }
      assert Reached(f, msg, vis, h, n) <==> Reached(f, msg, vis, h, p) && Passes(f, msg, vis, h, p);
    }
  }

  // A node has depth if it can be seen, or visible parts come together there, or it is hidden by neither
  // option for its kind; that for the top of a thread counts if all above it is passed.
  lemma DepthIff(f: ThreadForest, msg: map<MuttThread, Email>, vis: set<MuttThread>, h: Hiding, n: MuttThread)
    ensures var atTop := forall a :: a != n && IsUnder(f, n, a) ==> Passes(f, msg, vis, h, a);
      DeepLast(f, msg, vis, h, n) <==>
        (n in vis || SubtreeVisible(f, vis, n) == 2 ||
         if n in msg then !h.limited && !(h.topLimited && atTop) else !h.missing && !(h.topMissing && atTop))
  {
    hide SubtreeVisible;
    ReachedIff(f, msg, vis, h, n);
  }

  // --- the node itself ---

  lemma LaterAt(l: seq<MuttThread>, n: MuttThread, k: MuttThread)
    requires NoDup(l) && n in l
    ensures k in Later(l, n) <==> exists i, j :: 0 <= i < j < |l| && l[i] == n && l[j] == k
  {
    if l[0] == n {
      if i, j :| 0 <= i < j < |l| && l[i] == n && l[j] == k { assert l[1..][j - 1] == k; }
      if k in l[1..] {
        var j :| 0 <= j < |l| - 1 && l[1..][j] == k;
        assert l[0] == n && l[j + 1] == k;
      }
    } else {
      LaterAt(l[1..], n, k);
      if i, j :| 0 <= i < j < |l| && l[i] == n && l[j] == k { assert l[1..][i - 1] == n && l[1..][j - 1] == k; }
      if i, j :| 0 <= i < j < |l| - 1 && l[1..][i] == n && l[1..][j] == k { assert l[i + 1] == n && l[j + 1] == k; }
    }
  }

  // Something can be seen at a later sibling.
  lemma LaterSeen(f: ThreadForest, vis: set<MuttThread>, n: MuttThread)
    requires WF(f) && n in f.par && Attached(f, n)
    ensures var l := Sibs(f, n);
      VisibleAmong(f, vis, Later(l, n)) > 0 <==> exists i, j, x :: 0 <= i < j < |l| && l[i] == n && SeenAt(f, vis, l[j], x)
  {
    hide SubtreeVisible, IsUnder, WF, Attached;
    var l := Sibs(f, n);
    var after := Later(l, n);
    LaterSibs(f, n);
    AttachedInSibs(f, n);
    AmongIs(f, vis, after);
    if i :| 0 <= i < |after| && SubtreeVisible(f, vis, after[i]) > 0 {
      SeenIs(f, vis, after[i]);
      var x :| SeenAt(f, vis, after[i], x);
      LaterAt(l, n, after[i]);
      var a, b :| 0 <= a < b < |l| && l[a] == n && l[b] == after[i];
      assert SeenAt(f, vis, l[b], x);
    }
    if i, j, x :| 0 <= i < j < |l| && l[i] == n && SeenAt(f, vis, l[j], x) {
      LaterAt(l, n, l[j]);
      SeenIs(f, vis, l[j]);
      var k :| 0 <= k < |after| && after[k] == l[j];
    }
  }

  // --- subjects ---

  // p is the nearest visible sibling before n.
  ghost predicate NearestBefore(f: ThreadForest, vis: set<MuttThread>, n: MuttThread, p: MuttThread) {
    var l := Sibs(f, n);
    p in vis && exists i, j :: 0 <= i < j < |l| && l[i] == p && l[j] == n && forall k :: i < k < j ==> l[k] !in vis
  }

  lemma {:induction false} BeforeAt<T>(l: seq<T>, j: nat)
    requires NoDup(l) && j < |l|
    ensures Before(l, l[j]) == l[..j]
  {
    if j > 0 {
      NoDupAt(l, 0, j);
      BeforeAt(l[1..], j - 1);
      assert l[1..][j - 1] == l[j] && l[..j] == [l[0]] + l[1..][..j - 1];
    }
  }

  lemma {:induction false} LastVisibleAt(vis: set<MuttThread>, ns: seq<MuttThread>)
    ensures LastVisible(vis, ns).None? ==> forall k :: 0 <= k < |ns| ==> ns[k] !in vis
    ensures LastVisible(vis, ns).Some? ==>
      exists i :: 0 <= i < |ns| && Some(ns[i]) == LastVisible(vis, ns) && ns[i] in vis && forall k :: i < k < |ns| ==> ns[k] !in vis
  {
    if ns != [] && ns[|ns| - 1] !in vis {
      var front := ns[..|ns| - 1];
      LastVisibleAt(vis, front);
      if LastVisible(vis, front).Some? {
        var i :| 0 <= i < |front| && Some(front[i]) == LastVisible(vis, front) && front[i] in vis && forall k :: i < k < |front| ==> front[k] !in vis;
        assert ns[i] == front[i];
        forall k | i < k < |ns| ensures ns[k] !in vis { if k < |front| { assert ns[k] == front[k]; } }
      } else {
        forall k | 0 <= k < |ns| ensures ns[k] !in vis { if k < |front| { assert ns[k] == front[k]; } }
      }
    }
  }

  lemma OnlyAt<T>(l: seq<T>, n: T, j: nat)
    requires NoDup(l) && j < |l| && l[j] == n
    ensures forall i :: 0 <= i < |l| && l[i] == n ==> i == j
  {
    forall i | 0 <= i < |l| && l[i] == n ensures i == j { if i < j { NoDupAt(l, i, j); } else if j < i { NoDupAt(l, j, i); } }
  }

  lemma NearestIs(f: ThreadForest, vis: set<MuttThread>, n: MuttThread, p: MuttThread)
    requires WF(f) && n in f.par && Attached(f, n)
    ensures LastVisible(vis, Earlier(f, n)) == Some(p) <==> NearestBefore(f, vis, n, p)
  {
    hide WF, LastVisible, NoDup, Before, Sibs, Attached;
    var l := Sibs(f, n);
    AttachedInSibs(f, n);
    var j :| 0 <= j < |l| && l[j] == n;
    BeforeAt(l, j);
    LastVisibleAt(vis, l[..j]);
    OnlyAt(l, n, j);
    if LastVisible(vis, l[..j]) == Some(p) {
      var i :| 0 <= i < j && l[..j][i] == p && l[..j][i] in vis && forall k :: i < k < j ==> l[..j][k] !in vis;
      assert l[i] == p;
      assert forall k :: i < k < j ==> l[k] == l[..j][k];
    }
    if NearestBefore(f, vis, n, p) {
      var i, m :| 0 <= i < m < |l| && l[i] == p && l[m] == n && forall k :: i < k < m ==> l[k] !in vis;
      assert m == j && l[..j][i] == p;
    }
  }

  // The subject is shown unless $hide_thread_subject is set, it is the parent's, the nearest visible sibling
  // before it does not differ from its parent, and there is a visible message above with nothing to be seen
  // and no other subject in between.
  lemma SubjectShownIff(f: ThreadForest, vis: set<MuttThread>, ch: set<MuttThread>, hideSubject: bool, n: MuttThread)
    requires WF(f) && n in f.par && Attached(f, n)
    ensures ShowsSubject(f, vis, ch, hideSubject, n) <==>
      || !hideSubject || n in ch || (exists p :: NearestBefore(f, vis, n, p) && p in ch)
      || !exists a :: NearestAbove(f, vis, ch, n, a)
  {
    hide WF, NearestBefore, NearestAbove, ShowsAbove, LastVisible;
    ShownAboveIff(f, vis, ch, n);
    forall p ensures LastVisible(vis, Earlier(f, n)) == Some(p) <==> NearestBefore(f, vis, n, p) { NearestIs(f, vis, n, p); }
    var last := LastVisible(vis, Earlier(f, n));
    if last.Some? { assert NearestBefore(f, vis, n, last.value); }
  }
}
