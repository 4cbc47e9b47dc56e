// calculate_visibility: one backwards walk over the tree computes, for every node, how much of
// its subtree is visible and whether a later sibling has a visible subtree.
module Visibility {
  import opened Sequences
  import opened Wrappers
  import opened Forests
  import opened Preorder
  import opened Mirror
  import opened Threads
  import opened Context
  import opened ThreadTree
  import opened SortThreads
  import opened Linearize
  import opened SubjectDisplay

  // --- the recursive specification ---

  function Cap(k: int): int { if k > 2 then 2 else k }

  // 0: nothing below n is visible; 1: everything visible hangs below one child, or n alone is
  // visible; 2: n is where visible parts come together.
  ghost function SubtreeVisible(f: ThreadForest, vis: set<MuttThread>, n: MuttThread): (v: int)
    ensures 0 <= v <= 2
    decreases Room(f, n), 1, 0
  {
    Cap((if n in vis then 1 else 0) + if Down(f, n) == [] then 0 else VisibleAmong(f, vis, Down(f, n)))
  }

  // How many of ns have a visible subtree.
  ghost function VisibleAmong(f: ThreadForest, vis: set<MuttThread>, ns: seq<MuttThread>): nat
    decreases MaxRoom(f, ns), 2, |ns|
  {
    if ns == [] then 0 else (if SubtreeVisible(f, vis, ns[0]) > 0 then 1 else 0) + VisibleAmong(f, vis, ns[1..])
  }

  ghost function Depth(f: ThreadForest, n: MuttThread): nat
    decreases Lvl(f, n)
  {
    if Up(f, n).Some? then 1 + Depth(f, Up(f, n).value) else 0
  }

  // The specification says what it should: a subtree is visible when some node in it is.
  lemma {:induction false} SubtreeVisibleIff(f: ThreadForest, vis: set<MuttThread>, n: MuttThread)
    ensures SubtreeVisible(f, vis, n) > 0 <==> exists x :: x in Pre(f, n) && x in vis
    decreases Room(f, n), 1, 0
  {
    if Down(f, n) != [] { VisibleAmongIff(f, vis, Down(f, n)); }
    assert n in Pre(f, n);
  }

  lemma {:induction false} VisibleAmongIff(f: ThreadForest, vis: set<MuttThread>, ns: seq<MuttThread>)
    ensures VisibleAmong(f, vis, ns) > 0 <==> exists x :: x in PreAll(f, ns) && x in vis
    decreases MaxRoom(f, ns), 2, |ns|
  {
    if ns != [] {
      SubtreeVisibleIff(f, vis, ns[0]);
      VisibleAmongIff(f, vis, ns[1..]);
    }
  }

  // --- the counts kept by the walk: sv has an entry for every node visited so far ---

  ghost function Live(sv: map<MuttThread, int>, ns: seq<MuttThread>): nat {
    if ns == [] then 0 else (if ns[0] in sv && sv[ns[0]] > 0 then 1 else 0) + Live(sv, ns[1..])
  }

  ghost function Target(f: ThreadForest, vis: set<MuttThread>, sv: map<MuttThread, int>, n: MuttThread): nat {
    (if n in vis then 1 else 0) + Live(sv, KidsOf(f, n))
  }

  // Every visited node, except possibly one, counts itself and its children visited so far.
  ghost predicate Counted(f: ThreadForest, vis: set<MuttThread>, sv: map<MuttThread, int>, except: Option<MuttThread>) {
    forall n :: n in sv ==> 0 <= sv[n] <= 2 && (Some(n) != except ==> sv[n] == Cap(Target(f, vis, sv, n)))
  }

  lemma {:induction false} LiveUpdate(sv: map<MuttThread, int>, ns: seq<MuttThread>, k: MuttThread, v: int)
    requires NoDup(ns)
    ensures Live(sv[k := v], ns) ==
            Live(sv, ns) + (if k in ns then (if v > 0 then 1 else 0) - (if k in sv && sv[k] > 0 then 1 else 0) else 0)
  {
    if ns != [] { LiveUpdate(sv, ns[1..], k, v); }
  }

  // A count that is one behind, at n, is put right by a step of the climb: either n had a visible
  // part already, and the climb ends, or its parent is now one behind.
  lemma ClimbStep(f: ThreadForest, vis: set<MuttThread>, sv: map<MuttThread, int>, n: MuttThread)
    requires WF(f) && n in f.par && n in sv && Counted(f, vis, sv, Some(n))
    requires Target(f, vis, sv, n) >= 1 && sv[n] == Cap(Target(f, vis, sv, n) - 1)
    requires f.par[n].Some? ==> f.par[n].value in sv
    ensures sv[n] > 0 ==> Counted(f, vis, sv[n := 2], None)
    ensures sv[n] == 0 && f.par[n].None? ==> Counted(f, vis, sv[n := 1], None)
    ensures sv[n] == 0 && f.par[n].Some? ==>
              var p, sv' := f.par[n].value, sv[n := 1];
              Counted(f, vis, sv', Some(p)) && Target(f, vis, sv', p) >= 1 && sv'[p] == Cap(Target(f, vis, sv', p) - 1)
  {
    var v := if sv[n] > 0 then 2 else 1;
    var sv' := sv[n := v];
    forall m | m in sv
      ensures m != n && f.par[n] != Some(m) ==> Target(f, vis, sv', m) == Target(f, vis, sv, m)
      ensures f.par[n] == Some(m) ==> m != n && Target(f, vis, sv', m) == Target(f, vis, sv, m) + (if sv[n] == 0 then 1 else 0)
      ensures m == n ==> Target(f, vis, sv', m) == Target(f, vis, sv, m)
    {
      TargetUpdate(f, vis, sv, n, v, m);
    }
  }

  lemma TargetUpdate(f: ThreadForest, vis: set<MuttThread>, sv: map<MuttThread, int>, n: MuttThread, v: int, m: MuttThread)
    requires WF(f) && n in f.par && n in sv && v > 0
    ensures m != n && f.par[n] != Some(m) ==> Target(f, vis, sv[n := v], m) == Target(f, vis, sv, m)
    ensures f.par[n] == Some(m) ==> m != n && Target(f, vis, sv[n := v], m) == Target(f, vis, sv, m) + (if sv[n] > 0 then 0 else 1)
    ensures m == n ==> Target(f, vis, sv[n := v], m) == Target(f, vis, sv, m)
  {
    Tables(f);
    if m in f.kids {
      KidsIff(f, m);
      LiveUpdate(sv, KidsOf(f, m), n, v);
    }
  }

  // Visiting n adds an entry 0, and n may now be one behind.
  lemma VisitStep(f: ThreadForest, vis: set<MuttThread>, sv: map<MuttThread, int>, n: MuttThread)
    requires WF(f) && n in f.par && n !in sv && Counted(f, vis, sv, None)
    requires forall k :: k in KidsOf(f, n) ==> k !in sv
    ensures Target(f, vis, sv[n := 0], n) == (if n in vis then 1 else 0)
    ensures Counted(f, vis, sv[n := 0], Some(n))
    ensures n !in vis ==> Counted(f, vis, sv[n := 0], None)
  {
    var sv' := sv[n := 0];
    forall m | m in sv' ensures Target(f, vis, sv', m) == Target(f, vis, sv, m) {
      if m in f.kids {
        KidsIff(f, m);
        LiveUpdate(sv, KidsOf(f, m), n, 0);
      }
    }
    LiveNone(sv, KidsOf(f, n));
  }

  lemma {:induction false} LiveNone(sv: map<MuttThread, int>, ns: seq<MuttThread>)
    requires forall k :: k in ns ==> k !in sv
    ensures Live(sv, ns) == 0
  {
    if ns != [] { LiveNone(sv, ns[1..]); }
  }

  // When every node has been visited the counts are the recursive specification.
  lemma {:induction false} CountsFinal(f: ThreadForest, vis: set<MuttThread>, sv: map<MuttThread, int>, n: MuttThread)
    requires WF(f) && n in f.par && Counted(f, vis, sv, None) && n in sv
    requires forall m, k :: m in sv && k in KidsOf(f, m) ==> k in sv
    ensures sv[n] == SubtreeVisible(f, vis, n)
    decreases Room(f, n), 1, 0
  {
    DownKids(f, n);
    assert KidsOK(f, n);
    CountsFinalAll(f, vis, sv, f.kids[n]);
  }

  lemma {:induction false} CountsFinalAll(f: ThreadForest, vis: set<MuttThread>, sv: map<MuttThread, int>, ns: seq<MuttThread>)
    requires WF(f) && Counted(f, vis, sv, None) && forall k :: k in ns ==> k in f.par && k in sv
    requires forall m, k :: m in sv && k in KidsOf(f, m) ==> k in sv
    ensures Live(sv, ns) == VisibleAmong(f, vis, ns)
    decreases MaxRoom(f, ns), 2, |ns|
  {
    if ns != [] {
      CountsFinal(f, vis, sv, ns[0]);
      CountsFinalAll(f, vis, sv, ns[1..]);
    }
  }

  // --- what the walk keeps on the heap ---

  ghost predicate DeepOf(msg: map<MuttThread, Email>, vis: set<MuttThread>, v: int, hideLimited: bool, hideMissing: bool, n: MuttThread) {
    n in vis || v == 2 || (if n in msg then !hideLimited else !hideMissing)
  }

  ghost predicate ShownCounts(msg: map<MuttThread, Email>, vis: set<MuttThread>, sv: map<MuttThread, int>, hideLimited: bool, hideMissing: bool)
    reads sv.Keys`subtreeVisible, sv.Keys`visible, sv.Keys`deep
  {
    forall n :: n in sv ==>
      n.subtreeVisible == sv[n] && n.visible == (n in vis) && n.deep == DeepOf(msg, vis, sv[n], hideLimited, hideMissing, n)
  }

  ghost predicate ShownNext(f: ThreadForest, sv: map<MuttThread, int>, dom: set<MuttThread>)
    reads dom`nextSubtreeVisible
  {
    forall n :: n in dom ==> n.nextSubtreeVisible == (Live(sv, Later(Sibs(f, n), n)) > 0)
  }

  // The later siblings of a visited node have been visited with everything below them.
  ghost predicate Complete(f: ThreadForest, dom: set<MuttThread>) {
    forall n, m, x :: n in dom && m in Later(Sibs(f, n), n) && x in f.par && IsUnder(f, x, m) ==> x in dom
  }

  lemma {:induction false} LiveSame(sv: map<MuttThread, int>, sv': map<MuttThread, int>, ns: seq<MuttThread>)
    requires forall k :: k in ns ==> (k in sv <==> k in sv') && (k in sv ==> sv'[k] == sv[k])
    ensures Live(sv, ns) == Live(sv', ns)
  {
    if ns != [] { LiveSame(sv, sv', ns[1..]); }
  }

  // Counting along the ancestors of a new node disturbs no later sibling of an old one.
  lemma NextKept(f: ThreadForest, sv: map<MuttThread, int>, sv': map<MuttThread, int>, dom: set<MuttThread>, tree: MuttThread)
    requires Complete(f, dom) && tree in f.par && tree !in dom && ShownNext(f, sv, dom)
    requires sv.Keys + {tree} == sv'.Keys && forall n :: n in sv && !IsUnder(f, tree, n) ==> sv'[n] == sv[n]
    ensures ShownNext(f, sv', dom)
  {
    forall n | n in dom ensures Live(sv', Later(Sibs(f, n), n)) == Live(sv, Later(Sibs(f, n), n)) {
      forall m | m in Later(Sibs(f, n), n) ensures !IsUnder(f, tree, m) && m != tree {
        IsUnderRefl(f, tree);
      }
      LiveSame(sv, sv', Later(Sibs(f, n), n));
    }
  }

  lemma IsUnderRefl(f: ThreadForest, n: MuttThread)
    ensures IsUnder(f, n, n)
  {
  }

  // for (tmp = tree; tmp; tmp = tmp->parent): count the visible node tree.
  method CountUp(tree: MuttThread, ghost S: set<MuttThread>, ghost f: ThreadForest, ghost msg: map<MuttThread, Email>,
    ghost vis: set<MuttThread>, hideLimited: bool, hideMissing: bool, ghost head: MuttThread?, ghost sv0: map<MuttThread, int>)
    returns (ghost sv: map<MuttThread, int>)
    requires Linked(S, f, head, {}) && WF(f) && tree in S && sv0.Keys <= S && tree in sv0 && tree in vis
    requires ShownCounts(msg, vis, sv0, hideLimited, hideMissing) && Counted(f, vis, sv0, Some(tree))
    requires sv0[tree] == 0 && Target(f, vis, sv0, tree) == 1
    requires forall n :: n in sv0 && f.par[n].Some? ==> f.par[n].value in sv0
    modifies S`subtreeVisible, S`deep
    ensures ShownCounts(msg, vis, sv, hideLimited, hideMissing) && Counted(f, vis, sv, None) && sv.Keys == sv0.Keys
    ensures forall n :: n in sv && !IsUnder(f, tree, n) ==> sv[n] == sv0[n]
  {
    hide *;
    sv := sv0;
    var tmp: MuttThread? := tree;
    IsUnderRefl(f, tree);
    BehindhandStart(f, vis, sv0, tree);
    while tmp != null
      invariant sv.Keys == sv0.Keys && ShownCounts(msg, vis, sv, hideLimited, hideMissing)
      invariant tmp == null ==> Counted(f, vis, sv, None)
      invariant tmp != null ==> tmp in sv && IsUnder(f, tree, tmp) && Behindhand(f, vis, sv, tmp)
      invariant forall n :: n in sv && !IsUnder(f, tree, n) ==> sv[n] == sv0[n]
      decreases tmp != null, if tmp != null then Lvl(f, tmp) else 0
    {
      ClimbHere(S, f, vis, head, sv, tree, tmp);
      CountField(msg, vis, sv, hideLimited, hideMissing, tmp);
      if tmp.subtreeVisible != 0 {
        SetCount(tmp, 2, msg, vis, sv, hideLimited, hideMissing);
        sv := sv[tmp := 2];
        break;
      } else {
        SetCount(tmp, 1, msg, vis, sv, hideLimited, hideMissing);
        sv := sv[tmp := 1];
      }
      tmp := tmp.parent;
    }
  }

  lemma BehindhandStart(f: ThreadForest, vis: set<MuttThread>, sv: map<MuttThread, int>, n: MuttThread)
    requires n in sv && Counted(f, vis, sv, Some(n)) && sv[n] == 0 && Target(f, vis, sv, n) == 1
    ensures Behindhand(f, vis, sv, n)
  {
  }

  lemma CountField(msg: map<MuttThread, Email>, vis: set<MuttThread>, sv: map<MuttThread, int>, hideLimited: bool, hideMissing: bool, n: MuttThread)
    requires ShownCounts(msg, vis, sv, hideLimited, hideMissing) && n in sv
    ensures n.subtreeVisible == sv[n]
  {
  }

  // One entry goes up: to 2 where there was something already (and the node becomes deep), else to 1.
  method SetCount(n: MuttThread, v: int, ghost msg: map<MuttThread, Email>, ghost vis: set<MuttThread>,
    ghost sv: map<MuttThread, int>, ghost hideLimited: bool, ghost hideMissing: bool)
    requires ShownCounts(msg, vis, sv, hideLimited, hideMissing) && n in sv && (v == 2 || (v == 1 && sv[n] == 0))
    modifies n`subtreeVisible, n`deep
    ensures ShownCounts(msg, vis, sv[n := v], hideLimited, hideMissing)
  {
    if v == 2 {
      n.deep := true;
    }
    n.subtreeVisible := v;
  }

  // The count at n is one behind.
  ghost predicate Behindhand(f: ThreadForest, vis: set<MuttThread>, sv: map<MuttThread, int>, n: MuttThread)
    requires n in sv
  {
    Counted(f, vis, sv, Some(n)) && Target(f, vis, sv, n) >= 1 && sv[n] == Cap(Target(f, vis, sv, n) - 1)
  }

  lemma ClimbHere(S: set<MuttThread>, f: ThreadForest, vis: set<MuttThread>, head: MuttThread?, sv: map<MuttThread, int>,
    tree: MuttThread, n: MuttThread)
    requires Linked(S, f, head, {}) && WF(f) && sv.Keys <= S && n in sv && IsUnder(f, tree, n) && Behindhand(f, vis, sv, n)
    requires forall m :: m in sv && f.par[m].Some? ==> f.par[m].value in sv
    ensures 0 <= sv[n] <= 2
    ensures sv[n] > 0 ==> Counted(f, vis, sv[n := 2], None)
    ensures sv[n] == 0 && n.parent == null ==> Counted(f, vis, sv[n := 1], None)
    ensures n.parent != null ==> n.parent in sv && n.parent != n && IsUnder(f, tree, n.parent) && Lvl(f, n.parent) < Lvl(f, n)
    ensures sv[n] == 0 && n.parent != null ==> Behindhand(f, vis, sv[n := 1], n.parent)
  {
    hide Target;
    ParentField(S, f, head, n);
    UpOfPar(f, n);
    ClimbStep(f, vis, sv, n);
    if f.par[n].Some? {
      ParentIsUnder(f, n);
      UnderTrans(f, tree, n, f.par[n].value);
    }
  }

  lemma ParentIsUnder(f: ThreadForest, n: MuttThread)
    requires Up(f, n).Some?
    ensures IsUnder(f, n, Up(f, n).value)
  {
  }

  // Every email is at its own node.
  ghost predicate OwnThreads(msg: map<MuttThread, Email>)
    reads msg.Values`thread
  {
    forall n :: n in msg ==> msg[n].thread == n
  }

  // The visible nodes of `done` have been told whether to show their subjects.
  ghost predicate SubjectsShown(f: ThreadForest, msg: map<MuttThread, Email>, vis: set<MuttThread>, ch: set<MuttThread>, hideSubject: bool, done: seq<MuttThread>)
    reads msg.Values`displaySubject
  {
    forall n :: n in done && n in vis && n in msg ==> msg[n].displaySubject == ShowsSubject(f, vis, ch, hideSubject, n)
  }

  method ShowSubject(tree: MuttThread, hideSubject: bool, ghost S: set<MuttThread>, ghost f: ThreadForest, ghost msg: map<MuttThread, Email>,
    ghost vis: set<MuttThread>, ghost ch: set<MuttThread>, ghost head: MuttThread?, ghost done: seq<MuttThread>)
    requires Linked(S, f, head, {}) && Messages(S, msg) && WF(f) && VisibleNodes(S, msg, vis) && ChangedNodes(S, msg, ch) && OwnThreads(msg)
    requires tree in S && Attached(f, tree) && tree !in done
    requires SubjectsShown(f, msg, vis, ch, hideSubject, done)
    modifies msg.Values`displaySubject
    ensures SubjectsShown(f, msg, vis, ch, hideSubject, done + [tree])
  {
    hide Linked, WF, Attached, ShowsSubject, ChangedNodes;
    assert tree in vis <==> tree in msg && IsVisible(msg[tree]);
    if tree.message != null && IsVisible(tree.message) {
      tree.message.displaySubject := NeedDisplaySubject(tree.message, hideSubject, S, f, msg, vis, ch, head);
    }
  }

  // Where the backwards walk is: `done` has been visited, in the preorder of the mirrored forest.
  ghost predicate WalkAt(f: ThreadForest, done: seq<MuttThread>, n: MuttThread) {
    var g := MirrorOf(f);
    Attached(f, n) && PreAll(g, g.roots) == done + (Pre(g, n) + After(g, n))
  }

  // What has been visited when the walk gets to n: its parent, its later siblings with everything
  // below them, and neither n nor anything below it.
  lemma VisitFacts(f: ThreadForest, msg: map<MuttThread, Email>, done: seq<MuttThread>, n: MuttThread)
    requires Grown(f, msg) && WalkAt(f, done, n)
    ensures Attached(f, n) && n in f.par && n !in done && forall k :: k in KidsOf(f, n) ==> k !in done
    ensures f.par[n].Some? ==> f.par[n].value in done
    ensures NextOf(f, n).Some? ==> NextDone(f, done, NextOf(f, n).value)
  {
    var g := MirrorOf(f);
    MirrorWF(f);
    ForestOnce(g);
    var ahead := Pre(g, n) + After(g, n);
    forall x | x in ahead ensures x !in done { ApartConcat(done, ahead, x); }
    DownKids(g, n);
    InAhead(f, n);
    if f.par[n].Some? { ParentDone(f, msg, done, n); }
    if NextOf(f, n).Some? { NextIsDone(f, msg, done, n); }
  }

  ghost predicate NextDone(f: ThreadForest, done: seq<MuttThread>, m: MuttThread) {
    Attached(f, m) && forall x :: x in f.par && IsUnder(f, x, m) ==> x in done
  }

  lemma {:induction false} ApartConcat<T>(a: seq<T>, b: seq<T>, x: T)
    requires NoDup(a + b) && x in b
    ensures x !in a
  {
    if a != [] {
      assert (a + b)[1..] == a[1..] + b;
      assert x in a[1..] + b;
      ApartConcat(a[1..], b, x);
    }
  }

  lemma InAhead(f: ThreadForest, n: MuttThread)
    requires WF(f) && n in f.par
    ensures var g := MirrorOf(f);
            n in Pre(g, n) && forall k :: k in KidsOf(f, n) ==> k in Pre(g, n)
  {
    var g := MirrorOf(f);
    MirrorWF(f);
    DownKids(g, n);
    DownKids(f, n);
    assert KidsOK(f, n);
    forall k | k in f.kids[n] ensures k in Pre(g, n) {
      RevNoDup(f.kids[n]);
      InPreAll(g, g.kids[n], k);
    }
  }

  // Two ways to split the same sequence before tails of the same length agree.
  lemma SameSplit<T>(a: seq<T>, b: seq<T>, t: seq<T>)
    requires a + t == b + t
    ensures a == b
  {
    assert |a| == |b|;
    assert (a + t)[..|a|] == a && (b + t)[..|b|] == b;
  }

  lemma ParentDone(f: ThreadForest, msg: map<MuttThread, Email>, done: seq<MuttThread>, n: MuttThread)
    requires Grown(f, msg) && WalkAt(f, done, n) && n in f.par && f.par[n].Some?
    ensures f.par[n].value in done
  {
    var g := MirrorOf(f);
    MirrorWF(f);
    GrownRoot(f, msg, n);
    MirrorRoots(f, n);
    var d := PathToParent(g, n);
    SameSplit(done, d, Pre(g, n) + After(g, n));
  }

  // The walk that stands at n has its parent behind it.
  lemma PathToParent(g: ThreadForest, n: MuttThread) returns (d: seq<MuttThread>)
    requires WF(g) && n in g.par && g.par[n].Some? && Root(g, n) in g.roots
    ensures PreAll(g, g.roots) == d + (Pre(g, n) + After(g, n)) && g.par[n].value in d
  {
    hide WF, Pre, After, PreAll, Root;
    var x := AheadOfParent(g, n);
    RootUp(g, n);
    ParentAttached(g, g.par[n].value);
    var z := AheadIsTail(g, g.par[n].value);
    d := z + x;
    Assoc(z, x, Pre(g, n) + After(g, n));
  }

  // ... and the later sibling m, as the mirrored walk comes from it, with its whole subtree.
  lemma PathPastSibling(g: ThreadForest, m: MuttThread, n: MuttThread) returns (d: seq<MuttThread>)
    requires WF(g) && Attached(g, m) && NextOf(g, m) == Some(n) && Root(g, m) in g.roots
    ensures PreAll(g, g.roots) == d + (Pre(g, n) + After(g, n)) && forall x :: x in Pre(g, m) ==> x in d
  {
    hide WF, Pre, After, PreAll, Root, NextOf, Attached;
    ToNext(g, m);
    var z := AheadIsTail(g, m);
    d := z + Pre(g, m);
    Assoc(z, Pre(g, m), Pre(g, n) + After(g, n));
  }

  lemma MirrorRoots(f: ThreadForest, n: MuttThread)
    requires Root(f, n) in f.roots && NoDup(f.roots)
    ensures Root(MirrorOf(f), n) in MirrorOf(f).roots
  {
    MirrorUnder(f, n, n);
    RevNoDup(f.roots);
  }

  lemma NextIsDone(f: ThreadForest, msg: map<MuttThread, Email>, done: seq<MuttThread>, n: MuttThread)
    requires Grown(f, msg) && WalkAt(f, done, n) && NextOf(f, n).Some?
    ensures NextDone(f, done, NextOf(f, n).value)
  {
    hide Pre, After, PreAll, NextOf, PrevOf, MirrorOf;
    var g := MirrorOf(f);
    MirrorWF(f);
    var m := NextOf(f, n).value;
    NextBack(f, n);
    MirrorLinks(f, m);
    GrownRoot(f, msg, m);
    MirrorRoots(f, m);
    var d := PathPastSibling(g, m, n);
    SameSplit(done, d, Pre(g, n) + After(g, n));
    MirrorNodes(f);
    forall x | x in f.par && IsUnder(f, x, m) ensures x in done {
      MirrorUnder(f, x, m);
      UnderPre(g, m, x);
    }
  }

  lemma MirrorNodes(f: ThreadForest)
    ensures MirrorOf(f).par == f.par
  {
  }

  lemma NextBack(f: ThreadForest, n: MuttThread)
    requires WF(f) && Attached(f, n) && NextOf(f, n).Some?
    ensures var m := NextOf(f, n).value;
            Attached(f, m) && PrevOf(f, m) == Some(n) && f.par[m] == f.par[n]
  {
    AttachedInSibs(f, n);
    OrderIn(Sibs(f, n), n);
    NextPrev(Sibs(f, n), n, NextOf(f, n).value);
  }

  ghost predicate ClosedUp(f: ThreadForest, dom: set<MuttThread>) {
    forall n :: n in dom ==> n in f.par && (f.par[n].Some? ==> f.par[n].value in dom)
  }

  // What holds of the nodes visited so far.
  ghost predicate Visited(S: set<MuttThread>, f: ThreadForest, msg: map<MuttThread, Email>, vis: set<MuttThread>,
    sv: map<MuttThread, int>, hideLimited: bool, hideMissing: bool)
    reads sv.Keys`subtreeVisible, sv.Keys`visible, sv.Keys`deep, sv.Keys`nextSubtreeVisible
  {
    && sv.Keys <= S && Counted(f, vis, sv, None) && ClosedUp(f, sv.Keys) && Complete(f, sv.Keys)
    && ShownCounts(msg, vis, sv, hideLimited, hideMissing) && ShownNext(f, sv, sv.Keys)
  }

  // The body of the walk, at one node.
  method VisitNode(tree: MuttThread, hideLimited: bool, hideMissing: bool, ghost S: set<MuttThread>, ghost f: ThreadForest,
    ghost msg: map<MuttThread, Email>, ghost vis: set<MuttThread>, ghost head: MuttThread?, ghost done: seq<MuttThread>,
    ghost sv0: map<MuttThread, int>)
    returns (ghost sv: map<MuttThread, int>)
    requires Linked(S, f, head, {}) && Messages(S, msg) && Grown(f, msg) && VisibleNodes(S, msg, vis) && tree in S
    requires WalkAt(f, done, tree) && sv0.Keys == Elements(done) && Visited(S, f, msg, vis, sv0, hideLimited, hideMissing)
    modifies S`subtreeVisible, S`visible, S`deep, S`nextSubtreeVisible
    ensures sv.Keys == Elements(done + [tree]) && Visited(S, f, msg, vis, sv, hideLimited, hideMissing)
  {
    hide *;
    VisitHere(S, f, msg, vis, head, done, tree, sv0, hideLimited, hideMissing);
    var shown := tree.message != null && IsVisible(tree.message);
    var deep := if tree.message != null then shown || !hideLimited else !hideMissing;
    MarkNode(tree, shown, deep, f, msg, vis, sv0, hideLimited, hideMissing);
    sv := sv0[tree := 0];
    if shown {
      sv := CountUp(tree, S, f, msg, vis, hideLimited, hideMissing, head, sv);
    }
    NextKept(f, sv0, sv, sv0.Keys, tree);
    NextField(S, f, msg, vis, head, done, tree, sv, hideLimited, hideMissing);
    var next := tree.next != null && (tree.next.nextSubtreeVisible || tree.next.subtreeVisible != 0);
    SetNext(tree, next, f, sv, sv0.Keys);
    VisitDone(S, f, msg, vis, sv0, sv, tree, done, hideLimited, hideMissing);
  }

  lemma VisitHere(S: set<MuttThread>, f: ThreadForest, msg: map<MuttThread, Email>, vis: set<MuttThread>, head: MuttThread?,
    done: seq<MuttThread>, tree: MuttThread, sv: map<MuttThread, int>, hideLimited: bool, hideMissing: bool)
    requires Linked(S, f, head, {}) && Messages(S, msg) && Grown(f, msg) && VisibleNodes(S, msg, vis) && tree in S
    requires WalkAt(f, done, tree) && sv.Keys == Elements(done) && Visited(S, f, msg, vis, sv, hideLimited, hideMissing)
    ensures WF(f) && tree in f.par && tree !in sv && sv.Keys <= S
    ensures Counted(f, vis, sv[tree := 0], Some(tree)) && Target(f, vis, sv[tree := 0], tree) == (if tree in vis then 1 else 0)
    ensures tree !in vis ==> Counted(f, vis, sv[tree := 0], None)
    ensures forall n :: n in sv[tree := 0] && f.par[n].Some? ==> f.par[n].value in sv[tree := 0]
    ensures ShownCounts(msg, vis, sv, hideLimited, hideMissing) && ShownNext(f, sv, sv.Keys)
    ensures Complete(f, sv.Keys) && ClosedUp(f, sv.Keys)
    ensures tree in vis <==> tree.message != null && IsVisible(tree.message)
    ensures tree.message != null <==> tree in msg
    ensures forall n :: n in sv && !IsUnder(f, tree, n) ==> sv[tree := 0][n] == sv[n]
  {
    hide Linked, Pre, After, Live, Target, Complete, ShownCounts, ShownNext, Counted;
    VisitFacts(f, msg, done, tree);
    VisitStep(f, vis, sv, tree);
  }

  method MarkNode(n: MuttThread, shown: bool, deep: bool, ghost f: ThreadForest, ghost msg: map<MuttThread, Email>,
    ghost vis: set<MuttThread>, ghost sv: map<MuttThread, int>, hideLimited: bool, hideMissing: bool)
    requires ShownCounts(msg, vis, sv, hideLimited, hideMissing) && n !in sv && shown == (n in vis)
    requires n in vis ==> n in msg
    requires deep == if n in msg then shown || !hideLimited else !hideMissing
    modifies n`subtreeVisible, n`visible, n`deep
    ensures ShownCounts(msg, vis, sv[n := 0], hideLimited, hideMissing)
  {
    n.subtreeVisible := 0;
    n.visible := shown;
    n.deep := deep;
  }

  lemma NextField(S: set<MuttThread>, f: ThreadForest, msg: map<MuttThread, Email>, vis: set<MuttThread>, head: MuttThread?,
    done: seq<MuttThread>, tree: MuttThread, sv: map<MuttThread, int>, hideLimited: bool, hideMissing: bool)
    requires Linked(S, f, head, {}) && Grown(f, msg) && tree in S && WalkAt(f, done, tree)
    requires sv.Keys == Elements(done) + {tree} && Counted(f, vis, sv, None)
    requires ShownCounts(msg, vis, sv, hideLimited, hideMissing) && ShownNext(f, sv, Elements(done))
    ensures (tree.next != null && (tree.next.nextSubtreeVisible || tree.next.subtreeVisible != 0))
            == (Live(sv, Later(Sibs(f, tree), tree)) > 0)
  {
    hide Pre, After, Target, WF, Sibs;
    VisitFacts(f, msg, done, tree);
    NodeNext(S, f, head, tree);
    if tree.next != null {
      AttachedSibs(f, tree);
      LaterNext(Sibs(f, tree), tree);
      NextSibs(f, tree);
      IsUnderRefl(f, tree.next);
      var l := Later(Sibs(f, tree), tree);
      assert l == [tree.next] + l[1..];
      assert Live(sv, l) == (if tree.next in sv && sv[tree.next] > 0 then 1 else 0) + Live(sv, l[1..]);
    }
  }

  lemma NodeNext(S: set<MuttThread>, f: ThreadForest, head: MuttThread?, n: MuttThread)
    requires Linked(S, f, head, {}) && n in S && Attached(f, n)
    ensures n.next == OrNull(NextOf(f, n)) && n.prev == OrNull(PrevOf(f, n)) && S == f.par.Keys
  {
    assert NodeLinked(f, n);
  }

  lemma AttachedSibs(f: ThreadForest, n: MuttThread)
    requires WF(f) && Attached(f, n)
    ensures n in Sibs(f, n) && NoDup(Sibs(f, n))
  {
    AttachedInSibs(f, n);
  }

  lemma NextSibs(f: ThreadForest, n: MuttThread)
    requires WF(f) && Attached(f, n) && NextOf(f, n).Some?
    ensures Sibs(f, NextOf(f, n).value) == Sibs(f, n)
  {
    NextBack(f, n);
  }

  method SetNext(n: MuttThread, next: bool, ghost f: ThreadForest, ghost sv: map<MuttThread, int>, ghost dom: set<MuttThread>)
    requires ShownNext(f, sv, dom) && next == (Live(sv, Later(Sibs(f, n), n)) > 0)
    modifies n`nextSubtreeVisible
    ensures ShownNext(f, sv, dom + {n})
  {
    hide Sibs;
    n.nextSubtreeVisible := next;
  }

  lemma VisitDone(S: set<MuttThread>, f: ThreadForest, msg: map<MuttThread, Email>, vis: set<MuttThread>, sv0: map<MuttThread, int>,
    sv: map<MuttThread, int>, tree: MuttThread, done: seq<MuttThread>, hideLimited: bool, hideMissing: bool)
    requires Grown(f, msg) && WalkAt(f, done, tree) && sv0.Keys == Elements(done) && sv.Keys == sv0.Keys + {tree} && sv.Keys <= S
    requires ClosedUp(f, sv0.Keys) && Complete(f, sv0.Keys) && Counted(f, vis, sv, None)
    requires ShownCounts(msg, vis, sv, hideLimited, hideMissing) && ShownNext(f, sv, sv.Keys)
    ensures sv.Keys == Elements(done + [tree]) && Visited(S, f, msg, vis, sv, hideLimited, hideMissing)
  {
    hide WalkAt, Counted, ShownCounts, ShownNext, Complete, NextDone, WF, Grown, Attached, NextOf, KidsOf;
    GrownWF(f, msg);
    VisitFacts(f, msg, done, tree);
    CompleteStep(f, sv0.Keys, sv.Keys, tree, done);
  }

  lemma CompleteStep(f: ThreadForest, dom: set<MuttThread>, dom': set<MuttThread>, n: MuttThread, done: seq<MuttThread>)
    requires Complete(f, dom) && dom' == dom + {n} && dom == Elements(done) && n in f.par
    requires NextOf(f, n).Some? ==> NextDone(f, done, NextOf(f, n).value)
    requires WF(f) && Attached(f, n)
    ensures Complete(f, dom')
  {
    AttachedSibs(f, n);
    if NextOf(f, n).Some? {
      NextSibs(f, n);
      LaterNext(Sibs(f, n), n);
      IsUnderRefl(f, NextOf(f, n).value);
    }
    hide WF, IsUnder, Sibs;
    forall a, m, x | a in dom' && m in Later(Sibs(f, a), a) && x in f.par && IsUnder(f, x, m) ensures x in dom' {
      if a == n {
        var l := Later(Sibs(f, n), n);
        assert l == [l[0]] + l[1..];
      }
    }
  }

  // --- the walk ---

  // while (tree->next) tree = tree->next
  method LastSibling(from: MuttThread, ghost S: set<MuttThread>, ghost f: ThreadForest, ghost head: MuttThread?)
    returns (tree: MuttThread)
    requires Linked(S, f, head, {}) && WF(f) && from in S && Attached(f, from)
    ensures tree in S && Attached(f, tree) && Sibs(f, tree) == Sibs(f, from) && f.par[tree] == f.par[from]
    ensures Sibs(f, tree) != [] && tree == Rev(Sibs(f, tree))[0]
  {
    hide *;
    tree := from;
    SiblingHere(S, f, head, tree);
    while tree.next != null
      invariant tree in S && Attached(f, tree) && Sibs(f, tree) == Sibs(f, from) && tree in f.par && f.par[tree] == f.par[from]
      decreases |Later(Sibs(f, tree), tree)|
    {
      SiblingHere(S, f, head, tree);
      tree := tree.next;
    }
    SiblingHere(S, f, head, tree);
  }

  lemma SiblingHere(S: set<MuttThread>, f: ThreadForest, head: MuttThread?, n: MuttThread)
    requires Linked(S, f, head, {}) && WF(f) && n in S && Attached(f, n)
    ensures n in f.par
    ensures n.next != null ==> n.next in S && Attached(f, n.next) && n.next in f.par && f.par[n.next] == f.par[n]
    ensures n.next != null ==>
              var m: MuttThread := n.next;
              Sibs(f, m) == Sibs(f, n) && |Later(Sibs(f, n), m)| < |Later(Sibs(f, n), n)|
    ensures n.next == null ==> Sibs(f, n) != [] && n == Rev(Sibs(f, n))[0]
  {
    hide WF;
    NodeNext(S, f, head, n);
    AttachedSibs(f, n);
    if n.next != null {
      NextBack(f, n);
      ShorterLater(Sibs(f, n), n, n.next);
    } else {
      LastIs(Sibs(f, n), n);
    }
  }

  lemma ShorterLater(l: seq<MuttThread>, n: MuttThread, m: MuttThread)
    requires n in l && NoDup(l) && NextIn(l, n) == Some(m)
    ensures |Later(l, m)| < |Later(l, n)|
  {
    LaterNext(l, n);
  }

  lemma {:induction false} LastIs<T>(l: seq<T>, n: T)
    requires n in l && Later(l, n) == []
    ensures n == l[|l| - 1]
  {
    if l[0] != n { LastIs(l[1..], n); }
  }

  // One step of the backwards walk.
  lemma StepBack(S: set<MuttThread>, f: ThreadForest, msg: map<MuttThread, Email>, head: MuttThread?, n: MuttThread)
    requires Linked(S, f, head, {}) && Grown(f, msg) && n in S && Attached(f, n)
    ensures n.child != null ==> n.child in S && Attached(f, n.child) && n.child in f.par && f.par[n.child] == Some(n)
    ensures n.child == null ==> Pre(MirrorOf(f), n) == [n]
    ensures n.prev != null ==> n.prev in S && Attached(f, n.prev) && Depth(f, n.prev) == Depth(f, n)
    ensures n.prev != null ==>
              After(MirrorOf(f), n) == Pre(MirrorOf(f), n.prev) + After(MirrorOf(f), n.prev)
    ensures n.prev == null && n.parent != null ==>
              n.parent in S && Attached(f, n.parent) && Lvl(f, n.parent) < Lvl(f, n) && Depth(f, n) == Depth(f, n.parent) + 1
    ensures n.prev == null && n.parent != null ==> After(MirrorOf(f), n) == After(MirrorOf(f), n.parent)
    ensures n.prev == null && n.parent == null ==> After(MirrorOf(f), n) == [] && Depth(f, n) == 0
  {
    var g := MirrorOf(f);
    MirrorWF(f);
    Tables(f);
    MirrorLinks(f, n);
    NodeNext(S, f, head, n);
    ParentField(S, f, head, n);
    FirstKidField(S, f, head, n);
    UpOfPar(f, n);
    hide WF, Pre, After, NextOf, PrevOf, Linked;
    BackDown(f, n);
    if n.prev != null {
      BackPrev(f, n);
    } else {
      ToParent(g, n);
      if n.parent != null {
        ParentWithKid(f, n);
      }
    }
  }

  lemma BackDown(f: ThreadForest, n: MuttThread)
    requires WF(f) && n in f.par && n in f.kids
    ensures f.kids[n] == [] ==> Pre(MirrorOf(f), n) == [n]
    ensures f.kids[n] != [] ==> f.kids[n][0] in f.par && Attached(f, f.kids[n][0]) && f.par[f.kids[n][0]] == Some(n)
  {
    hide MirrorOf;
    MirrorWF(f);
    MirrorKids(f, n);
    DownKids(MirrorOf(f), n);
    assert KidsOK(f, n);
    assert PreAll(MirrorOf(f), []) == [];
  }

  lemma MirrorKids(f: ThreadForest, n: MuttThread)
    requires n in f.kids
    ensures MirrorOf(f).par == f.par && n in MirrorOf(f).kids && MirrorOf(f).kids[n] == Rev(f.kids[n])
  {
  }

  lemma BackPrev(f: ThreadForest, n: MuttThread)
    requires WF(f) && Attached(f, n) && PrevOf(f, n).Some?
    ensures var p := PrevOf(f, n).value;
            && p in f.par && Attached(f, p) && Depth(f, p) == Depth(f, n)
            && After(MirrorOf(f), n) == Pre(MirrorOf(f), p) + After(MirrorOf(f), p)
  {
    var g := MirrorOf(f);
    MirrorWF(f);
    MirrorLinks(f, n);
    hide Pre, After;
    ToNext(g, n);
    var p := PrevOf(f, n).value;
    MirrorAttached(f, p);
    UpOfPar(f, n);
    UpOfPar(f, p);
  }

  lemma MirrorAttached(f: ThreadForest, p: MuttThread)
    requires WF(f) && Attached(MirrorOf(f), p)
    ensures Attached(f, p)
  {
    RevNoDup(f.roots);
  }

  // The last child is where the walk goes down to.
  lemma ToLastChild(f: ThreadForest, n: MuttThread, k: MuttThread)
    requires WF(f) && n in f.par && n in f.kids && k in f.par && f.par[k] == Some(n) && Sibs(f, k) != [] && k == Rev(Sibs(f, k))[0]
    ensures Depth(f, k) == Depth(f, n) + 1
    ensures Pre(MirrorOf(f), n) + After(MirrorOf(f), n) == [n] + (Pre(MirrorOf(f), k) + After(MirrorOf(f), k))
  {
    UpOfPar(f, k);
    MirrorWF(f);
    hide WF, Pre, After;
    ToChild(MirrorOf(f), n);
  }

  // From n to the next node backwards that is not below n, keeping the depth.
  method PrevUp(from: MuttThread, depth0: int, ghost S: set<MuttThread>, ghost f: ThreadForest, ghost msg: map<MuttThread, Email>,
    ghost head: MuttThread?)
    returns (tree: MuttThread?, depth: int)
    requires Linked(S, f, head, {}) && Grown(f, msg) && from in S && Attached(f, from) && depth0 == Depth(f, from)
    ensures tree == null ==> After(MirrorOf(f), from) == []
    ensures tree != null ==> tree in S && Attached(f, tree) && depth == Depth(f, tree)
    ensures tree != null ==> After(MirrorOf(f), from) == Pre(MirrorOf(f), tree) + After(MirrorOf(f), tree)
  {
    hide *;
    tree, depth := from, depth0;
    StepBack(S, f, msg, head, from);
    while tree != null && tree.prev == null
      invariant tree != null ==> tree in S && Attached(f, tree) && depth == Depth(f, tree)
      invariant tree != null ==> After(MirrorOf(f), tree) == After(MirrorOf(f), from)
      invariant tree == null ==> After(MirrorOf(f), from) == []
      decreases tree != null, if tree != null then Lvl(f, tree) else 0
    {
      StepBack(S, f, msg, head, tree);
      depth := depth - 1;
      tree := tree.parent;
    }
    if tree != null {
      StepBack(S, f, msg, head, tree);
      tree := tree.prev;
    }
  }

  // The largest depth of the nodes visited.
  ghost predicate Deepest(f: ThreadForest, done: seq<MuttThread>, m: int) {
    (forall n :: n in done ==> Depth(f, n) <= m) && if done == [] then m == 0 else exists n :: n in done && Depth(f, n) == m
  }

  lemma DeepestStep(f: ThreadForest, done: seq<MuttThread>, m: int, n: MuttThread)
    requires Deepest(f, done, m)
    ensures Deepest(f, done + [n], if Depth(f, n) > m then Depth(f, n) else m)
  {
    if done == [] {
      assert n in done + [n];
    } else if Depth(f, n) > m {
      assert n in done + [n];
    } else {
      var x :| x in done && Depth(f, x) == m;
      assert x in done + [n];
    }
  }

  // The node shows what the specification says.
  ghost predicate IsShown(f: ThreadForest, msg: map<MuttThread, Email>, vis: set<MuttThread>, hideLimited: bool, hideMissing: bool, n: MuttThread)
    reads n
  {
    && n.visible == (n in vis)
    && n.subtreeVisible == SubtreeVisible(f, vis, n)
    && n.deep == DeepOf(msg, vis, SubtreeVisible(f, vis, n), hideLimited, hideMissing, n)
    && n.nextSubtreeVisible == (VisibleAmong(f, vis, Later(Sibs(f, n), n)) > 0)
  }

  ghost predicate WalkedAll(f: ThreadForest, done: seq<MuttThread>) {
    PreAll(MirrorOf(f), MirrorOf(f).roots) == done
  }

  ghost function Remaining(f: ThreadForest, n: MuttThread?): nat {
    if n == null then 0 else |Pre(MirrorOf(f), n) + After(MirrorOf(f), n)| + 1
  }

  lemma NothingToShow(S: set<MuttThread>, f: ThreadForest, msg: map<MuttThread, Email>)
    requires Linked(S, f, null, {}) && Grown(f, msg)
    ensures forall n :: n in S ==> !Attached(f, n)
  {
    forall n | n in S ensures !Attached(f, n) {
      if Attached(f, n) { GrownRoot(f, msg, n); }
    }
  }

  lemma BackStart(S: set<MuttThread>, f: ThreadForest, msg: map<MuttThread, Email>, vis: set<MuttThread>, head: MuttThread,
    hideLimited: bool, hideMissing: bool)
    requires Linked(S, f, head, {}) && Grown(f, msg)
    ensures head in S && Attached(f, head) && head in f.par && f.par[head] == None && Sibs(f, head) == f.roots
    ensures Visited(S, f, msg, vis, map[], hideLimited, hideMissing) && Elements<MuttThread>([]) == {}
    ensures Deepest(f, [], 0)
  {
  }

  lemma BackFirst(f: ThreadForest, n: MuttThread)
    requires WF(f) && Attached(f, n) && n in f.par && f.par[n] == None && Sibs(f, n) == f.roots && f.roots != [] && n == Rev(f.roots)[0]
    ensures WalkAt(f, [], n) && Depth(f, n) == 0
  {
    UpOfPar(f, n);
    MirrorWF(f);
    MirrorTop(f);
    hide WF, Pre, After, PreAll, MirrorOf, Attached;
    AtFirst(MirrorOf(f));
    NilPlus(Pre(MirrorOf(f), n) + After(MirrorOf(f), n));
  }

  lemma MirrorTop(f: ThreadForest)
    ensures MirrorOf(f).roots == Rev(f.roots)
  {
  }

  lemma NilPlus<T>(s: seq<T>)
    ensures [] + s == s
  {
  }

  lemma WentDown(f: ThreadForest, done: seq<MuttThread>, n: MuttThread, k: MuttThread)
    requires WF(f) && WalkAt(f, done, n) && n in f.par && k in f.par && f.par[k] == Some(n) && Attached(f, k)
    requires Sibs(f, k) != [] && k == Rev(Sibs(f, k))[0]
    ensures WalkAt(f, done + [n], k) && Depth(f, k) == Depth(f, n) + 1 && Remaining(f, k) < Remaining(f, n)
  {
    Tables(f);
    hide Pre, After, WF;
    ToLastChild(f, n, k);
    Assoc(done, [n], Pre(MirrorOf(f), k) + After(MirrorOf(f), k));
  }

  lemma WentBack(f: ThreadForest, done: seq<MuttThread>, n: MuttThread, m: MuttThread?)
    requires WalkAt(f, done, n) && Pre(MirrorOf(f), n) == [n]
    requires m == null ==> After(MirrorOf(f), n) == []
    requires m != null ==> Attached(f, m) && After(MirrorOf(f), n) == Pre(MirrorOf(f), m) + After(MirrorOf(f), m)
    ensures m == null ==> WalkedAll(f, done + [n])
    ensures m != null ==> WalkAt(f, done + [n], m)
    ensures Remaining(f, m) < Remaining(f, n)
  {
    hide Pre, After, PreAll;
    Assoc(done, [n], After(MirrorOf(f), n));
  }

  lemma VisitedAll(S: set<MuttThread>, f: ThreadForest, msg: map<MuttThread, Email>, vis: set<MuttThread>, head: MuttThread,
    done: seq<MuttThread>, sv: map<MuttThread, int>, maxDepth: int, hideLimited: bool, hideMissing: bool)
    requires Linked(S, f, head, {}) && Grown(f, msg) && WalkedAll(f, done) && sv.Keys == Elements(done) && Deepest(f, done, maxDepth)
    requires Visited(S, f, msg, vis, sv, hideLimited, hideMissing)
    ensures forall n :: n in S && Attached(f, n) ==> IsShown(f, msg, vis, hideLimited, hideMissing, n)
    ensures forall n :: n in S && Attached(f, n) ==> Depth(f, n) <= maxDepth
    ensures exists n :: n in S && Attached(f, n) && Depth(f, n) == maxDepth
  {
    hide Pre, After, PreAll, Depth, IsShown;
    AllDoneSet(S, f, msg, head, done);
    Tables(f);
    ForestHeadAttached(S, f, head);
    forall m, k | m in sv && k in KidsOf(f, m) ensures k in sv { KidsIff(f, m); KidAttached(f, k); }
    forall n | n in S && Attached(f, n) ensures IsShown(f, msg, vis, hideLimited, hideMissing, n) {
      ShowsSpec(S, f, msg, vis, sv, hideLimited, hideMissing, n);
    }
  }

  lemma ForestHeadAttached(S: set<MuttThread>, f: ThreadForest, head: MuttThread)
    requires Linked(S, f, head, {}) && WF(f)
    ensures head in S && Attached(f, head)
  {
  }

  lemma ShowsSpec(S: set<MuttThread>, f: ThreadForest, msg: map<MuttThread, Email>, vis: set<MuttThread>, sv: map<MuttThread, int>,
    hideLimited: bool, hideMissing: bool, n: MuttThread)
    requires WF(f) && Visited(S, f, msg, vis, sv, hideLimited, hideMissing) && n in sv && Attached(f, n)
    requires forall m, k :: m in sv && k in KidsOf(f, m) ==> k in sv
    requires forall k :: Attached(f, k) && k in f.par ==> k in sv
    ensures IsShown(f, msg, vis, hideLimited, hideMissing, n)
  {
    hide Counted, WF, Attached;
    CountsFinal(f, vis, sv, n);
    LaterSibs(f, n);
    CountsFinalAll(f, vis, sv, Later(Sibs(f, n), n));
  }

  lemma LaterSibs(f: ThreadForest, n: MuttThread)
    requires WF(f) && Attached(f, n)
    ensures forall k :: k in Later(Sibs(f, n), n) ==> k in f.par && Attached(f, k)
  {
    AttachedInSibs(f, n);
    LaterIn(Sibs(f, n), n);
  }

  lemma {:induction false} LaterIn<T>(l: seq<T>, n: T)
    ensures forall k :: k in Later(l, n) ==> k in l
  {
    if l != [] { LaterIn(l[1..], n); }
  }

  lemma AllDoneSet(S: set<MuttThread>, f: ThreadForest, msg: map<MuttThread, Email>, head: MuttThread?, done: seq<MuttThread>)
    requires Linked(S, f, head, {}) && Grown(f, msg) && WalkedAll(f, done)
    ensures forall n :: n in done ==> n in S && n in f.par && Attached(f, n)
    ensures forall n :: n in f.par && Attached(f, n) ==> n in done
    ensures S == f.par.Keys
  {
    var g := MirrorOf(f);
    MirrorWF(f);
    ForestOnce(g);
    forall n | n in f.par && Attached(f, n) ensures n in done {
      GrownRoot(f, msg, n);
      MirrorRoots(f, n);
    }
    forall n | n in done ensures n in f.par && Attached(f, n) {
      MirrorUnder(f, n, n);
      RevNoDup(f.roots);
      RootGrown(f, msg, n);
    }
  }

  lemma RootGrown(f: ThreadForest, msg: map<MuttThread, Email>, n: MuttThread)
    requires Grown(f, msg) && n in f.par && Root(f, n) in f.roots
    ensures Attached(f, n)
  {
    UpOfPar(f, n);
  }

  // The body of the walk, at one node, with its subject.
  method ShowNode(tree: MuttThread, hideLimited: bool, hideMissing: bool, hideSubject: bool, ghost S: set<MuttThread>, ghost f: ThreadForest,
    ghost msg: map<MuttThread, Email>, ghost vis: set<MuttThread>, ghost ch: set<MuttThread>, ghost head: MuttThread?, ghost done: seq<MuttThread>,
    ghost sv0: map<MuttThread, int>)
    returns (ghost sv: map<MuttThread, int>)
    requires Linked(S, f, head, {}) && Messages(S, msg) && Grown(f, msg) && VisibleNodes(S, msg, vis) && ChangedNodes(S, msg, ch) && OwnThreads(msg)
    requires tree in S && Attached(f, tree) && WalkAt(f, done, tree) && tree !in done
    requires sv0.Keys == Elements(done) && Visited(S, f, msg, vis, sv0, hideLimited, hideMissing) && SubjectsShown(f, msg, vis, ch, hideSubject, done)
    modifies S`subtreeVisible, S`visible, S`deep, S`nextSubtreeVisible, msg.Values`displaySubject
    ensures sv.Keys == Elements(done + [tree]) && Visited(S, f, msg, vis, sv, hideLimited, hideMissing)
    ensures SubjectsShown(f, msg, vis, ch, hideSubject, done + [tree])
  {
    hide *;
    GrownWF(f, msg);
    ShowSubject(tree, hideSubject, S, f, msg, vis, ch, head, done);
    sv := VisitNode(tree, hideLimited, hideMissing, S, f, msg, vis, head, done, sv0);
  }

  ghost predicate StandsAt(S: set<MuttThread>, f: ThreadForest, done: seq<MuttThread>, tree: MuttThread?, depth: int) {
    if tree == null then WalkedAll(f, done) else tree in S && WalkAt(f, done, tree) && depth == Depth(f, tree)
  }

  lemma Stands(S: set<MuttThread>, f: ThreadForest, msg: map<MuttThread, Email>, done: seq<MuttThread>, tree: MuttThread, depth: int)
    requires StandsAt(S, f, done, tree, depth) && Grown(f, msg)
    ensures tree in S && Attached(f, tree) && WalkAt(f, done, tree) && depth == Depth(f, tree) && tree !in done
  {
    hide WalkAt;
    VisitFacts(f, msg, done, tree);
  }

  // To the last child, or back to the node before.
  method GoBack(from: MuttThread, depth0: int, ghost S: set<MuttThread>, ghost f: ThreadForest, ghost msg: map<MuttThread, Email>,
    ghost head: MuttThread?, ghost done: seq<MuttThread>) returns (tree: MuttThread?, depth: int)
    requires Linked(S, f, head, {}) && Grown(f, msg) && StandsAt(S, f, done, from, depth0)
    ensures StandsAt(S, f, done + [from], tree, depth) && Remaining(f, tree) < Remaining(f, from)
  {
    hide WalkAt, WalkedAll, Linked, Grown, WF, Depth, Remaining, Attached, Pre, After, MirrorOf, Sibs, Rev;
    GrownWF(f, msg);
    Stands(S, f, msg, done, from, depth0);
    StepBack(S, f, msg, head, from);
    ParIn(S, f, head, from);
    if from.child != null {
      depth := depth0 + 1;
      tree := LastSibling(from.child, S, f, head);
      WentDown(f, done, from, tree);
    } else {
      tree, depth := PrevUp(from, depth0, S, f, msg, head);
      WentBack(f, done, from, tree);
    }
  }

  lemma ParIn(S: set<MuttThread>, f: ThreadForest, head: MuttThread?, n: MuttThread)
    requires Linked(S, f, head, {}) && n in S
    ensures n in f.par && S == f.par.Keys
  {
  }

  // The first walk of calculate_visibility.
  method MarkVisible(head: MuttThread?, maxDepth0: int, hideLimited: bool, hideMissing: bool, hideSubject: bool,
    ghost S: set<MuttThread>, ghost f: ThreadForest, ghost msg: map<MuttThread, Email>, ghost vis: set<MuttThread>, ghost ch: set<MuttThread>)
    returns (maxDepth: int)
    requires Linked(S, f, head, {}) && Messages(S, msg) && Grown(f, msg) && VisibleNodes(S, msg, vis) && ChangedNodes(S, msg, ch) && OwnThreads(msg)
    modifies S`subtreeVisible, S`visible, S`deep, S`nextSubtreeVisible, msg.Values`displaySubject
    ensures forall n :: n in S && Attached(f, n) ==> IsShown(f, msg, vis, hideLimited, hideMissing, n)
    ensures forall n :: n in S && Attached(f, n) && n in vis && n in msg ==> msg[n].displaySubject == ShowsSubject(f, vis, ch, hideSubject, n)
    ensures if head == null then maxDepth == maxDepth0
            else (forall n :: n in S && Attached(f, n) ==> Depth(f, n) <= maxDepth) && exists n :: n in S && Attached(f, n) && Depth(f, n) == maxDepth
  {
    hide *;
    if head == null {
      NothingToShow(S, f, msg);
      return maxDepth0;
    }
    GrownWF(f, msg);
    LinkedNodes(S, f, head, {});
    BackStart(S, f, msg, vis, head, hideLimited, hideMissing);
    var tree: MuttThread? := LastSibling(head, S, f, head);
    BackFirst(f, tree);
    StandsFirst(S, f, tree);
    maxDepth := 0;
    var depth := 0;
    ghost var done: seq<MuttThread>, sv := [], map[];
    NoneShown(f, msg, vis, ch, hideSubject);
    while tree != null
      invariant StandsAt(S, f, done, tree, depth)
      invariant sv.Keys == Elements(done) && Visited(S, f, msg, vis, sv, hideLimited, hideMissing)
      invariant SubjectsShown(f, msg, vis, ch, hideSubject, done)
      invariant Deepest(f, done, maxDepth)
      decreases Remaining(f, tree)
    {
      Stands(S, f, msg, done, tree, depth);
      DeepestStep(f, done, maxDepth, tree);
      if depth > maxDepth {
        maxDepth := depth;
      }
      ghost var at := tree;
      sv := ShowNode(tree, hideLimited, hideMissing, hideSubject, S, f, msg, vis, ch, head, done, sv);
      tree, depth := GoBack(tree, depth, S, f, msg, head, done);
      done := done + [at];
    }
    StandsEnd(S, f, done, depth);
    VisitedAll(S, f, msg, vis, head, done, sv, maxDepth, hideLimited, hideMissing);
    AllShown(S, f, msg, vis, ch, hideSubject, head, done);
  }

  lemma StandsEnd(S: set<MuttThread>, f: ThreadForest, done: seq<MuttThread>, depth: int)
    requires StandsAt(S, f, done, null, depth)
    ensures WalkedAll(f, done)
  {
  }

  lemma StandsFirst(S: set<MuttThread>, f: ThreadForest, tree: MuttThread)
    requires tree in S && WalkAt(f, [], tree) && Depth(f, tree) == 0
    ensures StandsAt(S, f, [], tree, 0)
  {
  }

  lemma NoneShown(f: ThreadForest, msg: map<MuttThread, Email>, vis: set<MuttThread>, ch: set<MuttThread>, hideSubject: bool)
    ensures SubjectsShown(f, msg, vis, ch, hideSubject, [])
  {
  }

  lemma AllShown(S: set<MuttThread>, f: ThreadForest, msg: map<MuttThread, Email>, vis: set<MuttThread>, ch: set<MuttThread>, hideSubject: bool,
    head: MuttThread?, done: seq<MuttThread>)
    requires Linked(S, f, head, {}) && Grown(f, msg) && WalkedAll(f, done) && SubjectsShown(f, msg, vis, ch, hideSubject, done)
    ensures forall n :: n in S && Attached(f, n) && n in vis && n in msg ==> msg[n].displaySubject == ShowsSubject(f, vis, ch, hideSubject, n)
  {
    hide ShowsSubject, Attached;
    AllDoneSet(S, f, msg, head, done);
  }
}
