// calculate_visibility as a whole: after the backwards walk, hidden messages at the top of a thread
// lose their depth for $hide_top_missing and $hide_top_limited.
module HiddenTops {
  import opened Sequences
  import opened Wrappers
  import opened Forests
  import opened Preorder
  import opened Threads
  import opened Context
  import opened ThreadTree
  import opened SortThreads
  import opened Linearize
  import opened SubjectDisplay
  import opened Visibility

  // $hide_limited, $hide_missing, $hide_top_limited, $hide_top_missing, $hide_thread_subject
  datatype Hiding = Hiding(limited: bool, missing: bool, topLimited: bool, topMissing: bool, subject: bool)

  // --- what is left of the depth ---

  ghost predicate DeepFirst(f: ThreadForest, msg: map<MuttThread, Email>, vis: set<MuttThread>, h: Hiding, n: MuttThread) {
    DeepOf(msg, vis, SubtreeVisible(f, vis, n), h.limited, h.missing, n)
  }

  predicate TopOption(h: Hiding, found: bool) {
    if found then h.topLimited && !h.limited else h.topMissing && !h.missing
  }

  // Everything above n has something to show below it, but no depth of its own.
  ghost predicate Reached(f: ThreadForest, msg: map<MuttThread, Email>, vis: set<MuttThread>, h: Hiding, n: MuttThread)
    decreases Lvl(f, n), 0
  {
    Up(f, n).None? ||
    var p := Up(f, n).value;
    Reached(f, msg, vis, h, p) && SubtreeVisible(f, vis, p) > 0 && !DeepLast(f, msg, vis, h, p)
  }

  // A hidden node that is reached loses its depth if the option says so and no visible parts come
  // together there.
  ghost predicate DeepLast(f: ThreadForest, msg: map<MuttThread, Email>, vis: set<MuttThread>, h: Hiding, n: MuttThread)
    decreases Lvl(f, n), 1
  {
    && DeepFirst(f, msg, vis, h, n)
    && !(Reached(f, msg, vis, h, n) && n !in vis && SubtreeVisible(f, vis, n) < 2 && TopOption(h, n in msg))
  }

  // Only nodes without a visible message above them are reached.
  lemma {:induction false} OnlyTops(f: ThreadForest, msg: map<MuttThread, Email>, vis: set<MuttThread>, h: Hiding, n: MuttThread, a: MuttThread)
    requires Reached(f, msg, vis, h, n) && a != n && IsUnder(f, n, a)
    ensures a !in vis && SubtreeVisible(f, vis, a) == 1
    decreases Lvl(f, n)
  {
    var p := Up(f, n).value;
    if a != p { OnlyTops(f, msg, vis, h, p, a); }
  }

  // Below a node that is not opened nothing is reached.
  lemma {:induction false} NoneReached(f: ThreadForest, msg: map<MuttThread, Email>, vis: set<MuttThread>, h: Hiding, t: MuttThread, n: MuttThread)
    requires DeepLast(f, msg, vis, h, t) || SubtreeVisible(f, vis, t) == 0
    requires n != t && IsUnder(f, n, t)
    ensures !Reached(f, msg, vis, h, n)
    decreases Lvl(f, n)
  {
    var p := Up(f, n).value;
    if p != t { NoneReached(f, msg, vis, h, t, p); }
  }

  // --- the second walk ---

  ghost predicate DeepNow(S: set<MuttThread>, f: ThreadForest, msg: map<MuttThread, Email>, vis: set<MuttThread>, h: Hiding, done: seq<MuttThread>)
    reads S`deep
  {
    forall n :: n in S && Attached(f, n) ==> n.deep == if n in done then DeepLast(f, msg, vis, h, n) else DeepFirst(f, msg, vis, h, n)
  }

  ghost predicate CountsNow(S: set<MuttThread>, f: ThreadForest, vis: set<MuttThread>)
    reads S`visible, S`subtreeVisible
  {
    forall n :: n in S && Attached(f, n) ==> n.visible == (n in vis) && n.subtreeVisible == SubtreeVisible(f, vis, n)
  }

  ghost predicate Standing(f: ThreadForest, done: seq<MuttThread>, n: MuttThread) {
    Attached(f, n) && PreAll(f, f.roots) == done + (Pre(f, n) + After(f, n))
  }

  lemma NotYetDone(f: ThreadForest, done: seq<MuttThread>, n: MuttThread)
    requires WF(f) && Standing(f, done, n)
    ensures n !in done
  {
    ForestOnce(f);
    DownKids(f, n);
    ApartConcat(done, Pre(f, n) + After(f, n), n);
  }

  // The node in hand.
  method HideHere(tree: MuttThread, h: Hiding, ghost S: set<MuttThread>, ghost f: ThreadForest, ghost msg: map<MuttThread, Email>,
    ghost vis: set<MuttThread>, ghost done: seq<MuttThread>)
    requires Messages(S, msg) && tree in S && Attached(f, tree) && tree !in done && Reached(f, msg, vis, h, tree)
    requires DeepNow(S, f, msg, vis, h, done) && CountsNow(S, f, vis)
    modifies tree`deep
    ensures DeepNow(S, f, msg, vis, h, done + [tree])
  {
    hide Reached, SubtreeVisible, DeepOf, Attached;
    if !tree.visible && tree.deep && tree.subtreeVisible < 2 && TopOption(h, tree.message != null) {
      tree.deep := false;
    }
  }

  lemma HereFields(S: set<MuttThread>, f: ThreadForest, msg: map<MuttThread, Email>, vis: set<MuttThread>, h: Hiding, done: seq<MuttThread>, n: MuttThread)
    requires DeepNow(S, f, msg, vis, h, done) && CountsNow(S, f, vis) && n in S && Attached(f, n) && n in done
    ensures n.deep == DeepLast(f, msg, vis, h, n) && n.subtreeVisible == SubtreeVisible(f, vis, n)
  {
  }

  // Nodes below one that is not opened keep their depth.
  lemma SkipBelow(S: set<MuttThread>, f: ThreadForest, msg: map<MuttThread, Email>, vis: set<MuttThread>, h: Hiding, done: seq<MuttThread>, n: MuttThread)
    requires WF(f) && n in f.par && DeepNow(S, f, msg, vis, h, done + [n]) && (DeepLast(f, msg, vis, h, n) || SubtreeVisible(f, vis, n) == 0 || Pre(f, n) == [n])
    ensures DeepNow(S, f, msg, vis, h, done + Pre(f, n))
  {
    hide WF, Attached, SubtreeVisible, DeepFirst, Pre, Reached;
    DownKids(f, n);
    forall m | m in S && Attached(f, m) && m !in done && m in Pre(f, n) && m != n
      ensures m.deep == DeepLast(f, msg, vis, h, m)
    {
      PreUnder(f, n, m);
      NoneReached(f, msg, vis, h, n, m);
    }
  }

  lemma OnHere(S: set<MuttThread>, f: ThreadForest, msg: map<MuttThread, Email>, vis: set<MuttThread>, h: Hiding, head: MuttThread?, n: MuttThread)
    requires Linked(S, f, head, {}) && Grown(f, msg) && n in S && Attached(f, n) && Reached(f, msg, vis, h, n)
    ensures n.next != null ==> var m: MuttThread := n.next; m in S && Attached(f, m) && After(f, n) == Pre(f, m) + After(f, m) && Reached(f, msg, vis, h, m)
    ensures n.next == null && n.parent != null ==>
      var p: MuttThread := n.parent; p in S && Attached(f, p) && Lvl(f, p) < Lvl(f, n) && After(f, n) == After(f, p) && Reached(f, msg, vis, h, p)
    ensures n.next == null && n.parent == null ==> After(f, n) == []
  {
    hide Pre, After, SubtreeVisible, DeepLast;
    Tables(f);
    ParentField(S, f, head, n);
    assert NodeLinked(f, n);
    UpOfPar(f, n);
    if n.next != null {
      ToNext(f, n);
      UpOfPar(f, n.next);
    } else {
      ToParent(f, n);
      if n.parent != null { ParentWithKid(f, n); }
    }
  }

  // On to the next node that is not below `from`.
  method Onward(from: MuttThread, ghost S: set<MuttThread>, ghost f: ThreadForest, ghost msg: map<MuttThread, Email>, ghost vis: set<MuttThread>,
    ghost h: Hiding, ghost head: MuttThread?) returns (tree: MuttThread?)
    requires Linked(S, f, head, {}) && Grown(f, msg) && from in S && Attached(f, from) && Reached(f, msg, vis, h, from)
    ensures tree == null ==> After(f, from) == []
    ensures tree != null ==> tree in S && Attached(f, tree) && Reached(f, msg, vis, h, tree) && After(f, from) == Pre(f, tree) + After(f, tree)
  {
    hide *;
    OnHere(S, f, msg, vis, h, head, from);
    tree := from;
    while tree != null && tree.next == null
      invariant tree != null ==> tree in S && Attached(f, tree) && Reached(f, msg, vis, h, tree) && After(f, tree) == After(f, from)
      invariant tree == null ==> After(f, from) == []
      decreases tree != null, if tree != null then Lvl(f, tree) else 0
    {
      OnHere(S, f, msg, vis, h, head, tree);
      tree := tree.parent;
    }
    if tree != null {
      OnHere(S, f, msg, vis, h, head, tree);
      tree := tree.next;
    }
  }

  // Down to the first child of a node that is opened.
  lemma IntoChild(S: set<MuttThread>, f: ThreadForest, msg: map<MuttThread, Email>, vis: set<MuttThread>, h: Hiding, head: MuttThread?,
    done: seq<MuttThread>, n: MuttThread)
    requires Linked(S, f, head, {}) && Grown(f, msg) && n in S && Standing(f, done, n) && Reached(f, msg, vis, h, n)
    ensures n.child == null ==> Pre(f, n) == [n]
    ensures n.child != null ==>
      var k: MuttThread := n.child;
      && k in S && Standing(f, done + [n], k) && Pre(f, n) + After(f, n) == [n] + (Pre(f, k) + After(f, k))
      && (!DeepLast(f, msg, vis, h, n) && SubtreeVisible(f, vis, n) > 0 ==> Reached(f, msg, vis, h, k))
  {
    hide Attached;
    Tables(f);
    DownKids(f, n);
    LinkedNodes(S, f, head, {});
    FirstKidField(S, f, head, n);
    if n.child != null {
      var k: MuttThread := n.child;
      ToChild(f, n);
      KidAttached(f, k);
      UpOfPar(f, k);
      hide Pre, After, PreAll, SubtreeVisible, DeepLast;
      Assoc(done, [n], Pre(f, k) + After(f, k));
    }
  }

  lemma Passed(f: ThreadForest, done: seq<MuttThread>, n: MuttThread, m: MuttThread?)
    requires Standing(f, done, n) && (m == null ==> After(f, n) == [])
    requires m != null ==> Attached(f, m) && After(f, n) == Pre(f, m) + After(f, m)
    ensures m == null ==> PreAll(f, f.roots) == done + Pre(f, n)
    ensures m != null ==> Standing(f, done + Pre(f, n), m)
    ensures Ahead(f, m) < Ahead(f, n)
  {
    hide After, PreAll, Attached;
    assert |Pre(f, n)| > 0;
    hide Pre;
    if m == null {
      assert Pre(f, n) + [] == Pre(f, n);
    } else {
      Assoc(done, Pre(f, n), After(f, n));
    }
  }

  ghost function Ahead(f: ThreadForest, n: MuttThread?): nat {
    if n == null then 0 else |Pre(f, n) + After(f, n)| + 1
  }

  lemma AheadChild(f: ThreadForest, n: MuttThread, k: MuttThread)
    requires Pre(f, n) + After(f, n) == [n] + (Pre(f, k) + After(f, k))
    ensures Ahead(f, k) < Ahead(f, n)
  {
    hide Pre, After;
  }

  method HideTops(head: MuttThread?, h: Hiding, ghost S: set<MuttThread>, ghost f: ThreadForest, ghost msg: map<MuttThread, Email>, ghost vis: set<MuttThread>)
    requires Linked(S, f, head, {}) && Messages(S, msg) && Grown(f, msg)
    requires DeepNow(S, f, msg, vis, h, []) && CountsNow(S, f, vis)
    modifies S`deep
    ensures DeepNow(S, f, msg, vis, h, PreAll(f, f.roots))
  {
    hide *;
    GrownWF(f, msg);
    StandStart(S, f, msg, vis, h, head);
    var tree := head;
    ghost var done: seq<MuttThread> := [];
    while tree != null
      invariant tree != null ==> tree in S && Standing(f, done, tree) && Attached(f, tree) && Reached(f, msg, vis, h, tree)
      invariant tree == null ==> PreAll(f, f.roots) == done
      invariant DeepNow(S, f, msg, vis, h, done)
      decreases Ahead(f, tree)
    {
      NotYetDone(f, done, tree);
      IntoChild(S, f, msg, vis, h, head, done, tree);
      HideHere(tree, h, S, f, msg, vis, done);
      HereFields(S, f, msg, vis, h, done + [tree], tree);
      if !tree.deep && tree.child != null && tree.subtreeVisible != 0 {
        AheadChild(f, tree, tree.child);
        done := done + [tree];
        tree := tree.child;
        StandsAttached(f, done, tree);
      } else {
        ParIs(S, f, head, tree);
        SkipBelow(S, f, msg, vis, h, done, tree);
        ghost var at := tree;
        tree := Onward(tree, S, f, msg, vis, h, head);
        Passed(f, done, at, tree);
        done := done + Pre(f, at);
      }
    }
  }

  lemma ParIs(S: set<MuttThread>, f: ThreadForest, head: MuttThread?, n: MuttThread)
    requires Linked(S, f, head, {}) && n in S
    ensures n in f.par
  {
  }

  lemma StandsAttached(f: ThreadForest, done: seq<MuttThread>, n: MuttThread)
    requires Standing(f, done, n)
    ensures Attached(f, n)
  {
  }

  lemma StandStart(S: set<MuttThread>, f: ThreadForest, msg: map<MuttThread, Email>, vis: set<MuttThread>, h: Hiding, head: MuttThread?)
    requires Linked(S, f, head, {}) && Grown(f, msg)
    ensures head == null ==> PreAll(f, f.roots) == []
    ensures head != null ==> head in S && Standing(f, [], head) && Attached(f, head) && Reached(f, msg, vis, h, head)
  {
    hide *;
    GrownWF(f, msg);
    HeadIs(S, f, head);
    LinkedNodes(S, f, head, {});
    NoTrees(f);
    if head != null {
      FirstIs(f, head);
      AtFirst(f);
      RootReached(f, msg, vis, h, head);
      NilPlus(Pre(f, head) + After(f, head));
      StandsHere(f, head);
    }
  }

  lemma FirstIs(f: ThreadForest, n: MuttThread)
    requires WF(f) && OrNull(First(f.roots)) == n
    ensures f.roots != [] && f.roots[0] == n && n in f.par && Up(f, n).None?
  {
    RootsParentless(f);
    hide WF;
  }

  lemma RootReached(f: ThreadForest, msg: map<MuttThread, Email>, vis: set<MuttThread>, h: Hiding, n: MuttThread)
    requires Up(f, n).None?
    ensures Reached(f, msg, vis, h, n)
  {
  }

  lemma StandsHere(f: ThreadForest, n: MuttThread)
    requires Attached(f, n) && PreAll(f, f.roots) == [] + (Pre(f, n) + After(f, n))
    ensures Standing(f, [], n)
  {
    hide Pre, After, PreAll, Attached;
  }

  lemma NoTrees(f: ThreadForest)
    ensures f.roots == [] ==> PreAll(f, f.roots) == []
    ensures f.roots == [] ==> OrNull(First(f.roots)) == null
    ensures f.roots != [] ==> OrNull(First(f.roots)) != null
  {
  }

  // --- the whole ---

  // The node shows what the two walks make of it.
  ghost predicate IsDisplayed(f: ThreadForest, msg: map<MuttThread, Email>, vis: set<MuttThread>, h: Hiding, n: MuttThread)
    reads n
  {
    && n.visible == (n in vis)
    && n.subtreeVisible == SubtreeVisible(f, vis, n)
    && n.deep == DeepLast(f, msg, vis, h, n)
    && n.nextSubtreeVisible == (VisibleAmong(f, vis, Later(Sibs(f, n), n)) > 0)
  }

  ghost predicate NextNow(S: set<MuttThread>, f: ThreadForest, vis: set<MuttThread>)
    reads S`nextSubtreeVisible
  {
    forall n :: n in S && Attached(f, n) ==> n.nextSubtreeVisible == (VisibleAmong(f, vis, Later(Sibs(f, n), n)) > 0)
  }

  lemma ShownParts(S: set<MuttThread>, f: ThreadForest, msg: map<MuttThread, Email>, vis: set<MuttThread>, h: Hiding)
    requires forall n :: n in S && Attached(f, n) ==> IsShown(f, msg, vis, h.limited, h.missing, n)
    ensures DeepNow(S, f, msg, vis, h, []) && CountsNow(S, f, vis) && NextNow(S, f, vis)
  {
    hide SubtreeVisible, VisibleAmong, Attached, DeepOf;
  }

  lemma Displays(S: set<MuttThread>, f: ThreadForest, msg: map<MuttThread, Email>, vis: set<MuttThread>, h: Hiding, head: MuttThread?)
    requires Linked(S, f, head, {}) && Grown(f, msg) && CountsNow(S, f, vis) && NextNow(S, f, vis)
    requires DeepNow(S, f, msg, vis, h, PreAll(f, f.roots)) || (DeepNow(S, f, msg, vis, h, []) && !TopOption(h, true) && !TopOption(h, false))
    ensures forall n :: n in S && Attached(f, n) ==> IsDisplayed(f, msg, vis, h, n)
  {
    hide SubtreeVisible, VisibleAmong, Attached, Reached, DeepFirst, PreAll, Linked, WF;
    forall n | n in S && Attached(f, n) ensures IsDisplayed(f, msg, vis, h, n) { InForest(S, f, msg, head, n); }
  }

  lemma InForest(S: set<MuttThread>, f: ThreadForest, msg: map<MuttThread, Email>, head: MuttThread?, n: MuttThread)
    requires Linked(S, f, head, {}) && Grown(f, msg) && n in S && Attached(f, n)
    ensures n in PreAll(f, f.roots)
  {
    ForestOnce(f);
    GrownRoot(f, msg, n);
  }

  method CalculateVisibility(head: MuttThread?, maxDepth0: int, h: Hiding,
    ghost S: set<MuttThread>, ghost f: ThreadForest, ghost msg: map<MuttThread, Email>, ghost vis: set<MuttThread>, ghost ch: set<MuttThread>)
    returns (maxDepth: int)
    requires Linked(S, f, head, {}) && Messages(S, msg) && Grown(f, msg) && VisibleNodes(S, msg, vis) && ChangedNodes(S, msg, ch) && OwnThreads(msg)
    modifies S`subtreeVisible, S`visible, S`deep, S`nextSubtreeVisible, msg.Values`displaySubject
    ensures forall n :: n in S && Attached(f, n) ==> IsDisplayed(f, msg, vis, h, n)
    ensures forall n :: n in S && Attached(f, n) && n in vis && n in msg ==> msg[n].displaySubject == ShowsSubject(f, vis, ch, h.subject, n)
    ensures if head == null then maxDepth == maxDepth0
            else (forall n :: n in S && Attached(f, n) ==> Depth(f, n) <= maxDepth) && exists n :: n in S && Attached(f, n) && Depth(f, n) == maxDepth
  {
    hide *;
    maxDepth := MarkVisible(head, maxDepth0, h.limited, h.missing, h.subject, S, f, msg, vis, ch);
    ShownParts(S, f, msg, vis, h);
    if TopOption(h, true) || TopOption(h, false) {
      HideTops(head, h, S, f, msg, vis);
    }
    Displays(S, f, msg, vis, h, head);
  }
}
