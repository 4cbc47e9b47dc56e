// pseudo_threads: what the choice of a parent by subject does to the tree.
module SubjectTree {
  import opened Wrappers
  import opened Forests
  import opened Preorder
  import opened Threads
  import opened ThreadTree
  import opened Linearize
  import opened SubtreeWalk
  import opened TopmostWalk
  import opened Subjects

  // --- a top-level thread moves below a message ---

  ghost function Moved(f: ThreadForest, cur: MuttThread, parent: MuttThread): ThreadForest
    requires parent in f.kids && parent in f.lvl
  {
    Insert(UnlinkRoot(f, cur), parent, cur)
  }

  lemma MovedOK(f: ThreadForest, msg: map<MuttThread, Email>, cur: MuttThread, parent: MuttThread)
    requires Grown(f, msg) && cur in f.roots && parent in msg && !IsUnder(f, parent, cur)
    ensures parent in f.kids && parent in f.lvl && parent in f.par && cur in f.par && parent != cur
    ensures WF(UnlinkRoot(f, cur)) && Dangling(UnlinkRoot(f, cur), cur) && !IsUnder(UnlinkRoot(f, cur), parent, cur)
    ensures UnlinkRoot(f, cur).par == f.par
    ensures var g := Moved(f, cur, parent);
            Grown(g, msg) && g.par == f.par[cur := Some(parent)] && g.roots == Remove(f.roots, cur) && Attached(g, cur)
  {
    Tables(f);
    UnlinkRootWF(f, cur);
    UnlinkRootUnder(f, cur, parent, cur);
    InsertWF(UnlinkRoot(f, cur), parent, cur);
    GrownMoved(f, msg, cur, parent);
  }

  lemma GrownMoved(f: ThreadForest, msg: map<MuttThread, Email>, cur: MuttThread, parent: MuttThread)
    requires Grown(f, msg) && cur in f.roots && parent in msg && parent in f.kids && parent in f.lvl && WF(Moved(f, cur, parent))
    ensures Grown(Moved(f, cur, parent), msg)
  {
    hide WF;
    Tables(f);
    var g := Moved(f, cur, parent);
    forall n | n in g.kids
      ensures g.kids[n] != [] || n in msg ==> Attached(g, n)
      ensures Attached(g, n) && n !in msg ==> g.kids[n] != []
    {
      RemoveKeeps(f.roots, cur, n);
      assert n != parent ==> g.kids[n] == f.kids[n];
    }
  }

  lemma {:induction false} RemoveKeeps<T>(l: seq<T>, x: T, n: T)
    ensures n != x ==> (n in Remove(l, x) <==> n in l)
  {
    if l != [] && l[0] != x { RemoveKeeps(l[1..], x, n); }
  }

  // unlink_message(&top, cur) on the top level.
  method UnlinkTop(head: MuttThread?, cur: MuttThread, ghost S: set<MuttThread>, ghost f: ThreadForest) returns (top: MuttThread?)
    requires WF(f) && Linked(S, f, head, {}) && cur in f.roots && WF(UnlinkRoot(f, cur))
    modifies S`next, S`prev
    ensures Linked(S, UnlinkRoot(f, cur), top, {})
  {
    forall n | n in S ensures UnlinkRootAt(f, UnlinkRoot(f, cur), cur, n) { UnlinkRootLinks(f, cur, n); }
    TopLinks(f, cur);
    top := RelinkTop(head, cur, S, f, UnlinkRoot(f, cur));
  }

  lemma TopLinks(f: ThreadForest, cur: MuttThread)
    requires WF(f) && cur in f.roots
    ensures cur in f.par && Attached(f, cur) && First(UnlinkRoot(f, cur).roots) == if PrevOf(f, cur).None? then NextOf(f, cur) else First(f.roots)
    ensures UnlinkRoot(f, cur).par == f.par
    ensures NextOf(f, cur).Some? ==> NextOf(f, cur).value in f.par
    ensures PrevOf(f, cur).Some? ==> PrevOf(f, cur).value in f.par
  {
    FirstPrev(f.roots, cur);
    OrderIn(f.roots, cur);
    NextSwap(f.roots, cur);
  }

  method RelinkTop(head: MuttThread?, cur: MuttThread, ghost S: set<MuttThread>, ghost f: ThreadForest, ghost g: ThreadForest)
      returns (top: MuttThread?)
    requires Linked(S, f, head, {}) && cur in S && Attached(f, cur) && g.par == f.par
    requires forall n :: n in S ==> UnlinkRootAt(f, g, cur, n)
    requires First(g.roots) == if PrevOf(f, cur).None? then NextOf(f, cur) else First(f.roots)
    requires NextOf(f, cur).Some? ==> NextOf(f, cur).value in S
    requires PrevOf(f, cur).Some? ==> PrevOf(f, cur).value in S
    modifies S`next, S`prev
    ensures Linked(S, g, top, {})
  {
    hide NextOf, PrevOf, FirstKid, Attached, First, Up;
    top := head;
    var prev, next := cur.prev, cur.next;
    if prev != null {
      prev.next := next;
    } else {
      top := next;
    }
    if next != null {
      next.prev := prev;
    }
    forall n | n in S ensures NodeLinked(g, n) {
      assert UnlinkRootAt(f, g, cur, n) && old(NodeLinked(f, n));
    }
  }

  // --- pseudo-threaded children move up to the parent ---

  ghost function Hoisted(f: ThreadForest, k: MuttThread, parent: MuttThread): ThreadForest
    requires k in f.par && f.par[k].Some? && f.par[k].value in f.kids && parent in f.kids && parent in f.lvl
  {
    Insert(Unlink(f, k), parent, k)
  }

  lemma HoistedOK(f: ThreadForest, msg: map<MuttThread, Email>, k: MuttThread, t: MuttThread, parent: MuttThread)
    requires Grown(f, msg) && k in f.par && f.par[k] == Some(t) && t in msg && parent in msg && !IsUnder(f, parent, k)
    ensures t in f.kids && parent in f.kids && parent in f.lvl && parent in f.par && t in f.par
    ensures WF(Unlink(f, k)) && Dangling(Unlink(f, k), k) && !IsUnder(Unlink(f, k), parent, k)
    ensures var g := Hoisted(f, k, parent);
            Grown(g, msg) && g.par == f.par[k := Some(parent)] && g.roots == f.roots
  {
    hide WF, IsUnder, Grown;
    GrownWF(f, msg);
    HoistNodes(f, msg, k, t, parent);
    UnlinkWF(f, k);
    UnlinkUnder(f, k, parent, k);
    InsertWF(Unlink(f, k), parent, k);
    GrownHoisted(f, msg, k, t, parent);
  }

  lemma HoistNodes(f: ThreadForest, msg: map<MuttThread, Email>, k: MuttThread, t: MuttThread, parent: MuttThread)
    requires Grown(f, msg) && k in f.par && f.par[k] == Some(t) && t in msg && parent in msg
    ensures t in f.kids && parent in f.kids && parent in f.lvl && parent in f.par && t in f.par
  {
    Tables(f);
  }

  lemma GrownHoisted(f: ThreadForest, msg: map<MuttThread, Email>, k: MuttThread, t: MuttThread, parent: MuttThread)
    requires Grown(f, msg) && k in f.par && f.par[k] == Some(t) && t in msg && parent in msg
    requires t in f.kids && parent in f.kids && parent in f.lvl && WF(Hoisted(f, k, parent))
    ensures Grown(Hoisted(f, k, parent), msg)
  {
    hide WF;
    Tables(f);
    var g := Hoisted(f, k, parent);
    forall n | n in g.kids
      ensures g.kids[n] != [] || n in msg ==> Attached(g, n)
      ensures Attached(g, n) && n !in msg ==> g.kids[n] != []
    {
      assert n != parent && n != t ==> g.kids[n] == f.kids[n];
    }
  }

  // A node below a child of parent is not above parent.
  lemma NotAbove(f: ThreadForest, k: MuttThread, cur: MuttThread, parent: MuttThread)
    requires WF(f) && cur in f.par && f.par[cur] == Some(parent) && IsUnder(f, k, cur)
    ensures !IsUnder(f, parent, k)
  {
    UpOfPar(f, cur);
    if IsUnder(f, parent, k) {
      UnderTrans(f, parent, k, cur);
      UnderLvl(f, parent, cur);
    }
  }

  // What the walk over the topmost messages of cur reads is as it was in f0.
  ghost predicate Stable(f0: ThreadForest, f: ThreadForest, msg: map<MuttThread, Email>, cur: MuttThread) {
    forall x :: x in f0.par && Clear(f0, msg, cur, x) ==> StableAt(f0, f, msg, cur, x)
  }

  ghost predicate StableAt(f0: ThreadForest, f: ThreadForest, msg: map<MuttThread, Email>, cur: MuttThread, x: MuttThread)
    requires x in f0.par
  {
    && x in f.par && f.par[x] == f0.par[x] && Attached(f, x)
    && (x != cur ==> NextOf(f, x) == NextOf(f0, x))
    && (x !in msg ==> FirstKid(f, x) == FirstKid(f0, x))
  }

  lemma StableSelf(f: ThreadForest, msg: map<MuttThread, Email>, cur: MuttThread)
    requires WF(f) && Attached(f, cur)
    ensures Stable(f, f, msg, cur)
  {
    forall x | x in f.par && Clear(f, msg, cur, x) ensures StableAt(f, f, msg, cur, x) { ClearAttached(f, msg, cur, x); }
  }

  lemma StableWalks(S: set<MuttThread>, f0: ThreadForest, f: ThreadForest, head: MuttThread?, msg: map<MuttThread, Email>, cur: MuttThread)
    requires Linked(S, f, head, {}) && Stable(f0, f, msg, cur) && S == f0.par.Keys
    ensures Walks(S, f0, msg, cur)
  {
    forall n | n in S && Clear(f0, msg, cur, n) ensures WalksAt(f0, msg, cur, n) {
      assert StableAt(f0, f, msg, cur, n);
      assert NodeLinked(f, n);
    }
  }

  // The way up from a node of the walk is the same.
  lemma {:induction false} StableUnder(f0: ThreadForest, f: ThreadForest, msg: map<MuttThread, Email>, cur: MuttThread, x: MuttThread)
    requires WF(f0) && WF(f) && Stable(f0, f, msg, cur) && x in f0.par && Clear(f0, msg, cur, x)
    ensures IsUnder(f, x, cur)
    decreases Lvl(f0, x)
  {
    hide WF, NextOf, FirstKid;
    assert StableAt(f0, f, msg, cur, x);
    if x != cur {
      UpOfPar(f0, x);
      UpOfPar(f, x);
      StableUnder(f0, f, msg, cur, Up(f0, x).value);
    }
  }

  // Hoisting a child of a topmost message does not disturb the walk.
  lemma HoistStable(f0: ThreadForest, f: ThreadForest, msg: map<MuttThread, Email>, cur: MuttThread, parent: MuttThread,
                    t: MuttThread, k: MuttThread)
    requires WF(f0) && Grown(f, msg) && Stable(f0, f, msg, cur) && cur in f0.par && f0.par[cur] == Some(parent) && !IsUnder(f0, parent, cur)
    requires t in f0.par && Topmost(f0, msg, cur, t) && k in f.par && f.par[k] == Some(t) && parent in msg && !IsUnder(f, parent, k)
    ensures t in f.kids && parent in f.kids && parent in f.lvl && Stable(f0, Hoisted(f, k, parent), msg, cur)
  {
    HoistedOK(f, msg, k, t, parent);
    forall x | x in f0.par && Clear(f0, msg, cur, x) ensures StableAt(f0, Hoisted(f, k, parent), msg, cur, x) {
      HoistAt(f0, f, msg, cur, parent, t, k, x);
    }
  }

  lemma HoistAt(f0: ThreadForest, f: ThreadForest, msg: map<MuttThread, Email>, cur: MuttThread, parent: MuttThread,
                t: MuttThread, k: MuttThread, x: MuttThread)
    requires WF(f0) && Grown(f, msg) && cur in f0.par && f0.par[cur] == Some(parent) && !IsUnder(f0, parent, cur)
    requires t in f0.par && Topmost(f0, msg, cur, t) && k in f.par && f.par[k] == Some(t) && t in f.kids
    requires parent in msg && !IsUnder(f, parent, k) && parent in f.kids && parent in f.lvl && parent in f.par
    requires WF(Unlink(f, k)) && Dangling(Unlink(f, k), k) && !IsUnder(Unlink(f, k), parent, k)
    requires x in f0.par && Clear(f0, msg, cur, x) && StableAt(f0, f, msg, cur, x)
    ensures StableAt(f0, Hoisted(f, k, parent), msg, cur, x)
  {
    hide WF, NextOf, PrevOf, FirstKid, IsUnder, Attached, Grown;
    GrownWF(f, msg);
    var g := Unlink(f, k);
    UnlinkLinks(f, k, x);
    InsertLinks(g, parent, k, x);
    ClearUnder(f0, msg, cur, x);
    ClearUnder(f0, msg, cur, t);
    UpOfPar(f0, x);
    PrevParent(f, k);
    assert x != parent;
    assert x != k;
    UpIs(f, k, t);
  }

  lemma UpIs(f: ThreadForest, k: MuttThread, t: MuttThread)
    requires WF(f) && k in f.par && f.par[k] == Some(t)
    ensures Up(f, k) == Some(t)
  {
    UpOfPar(f, k);
  }

  lemma PrevParent(f: ThreadForest, k: MuttThread)
    requires WF(f) && k in f.par && f.par[k].Some?
    ensures PrevOf(f, k).Some? ==> PrevOf(f, k).value in f.par && f.par[PrevOf(f, k).value] == f.par[k]
  {
    AttachedInSibs(f, k);
    OrderIn(Sibs(f, k), k);
  }

  // --- on the heap ---

  method MoveTop(head: MuttThread?, cur: MuttThread, parent: MuttThread, ghost S: set<MuttThread>, ghost f: ThreadForest,
                 ghost msg: map<MuttThread, Email>) returns (top: MuttThread?)
    requires Linked(S, f, head, {}) && Grown(f, msg) && cur in f.roots && cur in S && parent in msg && parent in S && !IsUnder(f, parent, cur)
    modifies S`parent, S`child, S`next, S`prev
    ensures parent in f.kids && parent in f.lvl && Grown(Moved(f, cur, parent), msg) && Linked(S, Moved(f, cur, parent), top, {})
  {
    hide *;
    GrownWF(f, msg);
    MovedOK(f, msg, cur, parent);
    top := UnlinkTop(head, cur, S, f);
    LooseMore(S, UnlinkRoot(f, cur), top, cur);
    Attach(parent, cur, S, UnlinkRoot(f, cur), top);
    MovedIs(f, cur, parent);
  }

  lemma MovedIs(f: ThreadForest, cur: MuttThread, parent: MuttThread)
    requires parent in f.kids && parent in f.lvl
    ensures parent in UnlinkRoot(f, cur).kids && parent in UnlinkRoot(f, cur).lvl
    ensures Moved(f, cur, parent) == Insert(UnlinkRoot(f, cur), parent, cur)
  {
  }

  lemma LooseMore(S: set<MuttThread>, f: ThreadForest, head: MuttThread?, n: MuttThread)
    requires Linked(S, f, head, {})
    ensures Linked(S, f, head, {n})
  {
  }

  method HoistOne(k: MuttThread, t: MuttThread, parent: MuttThread, ghost S: set<MuttThread>, ghost f: ThreadForest, ghost head: MuttThread?,
                  ghost msg: map<MuttThread, Email>)
    requires Linked(S, f, head, {}) && Grown(f, msg) && k in S && k in f.par && f.par[k] == Some(t) && t in msg && parent in msg
    requires parent in S && !IsUnder(f, parent, k)
    modifies S`parent, S`child, S`next, S`prev, S`sortThreadKey, S`sortAuxKey
    ensures t in f.kids && parent in f.kids && parent in f.lvl && Grown(Hoisted(f, k, parent), msg)
    ensures Linked(S, Hoisted(f, k, parent), head, {})
  {
    hide *;
    GrownWF(f, msg);
    HoistedOK(f, msg, k, t, parent);
    Detach(t, k, S, f, head);
    Attach(parent, k, S, Unlink(f, k), head);
    HoistedIs(f, k, parent);
  }

  lemma HoistedIs(f: ThreadForest, k: MuttThread, parent: MuttThread)
    requires k in f.par && f.par[k].Some? && f.par[k].value in f.kids && parent in f.kids && parent in f.lvl
    ensures parent in Unlink(f, k).kids && parent in Unlink(f, k).lvl && Hoisted(f, k, parent) == Insert(Unlink(f, k), parent, k)
  {
  }

  // A topmost message of cur that hands its pseudo-threaded children on to parent: cur itself, or one
  // with parent's real subject.
  ghost predicate Hands(f: ThreadForest, msg: map<MuttThread, Email>, cur: MuttThread, parent: MuttThread, t: MuttThread) {
    t in msg && parent in msg && Topmost(f, msg, cur, t) && (t == cur || msg[t].realSubj == msg[parent].realSubj)
  }

  // Only fake children of such messages have moved, to parent.
  ghost predicate Lifted(f: ThreadForest, g: ThreadForest, msg: map<MuttThread, Email>, fakes: set<MuttThread>, cur: MuttThread, parent: MuttThread) {
    && g.par.Keys == f.par.Keys && g.roots == f.roots
    && (forall n :: n in f.par ==> g.par[n] == f.par[n] || (IsHandedOn(f, msg, fakes, cur, parent, n) && g.par[n] == Some(parent)))
  }

  ghost predicate IsHandedOn(f: ThreadForest, msg: map<MuttThread, Email>, fakes: set<MuttThread>, cur: MuttThread, parent: MuttThread, n: MuttThread) {
    n in f.par && n in fakes && f.par[n].Some? && Hands(f, msg, cur, parent, f.par[n].value)
  }

  // The messages of these.
  ghost function HandedOn(f: ThreadForest, msg: map<MuttThread, Email>, cur: MuttThread, parent: MuttThread, tops: seq<MuttThread>): set<Email> {
    set t | t in tops && t in msg && Hands(f, msg, cur, parent, t) :: msg[t]
  }

  // The state of the walk: the forest f, which came from f0 by hoisting.
  ghost predicate Hoisting(S: set<MuttThread>, f0: ThreadForest, f: ThreadForest, head: MuttThread?, msg: map<MuttThread, Email>,
                           fakes: set<MuttThread>, cur: MuttThread, parent: MuttThread)
    reads S`parent, S`child, S`next, S`prev
  {
    && Linked(S, f, head, {}) && Grown(f, msg) && Stable(f0, f, msg, cur) && Lifted(f0, f, msg, fakes, cur, parent)
    && WF(f0) && cur in f0.par && f0.par[cur] == Some(parent) && !IsUnder(f0, parent, cur) && parent in msg
  }

  // for (curchild = tmp->child; curchild; ): `kept` stays, `rest` is still to be looked at.
  method HoistKids(t: MuttThread, cur: MuttThread, parent: MuttThread, ghost S: set<MuttThread>, ghost f0: ThreadForest, ghost f1: ThreadForest,
                   ghost head: MuttThread?, ghost msg: map<MuttThread, Email>, ghost fakes: set<MuttThread>) returns (ghost f: ThreadForest)
    requires Hoisting(S, f0, f1, head, msg, fakes, cur, parent) && Fakes(S, fakes)
    requires t in S && t in f0.par && Hands(f0, msg, cur, parent, t) && parent in S
    modifies S`parent, S`child, S`next, S`prev, S`sortThreadKey, S`sortAuxKey
    ensures Hoisting(S, f0, f, head, msg, fakes, cur, parent)
    ensures t in f.kids && forall k :: k in f.kids[t] ==> k !in fakes
    ensures KidsKept(f1, f, t, parent)
  {
    hide *;
    f := f1;
    KidsKeptSelf(f, t, parent);
    HandsTop(f0, msg, cur, parent, t);
    FieldsOf(S, f0, f, head, msg, fakes, cur, parent, t);
    ghost var kept: seq<MuttThread>, rest := [], KidsOf(f, t);
    KeptNone(f, t);
    var curchild := t.child;
    while curchild != null
      invariant Hoisting(S, f0, f, head, msg, fakes, cur, parent) && t in f.kids && KidsKept(f1, f, t, parent)
      invariant KidsOf(f, t) == kept + rest && (forall k :: k in kept ==> k !in fakes)
      invariant curchild == OrNull(First(rest))
      decreases |rest|
    {
      ghost var k: MuttThread := curchild;
      FirstIs(curchild, rest);
      KidFacts(S, f0, f, head, msg, fakes, cur, parent, t, kept, rest);
      var nextchild := curchild.next;
      FakeIs(S, fakes, k);
      if curchild.fakeThread {
        HoistOne(curchild, t, parent, S, f, head, msg);
        HoistStep(S, f0, f, head, msg, fakes, cur, parent, t, k, kept, rest);
        KidsKeptStep(f1, f, t, parent, k);
        f := Hoisted(f, k, parent);
      } else {
        kept := kept + [k];
      }
      rest := rest[1..];
      curchild := nextchild;
    }
    NoneLeft(f, t, kept, rest);
  }

  lemma HandsTop(f: ThreadForest, msg: map<MuttThread, Email>, cur: MuttThread, parent: MuttThread, t: MuttThread)
    requires Hands(f, msg, cur, parent, t)
    ensures t in msg && parent in msg && Topmost(f, msg, cur, t)
  {
  }

  // Only t and parent have other children than before.
  ghost predicate KidsKept(f: ThreadForest, g: ThreadForest, t: MuttThread, parent: MuttThread) {
    g.kids.Keys == f.kids.Keys && forall n :: n in f.kids && n != t && n != parent ==> g.kids[n] == f.kids[n]
  }

  lemma KidsKeptSelf(f: ThreadForest, t: MuttThread, parent: MuttThread)
    ensures KidsKept(f, f, t, parent)
  {
  }

  lemma KidsKeptStep(f1: ThreadForest, f: ThreadForest, t: MuttThread, parent: MuttThread, k: MuttThread)
    requires KidsKept(f1, f, t, parent) && k in f.par && f.par[k] == Some(t) && t in f.kids && parent in f.kids && parent in f.lvl
    ensures KidsKept(f1, Hoisted(f, k, parent), t, parent)
  {
  }

  lemma FieldsOf(S: set<MuttThread>, f0: ThreadForest, f: ThreadForest, head: MuttThread?, msg: map<MuttThread, Email>,
                 fakes: set<MuttThread>, cur: MuttThread, parent: MuttThread, t: MuttThread)
    requires Hoisting(S, f0, f, head, msg, fakes, cur, parent) && t in S
    ensures S == f.par.Keys == f0.par.Keys && t in f.kids && t.child == OrNull(First(KidsOf(f, t))) && WF(f) && WF(f0)
  {
    hide WF, IsUnder, Stable;
    Tables(f);
    FirstKidField(S, f, head, t);
  }

  lemma KeptNone(f: ThreadForest, t: MuttThread)
    ensures KidsOf(f, t) == [] + KidsOf(f, t)
  {
  }

  lemma FirstIs(n: MuttThread?, rest: seq<MuttThread>)
    requires n != null && n == OrNull(First(rest))
    ensures rest != [] && rest[0] == n
  {
  }

  lemma FakeIs(S: set<MuttThread>, fakes: set<MuttThread>, k: MuttThread)
    requires Fakes(S, fakes) && k in S
    ensures k.fakeThread <==> k in fakes
  {
  }

  lemma NoneLeft(f: ThreadForest, t: MuttThread, kept: seq<MuttThread>, rest: seq<MuttThread>)
    requires KidsOf(f, t) == kept + rest && OrNull(First(rest)) == null && t in f.kids
    ensures f.kids[t] == kept
  {
  }

  lemma KidFacts(S: set<MuttThread>, f0: ThreadForest, f: ThreadForest, head: MuttThread?, msg: map<MuttThread, Email>,
                 fakes: set<MuttThread>, cur: MuttThread, parent: MuttThread, t: MuttThread, kept: seq<MuttThread>, rest: seq<MuttThread>)
    requires Hoisting(S, f0, f, head, msg, fakes, cur, parent) && t in f0.par && Topmost(f0, msg, cur, t)
    requires KidsOf(f, t) == kept + rest && rest != []
    ensures var k := rest[0];
            && k in S && k in f.par && f.par[k] == Some(t) && t in msg && parent in msg && !IsUnder(f, parent, k)
            && k.next == OrNull(First(rest[1..])) && Linked(S, f, head, {}) && Grown(f, msg)
    ensures Stable(f0, f, msg, cur) && Lifted(f0, f, msg, fakes, cur, parent)
    ensures WF(f0) && cur in f0.par && f0.par[cur] == Some(parent) && !IsUnder(f0, parent, cur)
  {
    hide NextOf, Clear, Linked, Lifted;
    var k := rest[0];
    assert k == (kept + rest)[|kept|] && k in KidsOf(f, t);
    KidOf(f, t, k);
    StableUnder(f0, f, msg, cur, t);
    CurStays(f0, f, msg, cur);
    UnderKid(f, k, t, cur);
    NotAbove(f, k, cur, parent);
    KidNext(S, f, head, t, kept, rest);
  }

  lemma KidOf(f: ThreadForest, t: MuttThread, k: MuttThread)
    requires WF(f) && k in KidsOf(f, t)
    ensures k in f.par && f.par[k] == Some(t) && t in f.kids && t in f.par && Attached(f, k)
  {
    assert KidsOK(f, t);
  }

  lemma CurStays(f0: ThreadForest, f: ThreadForest, msg: map<MuttThread, Email>, cur: MuttThread)
    requires Stable(f0, f, msg, cur) && cur in f0.par
    ensures cur in f.par && f.par[cur] == f0.par[cur]
  {
    assert Clear(f0, msg, cur, cur);
    assert StableAt(f0, f, msg, cur, cur);
  }

  lemma UnderKid(f: ThreadForest, k: MuttThread, t: MuttThread, cur: MuttThread)
    requires WF(f) && k in f.par && f.par[k] == Some(t) && IsUnder(f, t, cur)
    ensures IsUnder(f, k, cur)
  {
    UpOfPar(f, k);
  }

  lemma KidNext(S: set<MuttThread>, f: ThreadForest, head: MuttThread?, t: MuttThread, kept: seq<MuttThread>, rest: seq<MuttThread>)
    requires Linked(S, f, head, {}) && WF(f) && KidsOf(f, t) == kept + rest && rest != []
    ensures rest[0] in S && rest[0].next == OrNull(First(rest[1..]))
  {
    var l, k, i := KidsOf(f, t), rest[0], |kept|;
    assert l[i] == k && k in l;
    KidOf(f, t, k);
    assert KidsOK(f, t);
    NextAt(l, i);
    assert i + 1 < |l| ==> l[i + 1] == rest[1];
    assert NodeLinked(f, k);
  }

  lemma HoistStep(S: set<MuttThread>, f0: ThreadForest, f: ThreadForest, head: MuttThread?, msg: map<MuttThread, Email>,
                  fakes: set<MuttThread>, cur: MuttThread, parent: MuttThread, t: MuttThread, k: MuttThread,
                  kept: seq<MuttThread>, rest: seq<MuttThread>)
    requires Grown(f, msg) && Stable(f0, f, msg, cur) && Lifted(f0, f, msg, fakes, cur, parent)
    requires WF(f0) && cur in f0.par && f0.par[cur] == Some(parent) && !IsUnder(f0, parent, cur) && parent in msg
    requires t in f0.par && Topmost(f0, msg, cur, t) && k in f.par && f.par[k] == Some(t) && !IsUnder(f, parent, k) && k in fakes
    requires Hands(f0, msg, cur, parent, t)
    requires KidsOf(f, t) == kept + rest && rest != [] && k == rest[0]
    requires t in f.kids && parent in f.kids && parent in f.lvl
    requires Linked(S, Hoisted(f, k, parent), head, {})
    ensures Hoisting(S, f0, Hoisted(f, k, parent), head, msg, fakes, cur, parent)
    ensures t in Hoisted(f, k, parent).kids && KidsOf(Hoisted(f, k, parent), t) == kept + rest[1..]
  {
    hide WF, Clear, Stable, IsUnder, Grown, Linked;
    GrownWF(f, msg);
    HoistedOK(f, msg, k, t, parent);
    HoistStable(f0, f, msg, cur, parent, t, k);
    TopNotParent(f0, msg, cur, t, parent);
    KidsDup(f, t);
    assert KidsOf(f, t) == kept + [k] + rest[1..];
    RemoveAt(kept, k, rest[1..]);
  }

  lemma TopNotParent(f0: ThreadForest, msg: map<MuttThread, Email>, cur: MuttThread, t: MuttThread, parent: MuttThread)
    requires Topmost(f0, msg, cur, t) && !IsUnder(f0, parent, cur)
    ensures t != parent
  {
    ClearUnder(f0, msg, cur, t);
  }

  lemma KidsDup(f: ThreadForest, t: MuttThread)
    requires WF(f) && t in f.kids
    ensures NoDup(f.kids[t]) && KidsOf(f, t) == f.kids[t]
  {
    assert KidsOK(f, t);
  }

  // The body of that loop, at one of the messages.
  method HoistTop(tmp: MuttThread, cur: MuttThread, parent: MuttThread, ghost S: set<MuttThread>, ghost f0: ThreadForest,
                  ghost f1: ThreadForest, ghost head: MuttThread?, ghost msg: map<MuttThread, Email>, ghost fakes: set<MuttThread>,
                  ghost E: set<Email>, ghost ch0: set<Email>) returns (ghost f: ThreadForest, ghost ch: set<Email>)
    requires Hoisting(S, f0, f1, head, msg, fakes, cur, parent) && Fakes(S, fakes) && Messages(S, msg) && Changed(E, ch0)
    requires OwnNodes(E, msg) && parent in S && parent in msg && tmp in S && tmp in f0.par && Topmost(f0, msg, cur, tmp) && tmp in msg
    modifies S`parent, S`child, S`next, S`prev, S`sortThreadKey, S`sortAuxKey, E`subjectChanged
    ensures Hoisting(S, f0, f, head, msg, fakes, cur, parent) && Changed(E, ch)
    ensures ch == ch0 - (if Hands(f0, msg, cur, parent, tmp) then {msg[tmp]} else {})
    ensures Handed(f0, f, msg, fakes, cur, parent, tmp) && KidsKept(f1, f, tmp, parent)
  {
    hide *;
    f, ch := f1, ch0;
    KidsKeptSelf(f, tmp, parent);
    MessageField(S, msg);
    HandsIf(f0, msg, cur, parent, tmp);
    if tmp == cur || tmp.message.realSubj == parent.message.realSubj {
      ch := ClearSubjectChanged(tmp.message, tmp, E, msg, ch);
      f := HoistKids(tmp, cur, parent, S, f0, f, head, msg, fakes);
    }
    FieldsOf(S, f0, f, head, msg, fakes, cur, parent, tmp);
    IsHanded(f0, f, msg, fakes, cur, parent, tmp);
  }

  lemma HandsIf(f: ThreadForest, msg: map<MuttThread, Email>, cur: MuttThread, parent: MuttThread, t: MuttThread)
    requires t in msg && parent in msg && Topmost(f, msg, cur, t)
    ensures Hands(f, msg, cur, parent, t) <==> t == cur || msg[t].realSubj == msg[parent].realSubj
  {
  }

  // A topmost message that hands its children on has no pseudo-threaded child any more.
  ghost predicate Handed(f0: ThreadForest, f: ThreadForest, msg: map<MuttThread, Email>, fakes: set<MuttThread>, cur: MuttThread,
                         parent: MuttThread, t: MuttThread) {
    t in f.kids && (Hands(f0, msg, cur, parent, t) ==> forall k :: k in f.kids[t] ==> k !in fakes)
  }

  lemma IsHanded(f0: ThreadForest, f: ThreadForest, msg: map<MuttThread, Email>, fakes: set<MuttThread>, cur: MuttThread,
                 parent: MuttThread, t: MuttThread)
    requires t in f.kids
    requires Hands(f0, msg, cur, parent, t) ==> forall k :: k in f.kids[t] ==> k !in fakes
    ensures Handed(f0, f, msg, fakes, cur, parent, t)
  {
  }

  lemma StillHanded(f0: ThreadForest, f: ThreadForest, g: ThreadForest, msg: map<MuttThread, Email>, fakes: set<MuttThread>,
                    cur: MuttThread, parent: MuttThread, tops: seq<MuttThread>, t: MuttThread)
    requires KidsKept(f, g, t, parent) && Handed(f0, g, msg, fakes, cur, parent, t)
    requires forall u :: u in tops ==> u != parent && Handed(f0, f, msg, fakes, cur, parent, u)
    ensures forall u :: u in tops + [t] ==> Handed(f0, g, msg, fakes, cur, parent, u)
  {
    hide Hands;
  }

  lemma HandedOnSnoc(f: ThreadForest, msg: map<MuttThread, Email>, cur: MuttThread, parent: MuttThread, tops: seq<MuttThread>, t: MuttThread)
    requires t in msg
    ensures HandedOn(f, msg, cur, parent, tops + [t]) ==
            HandedOn(f, msg, cur, parent, tops) + if Hands(f, msg, cur, parent, t) then {msg[t]} else {}
    ensures HandedOn(f, msg, cur, parent, []) == {}
  {
    hide Hands;
  }

  // The loop over the topmost messages of cur, just attached to parent: those with parent's real
  // subject, and cur itself, hand their pseudo-threaded children on.
  method HoistAll(cur: MuttThread, parent: MuttThread, ghost S: set<MuttThread>, ghost f0: ThreadForest, ghost head: MuttThread?,
                  ghost msg: map<MuttThread, Email>, ghost fakes: set<MuttThread>, ghost E: set<Email>, ghost ch0: set<Email>)
      returns (ghost f: ThreadForest, ghost ch: set<Email>, ghost tops: seq<MuttThread>)
    requires Hoisting(S, f0, f0, head, msg, fakes, cur, parent) && Fakes(S, fakes) && Messages(S, msg) && Changed(E, ch0)
    requires OwnNodes(E, msg) && msg.Keys <= S && cur in S && parent in S && Grown(f0, msg) && Attached(f0, cur)
    modifies S`parent, S`child, S`next, S`prev, S`sortThreadKey, S`sortAuxKey, E`subjectChanged
    ensures Hoisting(S, f0, f, head, msg, fakes, cur, parent) && Changed(E, ch)
    ensures TopsAre(f0, msg, cur, tops) && ch == ch0 - HandedOn(f0, msg, cur, parent, tops)
    ensures forall t :: t in f0.par && Topmost(f0, msg, cur, t) ==> Handed(f0, f, msg, fakes, cur, parent, t)
  {
    hide *;
    f, ch := f0, ch0;
    var tmp := cur;
    ghost var seen: seq<MuttThread> := [];
    tops := [];
    MessageField(S, msg);
    HoistStart(S, f0, head, msg, fakes, cur, parent);
    GrownReal(f0, msg);
    MessagesLess(S, msg, cur);
    HandedOnSnoc(f0, msg, cur, parent, [], parent);
    AtStart(f0, msg, cur);
    while true
      invariant Hoisting(S, f0, f, head, msg, fakes, cur, parent) && Changed(E, ch) && ch == ch0 - HandedOn(f0, msg, cur, parent, tops)
      invariant tmp in S && At(f0, msg, cur, seen, tops, tmp)
      invariant forall u :: u in tops ==> u != parent && Handed(f0, f, msg, fakes, cur, parent, u)
      decreases Left(f0, tmp)
    {
      HoistWalks(S, f0, f, head, msg, fakes, cur, parent);
      tmp, seen := DownToMessage(cur, tmp, S, f0, msg, seen, tops);
      f, ch := HoistNext(tmp, cur, parent, S, f0, f, head, msg, fakes, E, ch0, ch, seen, tops);
      HoistWalks(S, f0, f, head, msg, fakes, cur, parent);
      MessageStep(f0, msg, cur, seen, tops, tmp);
      tops, seen := tops + [tmp], seen + Pre(f0, tmp);
      var next := NextTop(cur, tmp, S, f0, msg, seen, tops);
      if next == null {
        TopsAll(f0, msg, cur, tops);
        TopsMark(f0, msg, cur, tops);
        return;
      }
      tmp := next;
    }
  }

  // At one of the messages, after those of tops.
  method HoistNext(tmp: MuttThread, cur: MuttThread, parent: MuttThread, ghost S: set<MuttThread>, ghost f0: ThreadForest, ghost f1: ThreadForest,
                   ghost head: MuttThread?, ghost msg: map<MuttThread, Email>, ghost fakes: set<MuttThread>, ghost E: set<Email>,
                   ghost ch0: set<Email>, ghost ch1: set<Email>, ghost seen: seq<MuttThread>, ghost tops: seq<MuttThread>)
      returns (ghost f: ThreadForest, ghost ch: set<Email>)
    requires Hoisting(S, f0, f1, head, msg, fakes, cur, parent) && Fakes(S, fakes) && Messages(S, msg) && Changed(E, ch1)
    requires OwnNodes(E, msg) && parent in msg && parent in S && tmp in S && tmp in msg && At(f0, msg, cur, seen, tops, tmp)
    requires !IsUnder(f0, parent, cur) && ch1 == ch0 - HandedOn(f0, msg, cur, parent, tops)
    requires forall u :: u in tops ==> u != parent && Handed(f0, f1, msg, fakes, cur, parent, u)
    modifies S`parent, S`child, S`next, S`prev, S`sortThreadKey, S`sortAuxKey, E`subjectChanged
    ensures Hoisting(S, f0, f, head, msg, fakes, cur, parent) && Changed(E, ch) && ch == ch0 - HandedOn(f0, msg, cur, parent, tops + [tmp])
    ensures forall u :: u in tops + [tmp] ==> u != parent && Handed(f0, f, msg, fakes, cur, parent, u)
  {
    hide *;
    TopAt(f0, msg, cur, seen, tops, tmp);
    TopNotParent(f0, msg, cur, tmp, parent);
    HandedOnSnoc(f0, msg, cur, parent, tops, tmp);
    f, ch := HoistTop(tmp, cur, parent, S, f0, f1, head, msg, fakes, E, ch1);
    StillHanded(f0, f1, f, msg, fakes, cur, parent, tops, tmp);
  }

  lemma HoistStart(S: set<MuttThread>, f0: ThreadForest, head: MuttThread?, msg: map<MuttThread, Email>,
                   fakes: set<MuttThread>, cur: MuttThread, parent: MuttThread)
    requires Hoisting(S, f0, f0, head, msg, fakes, cur, parent)
    ensures cur in f0.par && parent in msg && WF(f0) && !IsUnder(f0, parent, cur)
  {
  }

  lemma HoistWalks(S: set<MuttThread>, f0: ThreadForest, f: ThreadForest, head: MuttThread?, msg: map<MuttThread, Email>,
                   fakes: set<MuttThread>, cur: MuttThread, parent: MuttThread)
    requires Hoisting(S, f0, f, head, msg, fakes, cur, parent)
    ensures Walks(S, f0, msg, cur) && WF(f0)
  {
    hide WF, Clear, Stable;
    LinkedNodes(S, f, head, {});
    StableWalks(S, f0, f, head, msg, cur);
  }

  lemma TopAt(f: ThreadForest, msg: map<MuttThread, Email>, start: MuttThread, seen: seq<MuttThread>, tops: seq<MuttThread>, t: MuttThread)
    requires At(f, msg, start, seen, tops, t) && t in msg
    ensures t in f.par && Topmost(f, msg, start, t)
  {
  }

  method ClearSubjectChanged(e: Email, n: MuttThread, ghost E: set<Email>, ghost msg: map<MuttThread, Email>, ghost ch0: set<Email>)
      returns (ghost ch: set<Email>)
    requires n in msg && msg[n] == e && OwnNodes(E, msg) && Changed(E, ch0)
    modifies E`subjectChanged
    ensures Changed(E, ch) && ch == ch0 - {e}
  {
    e.subjectChanged := false;
    ch := ch0 - {e};
  }

  // --- pseudo_threads ---

  // The turn of one top-level thread: cur, in the forest f with the pseudo-threaded nodes fakes and the
  // emails ch whose subject differs from their parent's; and the parent chosen, if there is one.
  datatype Pick = Pick(f: ThreadForest, fakes: set<MuttThread>, ch: set<Email>, cur: MuttThread, parent: MuttThread?,
                       tops: seq<MuttThread>, subjects: seq<string>)

  // The parent is an eligible candidate, and no eligible candidate is dated later; there is none only
  // if no candidate is eligible.
  ghost predicate GoodPick(p: Pick, msg: map<MuttThread, Email>, threadReceived: bool, sortRe: bool) {
    && TopsAre(p.f, msg, p.cur, p.tops) && SubjectsOf(msg, p.tops, sortRe, p.subjects)
    && var date := Earliest(Dates(msg, p.tops, threadReceived));
       && (p.parent != null ==>
             p.parent in msg && Eligible(p.f, msg, p.fakes, p.ch, p.cur, p.subjects, date, threadReceived, p.parent))
       && forall t :: t in msg && Eligible(p.f, msg, p.fakes, p.ch, p.cur, p.subjects, date, threadReceived, t) ==>
            p.parent != null && p.parent in msg && Date(msg[t], threadReceived) <= Date(msg[p.parent], threadReceived)
  }

  // The parent of n after the turn.
  ghost function NewParent(p: Pick, msg: map<MuttThread, Email>, n: MuttThread): Option<MuttThread>
    requires n in p.f.par
  {
    if p.parent != null && (n == p.cur || IsHandedOn(p.f, msg, p.fakes, p.cur, p.parent, n)) then Some(p.parent) else p.f.par[n]
  }

  // What a turn does: cur and the children handed on are below the parent, and nothing else moves.
  ghost predicate Turn(p: Pick, msg: map<MuttThread, Email>, f: ThreadForest, fakes: set<MuttThread>, ch: set<Email>) {
    && f.par.Keys == p.f.par.Keys && (forall n :: n in p.f.par ==> f.par[n] == NewParent(p, msg, n))
    && (p.parent != null ==> p.cur in p.f.roots)
    && f.roots == (if p.parent != null then Remove(p.f.roots, p.cur) else p.f.roots)
    && fakes == (if p.parent != null then p.fakes + {p.cur} else p.fakes)
    && ch == (if p.parent != null then p.ch - HandedOn(p.f, msg, p.cur, p.parent, p.tops) else p.ch)
  }

  // Turn by turn from one state to another.
  ghost predicate Turns(f0: ThreadForest, fakes0: set<MuttThread>, ch0: set<Email>, picks: seq<Pick>, msg: map<MuttThread, Email>,
                        f: ThreadForest, fakes: set<MuttThread>, ch: set<Email>) {
    if picks == [] then f == f0 && fakes == fakes0 && ch == ch0
    else
      var p := picks[|picks| - 1];
      Turns(f0, fakes0, ch0, picks[..|picks| - 1], msg, p.f, p.fakes, p.ch) && Turn(p, msg, f, fakes, ch)
  }

  lemma TurnsSnoc(f0: ThreadForest, fakes0: set<MuttThread>, ch0: set<Email>, picks: seq<Pick>, msg: map<MuttThread, Email>,
                  p: Pick, f: ThreadForest, fakes: set<MuttThread>, ch: set<Email>)
    requires Turns(f0, fakes0, ch0, picks, msg, p.f, p.fakes, p.ch) && Turn(p, msg, f, fakes, ch)
    ensures Turns(f0, fakes0, ch0, picks + [p], msg, f, fakes, ch)
  {
    assert (picks + [p])[..|picks|] == picks;
  }

  // No node is lost or made; whoever has a new parent was given it by a pick, as the thread picked for
  // or as a pseudo-threaded child handed on; and only threads picked for leave the top level.
  lemma {:induction false} TurnsKeep(f0: ThreadForest, fakes0: set<MuttThread>, ch0: set<Email>, picks: seq<Pick>, msg: map<MuttThread, Email>,
                                     f: ThreadForest, fakes: set<MuttThread>, ch: set<Email>)
    requires Turns(f0, fakes0, ch0, picks, msg, f, fakes, ch)
    ensures f.par.Keys == f0.par.Keys && fakes0 <= fakes && ch <= ch0
    ensures forall n :: n in f.par && f.par[n] != f0.par[n] ==>
              n in fakes && exists p :: p in picks && p.parent != null && f.par[n] == Some(p.parent) &&
                                  (n == p.cur || IsHandedOn(p.f, msg, p.fakes, p.cur, p.parent, n))
    ensures forall n :: n in fakes && n !in fakes0 ==> n in f0.roots
    ensures forall r :: r in f.roots ==> r in f0.roots
    ensures forall r :: r in f0.roots ==> r in f.roots || exists p :: p in picks && p.parent != null && p.cur == r
    decreases |picks|
  {
    if picks != [] {
      hide Hands, HandedOn;
      var front, p := picks[..|picks| - 1], picks[|picks| - 1];
      assert picks == front + [p] && p in picks;
      TurnsKeep(f0, fakes0, ch0, front, msg, p.f, p.fakes, p.ch);
      assert forall q :: q in front ==> q in picks;
      assert forall n :: n in f.par ==> f.par[n] == NewParent(p, msg, n);
      forall r | r in p.f.roots ensures r in f.roots || (p.parent != null && r == p.cur) {
        if r != p.cur { RemoveKeeps(p.f.roots, p.cur, r); }
      }
    }
  }

  // The parent is dated no later than any topmost message of the thread, if the dates of these are
  // such that the earliest is found.
  lemma PickDated(p: Pick, msg: map<MuttThread, Email>, threadReceived: bool, sortRe: bool, t: MuttThread)
    requires GoodPick(p, msg, threadReceived, sortRe) && p.parent != null && t in p.f.par && Topmost(p.f, msg, p.cur, t)
    requires Dated(Dates(msg, p.tops, threadReceived))
    ensures p.parent in msg && Date(msg[p.parent], threadReceived) <= Date(msg[t], threadReceived)
  {
    hide Eligible, SubjectsOf, Topmost, Dated;
    var ds := Dates(msg, p.tops, threadReceived);
    TopsInMsg(p, msg);
    DatesIn(msg, p.tops, threadReceived);
    EarliestIff(ds);
    PickDate(p, msg, threadReceived, sortRe);
  }

  // Otherwise a candidate as late as the date used would be later than some topmost message.
  lemma PickUndated(p: Pick, msg: map<MuttThread, Email>, threadReceived: bool, sortRe: bool) returns (t: MuttThread)
    requires GoodPick(p, msg, threadReceived, sortRe) && !Dated(Dates(msg, p.tops, threadReceived))
    ensures t in p.f.par && Topmost(p.f, msg, p.cur, t) && Date(msg[t], threadReceived) < Earliest(Dates(msg, p.tops, threadReceived))
  {
    hide Eligible, SubjectsOf, Topmost, Dated;
    var ds := Dates(msg, p.tops, threadReceived);
    TopsInMsg(p, msg);
    DatesIn(msg, p.tops, threadReceived);
    EarliestIff(ds);
    var d :| d in ds && d < Earliest(ds);
    t :| t in p.tops && Date(msg[t], threadReceived) == d;
  }

  lemma TopsInMsg(p: Pick, msg: map<MuttThread, Email>)
    requires TopsAre(p.f, msg, p.cur, p.tops)
    ensures forall u :: u in p.tops ==> u in msg
  {
  }

  lemma PickDate(p: Pick, msg: map<MuttThread, Email>, threadReceived: bool, sortRe: bool)
    requires GoodPick(p, msg, threadReceived, sortRe) && p.parent != null
    ensures p.parent in msg && Date(msg[p.parent], threadReceived) <= Earliest(Dates(msg, p.tops, threadReceived))
  {
  }

  lemma {:induction false} DatesIn(msg: map<MuttThread, Email>, tops: seq<MuttThread>, threadReceived: bool)
    requires forall t :: t in tops ==> t in msg
    ensures forall t :: t in tops ==> Date(msg[t], threadReceived) in Dates(msg, tops, threadReceived)
    ensures forall d :: d in Dates(msg, tops, threadReceived) ==> exists t :: t in tops && Date(msg[t], threadReceived) == d
    ensures tops != [] ==> Dates(msg, tops, threadReceived) != []
  {
    if tops != [] {
      var front, last := tops[..|tops| - 1], tops[|tops| - 1];
      assert tops == front + [last];
      DatesIn(msg, front, threadReceived);
      var ds := Dates(msg, front, threadReceived);
      assert Dates(msg, tops, threadReceived) == ds + [Date(msg[last], threadReceived)];
      forall d | d in ds + [Date(msg[last], threadReceived)] ensures exists t :: t in tops && Date(msg[t], threadReceived) == d {
        if d in ds {
          var t :| t in front && Date(msg[t], threadReceived) == d;
          assert t in tops;
        } else {
          assert last in tops;
        }
      }
    }
  }

  // The state of pseudo_threads.
  ghost predicate Grouping(S: set<MuttThread>, E: set<Email>, f: ThreadForest, head: MuttThread?, msg: map<MuttThread, Email>,
                           fakes: set<MuttThread>, ch: set<Email>)
    reads S`parent, S`child, S`next, S`prev, S`message, S`fakeThread, E`thread, E`subjectChanged
  {
    && Linked(S, f, head, {}) && Messages(S, msg) && Grown(f, msg) && Fakes(S, fakes) && Changed(E, ch) && OwnNodes(E, msg)
    && msg.Keys <= S
  }

  lemma GroupingParts(S: set<MuttThread>, E: set<Email>, f: ThreadForest, head: MuttThread?, msg: map<MuttThread, Email>,
                      fakes: set<MuttThread>, ch: set<Email>)
    requires Grouping(S, E, f, head, msg, fakes, ch)
    ensures Linked(S, f, head, {}) && Messages(S, msg) && Grown(f, msg) && Fakes(S, fakes) && Changed(E, ch) && OwnNodes(E, msg)
    ensures msg.Keys <= S && S == f.par.Keys && WF(f)
    ensures forall r :: r in f.roots ==> r in S && Attached(f, r) && f.par[r].None?
    ensures NoDup(f.roots) && forall n :: n in msg ==> msg[n] in E
  {
    hide Linked;
    LinkedNodes(S, f, head, {});
  }

  lemma GroupingJoin(S: set<MuttThread>, E: set<Email>, f: ThreadForest, head: MuttThread?, msg: map<MuttThread, Email>,
                     fakes: set<MuttThread>, ch: set<Email>)
    requires Linked(S, f, head, {}) && Messages(S, msg) && Grown(f, msg) && Fakes(S, fakes) && Changed(E, ch) && OwnNodes(E, msg)
    requires msg.Keys <= S
    ensures Grouping(S, E, f, head, msg, fakes, ch)
  {
  }

  method MarkFake(cur: MuttThread, ghost S: set<MuttThread>, ghost fakes: set<MuttThread>)
    requires Fakes(S, fakes) && cur in S
    modifies cur`fakeThread
    ensures Fakes(S, fakes + {cur})
  {
    cur.fakeThread := true;
  }

  // cur, marked as pseudo-threaded, goes below parent.
  method PutUnder(cur: MuttThread, parent: MuttThread, head: MuttThread?, ghost S: set<MuttThread>, ghost f: ThreadForest,
                  ghost msg: map<MuttThread, Email>, ghost fakes: set<MuttThread>) returns (top: MuttThread?)
    requires Linked(S, f, head, {}) && Grown(f, msg) && Fakes(S, fakes)
    requires cur in f.roots && parent in msg && !IsUnder(f, parent, cur) && cur in S && parent in S
    modifies S`parent, S`child, S`next, S`prev, S`fakeThread, S`sortChildren
    ensures parent in f.kids && parent in f.lvl && Fakes(S, fakes + {cur})
    ensures Hoisting(S, Moved(f, cur, parent), Moved(f, cur, parent), top, msg, fakes + {cur}, cur, parent)
  {
    hide *;
    GrownWF(f, msg);
    MovedOK(f, msg, cur, parent);
    MarkFake(cur, S, fakes);
    top := MoveTop(head, cur, parent, S, f, msg);
    parent.sortChildren := true;
    MovedUnder(f, cur, parent);
    HoistReady(S, Moved(f, cur, parent), top, msg, fakes + {cur}, cur, parent);
  }

  // The body of the loop for the top-level thread cur, when a parent has been found.
  method GroupUnder(ghost p: Pick, cur: MuttThread, parent: MuttThread, head: MuttThread?, ghost S: set<MuttThread>, ghost E: set<Email>,
                    ghost msg: map<MuttThread, Email>)
      returns (top: MuttThread?, ghost f: ThreadForest, ghost fakes: set<MuttThread>, ghost ch: set<Email>)
    requires Grouping(S, E, p.f, head, msg, p.fakes, p.ch) && cur in p.f.roots && parent in msg && !IsUnder(p.f, parent, cur) && cur in S && parent in S
    requires p.cur == cur && p.parent == parent && TopsAre(p.f, msg, cur, p.tops)
    modifies S`parent, S`child, S`next, S`prev, S`sortThreadKey, S`sortAuxKey, S`fakeThread, S`sortChildren, E`subjectChanged
    ensures Grouping(S, E, f, top, msg, fakes, ch) && Turn(p, msg, f, fakes, ch)
  {
    hide *;
    GroupingParts(S, E, p.f, head, msg, p.fakes, p.ch);
    MovedOK(p.f, msg, cur, parent);
    top := PutUnder(cur, parent, head, S, p.f, msg, p.fakes);
    ghost var g, tops := Moved(p.f, cur, parent), [];
    fakes := p.fakes + {cur};
    f, ch, tops := HoistAll(cur, parent, S, g, top, msg, fakes, E, p.ch);
    HoistResult(S, g, f, top, msg, fakes, cur, parent);
    TurnDone(p, msg, g, f, fakes, ch, cur, parent, tops);
    GroupingJoin(S, E, f, top, msg, fakes, ch);
  }

  // Moving cur changes nothing below it.
  lemma {:induction false} MovedClear(f: ThreadForest, g: ThreadForest, msg: map<MuttThread, Email>, cur: MuttThread, parent: MuttThread, n: MuttThread)
    requires WF(f) && WF(g) && cur in f.par && g.par == f.par[cur := Some(parent)]
    ensures Clear(g, msg, cur, n) <==> Clear(f, msg, cur, n)
    decreases Lvl(f, n)
  {
    if n != cur {
      if n in f.par {
        UpOfPar(f, n);
        UpOfPar(g, n);
      }
      if Up(f, n).Some? { MovedClear(f, g, msg, cur, parent, Up(f, n).value); }
    }
  }

  lemma TurnDone(p: Pick, msg: map<MuttThread, Email>, g: ThreadForest, f: ThreadForest, fakes: set<MuttThread>, ch: set<Email>,
                 cur: MuttThread, parent: MuttThread, tops: seq<MuttThread>)
    requires p.cur == cur && p.parent == parent && WF(p.f) && cur in p.f.roots && TopsAre(p.f, msg, cur, p.tops)
    requires WF(g) && WF(f) && g.par == p.f.par[cur := Some(parent)] && g.roots == Remove(p.f.roots, cur) && Lifted(g, f, msg, fakes, cur, parent)
    requires fakes == p.fakes + {cur} && TopsAre(g, msg, cur, tops) && ch == p.ch - HandedOn(g, msg, cur, parent, tops)
    requires forall t :: t in g.par && Topmost(g, msg, cur, t) ==> Handed(g, f, msg, fakes, cur, parent, t)
    ensures Turn(p, msg, f, fakes, ch)
  {
    hide WF, Clear, TopsAre, HandedOn, Handed, Topmost, Hands;
    RootIn(p.f, cur);
    Tables(p.f);
    assert forall n :: Clear(g, msg, cur, n) <==> Clear(p.f, msg, cur, n) by {
      forall n ensures Clear(g, msg, cur, n) <==> Clear(p.f, msg, cur, n) { MovedClear(p.f, g, msg, cur, parent, n); }
    }
    forall n | n in p.f.par ensures f.par[n] == NewParent(p, msg, n) {
      NewParentIs(p, msg, g, f, fakes, cur, parent, n);
    }
    HandedSame(g, p.f, msg, cur, parent, tops, p.tops);
  }

  lemma HandedSame(g: ThreadForest, f: ThreadForest, msg: map<MuttThread, Email>, cur: MuttThread, parent: MuttThread,
                   tops: seq<MuttThread>, tops': seq<MuttThread>)
    requires TopsAre(g, msg, cur, tops) && TopsAre(f, msg, cur, tops') && g.par.Keys == f.par.Keys
    requires forall t :: Clear(g, msg, cur, t) <==> Clear(f, msg, cur, t)
    ensures HandedOn(g, msg, cur, parent, tops) == HandedOn(f, msg, cur, parent, tops')
  {
    hide Clear;
    assert forall t :: t in tops <==> t in tops';
    assert forall t :: Hands(g, msg, cur, parent, t) <==> Hands(f, msg, cur, parent, t);
  }

  lemma RootIn(f: ThreadForest, r: MuttThread)
    requires WF(f) && r in f.roots
    ensures r in f.par && f.par[r].None?
  {
  }

  lemma NewParentIs(p: Pick, msg: map<MuttThread, Email>, g: ThreadForest, f: ThreadForest, fakes: set<MuttThread>,
                    cur: MuttThread, parent: MuttThread, n: MuttThread)
    requires p.cur == cur && p.parent == parent && n in p.f.par && cur in p.f.par && p.f.par[cur].None?
    requires WF(f) && g.par == p.f.par[cur := Some(parent)] && Lifted(g, f, msg, fakes, cur, parent) && fakes == p.fakes + {cur}
    requires forall t :: Clear(g, msg, cur, t) <==> Clear(p.f, msg, cur, t)
    requires forall t :: t in g.par && Topmost(g, msg, cur, t) ==> Handed(g, f, msg, fakes, cur, parent, t)
    requires p.f.par[n].Some? ==> p.f.par[n].value in p.f.par
    ensures f.par[n] == NewParent(p, msg, n)
  {
    hide Clear;
    if f.par[n].Some? { assert ParentOK(f, n, f.par[n].value); }
    hide WF;
    if n != cur && IsHandedOn(p.f, msg, p.fakes, cur, parent, n) {
      var t := p.f.par[n].value;
      assert Hands(g, msg, cur, parent, t) && Handed(g, f, msg, fakes, cur, parent, t);
    }
  }

  lemma MovedUnder(f: ThreadForest, cur: MuttThread, parent: MuttThread)
    requires WF(f) && cur in f.roots && parent in f.kids && parent in f.lvl && parent in f.par && !IsUnder(f, parent, cur)
    requires WF(UnlinkRoot(f, cur)) && Dangling(UnlinkRoot(f, cur), cur) && !IsUnder(UnlinkRoot(f, cur), parent, cur)
    ensures !IsUnder(Moved(f, cur, parent), parent, cur)
  {
    hide WF;
    InsertUnder(UnlinkRoot(f, cur), parent, cur, parent, cur);
  }

  lemma HoistReady(S: set<MuttThread>, g: ThreadForest, top: MuttThread?, msg: map<MuttThread, Email>, fakes: set<MuttThread>,
                   cur: MuttThread, parent: MuttThread)
    requires Linked(S, g, top, {}) && Grown(g, msg) && cur in g.par && g.par[cur] == Some(parent) && !IsUnder(g, parent, cur)
    requires parent in msg && Attached(g, cur)
    ensures Hoisting(S, g, g, top, msg, fakes, cur, parent)
  {
    hide WF, Linked, Attached, Stable;
    StableSelf(g, msg, cur);
  }

  lemma HoistResult(S: set<MuttThread>, g: ThreadForest, f: ThreadForest, top: MuttThread?, msg: map<MuttThread, Email>,
                    fakes: set<MuttThread>, cur: MuttThread, parent: MuttThread)
    requires Hoisting(S, g, f, top, msg, fakes, cur, parent)
    ensures Linked(S, f, top, {}) && Grown(f, msg) && Lifted(g, f, msg, fakes, cur, parent) && WF(f) && WF(g)
  {
    hide Linked, Lifted, Stable;
  }

  // Every top-level thread has its turn, in order.
  method PseudoThreads(tree0: MuttThread?, subjHash: map<string, seq<Email>>, threadReceived: bool, sortRe: bool, ghost S: set<MuttThread>,
                       ghost E: set<Email>, ghost f0: ThreadForest, ghost msg: map<MuttThread, Email>, ghost fakes0: set<MuttThread>,
                       ghost ch0: set<Email>)
      returns (top: MuttThread?, ghost f: ThreadForest, ghost fakes: set<MuttThread>, ghost ch: set<Email>, ghost picks: seq<Pick>)
    requires Grouping(S, E, f0, tree0, msg, fakes0, ch0) && SubjectHash(subjHash, E)
    modifies S`parent, S`child, S`next, S`prev, S`sortThreadKey, S`sortAuxKey, S`fakeThread, S`sortChildren, E`subjectChanged
    ensures Grouping(S, E, f, top, msg, fakes, ch) && Turns(f0, fakes0, ch0, picks, msg, f, fakes, ch)
    ensures |picks| == |f0.roots| && forall i :: 0 <= i < |picks| ==> picks[i].cur == f0.roots[i]
    ensures forall p :: p in picks ==> GoodPick(p, msg, threadReceived, sortRe)
  {
    hide *;
    var tree := tree0;
    top, f, fakes, ch, picks := tree0, f0, fakes0, ch0, [];
    ghost var done: seq<MuttThread>, rest := [], f0.roots;
    GroupStart(S, E, f0, tree0, msg, fakes0, ch0);
    while tree != null
      invariant Grouping(S, E, f, top, msg, fakes, ch) && Turns(f0, fakes0, ch0, picks, msg, f, fakes, ch)
      invariant f.roots == done + rest && tree == OrNull(First(rest))
      invariant |picks| <= |f0.roots| && rest == f0.roots[|picks|..] && forall i :: 0 <= i < |picks| ==> picks[i].cur == f0.roots[i]
      invariant forall p :: p in picks ==> GoodPick(p, msg, threadReceived, sortRe)
      decreases |rest|
    {
      var cur: MuttThread := tree;
      FirstIs(tree, rest);
      NextRoot(S, E, f, top, msg, fakes, ch, done, rest);
      tree := tree.next;
      GroupingParts(S, E, f, top, msg, fakes, ch);
      var parent;
      ghost var tops, subjects;
      parent, tops, subjects := FindSubject(cur, subjHash, threadReceived, sortRe, S, f, top, msg, fakes, ch, E);
      ghost var p := Pick(f, fakes, ch, cur, parent, tops, subjects);
      PickIsGood(p, msg, threadReceived, sortRe, E);
      top, f, fakes, ch, done := TakeTurn(p, cur, parent, top, S, E, msg, done, rest);
      TurnsSnoc(f0, fakes0, ch0, picks, msg, p, f, fakes, ch);
      picks := picks + [p];
      rest := rest[1..];
    }
    NoRest(tree, rest);
  }

  method TakeTurn(ghost p: Pick, cur: MuttThread, parent: MuttThread?, top0: MuttThread?, ghost S: set<MuttThread>, ghost E: set<Email>,
                  ghost msg: map<MuttThread, Email>, ghost done0: seq<MuttThread>, ghost rest: seq<MuttThread>)
      returns (top: MuttThread?, ghost f: ThreadForest, ghost fakes: set<MuttThread>, ghost ch: set<Email>, ghost done: seq<MuttThread>)
    requires Grouping(S, E, p.f, top0, msg, p.fakes, p.ch) && p.cur == cur && p.parent == parent && TopsAre(p.f, msg, cur, p.tops)
    requires p.f.roots == done0 + rest && rest != [] && rest[0] == cur && cur in S && cur in p.f.roots && NoDup(p.f.roots)
    requires parent != null ==> parent in msg && !IsUnder(p.f, parent, cur) && parent in S
    modifies S`parent, S`child, S`next, S`prev, S`sortThreadKey, S`sortAuxKey, S`fakeThread, S`sortChildren, E`subjectChanged
    ensures Grouping(S, E, f, top, msg, fakes, ch) && Turn(p, msg, f, fakes, ch) && f.roots == done + rest[1..]
  {
    hide *;
    top, f, fakes, ch, done := top0, p.f, p.fakes, p.ch, done0;
    if parent != null {
      top, f, fakes, ch := GroupUnder(p, cur, parent, top, S, E, msg);
      TurnRoots(p, msg, f, fakes, ch, done, rest);
    } else {
      NoTurn(p, msg);
      KeepRoot(done, rest);
      done := done + [cur];
    }
  }

  lemma NoRest(tree: MuttThread?, rest: seq<MuttThread>)
    requires tree == null && tree == OrNull(First(rest))
    ensures rest == []
  {
  }

  lemma NoTurn(p: Pick, msg: map<MuttThread, Email>)
    requires p.parent == null
    ensures Turn(p, msg, p.f, p.fakes, p.ch)
  {
  }

  lemma TurnRoots(p: Pick, msg: map<MuttThread, Email>, f: ThreadForest, fakes: set<MuttThread>, ch: set<Email>,
                  done: seq<MuttThread>, rest: seq<MuttThread>)
    requires Turn(p, msg, f, fakes, ch) && p.parent != null && p.f.roots == done + rest && rest != [] && rest[0] == p.cur && NoDup(p.f.roots)
    ensures f.roots == done + rest[1..]
  {
    assert done + rest == done + [p.cur] + rest[1..];
    RemoveAt(done, p.cur, rest[1..]);
  }

  lemma GroupStart(S: set<MuttThread>, E: set<Email>, f: ThreadForest, head: MuttThread?, msg: map<MuttThread, Email>,
                   fakes: set<MuttThread>, ch: set<Email>)
    requires Grouping(S, E, f, head, msg, fakes, ch)
    ensures f.roots == [] + f.roots && head == OrNull(First(f.roots)) && Turns(f, fakes, ch, [], msg, f, fakes, ch)
  {
  }

  lemma NextRoot(S: set<MuttThread>, E: set<Email>, f: ThreadForest, head: MuttThread?, msg: map<MuttThread, Email>,
                 fakes: set<MuttThread>, ch: set<Email>, done: seq<MuttThread>, rest: seq<MuttThread>)
    requires Grouping(S, E, f, head, msg, fakes, ch) && f.roots == done + rest && rest != []
    ensures rest[0] in f.roots && rest[0].next == OrNull(First(rest[1..]))
  {
    hide Grown, OwnNodes, Fakes, Changed, Messages;
    GrownWF(f, msg);
    var k := rest[0];
    assert f.roots[|done|] == k;
    NextAt(f.roots, |done|);
    assert |done| + 1 < |f.roots| ==> f.roots[|done| + 1] == rest[1];
    assert NodeLinked(f, k);
  }

  lemma PickIsGood(p: Pick, msg: map<MuttThread, Email>, threadReceived: bool, sortRe: bool, E: set<Email>)
    requires TopsAre(p.f, msg, p.cur, p.tops) && SubjectsOf(msg, p.tops, sortRe, p.subjects)
    requires forall n :: n in msg ==> msg[n] in E
    requires BestOf(p.f, msg, p.fakes, p.ch, p.cur, p.subjects, Earliest(Dates(msg, p.tops, threadReceived)), threadReceived, E, p.parent)
    ensures GoodPick(p, msg, threadReceived, sortRe) && (p.parent != null ==> p.parent in msg && !IsUnder(p.f, p.parent, p.cur))
  {
    hide IsUnder, TopsAre, SubjectsOf, Earliest, Dates;
  }

  lemma KeepRoot(done: seq<MuttThread>, rest: seq<MuttThread>)
    requires rest != []
    ensures done + rest == (done + [rest[0]]) + rest[1..]
  {
  }
}
