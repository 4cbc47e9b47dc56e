// linearize_tree and mutt_messages_in_thread.
module Linearize {
  import opened Wrappers
  import opened Forests
  import opened Preorder
  import opened Threads
  import opened Context
  import opened ThreadTree
  import opened SortThreads

  // A forest fit for the pointer walks: nothing hangs below a dangling node, every message hangs
  // somewhere, and a missing message that hangs somewhere has a child.
  ghost predicate Grown(f: ThreadForest, msg: map<MuttThread, Email>) {
    && WF(f)
    && (forall n :: n in f.kids ==> (f.kids[n] != [] || n in msg ==> Attached(f, n)))
    && (forall n :: n in f.kids ==> (Attached(f, n) && n !in msg ==> f.kids[n] != []))
    && msg.Keys <= f.par.Keys
  }

  lemma CtxGrown(c: Ctx, E: set<Email>)
    requires CtxOK(c, E, None, None) && c.done == c.thr.Keys
    ensures Grown(c.f, c.msg)
  {
    hide WF, HashOK, EmailOK, Attached;
    Tables(c.f);
    forall n | n in c.f.kids
      ensures c.f.kids[n] != [] || n in c.msg ==> Attached(c.f, n)
      ensures Attached(c.f, n) && n !in c.msg ==> c.f.kids[n] != []
    {
      assert NodeOK(c, E, None, None, n);
    }
  }

  // The emails of a list of nodes, in order, skipping the missing ones.
  ghost function MsgSeq(msg: map<MuttThread, Email>, ns: seq<MuttThread>): seq<Email> {
    if ns == [] then [] else (if ns[0] in msg then [msg[ns[0]]] else []) + MsgSeq(msg, ns[1..])
  }

  lemma {:induction false} MsgAppend(msg: map<MuttThread, Email>, a: seq<MuttThread>, b: seq<MuttThread>)
    ensures MsgSeq(msg, a + b) == MsgSeq(msg, a) + MsgSeq(msg, b)
  {
    if a == [] {
      assert [] + b == b;
    } else {
      assert (a + b)[1..] == a[1..] + b;
      MsgAppend(msg, a[1..], b);
    }
  }

  // The emails still to be written by a walk that stands at n, and by one that is done with n.
  ghost function Ahead(f: ThreadForest, msg: map<MuttThread, Email>, n: MuttThread): seq<Email> {
    MsgSeq(msg, Pre(f, n) + After(f, n))
  }

  ghost function Behind(f: ThreadForest, msg: map<MuttThread, Email>, n: MuttThread): seq<Email> {
    MsgSeq(msg, After(f, n))
  }

  lemma StepDown(S: set<MuttThread>, f: ThreadForest, msg: map<MuttThread, Email>, head: MuttThread?, n: MuttThread)
    requires Linked(S, f, head, {}) && Messages(S, msg) && Grown(f, msg) && n in S && Attached(f, n)
    ensures n.child == null ==> n.message != null && Ahead(f, msg, n) == [n.message] + Behind(f, msg, n)
    ensures n.child != null ==> n.child in S && Attached(f, n.child)
    ensures n.child != null ==> Ahead(f, msg, n) == (if n.message != null then [n.message] else []) + Ahead(f, msg, n.child)
    ensures n.child != null ==> |Pre(f, n.child) + After(f, n.child)| < |Pre(f, n) + After(f, n)|
  {
    hide Attached;
    Tables(f);
    DownKids(f, n);
    FirstKidField(S, f, head, n);
    LinkedNodes(S, f, head, {});
    if n.child != null {
      ToChild(f, n);
      KidAttached(f, n.child);
    }
  }

  lemma KidAttached(f: ThreadForest, k: MuttThread)
    requires k in f.par && f.par[k].Some?
    ensures Attached(f, k)
  {
  }

  // Where the walk goes when it is done with the subtree of n.
  lemma StepOn(S: set<MuttThread>, f: ThreadForest, msg: map<MuttThread, Email>, head: MuttThread?, n: MuttThread)
    requires Linked(S, f, head, {}) && Messages(S, msg) && Grown(f, msg) && n in S && Attached(f, n)
    ensures n.next != null ==> n.next in S && Attached(f, n.next) && Behind(f, msg, n) == Ahead(f, msg, n.next)
    ensures n.next != null ==> |Pre(f, n.next) + After(f, n.next)| == |After(f, n)|
    ensures n.next == null && n.parent != null ==> n.parent in S && Attached(f, n.parent) && Lvl(f, n.parent) < Lvl(f, n)
    ensures n.next == null && n.parent != null ==> After(f, n) == After(f, n.parent)
    ensures n.next == null && n.parent == null ==> Behind(f, msg, n) == []
  {
    Tables(f);
    ParentField(S, f, head, n);
    assert NodeLinked(f, n);
    if n.next != null {
      ToNext(f, n);
    } else {
      ToParent(f, n);
      if n.parent != null {
        UpOfPar(f, n);
        ParentWithKid(f, n);
      }
    }
  }

  // The emails of the whole tree, in the order they are displayed.
  ghost function Displayed(f: ThreadForest, msg: map<MuttThread, Email>): seq<Email> {
    MsgSeq(msg, PreAll(f, f.roots))
  }

  lemma StepStart(S: set<MuttThread>, f: ThreadForest, msg: map<MuttThread, Email>, head: MuttThread?)
    requires Linked(S, f, head, {}) && Grown(f, msg)
    ensures head == null ==> Displayed(f, msg) == []
    ensures head != null ==> head in S && Attached(f, head) && Displayed(f, msg) == Ahead(f, msg, head)
  {
    if head != null { AtFirst(f); }
  }

  // The slot of the k-th email written.
  function Slot(count: nat, reverse: bool, k: int): int {
    if reverse then count - 1 - k else k
  }

  // From some node: to its next sibling, or that of the nearest ancestor that has one.
  method NextUp(from: MuttThread, ghost S: set<MuttThread>, ghost f: ThreadForest, ghost msg: map<MuttThread, Email>, ghost head: MuttThread?)
    returns (tree: MuttThread?)
    requires Linked(S, f, head, {}) && Messages(S, msg) && Grown(f, msg) && from in S && Attached(f, from)
    ensures tree == null ==> Behind(f, msg, from) == []
    ensures tree != null ==> tree in S && Attached(f, tree) && Behind(f, msg, from) == Ahead(f, msg, tree)
    ensures tree != null ==> |Pre(f, tree) + After(f, tree)| == |After(f, from)|
  {
    hide *;
    tree := from;
    while tree != null
      invariant tree != null ==> tree in S && Attached(f, tree) && After(f, tree) == After(f, from) && Behind(f, msg, tree) == Behind(f, msg, from)
      invariant tree == null ==> Behind(f, msg, from) == []
      decreases tree != null, if tree != null then Lvl(f, tree) else 0
    {
      StepOn(S, f, msg, head, tree);
      if tree.next != null {
        tree := tree.next;
        break;
      } else {
        BehindSame(f, msg, tree, tree.parent);
        tree := tree.parent;
      }
    }
  }

  lemma BehindSame(f: ThreadForest, msg: map<MuttThread, Email>, a: MuttThread, b: MuttThread?)
    ensures b != null && After(f, a) == After(f, b) ==> Behind(f, msg, a) == Behind(f, msg, b)
  {
  }

  method LinearizeTree(head: MuttThread?, emails: array<Email>, count: nat, reverse: bool,
    ghost S: set<MuttThread>, ghost f: ThreadForest, ghost msg: map<MuttThread, Email>)
    requires Linked(S, f, head, {}) && Messages(S, msg) && Grown(f, msg)
    requires count == |Displayed(f, msg)| && count <= emails.Length
    modifies emails
    ensures forall k :: 0 <= k < count ==> emails[Slot(count, reverse, k)] == Displayed(f, msg)[k]
    ensures if reverse then forall k :: 0 <= k < count ==> emails[k] == Displayed(f, msg)[count - 1 - k] else emails[..count] == Displayed(f, msg)
    ensures emails[count..] == old(emails[count..])
  {
    hide Linked, Messages, Grown, Displayed, Ahead, Behind, Attached, Pre, After, MsgSeq;
    var tree := head;
    var at := if reverse then count - 1 else 0;
    ghost var done: seq<Email> := [];
    StepStart(S, f, msg, head);
    while tree != null
      invariant tree != null ==> tree in S && Attached(f, tree) && Displayed(f, msg) == done + Ahead(f, msg, tree)
      invariant tree == null ==> Displayed(f, msg) == done
      invariant |done| <= count && at == Slot(count, reverse, |done|)
      invariant forall k :: 0 <= k < |done| ==> emails[Slot(count, reverse, k)] == done[k]
      invariant emails[count..] == old(emails[count..])
      decreases if tree != null then |Pre(f, tree) + After(f, tree)| + 1 else 0
    {
      tree := SkipMissing(tree, S, f, msg, head);
      StepDown(S, f, msg, head, tree);
      emails[at] := tree.message;
      done := done + [tree.message];
      at := if reverse then at - 1 else at + 1;
      if tree.child != null {
        tree := tree.child;
      } else {
        AfterShorter(f, tree);
        tree := NextUp(tree, S, f, msg, head);
      }
    }
  }

  lemma AfterShorter(f: ThreadForest, n: MuttThread)
    ensures |After(f, n)| < |Pre(f, n) + After(f, n)|
  {
  }

  // while (!tree->message) tree = tree->child
  method SkipMissing(from: MuttThread, ghost S: set<MuttThread>, ghost f: ThreadForest, ghost msg: map<MuttThread, Email>, ghost head: MuttThread?)
    returns (tree: MuttThread)
    requires Linked(S, f, head, {}) && Messages(S, msg) && Grown(f, msg) && from in S && Attached(f, from)
    ensures tree in S && Attached(f, tree) && tree.message != null && Ahead(f, msg, tree) == Ahead(f, msg, from)
    ensures Ahead(f, msg, tree) != [] && Ahead(f, msg, tree)[0] == tree.message
    ensures |Pre(f, tree) + After(f, tree)| <= |Pre(f, from) + After(f, from)|
  {
    hide *;
    tree := from;
    while tree.message == null
      invariant tree in S && Attached(f, tree) && Ahead(f, msg, tree) == Ahead(f, msg, from)
      invariant |Pre(f, tree) + After(f, tree)| <= |Pre(f, from) + After(f, from)|
      decreases |Pre(f, tree) + After(f, tree)|
    {
      StepDown(S, f, msg, head, tree);
      assert [] + Ahead(f, msg, tree.child) == Ahead(f, msg, tree.child);
      tree := tree.child;
    }
    StepDown(S, f, msg, head, tree);
  }

  // --- every email once ---

  lemma {:induction false} MsgIn(msg: map<MuttThread, Email>, ns: seq<MuttThread>, e: Email)
    ensures e in MsgSeq(msg, ns) <==> exists n :: n in ns && n in msg && msg[n] == e
  {
    if ns != [] { MsgIn(msg, ns[1..], e); }
  }

  lemma {:induction false} MsgNoDup(msg: map<MuttThread, Email>, ns: seq<MuttThread>)
    requires NoDup(ns) && forall a, b :: a in msg && b in msg && msg[a] == msg[b] ==> a == b
    ensures NoDup(MsgSeq(msg, ns))
  {
    if ns != [] {
      MsgNoDup(msg, ns[1..]);
      if ns[0] in msg {
        MsgIn(msg, ns[1..], msg[ns[0]]);
        var s := [msg[ns[0]]] + MsgSeq(msg, ns[1..]);
        assert s[1..] == MsgSeq(msg, ns[1..]);
      } else {
        assert [] + MsgSeq(msg, ns[1..]) == MsgSeq(msg, ns[1..]);
      }
    }
  }

  // In a grown forest whatever hangs somewhere hangs below a top-level node.
  lemma GrownRoot(f: ThreadForest, msg: map<MuttThread, Email>, n: MuttThread)
    requires Grown(f, msg) && Attached(f, n)
    ensures Root(f, n) in f.roots
    decreases Lvl(f, n)
  {
    UpOfPar(f, n);
    if f.par[n].Some? {
      ParentWithKid(f, n);
      GrownRoot(f, msg, f.par[n].value);
    }
  }

  // The display order holds each email exactly once.
  lemma DisplayedOnce(c: Ctx, E: set<Email>)
    requires CtxOK(c, E, None, None) && c.done == c.thr.Keys
    ensures NoDup(Displayed(c.f, c.msg))
    ensures forall e :: e in c.thr ==> e in Displayed(c.f, c.msg)
    ensures forall e :: e in Displayed(c.f, c.msg) ==> e in c.thr
  {
    CtxGrown(c, E);
    ForestOnce(c.f);
    var all := PreAll(c.f, c.f.roots);
    forall n | n in c.msg ensures c.msg[n] in c.thr && c.thr[c.msg[n]] == n { MsgOwner(c, E, n); }
    MsgNoDup(c.msg, all);
    forall e | e in c.thr ensures e in MsgSeq(c.msg, all) {
      var n := c.thr[e];
      assert EmailOK(c, e);
      GrownRoot(c.f, c.msg, n);
      MsgIn(c.msg, all, e);
    }
    forall e | e in MsgSeq(c.msg, all) ensures e in c.thr { MsgIn(c.msg, all, e); }
  }

  lemma MsgOwner(c: Ctx, E: set<Email>, n: MuttThread)
    requires CtxOK(c, E, None, None) && n in c.msg
    ensures c.msg[n] in c.thr && c.thr[c.msg[n]] == n
  {
    Tables(c.f);
    assert NodeOK(c, E, None, None, n);
  }

  lemma {:induction false} NoLonger<T>(a: seq<T>, b: seq<T>)
    requires NoDup(a) && forall x :: x in a ==> x in b
    ensures |a| <= |b|
  {
    if a != [] {
      RemoveLength(b, a[0]);
      NoLonger(a[1..], Remove(b, a[0]));
    }
  }

  lemma {:induction false} RemoveLength<T>(s: seq<T>, x: T)
    requires x in s
    ensures |Remove(s, x)| == |s| - 1
  {
    if s[0] != x { RemoveLength(s[1..], x); }
  }

  // So there is a slot for every email: the writes of linearize_tree stay inside the array.
  lemma SlotForEach(c: Ctx, emails: seq<Email>)
    requires CtxOK(c, Elements(emails), None, None) && c.done == c.thr.Keys
    requires NoDup(emails) && forall e :: e in emails ==> e in c.thr
    ensures |Displayed(c.f, c.msg)| == |emails|
  {
    DisplayedOnce(c, Elements(emails));
    NoLonger(Displayed(c.f, c.msg), emails);
    NoLonger(emails, Displayed(c.f, c.msg));
  }

  // --- mutt_messages_in_thread ---

  datatype ThreadStyle = Flat | Threads | Reverse

  // What is ahead at the parent of n ends with what is ahead at n.
  lemma AheadOfParent(f: ThreadForest, n: MuttThread) returns (x: seq<MuttThread>)
    requires WF(f) && n in f.par && f.par[n].Some?
    ensures var p := f.par[n].value;
            p in f.par && p in x && Up(f, n) == Some(p) && Pre(f, p) + After(f, p) == x + (Pre(f, n) + After(f, n))
  {
    var p := f.par[n].value;
    ParentWithKid(f, n);
    DownKids(f, p);
    UpIsPar(f, n);
    hide WF, Up;
    var y := PreAllSplit(f, f.kids[p], n);
    x := [p] + y;
    Regroup([p], y, Pre(f, n), PreAll(f, Later(f.kids[p], n)), After(f, p));
  }

  lemma Regroup<T>(a: seq<T>, b: seq<T>, c: seq<T>, d: seq<T>, e: seq<T>)
    ensures (a + (b + (c + d))) + e == (a + b) + (c + (d + e))
  {
  }

  // What is ahead of a walk at n is the tail of the display order.
  lemma {:induction false} AheadIsTail(f: ThreadForest, n: MuttThread) returns (x: seq<MuttThread>)
    requires WF(f) && Attached(f, n) && Root(f, n) in f.roots
    ensures PreAll(f, f.roots) == x + (Pre(f, n) + After(f, n))
    decreases Lvl(f, n)
  {
    UpIsPar(f, n);
    if f.par[n].None? {
      x := PreAllSplit(f, f.roots, n);
      assert After(f, n) == PreAll(f, Later(f.roots, n));
    } else {
      var p := f.par[n].value;
      var y := AheadOfParent(f, n);
      RootUp(f, n);
      ParentAttached(f, p);
      var z := AheadIsTail(f, p);
      x := z + y;
      assert z + (y + (Pre(f, n) + After(f, n))) == (z + y) + (Pre(f, n) + After(f, n));
    }
  }

  lemma ParentAttached(f: ThreadForest, p: MuttThread)
    requires WF(f) && p in f.par && Root(f, p) in f.roots
    ensures Attached(f, p)
  {
    UpIsPar(f, p);
  }

  lemma RootUp(f: ThreadForest, n: MuttThread)
    requires Up(f, n).Some?
    ensures Root(f, n) == Root(f, Up(f, n).value)
  {
  }

  lemma {:induction false} PreAllSplit(f: ThreadForest, l: seq<MuttThread>, n: MuttThread) returns (x: seq<MuttThread>)
    requires n in l
    ensures PreAll(f, l) == x + (Pre(f, n) + PreAll(f, Later(l, n)))
    decreases |l|
  {
    if l[0] == n {
      x := [];
    } else {
      var y := PreAllSplit(f, l[1..], n);
      x := Pre(f, l[0]) + y;
    }
  }

  // A node of the subtree of r is left before the walk is done with r.
  lemma {:induction false} UnderAhead(f: ThreadForest, msg: map<MuttThread, Email>, n: MuttThread, r: MuttThread)
    requires IsUnder(f, n, r)
    ensures |Behind(f, msg, n)| >= |Behind(f, msg, r)|
    decreases Lvl(f, n)
  {
    if n != r {
      UnderAhead(f, msg, Up(f, n).value, r);
      MsgAppend(msg, PreAll(f, Later(Sibs(f, n), n)), After(f, Up(f, n).value));
    }
  }

  // The emails of the thread with the top-level node r.
  ghost function InThread(f: ThreadForest, msg: map<MuttThread, Email>, r: MuttThread): seq<Email> {
    MsgSeq(msg, Pre(f, r))
  }

  lemma AheadAt(f: ThreadForest, msg: map<MuttThread, Email>, n: MuttThread)
    requires Grown(f, msg) && Attached(f, n)
    ensures |Ahead(f, msg, n)| <= |Displayed(f, msg)|
    ensures Displayed(f, msg)[|Displayed(f, msg)| - |Ahead(f, msg, n)|..] == Ahead(f, msg, n)
  {
    GrownRoot(f, msg, n);
    var x := AheadIsTail(f, n);
    hide WF, Grown, Attached, Pre, After, MsgSeq;
    MsgAppend(msg, x, Pre(f, n) + After(f, n));
  }

  // The message number of every displayed email is its index in the array.
  ghost predicate Numbered(f: ThreadForest, msg: map<MuttThread, Email>, count: nat, reverse: bool)
    reads msg.Values`msgno
  {
    && |Displayed(f, msg)| == count
    && (forall k :: 0 <= k < count && Displayed(f, msg)[k] in msg.Values ==> Displayed(f, msg)[k].msgno == Slot(count, reverse, k))
  }

  // while (n->parent) n = n->parent
  method TopOf(n: MuttThread, ghost S: set<MuttThread>, ghost f: ThreadForest, ghost head: MuttThread?)
    returns (r: MuttThread)
    requires Linked(S, f, head, {}) && WF(f) && n in S
    ensures r in S && r == Root(f, n)
  {
    r := n;
    UpOfPar(f, n);
    while r.parent != null
      invariant r in S && Root(f, r) == Root(f, n) && Up(f, r) == f.par[r]
      decreases Lvl(f, r)
    {
      r := r.parent;
      UpOfPar(f, r);
    }
  }

  lemma FirstNumber(f: ThreadForest, msg: map<MuttThread, Email>, count: nat, reverse: bool, n: MuttThread, m: Email)
    requires Numbered(f, msg, count, reverse) && Grown(f, msg) && Attached(f, n) && m in msg.Values
    requires Ahead(f, msg, n) != [] && Ahead(f, msg, n)[0] == m
    ensures m.msgno == Slot(count, reverse, count - |Ahead(f, msg, n)|) && |Ahead(f, msg, n)| <= count
  {
    hide Grown, Attached, Ahead, Displayed;
    AheadAt(f, msg, n);
  }

  // The walk ahead of a node of the thread, and ahead of its top-level node.
  lemma {:induction false} UnderAheadLess(f: ThreadForest, msg: map<MuttThread, Email>, n: MuttThread, r: MuttThread)
    requires WF(f) && n in f.par && IsUnder(f, n, r)
    ensures |Ahead(f, msg, n)| <= |Ahead(f, msg, r)|
    decreases Lvl(f, n)
  {
    UpIsPar(f, n);
    if n != r {
      hide WF, Pre, After, MsgSeq;
      var x := AheadOfParent(f, n);
      UnderAheadLess(f, msg, f.par[n].value, r);
      MsgAppend(msg, x, Pre(f, n) + After(f, n));
    }
  }

  lemma OwnThread(S: set<MuttThread>, f: ThreadForest, msg: map<MuttThread, Email>, head: MuttThread?, n: MuttThread)
    requires Linked(S, f, head, {}) && Messages(S, msg) && Grown(f, msg) && n in S && n in msg
    ensures Attached(f, n) && n in f.par && Ahead(f, msg, n) != [] && Ahead(f, msg, n)[0] == msg[n]
    ensures |Behind(f, msg, n)| < |Ahead(f, msg, n)|
  {
    Tables(f);
    hide Linked, Attached, WF;
    FirstAhead(f, msg, n, if Down(f, n) == [] then [] else PreAll(f, Down(f, n)));
  }

  lemma FirstAhead(f: ThreadForest, msg: map<MuttThread, Email>, n: MuttThread, t: seq<MuttThread>)
    requires Pre(f, n) == [n] + t && n in msg
    ensures Ahead(f, msg, n) != [] && Ahead(f, msg, n)[0] == msg[n] && |Behind(f, msg, n)| < |Ahead(f, msg, n)|
  {
    hide Pre, After;
    var rest := t + After(f, n);
    assert Pre(f, n) + After(f, n) == [n] + rest;
    assert ([n] + rest)[1..] == rest;
    MsgAppend(msg, t, After(f, n));
  }

  lemma RootShape(S: set<MuttThread>, f: ThreadForest, msg: map<MuttThread, Email>, head: MuttThread?, n: MuttThread, r: MuttThread)
    requires Linked(S, f, head, {}) && Messages(S, msg) && Grown(f, msg) && n in S && n in msg && r == Root(f, n) && r in S
    ensures Attached(f, r) && Ahead(f, msg, r) == InThread(f, msg, r) + Behind(f, msg, r)
    ensures r.next == null ==> Behind(f, msg, r) == []
    ensures r.next != null ==> r.next in S && Attached(f, r.next) && Behind(f, msg, r) == Ahead(f, msg, r.next)
    ensures |Behind(f, msg, r)| < |Ahead(f, msg, n)| <= |Ahead(f, msg, r)|
  {
    OwnThread(S, f, msg, head, n);
    GrownRoot(f, msg, n);
    UnderRoot(f, n);
    UnderAhead(f, msg, n, r);
    UnderAheadLess(f, msg, n, r);
    MsgAppend(msg, Pre(f, r), After(f, r));
    RootAttached(f, r);
    hide Attached, Grown, Linked, Pre, After;
    StepOn(S, f, msg, head, r);
    NoParent(S, f, head, r);
  }

  lemma RootAttached(f: ThreadForest, r: MuttThread)
    requires WF(f) && r in f.roots
    ensures Attached(f, r) && f.par[r].None?
  {
  }

  lemma NoParent(S: set<MuttThread>, f: ThreadForest, head: MuttThread?, r: MuttThread)
    requires Linked(S, f, head, {}) && WF(f) && r in S && Up(f, r).None?
    ensures r.parent == null
  {
    UpOfPar(f, r);
  }

  // mutt_messages_in_thread
  method MessagesInThread(e: Email, position: bool, style: ThreadStyle, count: nat,
    ghost S: set<MuttThread>, ghost f: ThreadForest, ghost msg: map<MuttThread, Email>, ghost head: MuttThread?)
    returns (rc: int)
    requires Linked(S, f, head, {}) && Messages(S, msg) && Grown(f, msg) && Numbered(f, msg, count, style.Reverse?)
    requires e.thread != null ==> e.thread in S && e.thread in msg && msg[e.thread] == e
    ensures style.Flat? || e.thread == null ==> rc == 1
    ensures !style.Flat? && e.thread != null && !position ==> rc == |InThread(f, msg, Root(f, e.thread))|
    ensures !style.Flat? && e.thread != null && position ==>
              1 <= rc <= |InThread(f, msg, Root(f, e.thread))| && InThread(f, msg, Root(f, e.thread))[rc - 1] == e
  {
    hide *;
    if style.Flat? || e.thread == null {
      return 1;
    }
    GrownWF(f, msg);
    var root := TopOf(e.thread, S, f, head);
    RootShape(S, f, msg, head, e.thread, root);
    OwnThread(S, f, msg, head, e.thread);
    MessageField(S, msg);
    var first := SkipMissing(root, S, f, msg, head);
    FirstNumber(f, msg, count, style.Reverse?, root, first.message);
    ThreadPlace(f, msg, count, style.Reverse?, root, e.thread, e);
    var second: MuttThread? := if position then e.thread else root.next;
    if second != null && !position {
      second := SkipMissing(second, S, f, msg, head);
      FirstNumber(f, msg, count, style.Reverse?, root.next, second.message);
    }
    if style.Reverse? {
      rc := first.message.msgno - (if second != null then second.message.msgno else -1);
    } else {
      rc := (if second != null then second.message.msgno else count) - first.message.msgno;
    }
    if position {
      rc := rc + 1;
    }
    SlotIs(count, style.Reverse?);
  }

  lemma GrownWF(f: ThreadForest, msg: map<MuttThread, Email>)
    requires Grown(f, msg)
    ensures WF(f)
  {
  }

  lemma SlotIs(count: nat, reverse: bool)
    ensures forall k :: Slot(count, reverse, k) == if reverse then count - 1 - k else k
  {
  }

  // Where e stands in its thread, from where it stands in the display order.
  lemma ThreadPlace(f: ThreadForest, msg: map<MuttThread, Email>, count: nat, reverse: bool, r: MuttThread, n: MuttThread, e: Email)
    requires Numbered(f, msg, count, reverse) && Grown(f, msg) && Attached(f, n) && Attached(f, r) && e in msg.Values
    requires Ahead(f, msg, n) != [] && Ahead(f, msg, n)[0] == e && Ahead(f, msg, r) == InThread(f, msg, r) + Behind(f, msg, r)
    requires |Behind(f, msg, r)| < |Ahead(f, msg, n)| <= |Ahead(f, msg, r)|
    ensures e.msgno == Slot(count, reverse, count - |Ahead(f, msg, n)|)
    ensures |Ahead(f, msg, n)| <= count
    ensures 0 <= |Ahead(f, msg, r)| - |Ahead(f, msg, n)| < |InThread(f, msg, r)|
    ensures InThread(f, msg, r)[|Ahead(f, msg, r)| - |Ahead(f, msg, n)|] == e
  {
    hide *;
    AheadAt(f, msg, n);
    AheadAt(f, msg, r);
    FirstNumber(f, msg, count, reverse, n, e);
    TailAt(Displayed(f, msg), |Ahead(f, msg, n)|, |Ahead(f, msg, r)|, InThread(f, msg, r), Behind(f, msg, r));
  }

  // In d, whose last `far` elements are a + b, the one `near` before the end is in a.
  lemma TailAt<T>(d: seq<T>, near: nat, far: nat, a: seq<T>, b: seq<T>)
    requires |b| < near <= far <= |d| && d[|d| - far..] == a + b
    ensures 0 <= far - near < |a| && a[far - near] == d[|d| - near..][0]
  {
    assert d[|d| - far..][far - near] == d[|d| - near];
  }
}
