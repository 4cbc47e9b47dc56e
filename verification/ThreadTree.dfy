// mutt_sort_threads on the heap: the threading context, and the steps that change it.
module ThreadTree {
  import opened Wrappers
  import opened Forests
  import opened Threads
  import opened References
  import opened Context
  import opened TopmostWalk

  ghost predicate Flags(S: set<MuttThread>, dups: set<MuttThread>, fakes: set<MuttThread>)
    reads S`duplicateThread, S`fakeThread
  {
    forall n :: n in S ==> n.duplicateThread == (n in dups) && n.fakeThread == (n in fakes)
  }

  ghost predicate Mails(E: set<Email>, thr: map<Email, MuttThread>, done: set<Email>)
    reads E`thread, E`threaded
  {
    forall e :: e in E ==> (e.thread == if e in thr then thr[e] else null) && e.threaded == (e in done)
  }

  // The nodes S and the emails E are in the state c, with `head` the first top-level node.
  ghost predicate Agrees(S: set<MuttThread>, E: set<Email>, c: Ctx, head: MuttThread?)
    reads S`parent, S`child, S`next, S`prev, S`message, S`duplicateThread, S`fakeThread, E`thread, E`threaded
  {
    Linked(S, c.f, head, {}) && Messages(S, c.msg) && Flags(S, c.dups, c.fakes) && Mails(E, c.thr, c.done)
  }

  // --- the steps of Context, on the heap ---

  // unlink_message, if n hangs anywhere.
  method Loosen(n: MuttThread, ghost S: set<MuttThread>, ghost f: ThreadForest, ghost head: MuttThread?)
    requires WF(f) && Linked(S, f, head, {}) && n in S && n !in f.roots
    modifies S`child, S`next, S`prev, S`sortThreadKey, S`sortAuxKey
    ensures n in f.par && (f.par[n].Some? ==> f.par[n].value in f.kids)
    ensures Linked(S, Cut(f, n), head, {n})
  {
    hide WF, Linked, IsUnder, Unlink;
    ParentField(S, f, head, n);
    Tables(f);
    if n.parent != null {
      Detach(n.parent, n, S, f, head);
    } else {
      LinkedLoose(S, f, head, n);
    }
  }

  method Move(n: MuttThread, p: MuttThread, ghost S: set<MuttThread>, ghost E: set<Email>, ghost c: Ctx, ghost head: MuttThread?)
    requires Agrees(S, E, c, head) && WF(c.f)
    requires n in S && n !in c.f.roots && p in S && !IsUnder(c.f, p, n)
    modifies S`parent, S`child, S`next, S`prev, S`sortThreadKey, S`sortAuxKey
    ensures n in c.f.par && (c.f.par[n].Some? ==> c.f.par[n].value in c.f.kids)
    ensures p in c.f.kids && p in c.f.lvl && WF(Reparent(c, n, p).f)
    ensures Agrees(S, E, Reparent(c, n, p), head)
  {
    hide WF, Linked, Messages, Flags, Mails, IsUnder, Insert, Dangling, Cut;
    LinkedNodes(S, c.f, head, {});
    Loosen(n, S, c.f, head);
    ReparentWF(c, n, p);
    CutOK(c.f, n, p);
    Attach(p, n, S, Cut(c.f, n), head);
  }

  lemma ParentField(S: set<MuttThread>, f: ThreadForest, head: MuttThread?, n: MuttThread)
    requires Linked(S, f, head, {}) && n in S
    ensures S == f.par.Keys && n.parent == OrNull(f.par[n])
  {
  }

  lemma LinkedLoose(S: set<MuttThread>, f: ThreadForest, head: MuttThread?, n: MuttThread)
    requires Linked(S, f, head, {})
    ensures Linked(S, f, head, {n})
  {
  }

  // --- first half: every email gets a node ---

  // The pseudo-threaded children of n, except those still in `rest`, have gone to the top; nothing
  // else has changed.
  ghost predicate Released(c: Ctx, d: Ctx, n: MuttThread, top: MuttThread, rest: seq<MuttThread>) {
    && d == c.(f := d.f, fakes := d.fakes) && d.f.par.Keys == c.f.par.Keys && d.f.roots == c.f.roots
    && (forall m :: m in c.f.par ==>
          d.f.par[m] == if c.f.par[m] == Some(n) && m in c.fakes && m !in rest then Some(top) else c.f.par[m])
    && d.fakes <= c.fakes <= c.f.par.Keys
    && (forall m :: m in c.fakes ==> (m in d.fakes <==> !(c.f.par[m] == Some(n) && m !in rest)))
  }

  method ReleaseFakeChildren(thread: MuttThread, top: MuttThread, ghost S: set<MuttThread>, ghost E: set<Email>, ghost c0: Ctx)
    returns (ghost c: Ctx)
    requires Agrees(S, E, c0, null) && CtxOK(c0, E, Some(top), None)
    requires thread in S && thread in c0.msg
    modifies S`parent, S`child, S`next, S`prev, S`sortThreadKey, S`sortAuxKey, S`fakeThread
    ensures Agrees(S, E, c, null) && CtxOK(c, E, Some(top), None)
    ensures Released(c0, c, thread, top, [])
  {
    hide *;
    c := c0;
    ghost var kept: seq<MuttThread>, rest := [], KidsOf(c.f, thread);
    var tnew := thread.child;
    ReleaseStart(S, E, c0, thread, top, tnew);
    while tnew != null
      invariant Agrees(S, E, c, null) && CtxOK(c, E, Some(top), None)
      invariant Walking(c, thread, kept, rest, tnew) && thread in c.msg
      invariant Released(c0, c, thread, top, rest)
      decreases |rest|
    {
      ReleaseHere(S, E, c, thread, top, kept, rest, tnew);
      var tmp := tnew.next;
      if tnew.fakeThread {
        ReleaseOK(c0, c, E, thread, top, kept, rest, tnew);
        ReleaseOne(tnew, top, S, E, c);
        c := Release(c, tnew, top);
      } else {
        KeepOK(c0, c, thread, top, kept, rest, tnew);
        kept := kept + [tnew];
      }
      rest, tnew := rest[1..], tmp;
    }
    ReleaseEnd(c0, c, thread, top, kept, rest);
  }

  method ReleaseOne(n: MuttThread, top: MuttThread, ghost S: set<MuttThread>, ghost E: set<Email>, ghost c: Ctx)
    requires Agrees(S, E, c, null) && WF(c.f) && n in S && n !in c.f.roots && top in S && !IsUnder(c.f, top, n)
    modifies S`parent, S`child, S`next, S`prev, S`sortThreadKey, S`sortAuxKey, S`fakeThread
    ensures n in c.f.par && (c.f.par[n].Some? ==> c.f.par[n].value in c.f.kids) && top in c.f.kids && top in c.f.lvl
    ensures Agrees(S, E, Release(c, n, top), null)
  {
    hide WF, Linked, Messages, Flags, Mails, IsUnder, Reparent;
    Move(n, top, S, E, c, null);
    ClearFakeFlag(n, S, c.dups, c.fakes);
    ReparentSame(c, n, top);
  }

  lemma ReparentSame(c: Ctx, n: MuttThread, p: MuttThread)
    requires n in c.f.par && (c.f.par[n].Some? ==> c.f.par[n].value in c.f.kids)
    requires p in c.f.kids && p in c.f.lvl
    ensures var d := Reparent(c, n, p);
            d == c.(f := d.f)
  {
  }

  ghost function Release(c: Ctx, n: MuttThread, top: MuttThread): Ctx
    requires n in c.f.par && (c.f.par[n].Some? ==> c.f.par[n].value in c.f.kids)
    requires top in c.f.kids && top in c.f.lvl
  {
    var d := Reparent(c, n, top);
    d.(fakes := d.fakes - {n})
  }

  lemma ReleaseStart(S: set<MuttThread>, E: set<Email>, c: Ctx, thread: MuttThread, top: MuttThread, tnew: MuttThread?)
    requires Agrees(S, E, c, null) && CtxOK(c, E, Some(top), None) && thread in S && tnew == thread.child
    ensures Walking(c, thread, [], KidsOf(c.f, thread), tnew)
    ensures Released(c, c, thread, top, KidsOf(c.f, thread))
  {
    assert NodeLinked(c.f, thread);
    forall m | m in c.f.par && c.f.par[m] == Some(thread) ensures m in KidsOf(c.f, thread) {
      ParentWithKid(c.f, m);
    }
  }

  lemma ReleaseHere(S: set<MuttThread>, E: set<Email>, c: Ctx, thread: MuttThread, top: MuttThread,
    kept: seq<MuttThread>, rest: seq<MuttThread>, tnew: MuttThread)
    requires Agrees(S, E, c, null) && CtxOK(c, E, Some(top), None) && Walking(c, thread, kept, rest, tnew)
    ensures rest != [] && tnew == rest[0] && tnew in S && top in S && tnew in c.f.par && c.f.par[tnew] == Some(thread)
    ensures tnew.next == OrNull(First(rest[1..])) && tnew.fakeThread == (tnew in c.fakes)
    ensures tnew != top && tnew !in c.f.roots && !IsUnder(c.f, top, tnew) && WF(c.f) && (thread in c.msg ==> thread != top)
    ensures top in c.f.kids && top in c.f.lvl && thread in c.f.kids && top in c.f.par && NoDup(rest)
  {
    hide WF, NodeOK, HashOK, EmailOK, IsUnder, NextOf;
    ReleaseHereCtx(c, E, thread, top, kept, rest, tnew);
    assert NodeLinked(c.f, tnew);
  }

  lemma ReleaseHereCtx(c: Ctx, E: set<Email>, thread: MuttThread, top: MuttThread,
    kept: seq<MuttThread>, rest: seq<MuttThread>, tnew: MuttThread)
    requires CtxOK(c, E, Some(top), None) && Walking(c, thread, kept, rest, tnew)
    ensures rest != [] && tnew == rest[0] && tnew in c.f.par && c.f.par[tnew] == Some(thread)
    ensures First(rest[1..]) == NextOf(c.f, tnew) && Attached(c.f, tnew)
    ensures tnew != top && tnew !in c.f.roots && !IsUnder(c.f, top, tnew) && WF(c.f) && (thread in c.msg ==> thread != top)
    ensures top in c.f.kids && top in c.f.lvl && thread in c.f.kids && top in c.f.par && NoDup(rest)
  {
    hide HashOK, EmailOK;
    var l := c.f.kids[thread];
    assert l[|kept|] == tnew;
    assert KidsOK(c.f, thread) && NodeOK(c, E, Some(top), None, top);
    NextAt(l, |kept|);
    NoDupTail(kept, rest);
  }

  lemma KeepOK(c0: Ctx, c: Ctx, thread: MuttThread, top: MuttThread, kept: seq<MuttThread>, rest: seq<MuttThread>, tnew: MuttThread)
    requires Walking(c, thread, kept, rest, tnew) && Released(c0, c, thread, top, rest) && rest != [] && tnew == rest[0]
    requires tnew in c.f.par && c.f.par[tnew] == Some(thread) && tnew !in c.fakes
    ensures Walking(c, thread, kept + [tnew], rest[1..], OrNull(First(rest[1..])))
    ensures Released(c0, c, thread, top, rest[1..])
  {
    assert kept + rest == kept + [tnew] + rest[1..];
  }

  lemma ReleaseOK(c0: Ctx, c: Ctx, E: set<Email>, thread: MuttThread, top: MuttThread,
    kept: seq<MuttThread>, rest: seq<MuttThread>, tnew: MuttThread)
    requires CtxOK(c, E, Some(top), None) && thread in c.msg && Walking(c, thread, kept, rest, tnew)
    requires Released(c0, c, thread, top, rest) && rest != [] && tnew == rest[0] && thread != top
    requires tnew in c.f.par && c.f.par[tnew] == Some(thread) && tnew in c.fakes && tnew != top
    requires tnew !in c.f.roots && !IsUnder(c.f, top, tnew) && top in c.f.kids && top in c.f.lvl && thread in c.f.kids
    requires WF(c.f) && NoDup(rest) && top in c.f.par
    ensures CtxOK(Release(c, tnew, top), E, Some(top), None) && thread in Release(c, tnew, top).msg
    ensures Walking(Release(c, tnew, top), thread, kept, rest[1..], OrNull(First(rest[1..])))
    ensures Released(c0, Release(c, tnew, top), thread, top, rest[1..])
  {
    hide *;
    ReleaseCtx(c, E, thread, top, tnew);
    ReleaseKids(c, thread, top, kept, rest, tnew);
    ReleaseParents(c0, c, thread, top, rest, tnew);
  }

  lemma ReleaseCtx(c: Ctx, E: set<Email>, thread: MuttThread, top: MuttThread, tnew: MuttThread)
    requires CtxOK(c, E, Some(top), None) && thread in c.msg && thread != top
    requires tnew in c.f.par && c.f.par[tnew] == Some(thread) && tnew in c.fakes && tnew != top
    requires tnew !in c.f.roots && !IsUnder(c.f, top, tnew) && top in c.f.kids && top in c.f.lvl && thread in c.f.kids && top in c.f.par
    ensures CtxOK(Release(c, tnew, top), E, Some(top), None)
  {
    hide WF, NodeOK, HashOK, EmailOK, IsUnder, Reparent, Dangling, CtxOK;
    PlacedNode(c, E, Some(top), None, tnew);
    ReparentOK(c, E, Some(top), None, tnew, top);
    FakesOK(Reparent(c, tnew, top), E, Some(top), None, tnew);
  }

  lemma ReleaseKids(c: Ctx, thread: MuttThread, top: MuttThread, kept: seq<MuttThread>, rest: seq<MuttThread>, tnew: MuttThread)
    requires WF(c.f) && Walking(c, thread, kept, rest, tnew) && rest != [] && tnew == rest[0] && thread != top
    requires tnew in c.f.par && c.f.par[tnew] == Some(thread) && top in c.f.kids && top in c.f.lvl && thread in c.f.kids
    ensures Walking(Release(c, tnew, top), thread, kept, rest[1..], OrNull(First(rest[1..])))
  {
    assert kept + rest == kept + [tnew] + rest[1..];
    assert KidsOK(c.f, thread);
    RemoveAt(kept, tnew, rest[1..]);
  }

  lemma ReleaseParents(c0: Ctx, c: Ctx, thread: MuttThread, top: MuttThread, rest: seq<MuttThread>, tnew: MuttThread)
    requires Released(c0, c, thread, top, rest) && rest != [] && tnew == rest[0] && thread != top
    requires tnew in c.f.par && c.f.par[tnew] == Some(thread) && tnew in c.fakes && tnew != top
    requires top in c.f.kids && top in c.f.lvl && thread in c.f.kids && NoDup(rest)
    ensures Released(c0, Release(c, tnew, top), thread, top, rest[1..]) && Release(c, tnew, top).msg == c.msg
  {
  }

  lemma ReleaseEnd(c0: Ctx, c: Ctx, thread: MuttThread, top: MuttThread, kept: seq<MuttThread>, rest: seq<MuttThread>)
    requires Released(c0, c, thread, top, rest) && Walking(c, thread, kept, rest, null)
    ensures Released(c0, c, thread, top, [])
  {
  }

  // The loop variable is the first of the children not yet visited.
  ghost predicate Walking(c: Ctx, n: MuttThread, kept: seq<MuttThread>, rest: seq<MuttThread>, at: MuttThread?) {
    KidsOf(c.f, n) == kept + rest && at == OrNull(First(rest))
  }

  ghost function KidsOf(f: ThreadForest, n: MuttThread): seq<MuttThread> {
    if n in f.kids then f.kids[n] else []
  }

  lemma FirstKidField(S: set<MuttThread>, f: ThreadForest, head: MuttThread?, n: MuttThread)
    requires Linked(S, f, head, {}) && n in S
    ensures n.child == OrNull(First(KidsOf(f, n)))
  {
  }

  // The body of the loop that removes what a newly found message had inherited: n leaves its
  // parent for good.
  ghost function Orphan(c: Ctx, n: MuttThread): Ctx
    requires n in c.f.par && c.f.par[n].Some? && c.f.par[n].value in c.f.kids
  {
    c.(f := Unlink(c.f, n), fakes := c.fakes - {n})
  }

  method MakeOrphan(n: MuttThread, ghost S: set<MuttThread>, ghost E: set<Email>, ghost c: Ctx)
    requires Agrees(S, E, c, null) && WF(c.f) && n in S && n.parent != null
    modifies S`parent, S`child, S`next, S`prev, S`sortThreadKey, S`sortAuxKey, S`fakeThread
    ensures n in c.f.par && c.f.par[n] == Some(old(n.parent)) && c.f.par[n].value in c.f.kids
    ensures Agrees(S, E, Orphan(c, n), null)
  {
    hide *;
    HasParent(S, E, c, n);
    Detach(n.parent, n, S, c.f, null);
    ClearNode(n, S, Unlink(c.f, n), c.dups, c.fakes);
    OrphanAgrees(S, E, c, n);
  }

  lemma HasParent(S: set<MuttThread>, E: set<Email>, c: Ctx, n: MuttThread)
    requires Agrees(S, E, c, null) && WF(c.f) && n in S && n.parent != null
    ensures n in c.f.par && c.f.par[n] == Some(n.parent) && c.f.par[n].value in c.f.kids
    ensures Linked(S, c.f, null, {}) && Messages(S, c.msg) && Flags(S, c.dups, c.fakes) && Mails(E, c.thr, c.done)
  {
    Tables(c.f);
  }

  lemma OrphanAgrees(S: set<MuttThread>, E: set<Email>, c: Ctx, n: MuttThread)
    requires n in c.f.par && c.f.par[n].Some? && c.f.par[n].value in c.f.kids
    requires Linked(S, Unlink(c.f, n), null, {}) && Messages(S, c.msg)
    requires Flags(S, c.dups, c.fakes - {n}) && Mails(E, c.thr, c.done)
    ensures Agrees(S, E, Orphan(c, n), null)
  {
  }

  method ClearFakeFlag(n: MuttThread, ghost S: set<MuttThread>, ghost dups: set<MuttThread>, ghost fakes: set<MuttThread>)
    requires Flags(S, dups, fakes) && n in S
    modifies n`fakeThread
    ensures Flags(S, dups, fakes - {n})
  {
    n.fakeThread := false;
  }

  method ClearNode(n: MuttThread, ghost S: set<MuttThread>, ghost f: ThreadForest,
    ghost dups: set<MuttThread>, ghost fakes: set<MuttThread>)
    requires Linked(S, f, null, {n}) && n in S && Dangling(f, n) && Flags(S, dups, fakes)
    modifies n`parent, n`sortThreadKey, n`sortAuxKey, n`fakeThread
    ensures Linked(S, f, null, {}) && Flags(S, dups, fakes - {n}) && n.parent == null
  {
    n.parent := null;
    n.sortThreadKey := null;
    n.sortAuxKey := null;
    n.fakeThread := false;
  }

  // n and missing messages above it that had no other child have lost their parents.
  ghost predicate Trimmed(c: Ctx, d: Ctx, n: MuttThread) {
    && d == c.(f := d.f, fakes := d.fakes) && d.f.par.Keys == c.f.par.Keys && d.f.lvl == c.f.lvl && d.f.roots == c.f.roots
    && (forall m :: m in c.f.par ==> d.f.par[m] == c.f.par[m] || (d.f.par[m] == None && (m == n || m !in c.msg)))
    && d.fakes <= c.fakes && (forall m :: m in c.f.par && m in c.fakes ==> (m in d.fakes <==> d.f.par[m] == c.f.par[m]))
  }

  // The node in hand is ready to be orphaned.
  ghost predicate Droppable(c: Ctx, E: set<Email>, top: MuttThread, n: MuttThread) {
    && CtxOK(c, E, Some(top), Some(n)) && n in c.f.par && c.f.par[n].Some? && n != top && n !in c.dups
    && n in c.f.kids && if n in c.msg then c.msg[n] !in c.done else c.f.kids[n] == []
  }

  method DropTrail(start: MuttThread, top: MuttThread, ghost S: set<MuttThread>, ghost E: set<Email>, ghost c0: Ctx)
    returns (ghost c: Ctx)
    requires Agrees(S, E, c0, null) && Droppable(c0, E, top, start) && start in S
    modifies S`parent, S`child, S`next, S`prev, S`sortThreadKey, S`sortAuxKey, S`fakeThread
    ensures Agrees(S, E, c, null) && CtxOK(c, E, Some(top), None) && Trimmed(c0, c, start)
    ensures start in c.f.par && c.f.par[start] == None
  {
    hide *;
    c := c0;
    var thread := start;
    var more := true;
    StartsIn(c0, E, top, start);
    TrimStart(c0, start);
    while more
      invariant Agrees(S, E, c, null) && Trimmed(c0, c, start) && thread in S && start in c.f.par
      invariant if more then Droppable(c, E, top, thread) else CtxOK(c, E, Some(top), None)
      invariant c.f.par[start] == None || (more && thread == start)
      invariant more ==> thread == start || thread !in c.msg
      decreases more, Lvl(c.f, thread)
    {
      TrimHere(S, E, c, top, thread);
      var tmp := thread.parent;
      MakeOrphan(thread, S, E, c);
      TrimStep(S, E, c0, c, top, start, thread, tmp);
      c := Orphan(c, thread);
      thread := tmp;
      more := thread != top && thread.child == null && thread.message == null;
    }
  }

  lemma StartsIn(c: Ctx, E: set<Email>, top: MuttThread, n: MuttThread)
    requires Droppable(c, E, top, n)
    ensures n in c.f.par
  {
  }

  lemma TrimStart(c: Ctx, n: MuttThread)
    requires n in c.f.par
    ensures Trimmed(c, c, n)
  {
  }

  lemma TrimHere(S: set<MuttThread>, E: set<Email>, c: Ctx, top: MuttThread, n: MuttThread)
    requires Agrees(S, E, c, null) && Droppable(c, E, top, n) && n in S
    ensures WF(c.f) && n in c.f.par && c.f.par[n] == Some(n.parent) && n.parent != null && n.parent in S
  {
    hide NodeOK, HashOK, EmailOK;
    Tables(c.f);
    ParentField(S, c.f, null, n);
  }

  // After the step either the parent is in the same position, or the trail is done.
  lemma TrimStep(S: set<MuttThread>, E: set<Email>, c0: Ctx, c: Ctx, top: MuttThread, start: MuttThread, n: MuttThread, p: MuttThread)
    requires Droppable(c, E, top, n) && Trimmed(c0, c, start) && c.f.par[n] == Some(p) && p in S && start in c.f.par
    requires n in c.f.par && c.f.par[n].value in c.f.kids && Agrees(S, E, Orphan(c, n), null)
    requires (c.f.par[start] == None || n == start) && (n == start || n !in c.msg)
    ensures Trimmed(c0, Orphan(c, n), start) && start in Orphan(c, n).f.par && Orphan(c, n).f.par[start] == None
    ensures if p != top && p.child == null && p.message == null
            then Droppable(Orphan(c, n), E, top, p) && p !in Orphan(c, n).msg
            else CtxOK(Orphan(c, n), E, Some(top), None)
    ensures Lvl(Orphan(c, n).f, p) < Lvl(c.f, n)
  {
    hide *;
    TrimCtx(c, E, top, n, p);
    TrimShape(c0, c, start, n, p);
    DropLvl(c, E, top, n, p);
    TrimPlace(c, E, top, n, p);
    TrimFields(S, E, Orphan(c, n), top, p);
  }

  lemma TrimCtx(c: Ctx, E: set<Email>, top: MuttThread, n: MuttThread, p: MuttThread)
    requires Droppable(c, E, top, n) && n in c.f.par && c.f.par[n] == Some(p)
    ensures p in c.f.kids && p in Orphan(c, n).f.kids
    ensures CtxOK(Orphan(c, n), E, Some(top), Childless(Orphan(c, n), Some(top), p))
  {
    hide WF, NodeOK, HashOK, EmailOK, CtxOK;
    LooseOK(c, E, Some(top), n);
    var d := c.(f := Unlink(c.f, n));
    FakesOK(d, E, Some(top), Childless(d, Some(top), p), n);
  }

  lemma TrimShape(c0: Ctx, c: Ctx, start: MuttThread, n: MuttThread, p: MuttThread)
    requires Trimmed(c0, c, start) && n in c.f.par && c.f.par[n] == Some(p) && p in c.f.kids
    requires start in c.f.par && (c.f.par[start] == None || n == start) && (n == start || n !in c.msg)
    ensures Trimmed(c0, Orphan(c, n), start) && start in Orphan(c, n).f.par && Orphan(c, n).f.par[start] == None
  {
  }

  lemma DropLvl(c: Ctx, E: set<Email>, top: MuttThread, n: MuttThread, p: MuttThread)
    requires Droppable(c, E, top, n) && n in c.f.par && c.f.par[n] == Some(p) && p in c.f.kids
    ensures Lvl(Orphan(c, n).f, p) < Lvl(c.f, n)
  {
    hide NodeOK, HashOK, EmailOK;
    UpOfPar(c.f, n);
  }

  // A missing message that has just lost its last child still has its own parent.
  lemma TrimPlace(c: Ctx, E: set<Email>, top: MuttThread, n: MuttThread, p: MuttThread)
    requires Droppable(c, E, top, n) && n in c.f.par && c.f.par[n] == Some(p)
    requires p in c.f.kids && p in Orphan(c, n).f.kids
    requires CtxOK(Orphan(c, n), E, Some(top), Childless(Orphan(c, n), Some(top), p))
    ensures if p != top && p !in Orphan(c, n).msg && Orphan(c, n).f.kids[p] == [] then Droppable(Orphan(c, n), E, top, p)
            else CtxOK(Orphan(c, n), E, Some(top), None)
  {
    hide WF, HashOK, EmailOK;
    Tables(c.f);
    ParentWithKid(c.f, n);
    assert NodeOK(c, E, Some(top), Some(n), p) && NodeOK(c, E, Some(top), Some(n), top);
  }

  lemma TrimFields(S: set<MuttThread>, E: set<Email>, c: Ctx, top: MuttThread, p: MuttThread)
    requires Agrees(S, E, c, null) && p in S && p in c.f.kids
    ensures p.child == null <==> c.f.kids[p] == []
    ensures p.message == null <==> p !in c.msg
  {
  }

  // --- new nodes ---

  ghost predicate Blank(n: MuttThread)
    reads n
  {
    n.parent == null && n.child == null && n.message == null && !n.duplicateThread && !n.fakeThread
  }

  lemma AddNodeAgrees(S: set<MuttThread>, E: set<Email>, c: Ctx, n: MuttThread)
    requires Agrees(S, E, c, null) && WF(c.f) && n !in S && Blank(n)
    requires c.msg.Keys <= S && c.dups <= S && c.fakes <= S
    ensures Agrees(S + {n}, E, c.(f := AddNode(c.f, n)), null)
  {
    hide WF, AddNode, Linked;
    LinkedAdd(S, c.f, n);
  }

  lemma LinkedAdd(S: set<MuttThread>, f: ThreadForest, n: MuttThread)
    requires Linked(S, f, null, {}) && WF(f) && n !in S && Blank(n)
    ensures Linked(S + {n}, AddNode(f, n), null, {})
  {
    hide WF, NextOf, PrevOf;
    AddNodeWF(f, n);
    forall m | m in S { AddNodeLinks(f, n, m); }
  }

  method NewNode(ghost S: set<MuttThread>, ghost E: set<Email>, ghost c: Ctx) returns (n: MuttThread)
    requires Agrees(S, E, c, null) && WF(c.f) && c.msg.Keys <= S && c.dups <= S && c.fakes <= S
    ensures fresh(n) && n !in S && Blank(n) && !n.checkSubject
    ensures Agrees(S + {n}, E, c.(f := AddNode(c.f, n)), null)
  {
    hide *;
    NodesAllocated(S);
    n := new MuttThread();
    IsBlank(n);
    AddNodeAgrees(S, E, c, n);
  }

  lemma NodesAllocated(S: set<MuttThread>)
    ensures forall n :: n in S ==> allocated(n)
  {
  }

  lemma IsBlank(n: MuttThread)
    requires n.parent == null && n.child == null && n.message == null && !n.duplicateThread && !n.fakeThread
    ensures Blank(n)
  {
  }

  // thread->message = e; e->thread = thread
  method SetMessage(n: MuttThread, e: Email, ghost S: set<MuttThread>, ghost E: set<Email>, ghost c: Ctx)
    requires Agrees(S, E, c, null) && n in S && e in E
    modifies n`message, n`checkSubject, e`thread
    ensures Agrees(S, E, c.(msg := c.msg[n := e], thr := c.thr[e := n]), null) && n.checkSubject
  {
    hide Linked, Flags;
    n.message := e;
    n.checkSubject := true;
    e.thread := n;
  }

  // thread->duplicate_thread = true; thread->message->threaded = true
  method SetDuplicate(n: MuttThread, e: Email, ghost S: set<MuttThread>, ghost E: set<Email>, ghost c: Ctx)
    requires Agrees(S, E, c, null) && n in S && e in E
    modifies n`duplicateThread, e`threaded
    ensures Agrees(S, E, c.(dups := c.dups + {n}, done := c.done + {e}), null)
  {
    hide Linked, Messages;
    n.duplicateThread := true;
    e.threaded := true;
  }

  // --- one email of the first half ---

  // The node stored under the email's message-id, if the options let it be looked up.
  function Lookup(hash: map<string, MuttThread>, e: Email, init: bool, dupThreads: bool): (t: Option<MuttThread>)
    ensures t.Some? ==> e.messageId.Some? && e.messageId.value in hash && hash[e.messageId.value] == t.value
  {
    if (!init || dupThreads) && e.messageId.Some? && e.messageId.value in hash then Some(hash[e.messageId.value]) else None
  }

  ghost function Found(c: Ctx, n: MuttThread, e: Email): Ctx {
    c.(msg := c.msg[n := e], thr := c.thr[e := n])
  }

  // The message a node stands for: duplicates are never stacked.
  ghost function Original(c: Ctx, t: MuttThread): MuttThread {
    if t in c.dups && t in c.f.par && c.f.par[t].Some? then c.f.par[t].value else t
  }

  ghost function Duplicate(c: Ctx, n: MuttThread, e: Email, p: MuttThread): Ctx
    requires n in c.f.par && (c.f.par[n].Some? ==> c.f.par[n].value in c.f.kids)
    requires p in c.f.kids && p in c.f.lvl
  {
    var d := Reparent(c, n, p);
    d.(dups := d.dups + {n}, done := d.done + {e})
  }

  // How e is placed: an email that already has a node sheds its pseudo-threads; otherwise it
  // takes over the missing message of its id, becomes a duplicate below the message of its id, or
  // gets a new node that hangs nowhere yet.
  ghost predicate Placed(c0: Ctx, c: Ctx, top: MuttThread, e: Email, found: Option<MuttThread>, dupThreads: bool) {
    if e in c0.thr then Released(c0, c, c0.thr[e], top, [])
    else if found.Some? && found.value !in c0.msg then
      && found.value in c0.f.par
      && (if c0.f.par[found.value].None? then c == Found(c0, found.value, e)
          else Trimmed(Found(c0, found.value, e), c, found.value) && found.value in c.f.par && c.f.par[found.value] == None)
    else
      && e in c.thr && c.thr[e] !in c0.f.par
      && (if dupThreads && found.Some? then IsDuplicate(c0, c, c.thr[e], e, Original(c0, found.value))
          else c == NewMessage(c0, c.thr[e], e))
  }

  ghost predicate IsDuplicate(c0: Ctx, c: Ctx, n: MuttThread, e: Email, p: MuttThread) {
    var c1 := NewMessage(c0, n, e);
    p in c1.f.kids && p in c1.f.lvl && c == Duplicate(c1, n, e, p)
  }

  // The nodes that placing e marks: its own and, if its message was missing, the topmost messages below.
  ghost function NewMarks(c0: Ctx, c: Ctx, e: Email): set<MuttThread> {
    if e in c0.thr || e !in c.thr then {}
    else {c.thr[e]} + if c.thr[e] in c0.f.par then Tops(c0.f, c0.msg, c.thr[e]) else {}
  }

  method PlaceEmail(e: Email, top: MuttThread, dupThreads: bool, init: bool, hash0: map<string, MuttThread>,
    ghost S0: set<MuttThread>, ghost E: set<Email>, ghost c0: Ctx, ghost marked: set<MuttThread>)
    returns (hash: map<string, MuttThread>, ghost S: set<MuttThread>, ghost c: Ctx)
    requires Agrees(S0, E, c0, null) && CtxOK(c0, E, Some(top), None) && hash0 == c0.hash && e in E && Marks(S0, marked)
    modifies S0`parent, S0`child, S0`next, S0`prev, S0`sortThreadKey, S0`sortAuxKey, S0`fakeThread
    modifies S0`message, S0`checkSubject, E`thread, E`threaded
    ensures Agrees(S, E, c, null) && CtxOK(c, E, Some(top), None) && hash == c.hash
    ensures S0 <= S && fresh(S - S0)
    ensures Placed(c0, c, top, e, Lookup(hash0, e, init, dupThreads), dupThreads)
    ensures Marks(S, marked + NewMarks(c0, c, e))
  {
    hide *;
    S, c, hash := S0, c0, hash0;
    ThreadField(S, E, c, top, e);
    var found := Lookup(hash, e, init, dupThreads);
    if e.thread != null {
      c := ReleaseFakeChildren(e.thread, top, S, E, c);
      ShedPlaced(c0, c, top, e, found, dupThreads);
      NoMarks(c0, c, e, marked);
    } else {
      LookupField(S, E, c, top, e, init, dupThreads);
      if found.Some? && found.value.message == null {
        MarksOpen(S, marked);
        c := TakeOver(e, found.value, top, S, E, c);
        TakenPlaced(c0, c, top, e, found, dupThreads);
        TakenMarks(c0, c, e, found.value, S, E, marked);
      } else {
        hash, S, c := PlaceNew(e, found, top, dupThreads, hash, S, E, c, marked);
      }
    }
  }

  lemma NoMarks(c0: Ctx, c: Ctx, e: Email, marked: set<MuttThread>)
    requires e in c0.thr
    ensures marked + NewMarks(c0, c, e) == marked
  {
  }

  lemma MarksOpen(S: set<MuttThread>, marked: set<MuttThread>)
    requires Marks(S, marked)
    ensures marked <= S && forall n :: n in S ==> (n.checkSubject <==> n in marked)
  {
  }

  lemma TakenMarks(c0: Ctx, c: Ctx, e: Email, t: MuttThread, S: set<MuttThread>, E: set<Email>, marked: set<MuttThread>)
    requires Agrees(S, E, c, null) && TakenOver(c0, c, t, e) && e !in c0.thr && marked <= S
    requires forall n :: n in S ==> n.checkSubject == (n in marked || n == t || Topmost(c0.f, c0.msg, t, n))
    ensures Marks(S, marked + NewMarks(c0, c, e))
  {
    hide Topmost, Linked, Messages, Flags, Mails, WF;
    AgreesNodes(S, E, c);
    assert c.thr[e] == t && c.f.par.Keys == c0.f.par.Keys;
  }

  lemma AgreesNodes(S: set<MuttThread>, E: set<Email>, c: Ctx)
    requires Agrees(S, E, c, null)
    ensures S == c.f.par.Keys
  {
  }

  lemma AddedMarks(c0: Ctx, c: Ctx, e: Email, n: MuttThread, S0: set<MuttThread>, marked: set<MuttThread>)
    requires e !in c0.thr && e in c.thr && c.thr[e] == n && n !in c0.f.par && marked <= S0 && n !in S0
    requires (forall m :: m in S0 ==> (m.checkSubject <==> m in marked)) && n.checkSubject
    ensures Marks(S0 + {n}, marked + NewMarks(c0, c, e))
  {
  }

  lemma ThreadField(S: set<MuttThread>, E: set<Email>, c: Ctx, top: MuttThread, e: Email)
    requires Agrees(S, E, c, null) && CtxOK(c, E, Some(top), None) && e in E
    ensures e.thread != null <==> e in c.thr
    ensures e in c.thr ==> e.thread == c.thr[e] && c.thr[e] in S && c.thr[e] in c.msg
  {
    if e in c.thr { assert EmailOK(c, e); }
  }

  lemma LookupField(S: set<MuttThread>, E: set<Email>, c: Ctx, top: MuttThread, e: Email, init: bool, dupThreads: bool)
    requires Agrees(S, E, c, null) && CtxOK(c, E, Some(top), None) && e in E
    ensures var t := Lookup(c.hash, e, init, dupThreads);
            t.Some? ==>
              && t.value in S && t.value != top && (t.value.message == null <==> t.value !in c.msg)
              && Key(e) in c.hash && c.hash[Key(e)] == t.value
  {
    var t := Lookup(c.hash, e, init, dupThreads);
    if t.Some? { assert HashOK(c, Some(top), e.messageId.value); }
  }

  lemma ShedPlaced(c0: Ctx, c: Ctx, top: MuttThread, e: Email, found: Option<MuttThread>, dupThreads: bool)
    requires e in c0.thr && Released(c0, c, c0.thr[e], top, [])
    ensures Placed(c0, c, top, e, found, dupThreads) && c.hash == c0.hash
  {
  }

  // The email e takes over the messageless node t, and drops the parents t got from its children.
  method TakeOver(e: Email, t: MuttThread, top: MuttThread, ghost S: set<MuttThread>, ghost E: set<Email>, ghost c0: Ctx)
    returns (ghost c: Ctx)
    requires Agrees(S, E, c0, null) && CtxOK(c0, E, Some(top), None) && e in E && e !in c0.thr
    requires t in S && t != top && t !in c0.msg && Key(e) in c0.hash && c0.hash[Key(e)] == t
    modifies S`parent, S`child, S`next, S`prev, S`sortThreadKey, S`sortAuxKey, S`fakeThread
    modifies S`message, S`checkSubject, E`thread
    ensures Agrees(S, E, c, null) && CtxOK(c, E, Some(top), None)
    ensures TakenOver(c0, c, t, e)
    ensures forall n :: n in S ==> n.checkSubject == (old(n.checkSubject) || n == t || Topmost(c0.f, c0.msg, t, n))
  {
    hide *;
    c := Found(c0, t, e);
    MarkReady(S, E, c0, top, t);
    SetMessage(t, e, S, E, c0);
    MarkBelow(t, S, c0.f, null, c0.msg);
    FoundHere(S, E, c0, top, t, e);
    if t.parent != null {
      c := DropTrail(t, top, S, E, c);
    }
    FoundEnd(c0, c, t, e);
  }

  lemma MarkReady(S: set<MuttThread>, E: set<Email>, c: Ctx, top: MuttThread, t: MuttThread)
    requires Agrees(S, E, c, null) && CtxOK(c, E, Some(top), None) && t in S && t != top && t !in c.msg
    ensures Linked(S, c.f, null, {}) && Real(c.f, c.msg) && Messages(S - {t}, c.msg) && (t.child != null ==> Attached(c.f, t))
  {
    hide WF, HashOK, EmailOK, Attached;
    Tables(c.f);
    LinkedNodes(S, c.f, null, {});
    FirstKidField(S, c.f, null, t);
    assert NodeOK(c, E, Some(top), None, t);
    forall n | n in c.f.kids && Attached(c.f, n) && n !in c.msg ensures c.f.kids[n] != [] {
      assert NodeOK(c, E, Some(top), None, n);
      if n == top { TopLoose(c, E, top); }
    }
  }

  lemma TopLoose(c: Ctx, E: set<Email>, top: MuttThread)
    requires CtxOK(c, E, Some(top), None)
    ensures !Attached(c.f, top)
  {
    Tables(c.f);
    assert NodeOK(c, E, Some(top), None, top);
  }

  ghost predicate TakenOver(c0: Ctx, c: Ctx, t: MuttThread, e: Email) {
    && t in c0.f.par
    && if c0.f.par[t].None? then c == Found(c0, t, e)
       else Trimmed(Found(c0, t, e), c, t) && t in c.f.par && c.f.par[t] == None
  }

  lemma FoundEnd(c0: Ctx, c: Ctx, t: MuttThread, e: Email)
    requires t in c0.f.par
    requires if c0.f.par[t].None? then c == Found(c0, t, e)
             else Trimmed(Found(c0, t, e), c, t) && t in c.f.par && c.f.par[t] == None
    ensures TakenOver(c0, c, t, e)
  {
  }

  lemma FoundHere(S: set<MuttThread>, E: set<Email>, c: Ctx, top: MuttThread, t: MuttThread, e: Email)
    requires Agrees(S, E, c.(msg := c.msg[t := e], thr := c.thr[e := t]), null) && CtxOK(c, E, Some(top), None)
    requires e in E && e !in c.thr && t in S && t != top && t !in c.msg && Key(e) in c.hash && c.hash[Key(e)] == t
    ensures Agrees(S, E, Found(c, t, e), null) && t in c.f.par
    ensures if t.parent != null then c.f.par[t].Some? && Droppable(Found(c, t, e), E, top, t)
            else c.f.par[t].None? && CtxOK(Found(c, t, e), E, Some(top), None)
  {
    hide WF, HashOK, EmailOK, NodeOK;
    LinkedNodes(S, c.f, null, {});
    ParentField(S, c.f, null, t);
    FoundOK(c, E, Some(top), t, e);
    hide CtxOK;
    FoundBusy(c, E, top, t, e);
  }

  lemma FoundBusy(c: Ctx, E: set<Email>, top: MuttThread, t: MuttThread, e: Email)
    requires CtxOK(Found(c, t, e), E, Some(top), Some(t)) && CtxOK(c, E, Some(top), None) && e !in c.thr && t in c.f.par && t != top
    requires t !in c.msg
    ensures if c.f.par[t].Some? then Droppable(Found(c, t, e), E, top, t) else CtxOK(Found(c, t, e), E, Some(top), None)
  {
    hide WF, HashOK, EmailOK;
    var d := Found(c, t, e);
    Tables(c.f);
    assert NodeOK(c, E, Some(top), None, t) && NodeOK(c, E, Some(top), None, top);
    forall n | n in d.f.kids && c.f.par[t].None? ensures NodeOK(d, E, Some(top), None, n) {
      assert NodeOK(d, E, Some(top), Some(t), n);
    }
  }

  lemma TakenPlaced(c0: Ctx, c: Ctx, top: MuttThread, e: Email, found: Option<MuttThread>, dupThreads: bool)
    requires e !in c0.thr && found.Some? && found.value !in c0.msg && TakenOver(c0, c, found.value, e)
    ensures Placed(c0, c, top, e, found, dupThreads) && c.hash == c0.hash
  {
  }

  // The email e gets a node of its own.
  method PlaceNew(e: Email, found: Option<MuttThread>, top: MuttThread, dupThreads: bool, hash0: map<string, MuttThread>,
    ghost S0: set<MuttThread>, ghost E: set<Email>, ghost c0: Ctx, ghost marked: set<MuttThread>)
    returns (hash: map<string, MuttThread>, ghost S: set<MuttThread>, ghost c: Ctx)
    requires Agrees(S0, E, c0, null) && CtxOK(c0, E, Some(top), None) && hash0 == c0.hash && e in E && e !in c0.thr && Marks(S0, marked)
    requires found.Some? ==> found.value in S0 && found.value in c0.msg && Key(e) in c0.hash && c0.hash[Key(e)] == found.value
    modifies S0`parent, S0`child, S0`next, S0`prev, E`thread, E`threaded
    ensures Agrees(S, E, c, null) && CtxOK(c, E, Some(top), None) && hash == c.hash
    ensures S0 <= S && fresh(S - S0)
    ensures Placed(c0, c, top, e, found, dupThreads)
    ensures Marks(S, marked + NewMarks(c0, c, e))
  {
    hide *;
    PlainCtx(S0, E, c0, top);
    MarksOpen(S0, marked);
    var n := NewNode(S0, E, c0);
    S := S0 + {n};
    SetMessage(n, e, S, E, c0.(f := AddNode(c0.f, n)));
    hash := hash0[Key(e) := n];
    c := NewMessage(c0, n, e);
    NewMessageHere(S0, E, c0, top, n, e, hash);
    if dupThreads && found.Some? {
      c := MakeDuplicate(e, n, found.value, top, S, E, c0, c);
      DuplicatePlaced(c0, c, top, e, found, n);
    } else {
      NewPlaced(c0, c, top, e, found, dupThreads, n);
    }
    NewThr(c0, c, n, e, if dupThreads && found.Some? then Some(Original(c0, found.value)) else None);
    AddedMarks(c0, c, e, n, S0, marked);
  }

  lemma NewThr(c0: Ctx, c: Ctx, n: MuttThread, e: Email, p: Option<MuttThread>)
    requires if p.Some? then IsDuplicate(c0, c, n, e, p.value) else c == NewMessage(c0, n, e)
    ensures e in c.thr && c.thr[e] == n
  {
  }

  // The new node n of e becomes a duplicate of the message at t, or of what that duplicates.
  method MakeDuplicate(e: Email, n: MuttThread, t: MuttThread, top: MuttThread,
    ghost S: set<MuttThread>, ghost E: set<Email>, ghost c0: Ctx, ghost c1: Ctx)
    returns (ghost c: Ctx)
    requires Agrees(S, E, c1, null) && CtxOK(c0, E, Some(top), None) && CtxOK(c1, E, Some(top), None)
    requires c1 == NewMessage(c0, n, e) && n !in c0.f.par && n in S && e in E
    requires t in c0.msg && Key(e) in c0.hash && c0.hash[Key(e)] == t
    modifies S`parent, S`child, S`next, S`prev, n`duplicateThread, e`threaded
    ensures Agrees(S, E, c, null) && CtxOK(c, E, Some(top), None)
    ensures IsDuplicate(c0, c, n, e, Original(c0, t))
  {
    hide *;
    var tnew := t;
    OriginalField(S, E, c0, c1, top, t, n, e);
    if tnew.duplicateThread {
      tnew := tnew.parent;
    }
    DuplicateOK(c0, c1, E, top, tnew, n, e);
    AgreesLoose(S, E, c1, n);
    Attach(tnew, n, S, c1.f, null);
    DuplicateLinked(S, E, c1, n, tnew);
    SetDuplicate(n, e, S, E, Reparent(c1, n, tnew));
    c := Duplicate(c1, n, e, tnew);
    DuplicateHere(S, E, c0, c1, n, e, tnew);
  }

  lemma AgreesLoose(S: set<MuttThread>, E: set<Email>, c: Ctx, n: MuttThread)
    requires Agrees(S, E, c, null)
    ensures S == c.f.par.Keys && Linked(S, c.f, null, {n})
    ensures Messages(S, c.msg) && Flags(S, c.dups, c.fakes) && Mails(E, c.thr, c.done)
  {
  }

  lemma DuplicateHere(S: set<MuttThread>, E: set<Email>, c0: Ctx, c1: Ctx, n: MuttThread, e: Email, p: MuttThread)
    requires c1 == NewMessage(c0, n, e) && n in c1.f.par && c1.f.par[n].None? && p in c1.f.kids && p in c1.f.lvl
    requires var d := Reparent(c1, n, p);
             Agrees(S, E, d.(dups := d.dups + {n}, done := d.done + {e}), null)
    ensures Agrees(S, E, Duplicate(c1, n, e, p), null) && IsDuplicate(c0, Duplicate(c1, n, e, p), n, e, p)
  {
    hide Agrees;
  }

  lemma PlainCtx(S: set<MuttThread>, E: set<Email>, c: Ctx, top: MuttThread)
    requires Agrees(S, E, c, null) && CtxOK(c, E, Some(top), None)
    ensures S == c.f.par.Keys && WF(c.f) && c.msg.Keys <= S && c.dups <= S && c.fakes <= S
  {
  }

  lemma NewMessageHere(S0: set<MuttThread>, E: set<Email>, c0: Ctx, top: MuttThread, n: MuttThread, e: Email,
    hash: map<string, MuttThread>)
    requires CtxOK(c0, E, Some(top), None) && S0 == c0.f.par.Keys && n !in S0 && e in E && e !in c0.thr
    requires hash == c0.hash[Key(e) := n]
    requires var c1 := c0.(f := AddNode(c0.f, n));
             Agrees(S0 + {n}, E, c1.(msg := c1.msg[n := e], thr := c1.thr[e := n]), null)
    ensures Agrees(S0 + {n}, E, NewMessage(c0, n, e), null) && CtxOK(NewMessage(c0, n, e), E, Some(top), None)
    ensures hash == NewMessage(c0, n, e).hash
  {
    hide CtxOK, AddNode;
    NewMessageOK(c0, E, Some(top), n, e);
  }

  // What the duplicate mark and the parent field say about the message found under the same id.
  lemma OriginalField(S: set<MuttThread>, E: set<Email>, c0: Ctx, c: Ctx, top: MuttThread, t: MuttThread, n: MuttThread, e: Email)
    requires Agrees(S, E, c, null) && CtxOK(c0, E, Some(top), None) && c == NewMessage(c0, n, e) && n !in c0.f.par
    requires t in c0.msg && Key(e) in c0.hash && c0.hash[Key(e)] == t
    ensures t in S && (if t.duplicateThread then t.parent != null && t.parent == Original(c0, t) else t == Original(c0, t))
    ensures IsOriginal(c0, Original(c0, t), e)
  {
    hide WF, EmailOK;
    Tables(c0.f);
    assert HashOK(c0, Some(top), Key(e)) && NodeOK(c0, E, Some(top), None, t);
    ParentField(S, c.f, null, t);
  }

  ghost predicate IsOriginal(c: Ctx, p: MuttThread, e: Email) {
    p in c.f.par && p in c.msg && p !in c.dups && Key(c.msg[p]) == Key(e)
  }

  lemma DuplicateOK(c0: Ctx, c: Ctx, E: set<Email>, top: MuttThread, p: MuttThread, n: MuttThread, e: Email)
    requires CtxOK(c0, E, Some(top), None) && c == NewMessage(c0, n, e) && n !in c0.f.par && CtxOK(c, E, Some(top), None)
    requires IsOriginal(c0, p, e)
    ensures WF(c.f) && Dangling(c.f, n) && p in c.f.par && !IsUnder(c.f, p, n)
    ensures n in c.f.par && c.f.par[n].None? && p in c.f.kids && p in c.f.lvl
    ensures CtxOK(Duplicate(c, n, e, p), E, Some(top), None)
  {
    hide NodeOK, HashOK, EmailOK, IsUnder;
    Tables(c.f);
    AddNodeWF(c0.f, n);
    AddNodeUnder(c0.f, n, p, n);
    if IsUnder(c0.f, p, n) { UnderIn(c0.f, p, n); }
    NewNodePlain(c0, c, E, top, n, e);
    hide WF, CtxOK;
    DuplicateCtx(c, E, top, p, n, e);
  }

  lemma NewNodePlain(c0: Ctx, c: Ctx, E: set<Email>, top: MuttThread, n: MuttThread, e: Email)
    requires CtxOK(c0, E, Some(top), None) && c == NewMessage(c0, n, e) && n !in c0.f.par && CtxOK(c, E, Some(top), None)
    ensures n !in c.fakes && n !in c.dups && n != top && n in c.f.kids && c.f.kids[n] == [] && n !in c.f.roots
  {
    hide NodeOK, HashOK, EmailOK;
  }

  lemma DuplicateCtx(c: Ctx, E: set<Email>, top: MuttThread, p: MuttThread, n: MuttThread, e: Email)
    requires CtxOK(c, E, Some(top), None) && e in c.thr && c.thr[e] == n && n in c.msg && c.msg[n] == e
    requires n in c.f.par && c.f.par[n].None? && p in c.f.kids && p in c.f.lvl && p in c.f.par && !IsUnder(c.f, p, n)
    requires n !in c.fakes && n !in c.dups && n != top && n in c.f.kids && c.f.kids[n] == [] && n !in c.f.roots
    requires p in c.msg && p !in c.dups && Key(c.msg[p]) == Key(e)
    ensures CtxOK(Duplicate(c, n, e, p), E, Some(top), None)
  {
    hide NodeOK, HashOK, EmailOK, IsUnder, WF, CtxOK;
    DoneOK(c, E, Some(top), e);
    var c1 := c.(done := c.done + {e});
    ReparentOK(c1, E, Some(top), Some(n), n, p);
    ReparentShape(c1, n, p);
    var d := Reparent(c1, n, p);
    assert p != n by { IsUnderSelf(c.f, n); }
    DupMarkOK(d, E, Some(top), n);
  }

  lemma DuplicateLinked(S: set<MuttThread>, E: set<Email>, c: Ctx, n: MuttThread, p: MuttThread)
    requires n in c.f.par && c.f.par[n].None? && p in c.f.kids && p in c.f.lvl
    requires Linked(S, Insert(c.f, p, n), null, {}) && Messages(S, c.msg) && Flags(S, c.dups, c.fakes) && Mails(E, c.thr, c.done)
    ensures Agrees(S, E, Reparent(c, n, p), null)
  {
  }

  lemma DuplicatePlaced(c0: Ctx, c: Ctx, top: MuttThread, e: Email, found: Option<MuttThread>, n: MuttThread)
    requires e !in c0.thr && found.Some? && found.value in c0.msg && n !in c0.f.par
    requires IsDuplicate(c0, c, n, e, Original(c0, found.value))
    ensures Placed(c0, c, top, e, found, true) && c.hash == c0.hash[Key(e) := n]
  {
  }

  lemma NewPlaced(c0: Ctx, c: Ctx, top: MuttThread, e: Email, found: Option<MuttThread>, dupThreads: bool, n: MuttThread)
    requires e !in c0.thr && (found.Some? ==> found.value in c0.msg && !dupThreads) && c == NewMessage(c0, n, e) && n !in c0.f.par
    ensures Placed(c0, c, top, e, found, dupThreads)
  {
  }
}
