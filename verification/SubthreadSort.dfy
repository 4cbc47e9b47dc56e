// mutt_sort_subthreads on the heap.
module SubthreadSort {
  import opened Wrappers
  import opened Forests
  import opened Mirror
  import opened Threads
  import opened Context
  import opened ThreadTree
  import opened SortThreads
  import opened Linearize
  import opened EmailOrder
  import opened SiblingSort
  import opened SubthreadWalk

  // --- the keys of a node, from those of its children ---

  function NewAux(o: Orders, m: Email?, first: Email, last: Email): Email {
    var best := if (!o.aux.last) != (!o.aux.reverse) then first else last;
    if o.aux.last then
      if m == null || Compare(o.ranks, m, best, o.aux.(reverse := true), false) > 0 then best else m
    else if m == null then best
    else m
  }

  ghost function Have(keys: map<MuttThread, Email?>, ks: seq<MuttThread>): bool {
    forall k :: k in ks ==> k in keys && keys[k] != null
  }

  ghost function MaxFrom(o: Orders, thr: map<MuttThread, Email?>, e: Email, ks: seq<MuttThread>): Email
    requires Have(thr, ks)
  {
    if ks == [] then e
    else
      var k: Email := thr[ks[0]];
      MaxFrom(o, thr, if k != e && Compare(o.ranks, e, k, o.sort.(reverse := true), false) > 0 then k else e, ks[1..])
  }

  ghost function NewThr(o: Orders, m: Email?, auxKey: Email, thr: map<MuttThread, Email?>, ks: seq<MuttThread>): Email
    requires ks != [] && Have(thr, ks)
  {
    if SameMethod(o) then auxKey
    else
      var e: Email := if m != null then m else if o.reverse != (!o.aux.reverse) then thr[ks[|ks| - 1]] else thr[ks[0]];
      if o.sort.last then MaxFrom(o, thr, e, ks) else e
  }

  // In a sorted list the first or the last one ranks highest, and the other one lowest.
  lemma NewAuxRight(o: Orders, m: Email?, aux: map<MuttThread, Email?>, ks: seq<MuttThread>)
    requires ks != [] && Have(aux, ks) && InOrder(o.ranks, aux, Turned(o.aux), false, ks)
    ensures AuxRight(o, m, aux, ks, NewAux(o, m, aux[ks[0]], aux[ks[|ks| - 1]]))
  {
    hide Compare;
    var n := |ks|;
    var first: Email, last: Email := aux[ks[0]], aux[ks[n - 1]];
    var best := if (!o.aux.last) != (!o.aux.reverse) then first else last;
    assert ks[0] in ks && ks[n - 1] in ks;
    forall k | k in ks
      ensures o.aux.reverse ==> o.ranks.of(first, o.aux.key) <= o.ranks.of(aux[k], o.aux.key) <= o.ranks.of(last, o.aux.key)
      ensures !o.aux.reverse ==> o.ranks.of(last, o.aux.key) <= o.ranks.of(aux[k], o.aux.key) <= o.ranks.of(first, o.aux.key)
    {
      var i :| 0 <= i < n && ks[i] == k;
      if i > 0 {
        assert Before(o.ranks, aux, Turned(o.aux), false, ks[0], ks[i]);
        CompareRanks(o.ranks, first, aux[k], Turned(o.aux), false);
      }
      if i < n - 1 {
        assert Before(o.ranks, aux, Turned(o.aux), false, ks[i], ks[n - 1]);
        CompareRanks(o.ranks, aux[k], last, Turned(o.aux), false);
      }
    }
    if m != null { Reversed(o.ranks, m, best, o.aux); }
    assert Among(aux, ks, best);
  }

  lemma Reversed(r: Ranks, a: Email, b: Email, sort: SortType)
    ensures if Compare(r, a, b, sort.(reverse := true), false) > 0 then r.of(a, sort.key) <= r.of(b, sort.key)
            else r.of(b, sort.key) <= r.of(a, sort.key)
  {
  }

  lemma {:induction false} MaxFromRight(o: Orders, thr: map<MuttThread, Email?>, e: Email, ks: seq<MuttThread>)
    requires Have(thr, ks)
    ensures var g := MaxFrom(o, thr, e, ks);
      (g == e || Among(thr, ks, g)) && o.ranks.of(e, o.sort.key) <= o.ranks.of(g, o.sort.key) && Tops(o.ranks, o.sort.key, thr, ks, g)
  {
    if ks != [] {
      hide Compare;
      var k: Email := thr[ks[0]];
      Reversed(o.ranks, e, k, o.sort);
      MaxFromRight(o, thr, if k != e && Compare(o.ranks, e, k, o.sort.(reverse := true), false) > 0 then k else e, ks[1..]);
      assert forall n :: n in ks ==> n == ks[0] || n in ks[1..];
    }
  }

  lemma NewThrRight(o: Orders, m: Email?, auxKey: Email, thr: map<MuttThread, Email?>, ks: seq<MuttThread>)
    requires ks != [] && Have(thr, ks)
    ensures ThrRight(o, m, auxKey, thr, ks, NewThr(o, m, auxKey, thr, ks))
  {
    hide MaxFrom;
    var e: Email := if m != null then m else if o.reverse != (!o.aux.reverse) then thr[ks[|ks| - 1]] else thr[ks[0]];
    assert ks[0] in ks && ks[|ks| - 1] in ks;
    assert m == null ==> Among(thr, ks, e);
    MaxFromRight(o, thr, e, ks);
  }

  // --- the heap ---

  ghost predicate InHeap(S: set<MuttThread>, msg: map<MuttThread, Email>, w: Walk, head: MuttThread?)
    reads S`parent, S`child, S`next, S`prev, S`message, S`sortAuxKey, S`sortThreadKey
  {
    Linked(S, w.f, head, {}) && Messages(S, msg) && KeysAre(S, w.aux, w.thr)
  }

  ghost predicate KeysAre(S: set<MuttThread>, aux: map<MuttThread, Email?>, thr: map<MuttThread, Email?>)
    reads S`sortAuxKey, S`sortThreadKey
  {
    aux.Keys == S && thr.Keys == S && forall n :: n in S ==> n.sortAuxKey == aux[n] && n.sortThreadKey == thr[n]
  }

  lemma HeapOpen(S: set<MuttThread>, msg: map<MuttThread, Email>, w: Walk, head: MuttThread?)
    requires InHeap(S, msg, w, head)
    ensures Linked(S, w.f, head, {}) && Messages(S, msg) && w.aux.Keys == S && w.thr.Keys == S
    ensures forall n :: n in S ==> n.sortAuxKey == w.aux[n] && n.sortThreadKey == w.thr[n]
  {
  }

  lemma HeapClose(S: set<MuttThread>, msg: map<MuttThread, Email>, w: Walk, v: Walk, head: MuttThread?, n: MuttThread)
    requires Linked(S, v.f, head, {}) && Messages(S, msg) && w.aux.Keys == S && w.thr.Keys == S && n in S
    requires forall k :: k in S && k != n ==> k.sortAuxKey == w.aux[k] && k.sortThreadKey == w.thr[k]
    requires v.aux == w.aux[n := n.sortAuxKey] && v.thr == w.thr[n := n.sortThreadKey]
    ensures InHeap(S, msg, v, head)
  {
  }

  // In a full run the list of every node entered is marked to be sorted.
  ghost predicate Flagged(S: set<MuttThread>, init: bool, w: Walk, sortTop: bool)
    reads S`sortChildren
  {
    init ==> forall n :: n in w.ent && n in w.f.par ==> FlaggedAt(S, w, sortTop, n)
  }

  ghost predicate FlaggedAt(S: set<MuttThread>, w: Walk, sortTop: bool, n: MuttThread)
    requires n in w.f.par
    reads S`sortChildren
  {
    match w.f.par[n]
    case None => sortTop
    case Some(p) => p in w.done || (p in S && p.sortChildren)
  }

  lemma HeapFacts(S: set<MuttThread>, msg: map<MuttThread, Email>, w: Walk, head: MuttThread?, n: MuttThread)
    requires InHeap(S, msg, w, head) && WF(w.f) && n in S
    ensures S == w.f.par.Keys && n in w.aux && n in w.thr && n in w.f.kids && n.message == MsgOf(msg, n)
    ensures n.sortAuxKey == w.aux[n] && n.sortThreadKey == w.thr[n]
    ensures if n.parent == null then w.f.par[n] == None else w.f.par[n] == Some(n.parent) && n.parent in S && n.parent != n
    ensures if n.child == null then ListOf(w.f, Some(n)) == [] else ListOf(w.f, Some(n)) != [] && ListOf(w.f, Some(n))[0] == n.child
    ensures n.child != null ==> n.child in S && n.child != n
    ensures Attached(w.f, n) ==> if n.next == null then NextOf(w.f, n).None? else NextOf(w.f, n) == Some(n.next) && n.next in S
  {
    assert NodeLinked(w.f, n);
    Tables(w.f);
    KidsApart(w.f, n);
    if Attached(w.f, n) {
      AttachedInSibs(w.f, n);
      OrderIn(Sibs(w.f, n), n);
    }
  }

  lemma HereFacts(w: Walk, n: MuttThread)
    requires Here(w, n)
    ensures Attached(w.f, n) && n in w.f.par && (w.f.par[n].Some? ==> w.f.par[n].value in w.ent && w.f.par[n].value !in w.done)
  {
  }

  // Both keys of a node are set.
  method SetKeys(thread: MuttThread, a: Email?, t: Email?, ghost msg: map<MuttThread, Email>,
    ghost S: set<MuttThread>, ghost head: MuttThread?, ghost w: Walk, ghost v: Walk)
    requires InHeap(S, msg, w, head) && thread in S
    requires v.f == w.f && v.aux == w.aux[thread := a] && v.thr == w.thr[thread := t]
    modifies thread`sortThreadKey, thread`sortAuxKey
    ensures InHeap(S, msg, v, head)
  {
    hide *;
    HeapOpen(S, msg, w, head);
    thread.sortThreadKey := t;
    thread.sortAuxKey := a;
    HeapClose(S, msg, w, v, head, thread);
  }

  lemma HeapSame(S: set<MuttThread>, msg: map<MuttThread, Email>, w: Walk, head: MuttThread?, n: MuttThread)
    requires InHeap(S, msg, w, head) && n in S
    ensures var v := Entered(w, n, n.sortAuxKey, n.sortThreadKey);
      n in v.aux && n in v.thr && v == Entered(w, n, v.aux[n], v.thr[n]) && InHeap(S, msg, v, head) && v.f == w.f
  {
  }

  // The marks of a list hold the marks of the nodes in it.
  lemma FlaggedGrows(S: set<MuttThread>, init: bool, w: Walk, v: Walk, sortTop: bool, n: MuttThread)
    requires v.f.par == w.f.par && w.done <= v.done && v.ent <= w.ent + {n}
    requires init && n !in w.ent && n in w.f.par ==> FlaggedAt(S, v, sortTop, n)
    requires Flagged(S, init, w, sortTop)
    ensures Flagged(S, init, v, sortTop)
  {
  }

  // Setting a mark takes none away.
  method Mark(parent: MuttThread?, sortTop0: bool, init: bool, ghost S: set<MuttThread>, ghost w: Walk) returns (sortTop: bool)
    requires Flagged(S, init, w, sortTop0) && (parent != null ==> parent in S)
    modifies S`sortChildren
    ensures Flagged(S, init, w, sortTop) && (sortTop0 ==> sortTop)
    ensures if parent == null then sortTop else parent.sortChildren && sortTop == sortTop0
  {
    sortTop := sortTop0;
    if parent != null {
      parent.sortChildren := true;
    } else {
      sortTop := true;
    }
    assert init ==> forall n :: n in w.ent && n in w.f.par ==> old(FlaggedAt(S, w, sortTop0, n)) ==> FlaggedAt(S, w, sortTop, n);
  }

  lemma WalkIn(o: Orders, init: bool, msg: map<MuttThread, Email>, f0: ThreadForest, w: Walk)
    requires MidWalk(o, init, msg, f0, w)
    ensures WF(w.f) && w.done <= w.ent
  {
  }

  // The start of the outer loop.
  method Enter(thread: MuttThread, init: bool, sortTop0: bool, ghost o: Orders, ghost f0: ThreadForest, ghost msg: map<MuttThread, Email>,
    ghost S: set<MuttThread>, ghost head: MuttThread?, ghost w: Walk) returns (sortTop: bool, ghost v: Walk)
    requires MidWalk(o, init, msg, f0, w) && Here(w, thread) && thread in S && thread !in w.ent
    requires InHeap(S, msg, w, head) && Flagged(S, init, w, sortTop0)
    modifies S`sortThreadKey, S`sortAuxKey, S`sortChildren
    ensures v.f == w.f && v.ent == w.ent + {thread} && v.done == w.done && thread !in w.done
    ensures MidWalk(o, init, msg, f0, v) && Here(v, thread) && forall k :: k in ListOf(w.f, Some(thread)) ==> k !in v.ent
    ensures InHeap(S, msg, v, head) && Flagged(S, init, v, sortTop)
  {
    hide *;
    WalkIn(o, init, msg, f0, w);
    HeapFacts(S, msg, w, head, thread);
    sortTop, v := EnterKeys(thread, init, sortTop0, msg, S, head, w);
    EnteredIs(w, thread, v.aux[thread], v.thr[thread]);
    EnterOK(o, init, msg, f0, w, thread, v.aux[thread], v.thr[thread]);
  }

  // The keys and marks on entering.
  method EnterKeys(thread: MuttThread, init: bool, sortTop0: bool, ghost msg: map<MuttThread, Email>,
    ghost S: set<MuttThread>, ghost head: MuttThread?, ghost w: Walk) returns (sortTop: bool, ghost v: Walk)
    requires WF(w.f) && InHeap(S, msg, w, head) && Flagged(S, init, w, sortTop0) && thread in S && thread in w.f.par
    modifies S`sortThreadKey, S`sortAuxKey, S`sortChildren
    ensures thread in v.aux && thread in v.thr && v == Entered(w, thread, v.aux[thread], v.thr[thread])
    ensures InHeap(S, msg, v, head) && Flagged(S, init, v, sortTop)
  {
    hide *;
    HeapFacts(S, msg, w, head, thread);
    sortTop := sortTop0;
    if init || thread.sortThreadKey == null || thread.sortAuxKey == null {
      v := ClearKeys(thread, msg, S, head, w);
      sortTop := Mark(thread.parent, sortTop, init, S, w);
      if init { FlaggedHere(S, v, sortTop, thread); }
    } else {
      v := Entered(w, thread, thread.sortAuxKey, thread.sortThreadKey);
      HeapSame(S, msg, w, head, thread);
    }
    EnteredIs(w, thread, v.aux[thread], v.thr[thread]);
    FlaggedGrows(S, init, w, v, sortTop, thread);
  }

  method ClearKeys(thread: MuttThread, ghost msg: map<MuttThread, Email>, ghost S: set<MuttThread>, ghost head: MuttThread?, ghost w: Walk)
    returns (ghost v: Walk)
    requires InHeap(S, msg, w, head) && thread in S
    modifies thread`sortThreadKey, thread`sortAuxKey
    ensures thread in v.aux && thread in v.thr && v == Entered(w, thread, v.aux[thread], v.thr[thread]) && InHeap(S, msg, v, head)
    ensures v.f == w.f
  {
    hide *;
    v := Entered(w, thread, null, null);
    EnteredIs(w, thread, null, null);
    SetKeys(thread, null, null, msg, S, head, w, v);
  }

  lemma FlaggedHere(S: set<MuttThread>, w: Walk, sortTop: bool, n: MuttThread)
    requires n in w.f.par && (if n.parent == null then w.f.par[n] == None else w.f.par[n] == Some(n.parent) && n.parent in S)
    requires if n.parent == null then sortTop else n.parent.sortChildren
    ensures FlaggedAt(S, w, sortTop, n)
  {
  }

  // A node without children: it must be real, and is sorted on its own merits.
  method Leaf(thread: MuttThread, ghost init: bool, ghost sortTop: bool, ghost o: Orders, ghost f0: ThreadForest, ghost msg: map<MuttThread, Email>,
    ghost S: set<MuttThread>, ghost head: MuttThread?, ghost w: Walk) returns (ghost v: Walk)
    requires MidWalk(o, init, msg, f0, w) && thread in S && thread in w.ent && thread !in w.done && ListOf(w.f, Some(thread)) == [] && thread.message != null
    requires InHeap(S, msg, w, head) && Flagged(S, init, w, sortTop)
    modifies S`sortThreadKey, S`sortAuxKey
    ensures v.f == w.f && v.ent == w.ent && v.done == w.done + {thread} && MidWalk(o, init, msg, f0, v) && Here(v, thread)
    ensures InHeap(S, msg, v, head) && Flagged(S, init, v, sortTop)
  {
    hide *;
    WalkWF(o, init, msg, f0, w);
    HeapFacts(S, msg, w, head, thread);
    v := Finished(w, thread, thread.message, thread.message);
    FinishedIs(w, thread, thread.message, thread.message);
    SetKeys(thread, thread.message, thread.message, msg, S, head, w, v);
    LeafKeyed(o, init, msg, w, thread, thread.message);
    FinishOK(o, init, msg, f0, w, thread, thread.message, thread.message);
    FlaggedGrows(S, init, w, v, sortTop, thread);
  }

  lemma LeafKeyed(o: Orders, init: bool, msg: map<MuttThread, Email>, w: Walk, n: MuttThread, m: Email)
    requires ListOf(w.f, Some(n)) == [] && m == MsgOf(msg, n)
    ensures KeysRight(o, init, msg, w.f, w.aux[n := m], w.thr[n := m], n)
  {
  }

  // --- a list of siblings that is finished ---

  // In the list of a finished last sibling everybody has keys and the same parent.
  lemma ListReady(o: Orders, init: bool, msg: map<MuttThread, Email>, f0: ThreadForest, w: Walk, S: set<MuttThread>, head: MuttThread?, last: MuttThread)
    requires MidWalk(o, init, msg, f0, w) && InHeap(S, msg, w, head) && last in S && last in w.done && Here(w, last) && NextOf(w.f, last).None?
    ensures var l := Sibs(w.f, last);
      && ListOf(w.f, w.f.par[last]) == l && |l| > 0 && l[|l| - 1] == last && (forall x :: x in l ==> x in w.done)
      && ComparedBy(Rev(l), last.parent, KeysBy(w, last.parent))
      && w.f.par[last] == ToOption(last.parent) && (last.parent != null ==> last.parent in S && last.parent in w.f.kids)
      && (last.prev == null ==> |l| == 1)
    ensures w.f.par[last].Some? ==> var p := w.f.par[last].value; p in w.ent && p !in w.done
  {
    hide Later, Here, MidWalk, Lvl, NoDup, Attached, InHeap, Linked, WF, Rev, PrevIn, NextOf, ComparedBy;
    LastOK(o, init, msg, f0, w, last);
    HereFacts(w, last);
    WalkWF(o, init, msg, f0, w);
    HeapFacts(S, msg, w, head, last);
    HeapOpen(S, msg, w, head);
    var l := Sibs(w.f, last);
    PrevLink(S, w.f, head, last, l, |l| - 1);
    ListCompared(o, init, msg, f0, w, S, head, last, l);
  }

  lemma ListCompared(o: Orders, init: bool, msg: map<MuttThread, Email>, f0: ThreadForest, w: Walk, S: set<MuttThread>, head: MuttThread?,
    last: MuttThread, l: seq<MuttThread>)
    requires MidWalk(o, init, msg, f0, w) && InHeap(S, msg, w, head) && last in S && Attached(w.f, last) && l == Sibs(w.f, last)
    requires forall x :: x in l ==> x in w.done
    ensures ComparedBy(Rev(l), last.parent, KeysBy(w, last.parent))
  {
    hide *;
    RevComparedBy(S, w, l, last.parent);
    WalkWF(o, init, msg, f0, w);
    AttachedSibs(w.f, last);
    HeapOpen(S, msg, w, head);
    HeapFacts(S, msg, w, head, last);
    forall n | n in l
      ensures n in S && n.parent == last.parent && n.sortAuxKey != null && n.sortThreadKey != null && n.sortAuxKey == w.aux[n] && n.sortThreadKey == w.thr[n]
    {
      DoneKeys(o, init, msg, f0, w, n);
      HeapFacts(S, msg, w, head, n);
    }
  }

  lemma RevComparedBy(S: set<MuttThread>, w: Walk, l: seq<MuttThread>, parent: MuttThread?)
    ensures (forall n :: n in l ==> n in w.aux && n in w.thr && n.parent == parent && n.sortAuxKey != null && n.sortThreadKey != null
                                    && n.sortAuxKey == w.aux[n] && n.sortThreadKey == w.thr[n]) ==> ComparedBy(Rev(l), parent, KeysBy(w, parent))
  {
  }

  lemma DoneKeys(o: Orders, init: bool, msg: map<MuttThread, Email>, f0: ThreadForest, w: Walk, n: MuttThread)
    requires MidWalk(o, init, msg, f0, w) && n in w.done
    ensures n in w.aux && n in w.thr && w.aux[n] != null && w.thr[n] != null
  {
    hide MidWalk;
    AtDone(o, init, msg, f0, w, n);
  }

  // The middle of the inner loop: if the list has to be sorted, it is.
  method SortList(last: MuttThread, head: MuttThread?, sortTop: bool, ghost init: bool, o: Orders, ghost f0: ThreadForest,
    ghost msg: map<MuttThread, Email>, ghost S: set<MuttThread>, ghost w: Walk) returns (thread: MuttThread, top: MuttThread?, ghost v: Walk)
    requires MidWalk(o, init, msg, f0, w) && last in S && last in w.done && Here(w, last) && NextOf(w.f, last).None?
    requires InHeap(S, msg, w, head) && Flagged(S, init, w, sortTop)
    modifies S`child, S`next, S`prev
    ensures MidWalk(o, init, msg, f0, v) && thread in S && thread in v.done && Here(v, thread) && NextOf(v.f, thread).None?
    ensures v.ent == w.ent && v.done == w.done && v.f.par == w.f.par && v.f.lvl == w.f.lvl && thread in w.f.par && v.f.par[thread] == w.f.par[last]
    ensures InHeap(S, msg, v, top) && Flagged(S, init, v, sortTop)
    ensures init ==> ListSorted(o, v.f, v.aux, v.thr, v.f.par[thread])
  {
    hide *;
    WalkWF(o, init, msg, f0, w);
    HereFacts(w, last);
    ListReady(o, init, msg, f0, w, S, head, last);
    thread, top, v := last, head, w;
    if last.prev != null && (if last.parent != null then last.parent.sortChildren else sortTop) {
      thread, top, v := Sorted(last, head, init, o, f0, msg, S, w);
      FlaggedGrows(S, init, w, v, sortTop, thread);
    } else {
      if init { OneSorted(S, o, msg, w, head, sortTop, last); }
    }
  }

  lemma OneSorted(S: set<MuttThread>, o: Orders, msg: map<MuttThread, Email>, w: Walk, head: MuttThread?, sortTop: bool, last: MuttThread)
    requires InHeap(S, msg, w, head) && WF(w.f) && Flagged(S, true, w, sortTop) && last in S && last in w.ent
    requires ListOf(w.f, w.f.par[last]) == Sibs(w.f, last) && (w.f.par[last].Some? ==> w.f.par[last].value !in w.done)
    requires last.prev == null ==> |Sibs(w.f, last)| == 1
    requires last.prev == null || !(if last.parent != null then last.parent.sortChildren else sortTop)
    ensures ListSorted(o, w.f, w.aux, w.thr, w.f.par[last])
  {
    HeapFacts(S, msg, w, head, last);
    assert FlaggedAt(S, w, sortTop, last);
    assert |ListOf(w.f, w.f.par[last])| == 1;
  }

  // Collected, sorted, and attached back together.
  method Sorted(last: MuttThread, head: MuttThread?, ghost init: bool, o: Orders, ghost f0: ThreadForest,
    ghost msg: map<MuttThread, Email>, ghost S: set<MuttThread>, ghost w: Walk) returns (thread: MuttThread, top: MuttThread?, ghost v: Walk)
    requires MidWalk(o, init, msg, f0, w) && last in S && last in w.done && Here(w, last) && NextOf(w.f, last).None?
    requires InHeap(S, msg, w, head)
    modifies S`child, S`next, S`prev
    ensures MidWalk(o, init, msg, f0, v) && thread in S && thread in v.done && Here(v, thread) && NextOf(v.f, thread).None?
    ensures v.ent == w.ent && v.done == w.done && v.f.par == w.f.par && v.f.lvl == w.f.lvl && thread in w.f.par && v.f.par[thread] == w.f.par[last]
    ensures InHeap(S, msg, v, top)
    ensures ListSorted(o, v.f, v.aux, v.thr, v.f.par[thread])
  {
    hide *;
    SortReady(o, init, msg, f0, w, S, head, last);
    ghost var l, keys := Sibs(w.f, last), KeysBy(w, last.parent);
    var parent := last.parent;
    var arr := CollectAndSort(last, o, S, w.f, head, l, keys);
    RelistedWalk(o, init, msg, f0, w, ToOption(parent), arr);
    NowSorted(o, w, parent, arr);
    v := Relisted(w, ToOption(parent), Rev(arr));
    thread := arr[0];
    top := RelistHeap(arr, parent, head, msg, S, w);
  }

  lemma SortReady(o: Orders, init: bool, msg: map<MuttThread, Email>, f0: ThreadForest, w: Walk, S: set<MuttThread>, head: MuttThread?, last: MuttThread)
    requires MidWalk(o, init, msg, f0, w) && InHeap(S, msg, w, head) && last in S && last in w.done && Here(w, last) && NextOf(w.f, last).None?
    ensures var l := Sibs(w.f, last);
      && ListOf(w.f, ToOption(last.parent)) == l && |l| > 0 && l[|l| - 1] == last && (forall x :: x in l ==> x in w.done)
      && ComparedBy(Rev(l), last.parent, KeysBy(w, last.parent))
      && w.f.par[last] == ToOption(last.parent) && (last.parent != null ==> last.parent in S && last.parent in w.f.kids)
      && (ToOption(last.parent).Some? ==> ToOption(last.parent).value in w.f.kids && ToOption(last.parent).value in w.ent && ToOption(last.parent).value !in w.done)
      && S == w.f.par.Keys && WF(w.f) && Linked(S, w.f, head, {}) && Attached(w.f, last)
  {
    hide *;
    WalkWF(o, init, msg, f0, w);
    HereFacts(w, last);
    HeapOpen(S, msg, w, head);
    HeapFacts(S, msg, w, head, last);
    ListReady(o, init, msg, f0, w, S, head, last);
  }

  method RelistHeap(arr: seq<MuttThread>, parent: MuttThread?, head: MuttThread?, ghost msg: map<MuttThread, Email>,
    ghost S: set<MuttThread>, ghost w: Walk) returns (top: MuttThread?)
    requires InHeap(S, msg, w, head) && WF(w.f) && arr != [] && (parent != null ==> parent in S)
    requires multiset(arr) == multiset(ListOf(w.f, ToOption(parent)))
    modifies S`child, S`next, S`prev
    ensures InHeap(S, msg, Relisted(w, ToOption(parent), Rev(arr)), top)
  {
    hide *;
    HeapOpen(S, msg, w, head);
    Relist(arr, parent, S, w.f, head);
    top := if parent == null then arr[|arr| - 1] else head;
    HeapRelisted(S, msg, w, ToOption(parent), Rev(arr), top);
  }

  ghost function KeysBy(w: Walk, parent: MuttThread?): map<MuttThread, Email?> {
    if parent != null then w.aux else w.thr
  }

  method CollectAndSort(last: MuttThread, o: Orders, ghost S: set<MuttThread>, ghost f: ThreadForest, ghost head: MuttThread?,
    ghost l: seq<MuttThread>, ghost keys: map<MuttThread, Email?>) returns (arr: seq<MuttThread>)
    requires WF(f) && Linked(S, f, head, {}) && Attached(f, last) && l == Sibs(f, last) && |l| > 0 && l[|l| - 1] == last
    requires ComparedBy(Rev(l), last.parent, keys)
    ensures multiset(arr) == multiset(l) && arr != []
    ensures InOrder(o.ranks, keys, if last.parent != null then o.aux else o.sort, true, arr)
  {
    hide *;
    arr := Collect(last, S, f, head, l);
    assert arr == Rev(l);
    RevCount(l);
    arr := SortArray(arr, o, last.parent, keys);
    SameSize(arr, l);
  }

  ghost function Relisted(w: Walk, p: Option<MuttThread>, l: seq<MuttThread>): Walk {
    w.(f := WithList(w.f, p, l))
  }

  lemma SameSize<T>(a: seq<T>, b: seq<T>)
    requires multiset(a) == multiset(b)
    ensures |a| == |b|
  {
    assert |multiset(a)| == |a| && |multiset(b)| == |b|;
  }

  lemma RelistedWalk(o: Orders, init: bool, msg: map<MuttThread, Email>, f0: ThreadForest, w: Walk, p: Option<MuttThread>, arr: seq<MuttThread>)
    requires MidWalk(o, init, msg, f0, w) && multiset(arr) == multiset(ListOf(w.f, p)) && arr != []
    requires p.Some? ==> p.value in w.f.kids && p.value in w.ent && p.value !in w.done
    requires forall x :: x in ListOf(w.f, p) ==> x in w.done
    ensures var v, t := Relisted(w, p, Rev(arr)), arr[0];
      && MidWalk(o, init, msg, f0, v) && Here(v, t) && t in v.done && t in w.f.par && NextOf(v.f, t).None? && v.f.par[t] == p
      && v.ent == w.ent && v.done == w.done && v.f.par == w.f.par && v.f.lvl == w.f.lvl
  {
    hide MidWalk, Here, NextOf, ListOf;
    RevCount(arr);
    var l := Rev(arr);
    assert l[|l| - 1] == arr[0];
    RelistOK(o, init, msg, f0, w, p, l);
    WalkWF(o, init, msg, f0, Relisted(w, p, l));
  }

  lemma HeapRelisted(S: set<MuttThread>, msg: map<MuttThread, Email>, w: Walk, p: Option<MuttThread>, l: seq<MuttThread>, top: MuttThread?)
    requires Linked(S, WithList(w.f, p, l), top, {}) && Messages(S, msg) && w.aux.Keys == S && w.thr.Keys == S
    requires forall n :: n in S ==> n.sortAuxKey == w.aux[n] && n.sortThreadKey == w.thr[n]
    ensures InHeap(S, msg, Relisted(w, p, l), top)
  {
  }

  lemma NowSorted(o: Orders, w: Walk, parent: MuttThread?, arr: seq<MuttThread>)
    requires InOrder(o.ranks, KeysBy(w, parent), if parent != null then o.aux else o.sort, true, arr)
    requires parent != null ==> parent in w.f.kids
    ensures var v := Relisted(w, ToOption(parent), Rev(arr)); ListSorted(o, v.f, v.aux, v.thr, ToOption(parent))
  {
    TurnedRound(o.ranks, KeysBy(w, parent), if parent != null then o.aux else o.sort, arr);
  }

  // --- the parent of a finished list ---

  // sort_aux_key will be that of the first or the last child.
  method UpdateAuxKey(thread: MuttThread, tmp: MuttThread, o: Orders)
    requires thread.child != null && thread.child != thread && tmp != thread && thread.child.sortAuxKey != null && tmp.sortAuxKey != null
    modifies thread`sortAuxKey
    ensures thread.sortAuxKey == NewAux(o, thread.message, thread.child.sortAuxKey, tmp.sortAuxKey)
  {
    thread.sortAuxKey := thread.message;
    var sortAuxKey := if (!o.aux.last) != (!o.aux.reverse) then thread.child.sortAuxKey else tmp.sortAuxKey;
    if o.aux.last {
      if thread.sortAuxKey == null || Compare(o.ranks, thread.sortAuxKey, sortAuxKey, o.aux.(reverse := true), false) > 0 {
        thread.sortAuxKey := sortAuxKey;
      }
    } else if thread.sortAuxKey == null {
      thread.sortAuxKey := sortAuxKey;
    }
  }

  // The children of a node whose list is finished, as the links and keys show them.
  ghost predicate KidsShown(thread: MuttThread, tmp: MuttThread, thr: map<MuttThread, Email?>, ks: seq<MuttThread>)
    reads thread`child, ks`next, ks`sortThreadKey
  {
    && ks != [] && thread.child == ks[0] && tmp == ks[|ks| - 1] && thread !in ks
    && (forall i :: 0 <= i < |ks| ==> ShownAt(thr, ks, i))
  }

  ghost predicate ShownAt(thr: map<MuttThread, Email?>, ks: seq<MuttThread>, i: nat)
    requires i < |ks|
    reads ks`next, ks`sortThreadKey
  {
    && ks[i].next == (if i + 1 < |ks| then ks[i + 1] else null)
    && ks[i] in thr && thr[ks[i]] != null && ks[i].sortThreadKey == thr[ks[i]]
  }

  lemma ShownHave(thread: MuttThread, tmp: MuttThread, thr: map<MuttThread, Email?>, ks: seq<MuttThread>)
    requires KidsShown(thread, tmp, thr, ks)
    ensures Have(thr, ks) && thread !in ks
  {
    forall k | k in ks ensures k in thr && thr[k] != null {
      var i :| 0 <= i < |ks| && ks[i] == k;
      assert ShownAt(thr, ks, i);
    }
  }

  // sort_thread_key may need a search through all children.
  method UpdateThreadKey(thread: MuttThread, tmp0: MuttThread, o: Orders, ghost thr: map<MuttThread, Email?>, ghost ks: seq<MuttThread>)
    requires KidsShown(thread, tmp0, thr, ks) && thread.sortAuxKey != null
    modifies thread`sortThreadKey
    ensures Have(thr, ks) && thread.sortThreadKey == NewThr(o, thread.message, thread.sortAuxKey, thr, ks)
  {
    hide Compare;
    ShownHave(thread, tmp0, thr, ks);
    assert ShownAt(thr, ks, 0) && ShownAt(thr, ks, |ks| - 1);
    if SameMethod(o) {
      thread.sortThreadKey := thread.sortAuxKey;
    } else {
      if thread.message != null {
        thread.sortThreadKey := thread.message;
      } else if o.reverse != (!o.aux.reverse) {
        thread.sortThreadKey := tmp0.sortThreadKey;
      } else {
        thread.sortThreadKey := thread.child.sortThreadKey;
      }
      if o.sort.last {
        var tmp := thread.child;
        ghost var i, e: Email := 0, thread.sortThreadKey;
        while tmp != null
          invariant 0 <= i <= |ks| && tmp == (if i < |ks| then ks[i] else null)
          invariant KidsShown(thread, tmp0, thr, ks)
          invariant thread.sortThreadKey != null && Have(thr, ks[i..])
          invariant MaxFrom(o, thr, thread.sortThreadKey, ks[i..]) == MaxFrom(o, thr, e, ks)
          decreases |ks| - i
        {
          assert ShownAt(thr, ks, i) && ks[i..][1..] == ks[i + 1..];
          if tmp.sortThreadKey != thread.sortThreadKey &&
             Compare(o.ranks, thread.sortThreadKey, tmp.sortThreadKey, o.sort.(reverse := true), false) > 0 {
            thread.sortThreadKey := tmp.sortThreadKey;
          }
          tmp := tmp.next;
          i := i + 1;
        }
      }
    }
  }

  // Where a finished list stands below its parent.
  lemma ParentReady(o: Orders, init: bool, msg: map<MuttThread, Email>, f0: ThreadForest, w: Walk, S: set<MuttThread>, head: MuttThread?, tmp: MuttThread)
    requires MidWalk(o, init, msg, f0, w) && InHeap(S, msg, w, head) && tmp in S && tmp in w.done && Here(w, tmp) && NextOf(w.f, tmp).None?
    requires tmp.parent != null
    ensures var p, ks := tmp.parent, ListOf(w.f, w.f.par[tmp]);
      && w.f.par[tmp] == Some(p) && p in S && p in w.ent && p !in w.done && p != tmp && Here(w, p) && Lvl(w.f, p) < Lvl(w.f, tmp)
      && (forall k :: k in ks ==> k in w.done) && KidsShown(p, tmp, w.thr, ks)
      && p.child in w.aux && p.child.sortAuxKey == w.aux[p.child] && tmp in w.aux && tmp.sortAuxKey == w.aux[tmp] && p.message == MsgOf(msg, p)
      && p.child != p && p.child.sortAuxKey != null && tmp.sortAuxKey != null && Have(w.aux, ks) && ks[0] == p.child && ks[|ks| - 1] == tmp
  {
    hide MidWalk, Here, Attached, InHeap, Linked, WF, NextOf, KidsShown, Have;
    WalkWF(o, init, msg, f0, w);
    HereFacts(w, tmp);
    HeapOpen(S, msg, w, head);
    HeapFacts(S, msg, w, head, tmp);
    LastOK(o, init, msg, f0, w, tmp);
    var p: MuttThread := tmp.parent;
    HeapFacts(S, msg, w, head, p);
    DoneKeys(o, init, msg, f0, w, tmp);
    KidsAreShown(o, init, msg, f0, w, S, head, p, tmp);
  }

  lemma KidsAreShown(o: Orders, init: bool, msg: map<MuttThread, Email>, f0: ThreadForest, w: Walk, S: set<MuttThread>, head: MuttThread?,
    p: MuttThread, tmp: MuttThread)
    requires MidWalk(o, init, msg, f0, w) && InHeap(S, msg, w, head) && p in S
    requires var ks := ListOf(w.f, Some(p)); ks != [] && ks[|ks| - 1] == tmp && forall k :: k in ks ==> k in w.done
    ensures KidsShown(p, tmp, w.thr, ListOf(w.f, Some(p))) && Have(w.aux, ListOf(w.f, Some(p))) && p.child in S && p.child in w.done
    ensures p.child.sortAuxKey != null
  {
    hide MidWalk, Here, Attached, InHeap, WF, NextIn, NoDup;
    WalkWF(o, init, msg, f0, w);
    HeapFacts(S, msg, w, head, p);
    KidsApart(w.f, p);
    var ks := ListOf(w.f, Some(p));
    KidsNoDup(w.f, p);
    forall i: nat | i < |ks| ensures ShownAt(w.thr, ks, i) && ks[i] in w.aux && w.aux[ks[i]] != null && ks[i].sortAuxKey == w.aux[ks[i]] {
      assert ks[i] in ks;
      DoneKeys(o, init, msg, f0, w, ks[i]);
      HeapFacts(S, msg, w, head, ks[i]);
      NextAt(ks, i);
    }
  }

  lemma KidsNoDup(f: ThreadForest, p: MuttThread)
    requires WF(f) && p in f.par
    ensures NoDup(ListOf(f, Some(p)))
  {
    assert KidsOK(f, p);
  }

  // New keys for the parent are right.
  lemma ParentKeyed(o: Orders, init: bool, msg: map<MuttThread, Email>, w: Walk, p: MuttThread, ks: seq<MuttThread>, a: Email, t: Email)
    requires ks == ListOf(w.f, Some(p)) && ks != [] && Have(w.aux, ks) && Have(w.thr, ks) && p !in ks
    requires init ==> ListSorted(o, w.f, w.aux, w.thr, Some(p))
    requires init ==> a == NewAux(o, MsgOf(msg, p), w.aux[ks[0]], w.aux[ks[|ks| - 1]]) && t == NewThr(o, MsgOf(msg, p), a, w.thr, ks)
    ensures KeysRight(o, init, msg, w.f, w.aux[p := a], w.thr[p := t], p)
  {
    hide Compare, NewAux, NewThr, InOrder;
    if init {
      NewAuxRight(o, MsgOf(msg, p), w.aux, ks);
      NewThrRight(o, MsgOf(msg, p), a, w.thr, ks);
      SameOrder(o.ranks, w.aux, w.aux[p := a], Turned(o.aux), ks);
    }
  }

  // Both keys of the parent anew.
  method UpdateKeys(thread: MuttThread, tmp: MuttThread, o: Orders, ghost msg: map<MuttThread, Email>,
    ghost S: set<MuttThread>, ghost head: MuttThread?, ghost w: Walk, ghost ks: seq<MuttThread>)
    requires InHeap(S, msg, w, head) && thread in S && KidsShown(thread, tmp, w.thr, ks) && Have(w.aux, ks) && thread.message == MsgOf(msg, thread)
    requires thread.child != null && thread.child != thread && tmp != thread && thread.child.sortAuxKey != null && tmp.sortAuxKey != null
    requires thread.child in w.aux && thread.child.sortAuxKey == w.aux[thread.child] && tmp in w.aux && tmp.sortAuxKey == w.aux[tmp]
    requires ks != [] && ks[0] == thread.child && ks[|ks| - 1] == tmp
    modifies thread`sortAuxKey, thread`sortThreadKey
    ensures thread.sortAuxKey == NewAux(o, MsgOf(msg, thread), w.aux[ks[0]], w.aux[ks[|ks| - 1]])
    ensures Have(w.thr, ks) && thread.sortThreadKey == NewThr(o, MsgOf(msg, thread), thread.sortAuxKey, w.thr, ks)
    ensures thread.sortAuxKey != null && thread.sortThreadKey != null && InHeap(S, msg, Finished(w, thread, thread.sortAuxKey, thread.sortThreadKey), head)
  {
    hide *;
    HeapOpen(S, msg, w, head);
    UpdateAuxKey(thread, tmp, o);
    UpdateThreadKey(thread, tmp, o, w.thr, ks);
    ghost var v := Finished(w, thread, thread.sortAuxKey, thread.sortThreadKey);
    FinishedIs(w, thread, thread.sortAuxKey, thread.sortThreadKey);
    HeapClose(S, msg, w, v, head, thread);
  }

  // The mark of a list that is finished may go.
  method Unmark(thread: MuttThread, init: bool, ghost sortTop: bool, ghost S: set<MuttThread>, ghost w: Walk, ghost v: Walk)
    requires Flagged(S, init, w, sortTop) && v.f == w.f && v.ent == w.ent && v.done == w.done + {thread} && thread in S
    modifies thread`sortChildren
    ensures Flagged(S, init, v, sortTop)
  {
    thread.sortChildren := false;
    assert init ==> forall n :: n in w.ent && n in w.f.par ==> old(FlaggedAt(S, w, sortTop, n)) ==> FlaggedAt(S, v, sortTop, n);
  }

  lemma ParentMarked(S: set<MuttThread>, w: Walk, sortTop: bool, init: bool, n: MuttThread, p: MuttThread)
    requires Flagged(S, init, w, sortTop) && n in w.ent && n in w.f.par && w.f.par[n] == Some(p) && p !in w.done
    ensures init ==> p.sortChildren
  {
    if init { assert FlaggedAt(S, w, sortTop, n); }
  }

  // From the last of a finished list to its parent, which is then finished too.
  method GoUp(tmp: MuttThread, init: bool, sortTop0: bool, o: Orders, ghost f0: ThreadForest, ghost msg: map<MuttThread, Email>,
    ghost S: set<MuttThread>, ghost head: MuttThread?, ghost w: Walk) returns (thread: MuttThread, sortTop: bool, ghost v: Walk)
    requires MidWalk(o, init, msg, f0, w) && InHeap(S, msg, w, head) && tmp in S && tmp in w.done && Here(w, tmp) && NextOf(w.f, tmp).None?
    requires tmp.parent != null && Flagged(S, init, w, sortTop0) && tmp in w.f.par && (init ==> ListSorted(o, w.f, w.aux, w.thr, w.f.par[tmp]))
    modifies S`sortAuxKey, S`sortThreadKey, S`sortChildren
    ensures MidWalk(o, init, msg, f0, v) && InHeap(S, msg, v, head) && Flagged(S, init, v, sortTop)
    ensures thread in S && v.f == w.f && v.ent == w.ent && v.done == w.done + {thread} && thread in w.ent && thread !in w.done && Here(v, thread)
  {
    hide *;
    WalkWF(o, init, msg, f0, w);
    ParentReady(o, init, msg, f0, w, S, head, tmp);
    thread := tmp.parent;
    sortTop := sortTop0;
    ghost var ks := ListOf(w.f, w.f.par[tmp]);
    ParentMarked(S, w, sortTop, init, tmp, thread);
    HeapFacts(S, msg, w, head, thread);
    ShownHave(thread, tmp, w.thr, ks);
    if thread.sortThreadKey == null || thread.sortAuxKey == null || thread.sortChildren {
      sortTop, v := Rekey(thread, tmp, init, sortTop, o, msg, S, head, w, ks);
    } else {
      v := Finished(w, thread, thread.sortAuxKey, thread.sortThreadKey);
      FinishedIs(w, thread, thread.sortAuxKey, thread.sortThreadKey);
      HeapKept(S, msg, w, head, thread);
      FlaggedGrows(S, init, w, v, sortTop, thread);
      KeptKeyed(o, init, msg, w, thread);
    }
    FinishOK(o, init, msg, f0, w, thread, v.aux[thread], v.thr[thread]);
  }

  lemma KeptKeyed(o: Orders, init: bool, msg: map<MuttThread, Email>, w: Walk, p: MuttThread)
    requires !init && p in w.aux && p in w.thr && w.aux[p] != null && w.thr[p] != null
    ensures KeysRight(o, init, msg, w.f, w.aux[p := w.aux[p]], w.thr[p := w.thr[p]], p)
  {
  }

  lemma HeapKept(S: set<MuttThread>, msg: map<MuttThread, Email>, w: Walk, head: MuttThread?, n: MuttThread)
    requires InHeap(S, msg, w, head) && n in S
    ensures InHeap(S, msg, Finished(w, n, n.sortAuxKey, n.sortThreadKey), head)
  {
  }

  // The keys of a parent are set again; if one has changed, the parent's list is marked.
  method Rekey(thread: MuttThread, tmp: MuttThread, init: bool, sortTop0: bool, o: Orders, ghost msg: map<MuttThread, Email>,
    ghost S: set<MuttThread>, ghost head: MuttThread?, ghost w: Walk, ghost ks: seq<MuttThread>) returns (sortTop: bool, ghost v: Walk)
    requires InHeap(S, msg, w, head) && WF(w.f) && thread in S && tmp in S && KidsShown(thread, tmp, w.thr, ks) && Have(w.aux, ks) && Have(w.thr, ks)
    requires thread.message == MsgOf(msg, thread) && ks == ListOf(w.f, Some(thread)) && thread !in ks && thread in w.ent
    requires thread.child != null && thread.child != thread && tmp != thread && thread.child.sortAuxKey != null && tmp.sortAuxKey != null
    requires thread.child in w.aux && thread.child.sortAuxKey == w.aux[thread.child] && tmp in w.aux && tmp.sortAuxKey == w.aux[tmp]
    requires ks != [] && ks[0] == thread.child && ks[|ks| - 1] == tmp
    requires Flagged(S, init, w, sortTop0) && (init ==> ListSorted(o, w.f, w.aux, w.thr, Some(thread)))
    modifies S`sortAuxKey, S`sortThreadKey, S`sortChildren
    ensures thread in v.aux && thread in v.thr && v == Finished(w, thread, v.aux[thread], v.thr[thread])
    ensures v.f == w.f && v.ent == w.ent && v.done == w.done + {thread}
    ensures InHeap(S, msg, v, head) && Flagged(S, init, v, sortTop)
    ensures KeysRight(o, init, msg, w.f, w.aux[thread := v.aux[thread]], w.thr[thread := v.thr[thread]], thread)
  {
    hide *;
    HeapFacts(S, msg, w, head, thread);
    ghost var u := Finished(w, thread, null, null);
    FinishedIs(w, thread, null, null);
    Unmark(thread, init, sortTop0, S, w, u);
    var oldAux, oldThr := thread.sortAuxKey, thread.sortThreadKey;
    UpdateKeys(thread, tmp, o, msg, S, head, w, ks);
    sortTop := sortTop0;
    if oldAux != thread.sortAuxKey || oldThr != thread.sortThreadKey {
      sortTop := Mark(thread.parent, sortTop, init, S, u);
    }
    v := Finished(w, thread, thread.sortAuxKey, thread.sortThreadKey);
    FinishedIs(w, thread, thread.sortAuxKey, thread.sortThreadKey);
    FlaggedGrows(S, init, u, v, sortTop, thread);
    ParentKeyed(o, init, msg, w, thread, ks, thread.sortAuxKey, thread.sortThreadKey);
  }

  // The inner loop: up, list by list, to the next node that has a sibling after it.
  method Climb(from: MuttThread, top0: MuttThread?, init: bool, sortTop0: bool, o: Orders, ghost f0: ThreadForest, ghost msg: map<MuttThread, Email>,
    ghost S: set<MuttThread>, ghost w: Walk) returns (next: MuttThread?, top: MuttThread?, sortTop: bool, ghost v: Walk)
    requires MidWalk(o, init, msg, f0, w) && InHeap(S, msg, w, top0) && from in S && from in w.done && Here(w, from) && Flagged(S, init, w, sortTop0)
    modifies S`child, S`next, S`prev, S`sortAuxKey, S`sortThreadKey, S`sortChildren
    ensures MidWalk(o, init, msg, f0, v) && InHeap(S, msg, v, top) && Flagged(S, init, v, sortTop) && v.ent == w.ent
    ensures next != null ==> next in S && next !in v.ent && Here(v, next)
    ensures next == null ==> (forall r :: r in v.f.roots ==> r in v.done) && (init ==> ListSorted(o, v.f, v.aux, v.thr, None))
  {
    hide *;
    var thread := from;
    top, sortTop, v := top0, sortTop0, w;
    AtNode(S, o, init, msg, f0, v, top, thread);
    while thread.next == null
      invariant MidWalk(o, init, msg, f0, v) && InHeap(S, msg, v, top) && Flagged(S, init, v, sortTop) && v.ent == w.ent
      invariant thread in S && thread in v.done && Here(v, thread) && (thread.next == null ==> NextOf(v.f, thread).None?)
      decreases |v.ent - v.done|
    {
      ghost var open := v.ent - v.done;
      thread, top, v := SortList(thread, top, sortTop, init, o, f0, msg, S, v);
      AtNode(S, o, init, msg, f0, v, top, thread);
      if thread.parent != null {
        ghost var u := v;
        thread, sortTop, v := GoUp(thread, init, sortTop, o, f0, msg, S, top, v);
        AtNode(S, o, init, msg, f0, v, top, thread);
        Fewer(open, v.ent - v.done, thread);
      } else {
        AllRoots(o, init, msg, f0, v, thread);
        return null, top, sortTop, v;
      }
    }
    next := thread.next;
    AtNode(S, o, init, msg, f0, v, top, thread);
    NextOK(o, init, msg, f0, v, thread);
  }

  lemma Fewer(a: set<MuttThread>, b: set<MuttThread>, n: MuttThread)
    requires n in a && b == a - {n}
    ensures |b| < |a|
  {
  }

  lemma AllRoots(o: Orders, init: bool, msg: map<MuttThread, Email>, f0: ThreadForest, w: Walk, n: MuttThread)
    requires MidWalk(o, init, msg, f0, w) && n in w.done && Here(w, n) && NextOf(w.f, n).None? && n in w.f.par && w.f.par[n].None?
    ensures forall r :: r in w.f.roots ==> r in w.done
  {
    LastOK(o, init, msg, f0, w, n);
  }

  lemma AtNode(S: set<MuttThread>, o: Orders, init: bool, msg: map<MuttThread, Email>, f0: ThreadForest, w: Walk, head: MuttThread?, n: MuttThread)
    requires MidWalk(o, init, msg, f0, w) && InHeap(S, msg, w, head) && n in S && Here(w, n)
    ensures if n.next == null then NextOf(w.f, n).None? else NextOf(w.f, n) == Some(n.next) && n.next in S
    ensures n in w.f.par && (if n.parent == null then w.f.par[n] == None else w.f.par[n] == Some(n.parent))
    ensures w.ent <= S
  {
    WalkWF(o, init, msg, f0, w);
    HereFacts(w, n);
    HeapFacts(S, msg, w, head, n);
  }

  // --- mutt_sort_subthreads ---

  lemma LeafReal(o: Orders, init: bool, msg: map<MuttThread, Email>, f0: ThreadForest, w: Walk, S: set<MuttThread>, head: MuttThread?, n: MuttThread)
    requires MidWalk(o, init, msg, f0, w) && Grown(f0, msg) && InHeap(S, msg, w, head) && n in S && Here(w, n)
    ensures n.child == null ==> n.message != null && ListOf(w.f, Some(n)) == []
    ensures n.child != null ==> ListOf(w.f, Some(n)) != [] && ListOf(w.f, Some(n))[0] == n.child && n.child in S
  {
    hide Attached, MidWalk, Here;
    WalkWF(o, init, msg, f0, w);
    HereFacts(w, n);
    HeapFacts(S, msg, w, head, n);
    PermutedGrown(f0, w.f, msg);
  }

  // The state before the walk.
  ghost function Fresh(S: set<MuttThread>, f: ThreadForest): Walk
    reads S`sortAuxKey, S`sortThreadKey
  {
    Walk(f, AuxKeys(S), ThreadKeys(S), {}, {})
  }

  lemma FreshOK(S: set<MuttThread>, msg: map<MuttThread, Email>, f: ThreadForest, head: MuttThread, o: Orders, init: bool)
    requires Linked(S, f, head, {}) && Messages(S, msg) && Grown(f, msg)
    ensures var w := Fresh(S, f);
      MidWalk(o, init, msg, f, w) && InHeap(S, msg, w, head) && head in S && Here(w, head) && Flagged(S, init, w, false) && w.ent == {}
  {
    hide MidWalk, Here, WF, NodeLinked;
    GrownWF(f, msg);
    Started(o, init, msg, f, AuxKeys(S), ThreadKeys(S));
    WalkWF(o, init, msg, f, Fresh(S, f));
    HereFacts(Fresh(S, f), f.roots[0]);
  }

  // The outer loop; tree is the first top-level node.
  method SortTree(tree: MuttThread, init: bool, o: Orders, ghost S: set<MuttThread>, ghost f: ThreadForest, ghost msg: map<MuttThread, Email>)
    returns (top: MuttThread?, ghost w: Walk)
    requires Linked(S, f, tree, {}) && Messages(S, msg) && Grown(f, msg)
    modifies S`child, S`next, S`prev, S`sortAuxKey, S`sortThreadKey, S`sortChildren
    ensures Linked(S, w.f, top, {}) && w.aux == AuxKeys(S) && w.thr == ThreadKeys(S)
    ensures SubthreadsSorted(o, init, msg, f, w.f, w.aux, w.thr)
  {
    hide *;
    var thread: MuttThread := tree;
    var sortTop := false;
    top := tree;
    w := Fresh(S, f);
    FreshOK(S, msg, f, tree, o, init);
    while true
      invariant MidWalk(o, init, msg, f, w) && InHeap(S, msg, w, top) && Flagged(S, init, w, sortTop)
      invariant thread in S && thread !in w.ent && Here(w, thread) && w.ent <= S
      decreases |S - w.ent|
    {
      ghost var left := S - w.ent;
      sortTop, w := Enter(thread, init, sortTop, o, f, msg, S, top, w);
      Fewer(left, S - w.ent, thread);
      AtNode(S, o, init, msg, f, w, top, thread);
      LeafReal(o, init, msg, f, w, S, top, thread);
      if thread.child != null {
        DownOK(o, init, msg, f, w, thread);
        thread := thread.child;
        continue;
      }
      w := Leaf(thread, init, sortTop, o, f, msg, S, top, w);
      AtNode(S, o, init, msg, f, w, top, thread);
      if thread.next != null {
        NextOK(o, init, msg, f, w, thread);
        thread := thread.next;
        continue;
      }
      var next;
      next, top, sortTop, w := Climb(thread, top, init, sortTop, o, f, msg, S, w);
      if next == null {
        EndOK(o, init, msg, f, w);
        KeysEnd(S, msg, w, top);
        return;
      }
      thread := next;
      AtNode(S, o, init, msg, f, w, top, thread);
    }
  }

  lemma KeysEnd(S: set<MuttThread>, msg: map<MuttThread, Email>, w: Walk, head: MuttThread?)
    requires InHeap(S, msg, w, head)
    ensures Linked(S, w.f, head, {}) && w.aux == AuxKeys(S) && w.thr == ThreadKeys(S)
  {
  }

  // --- what the order means for $sort and $sort_aux ---

  // By the method s, a comes before b, or with it and earlier in the mailbox.
  ghost predicate Leads(r: Ranks, s: SortType, a: Email?, b: Email?) {
    && a != null && b != null
    && (if s.reverse then r.of(a, s.key) >= r.of(b, s.key) else r.of(a, s.key) <= r.of(b, s.key))
    && (r.of(a, s.key) == r.of(b, s.key) ==> r.index(a) <= r.index(b))
  }

  // Of the list l, the i-th comes before the j-th, by the keys.
  ghost predicate Leading(keys: map<MuttThread, Email?>, r: Ranks, s: SortType, l: seq<MuttThread>, i: nat, j: nat)
    requires i < |l| && j < |l|
  {
    l[i] in keys && l[j] in keys && Leads(r, s, keys[l[i]], keys[l[j]])
  }

  lemma InTurn(r: Ranks, keys: map<MuttThread, Email?>, sort: SortType, l: seq<MuttThread>, i: nat, j: nat)
    requires InOrder(r, keys, sort, false, l) && i < j < |l|
    ensures Leading(keys, r, sort, l, i, j)
  {
    assert Before(r, keys, sort, false, l[i], l[j]);
  }

  // Siblings below a node are in the order of the method s, by their keys.
  ghost predicate SiblingsInTurn(f: ThreadForest, keys: map<MuttThread, Email?>, r: Ranks, s: SortType) {
    forall p, i, j :: p in f.kids && 0 <= i < j < |f.kids[p]| ==> Leading(keys, r, s, f.kids[p], i, j)
  }

  // So are the threads at the top.
  ghost predicate ThreadsInTurn(f: ThreadForest, keys: map<MuttThread, Email?>, r: Ranks, s: SortType) {
    forall i, j :: 0 <= i < j < |f.roots| ==> Leading(keys, r, s, f.roots, i, j)
  }

  // After a full run siblings are in the order of $sort_aux, threads in that of $sort, or of $sort_aux if
  // $sort is `threads`.
  lemma Directions(ranks: Ranks, sort: SortType, sortAux: SortType, reverse: bool, msg: map<MuttThread, Email>, f0: ThreadForest, f: ThreadForest,
                   aux: map<MuttThread, Email?>, thr: map<MuttThread, Email?>)
    requires SubthreadsSorted(OrdersFor(ranks, sort, sortAux, reverse), true, msg, f0, f, aux, thr) && Grown(f0, msg)
    ensures SiblingsInTurn(f, aux, ranks, sortAux)
    ensures ThreadsInTurn(f, thr, ranks, if sort.key == EMAIL_SORT_THREADS then sortAux else sort)
  {
    hide InOrder, WF, Attached, AuxRight, ThrRight, Leading;
    var o := OrdersFor(ranks, sort, sortAux, reverse);
    var s := if sort.key == EMAIL_SORT_THREADS then sortAux else sort;
    assert Turned(o.sort) == s && Turned(o.aux) == sortAux;
    PermutedGrown(f0, f, msg);
    forall p, i, j | p in f.kids && 0 <= i < j < |f.kids[p]|
      ensures Leading(aux, ranks, sortAux, f.kids[p], i, j)
    {
      ParentSorted(f, msg, p);
      assert KeysRight(o, true, msg, f, aux, thr, p) && ListSorted(o, f, aux, thr, Some(p));
      InTurn(ranks, aux, sortAux, f.kids[p], i, j);
    }
    assert InOrder(ranks, thr, s, false, f.roots);
    forall i, j | 0 <= i < j < |f.roots|
      ensures Leading(thr, ranks, s, f.roots, i, j)
    {
      InTurn(ranks, thr, s, f.roots, i, j);
    }
  }

  lemma ParentSorted(f: ThreadForest, msg: map<MuttThread, Email>, p: MuttThread)
    requires Grown(f, msg) && p in f.kids && f.kids[p] != []
    ensures p in f.par && Attached(f, p) && ListOf(f, Some(p)) == f.kids[p]
  {
    Tables(f);
  }

  // What the keys of a node are after a full run.
  lemma KeysSay(ranks: Ranks, sort: SortType, sortAux: SortType, reverse: bool, msg: map<MuttThread, Email>, f0: ThreadForest, f: ThreadForest,
                aux: map<MuttThread, Email?>, thr: map<MuttThread, Email?>, n: MuttThread)
    requires SubthreadsSorted(OrdersFor(ranks, sort, sortAux, reverse), true, msg, f0, f, aux, thr) && Grown(f0, msg)
    requires n in f.par && n in f.kids && Attached(f, n)
    ensures n in aux && n in thr && aux[n] != null && thr[n] != null
    ensures var ks := f.kids[n];
      && (ks == [] ==> n in msg && aux[n] == msg[n])
      && (ks != [] && !sortAux.last && n in msg ==> aux[n] == msg[n])
      && (ks != [] && !sortAux.last && n !in msg ==>
            (exists k :: k in ks && k in aux && aux[k] == aux[n]) && forall k :: k in ks && k in aux && aux[k] != null ==> ranks.of(aux[n], sortAux.key) <= ranks.of(aux[k], sortAux.key))
      && (ks != [] && sortAux.last ==>
            && ((n in msg && aux[n] == msg[n]) || exists k :: k in ks && k in aux && aux[k] == aux[n])
            && (n in msg ==> ranks.of(msg[n], sortAux.key) <= ranks.of(aux[n], sortAux.key))
            && forall k :: k in ks && k in aux && aux[k] != null ==> ranks.of(aux[k], sortAux.key) <= ranks.of(aux[n], sortAux.key))
    ensures var ks, s := f.kids[n], if sort.key == EMAIL_SORT_THREADS then sortAux else sort;
      && (ks == [] ==> n in msg && thr[n] == msg[n])
      && (ks != [] && s.key == sortAux.key && s.last == sortAux.last ==> thr[n] == aux[n])
      && (ks != [] && !(s.key == sortAux.key && s.last == sortAux.last) && !s.last && n in msg ==> thr[n] == msg[n])
      && (ks != [] && !(s.key == sortAux.key && s.last == sortAux.last) && !s.last && n !in msg ==>
            var k := if reverse != sortAux.reverse then ks[|ks| - 1] else ks[0]; k in thr && thr[n] == thr[k])
      && (ks != [] && !(s.key == sortAux.key && s.last == sortAux.last) && s.last ==>
            && ((n in msg && thr[n] == msg[n]) || exists k :: k in ks && k in thr && thr[k] == thr[n])
            && (n in msg ==> ranks.of(msg[n], s.key) <= ranks.of(thr[n], s.key))
            && forall k :: k in ks && k in thr && thr[k] != null ==> ranks.of(thr[k], s.key) <= ranks.of(thr[n], s.key))
  {
    hide InOrder, WF, Attached, ListSorted;
    var o := OrdersFor(ranks, sort, sortAux, reverse);
    PermutedGrown(f0, f, msg);
    assert KeysRight(o, true, msg, f, aux, thr, n);
    LeafMessage(f, msg, n);
    assert AuxRight(o, MsgOf(msg, n), aux, f.kids[n], aux[n]) && ThrRight(o, MsgOf(msg, n), aux[n], thr, f.kids[n], thr[n]);
    var s := if sort.key == EMAIL_SORT_THREADS then sortAux else sort;
    assert o.sort.key == s.key && o.sort.last == s.last && o.ranks == ranks;
    var ks := f.kids[n];
    if ks != [] && s.last && !(s.key == sortAux.key && s.last == sortAux.last) { HighestOf(ranks, s.key, MsgOf(msg, n), thr, ks, thr[n]); }
    if ks != [] && sortAux.last { HighestOf(ranks, sortAux.key, MsgOf(msg, n), aux, ks, aux[n]); }
    hide Greatest;
    assert o.aux.key == sortAux.key && o.aux.last == sortAux.last && o.aux.reverse == !sortAux.reverse && o.reverse == reverse;
  }

  lemma HighestOf(r: Ranks, key: nat, m: Email?, keys: map<MuttThread, Email?>, ns: seq<MuttThread>, e: Email)
    requires Greatest(r, key, m, keys, ns, e)
    ensures (m != null && e == m) || exists k :: k in ns && k in keys && keys[k] == e
    ensures m != null ==> r.of(m, key) <= r.of(e, key)
    ensures forall k :: k in ns && k in keys && keys[k] != null ==> r.of(keys[k], key) <= r.of(e, key)
  {
  }

  lemma LeafMessage(f: ThreadForest, msg: map<MuttThread, Email>, n: MuttThread)
    requires Grown(f, msg) && n in f.kids && Attached(f, n)
    ensures ListOf(f, Some(n)) == f.kids[n] && (f.kids[n] == [] ==> n in msg)
  {
  }

  // The methods as the walk uses them: $sort_aux for both if $sort is `threads`, and turned.
  function OrdersFor(ranks: Ranks, sort: SortType, sortAux: SortType, reverse: bool): Orders {
    Orders(ranks, Turned(if sort.key == EMAIL_SORT_THREADS then sortAux else sort), Turned(sortAux), reverse)
  }

  // reverse: the thread style is UT_REVERSE.
  method MuttSortSubthreads(tctx: ThreadsContext, init0: bool, sort: SortType, sortAux: SortType, ranks: Ranks, reverse: bool, ghost E: set<Email>)
    requires tctx.Valid(E)
    requires sort.key == EMAIL_SORT_THREADS ==> sort.reverse == reverse
    modifies tctx`tree, tctx`cSort, tctx`cSortAux, tctx`c
    modifies tctx.nodes`child, tctx.nodes`next, tctx.nodes`prev, tctx.nodes`sortAuxKey, tctx.nodes`sortThreadKey, tctx.nodes`sortChildren
    ensures tctx.Valid(E) && tctx.c == old(tctx.c).(f := tctx.c.f)
    ensures var o := OrdersFor(ranks, sort, sortAux, reverse);
      if old(tctx.tree) == null then unchanged(tctx)
      else
        && tctx.cSort == o.sort && tctx.cSortAux == o.aux
        && var init := init0 || o.sort != old(tctx.cSort) || o.aux != old(tctx.cSortAux);
           SubthreadsSorted(o, init, tctx.c.msg, old(tctx.c.f), tctx.c.f, AuxKeys(tctx.nodes), ThreadKeys(tctx.nodes))
    ensures old(tctx.tree) != null ==> tctx.cSortAux == sortAux.(reverse := !sortAux.reverse)
    ensures old(tctx.tree) != null ==> var s := if sort.key == EMAIL_SORT_THREADS then sortAux else sort; tctx.cSort == s.(reverse := !s.reverse)
    ensures old(tctx.tree) != null && (init0 || tctx.cSort != old(tctx.cSort) || tctx.cSortAux != old(tctx.cSortAux)) ==>
      && SiblingsInTurn(tctx.c.f, AuxKeys(tctx.nodes), ranks, sortAux)
      && ThreadsInTurn(tctx.c.f, ThreadKeys(tctx.nodes), ranks, if sort.key == EMAIL_SORT_THREADS then sortAux else sort)
  {
    hide *;
    var o := OrdersFor(ranks, sort, sortAux, reverse);
    if tctx.tree != null {
      var init := KeepOrders(tctx, init0, o);
      ghost var f0 := tctx.c.f;
      ContextOpen(tctx, E);
      SortContext(tctx, init, o, E);
      OrdersAre(ranks, sort, sortAux, reverse);
      if init {
        Directions(ranks, sort, sortAux, reverse, tctx.c.msg, f0, tctx.c.f, AuxKeys(tctx.nodes), ThreadKeys(tctx.nodes));
      }
    }
  }

  lemma OrdersAre(ranks: Ranks, sort: SortType, sortAux: SortType, reverse: bool)
    ensures var o, s := OrdersFor(ranks, sort, sortAux, reverse), if sort.key == EMAIL_SORT_THREADS then sortAux else sort;
      o.sort == s.(reverse := !s.reverse) && o.aux == sortAux.(reverse := !sortAux.reverse)
  {
  }

  method SortContext(tctx: ThreadsContext, init: bool, o: Orders, ghost E: set<Email>)
    requires tctx.Valid(E) && tctx.tree != null
    modifies tctx`tree, tctx`c
    modifies tctx.nodes`child, tctx.nodes`next, tctx.nodes`prev, tctx.nodes`sortAuxKey, tctx.nodes`sortThreadKey, tctx.nodes`sortChildren
    ensures tctx.Valid(E) && tctx.c == old(tctx.c).(f := tctx.c.f)
    ensures SubthreadsSorted(o, init, tctx.c.msg, old(tctx.c.f), tctx.c.f, AuxKeys(tctx.nodes), ThreadKeys(tctx.nodes))
  {
    hide *;
    ghost var S, c := tctx.nodes, tctx.c;
    ContextOpen(tctx, E);
    ghost var w;
    var top;
    top, w := SortTree(tctx.tree, init, o, S, c.f, c.msg);
    tctx.tree := top;
    tctx.c := c.(f := w.f);
    SortedOpen(o, init, c.msg, c.f, w);
    PermutedCtx(c, E, w.f);
    ContextClose(tctx, E, c, w.f);
  }

  // Other sort methods than last time make it a full run.
  method KeepOrders(tctx: ThreadsContext, init0: bool, o: Orders) returns (init: bool)
    modifies tctx`cSort, tctx`cSortAux
    ensures tctx.cSort == o.sort && tctx.cSortAux == o.aux
    ensures init == (init0 || o.sort != old(tctx.cSort) || o.aux != old(tctx.cSortAux))
  {
    init := init0;
    if init || tctx.cSort != o.sort || tctx.cSortAux != o.aux {
      tctx.cSort := o.sort;
      tctx.cSortAux := o.aux;
      init := true;
    }
  }

  lemma SortedOpen(o: Orders, init: bool, msg: map<MuttThread, Email>, f: ThreadForest, w: Walk)
    requires SubthreadsSorted(o, init, msg, f, w.f, w.aux, w.thr)
    ensures WF(w.f) && Permuted(f, w.f)
  {
  }

  lemma ContextOpen(t: ThreadsContext, E: set<Email>)
    requires t.Valid(E)
    ensures Agrees(t.nodes, E, t.c, t.tree) && CtxOK(t.c, E, None, None) && t.c.done == t.c.thr.Keys && t.hash == t.c.hash && (!t.hasHash ==> t.c == EmptyCtx())
    ensures Linked(t.nodes, t.c.f, t.tree, {}) && Messages(t.nodes, t.c.msg) && Flags(t.nodes, t.c.dups, t.c.fakes) && Mails(E, t.c.thr, t.c.done)
    ensures Grown(t.c.f, t.c.msg)
    ensures t.tree != null ==> t.hasHash
  {
    CtxGrown(t.c, E);
  }

  lemma ContextClose(t: ThreadsContext, E: set<Email>, c: Ctx, g: ThreadForest)
    requires t.c == c.(f := g) && Linked(t.nodes, g, t.tree, {}) && Messages(t.nodes, c.msg) && Flags(t.nodes, c.dups, c.fakes) && Mails(E, c.thr, c.done)
    requires CtxOK(t.c, E, None, None) && c.done == c.thr.Keys && t.hash == c.hash && t.hasHash
    ensures t.Valid(E)
  {
  }

  // The invariant of the threading context does not depend on the order of siblings.
  lemma PermutedCtx(c: Ctx, E: set<Email>, g: ThreadForest)
    requires CtxOK(c, E, None, None) && WF(g) && Permuted(c.f, g)
    ensures CtxOK(c.(f := g), E, None, None)
  {
    hide WF, HashOK, EmailOK;
    var d := c.(f := g);
    SameMembers(g.roots, c.f.roots);
    forall n | n in d.f.kids ensures NodeOK(d, E, None, None, n) {
      PermutedNode(c, E, g, n);
    }
    forall k | k in d.hash ensures HashOK(d, None, k) { HashSame(c, d, None, k); }
    forall e | e in d.thr ensures EmailOK(d, e) { EmailSame(c, d, e); }
  }

  lemma PermutedNode(c: Ctx, E: set<Email>, g: ThreadForest, n: MuttThread)
    requires Permuted(c.f, g) && n in c.f.kids && NodeOK(c, E, None, None, n) && forall x :: x in g.roots <==> x in c.f.roots
    ensures n in g.kids && NodeOK(c.(f := g), E, None, None, n)
  {
    SameMembers(g.kids[n], c.f.kids[n]);
  }
}
