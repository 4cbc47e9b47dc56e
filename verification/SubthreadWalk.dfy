// mutt_sort_subthreads as a walk on values: which nodes have been entered, which are finished with
// their keys set and their children in order, and why every step keeps it so.
module SubthreadWalk {
  import opened Wrappers
  import opened Forests
  import opened Preorder
  import opened Threads
  import opened Linearize
  import opened EmailOrder
  import opened SiblingSort

  datatype Walk = Walk(f: ThreadForest, aux: map<MuttThread, Email?>, thr: map<MuttThread, Email?>,
                       ent: set<MuttThread>, done: set<MuttThread>)

  // The same nodes and parents, with sibling lists in another order.
  ghost predicate Permuted(f: ThreadForest, g: ThreadForest) {
    && g.par == f.par && g.lvl == f.lvl && g.depth == f.depth && g.kids.Keys == f.kids.Keys
    && multiset(g.roots) == multiset(f.roots)
    && forall n :: n in f.kids ==> multiset(g.kids[n]) == multiset(f.kids[n])
  }

  // --- keys ---

  ghost predicate Among(keys: map<MuttThread, Email?>, ns: seq<MuttThread>, e: Email?) {
    exists k :: k in ns && k in keys && keys[k] == e
  }

  // No key of ns ranks above e.
  ghost predicate Tops(r: Ranks, key: nat, keys: map<MuttThread, Email?>, ns: seq<MuttThread>, e: Email) {
    forall k :: k in ns && k in keys && keys[k] != null ==> r.of(keys[k], key) <= r.of(e, key)
  }

  // No key of ns ranks below e.
  ghost predicate Bottoms(r: Ranks, key: nat, keys: map<MuttThread, Email?>, ns: seq<MuttThread>, e: Email) {
    forall k :: k in ns && k in keys && keys[k] != null ==> r.of(e, key) <= r.of(keys[k], key)
  }

  // e is the message m or a key of ns, and ranks highest of them.
  ghost predicate Greatest(r: Ranks, key: nat, m: Email?, keys: map<MuttThread, Email?>, ns: seq<MuttThread>, e: Email) {
    (e == m || Among(keys, ns, e)) && (m != null ==> r.of(m, key) <= r.of(e, key)) && Tops(r, key, keys, ns, e)
  }

  ghost function MsgOf(msg: map<MuttThread, Email>, n: MuttThread): Email? {
    if n in msg then msg[n] else null
  }

  // sort_aux_key: under SORT_LAST the highest of the message and the children's keys; otherwise the
  // message, or the lowest of the children's keys if there is none.
  ghost predicate AuxRight(o: Orders, m: Email?, aux: map<MuttThread, Email?>, ns: seq<MuttThread>, e: Email) {
    if ns == [] then e == m
    else if o.aux.last then Greatest(o.ranks, o.aux.key, m, aux, ns, e)
    else if m != null then e == m
    else Among(aux, ns, e) && Bottoms(o.ranks, o.aux.key, aux, ns, e)
  }

  // sort_thread_key: the same as sort_aux_key if both are sorted by the same method; without a message and
  // without SORT_LAST, that of the first or the last child.
  ghost predicate ThrRight(o: Orders, m: Email?, auxKey: Email, thr: map<MuttThread, Email?>, ns: seq<MuttThread>, e: Email) {
    if ns == [] then e == m
    else if SameMethod(o) then e == auxKey
    else if o.sort.last then Greatest(o.ranks, o.sort.key, m, thr, ns, e)
    else if m != null then e == m
    else
      var k := if o.reverse != (!o.aux.reverse) then ns[|ns| - 1] else ns[0];
      k in thr && thr[k] == e
  }

  predicate SameMethod(o: Orders) {
    o.aux.key == o.sort.key && o.aux.last == o.sort.last
  }

  // The list of p is in the order of $sort_aux, or of $sort at the top.
  ghost predicate ListSorted(o: Orders, f: ThreadForest, aux: map<MuttThread, Email?>, thr: map<MuttThread, Email?>, p: Option<MuttThread>) {
    match p
    case None => InOrder(o.ranks, thr, Turned(o.sort), false, f.roots)
    case Some(_) => InOrder(o.ranks, aux, Turned(o.aux), false, ListOf(f, p))
  }

  // n's keys are set; after a full run, rightly, and its children are in order.
  ghost predicate KeysRight(o: Orders, init: bool, msg: map<MuttThread, Email>, f: ThreadForest,
    aux: map<MuttThread, Email?>, thr: map<MuttThread, Email?>, n: MuttThread)
  {
    && n in aux && n in thr && aux[n] != null && thr[n] != null
    && (init ==>
          && ListSorted(o, f, aux, thr, Some(n))
          && AuxRight(o, MsgOf(msg, n), aux, ListOf(f, Some(n)), aux[n])
          && ThrRight(o, MsgOf(msg, n), aux[n], thr, ListOf(f, Some(n)), thr[n]))
  }

  // --- the state of the walk ---

  // Where n stands in the walk: the siblings before it are finished, those after it not entered,
  // and its parent is entered and not finished.
  ghost predicate Here(w: Walk, n: MuttThread) {
    && n in w.f.par && Attached(w.f, n)
    && (w.f.par[n].Some? ==> w.f.par[n].value in w.ent && w.f.par[n].value !in w.done)
    && (forall x :: x in Sibs(w.f, n) ==> x == n || x in w.done || x in Later(Sibs(w.f, n), n))
    && (forall x :: x in Later(Sibs(w.f, n), n) ==> x !in w.ent)
  }

  ghost predicate NodeDone(o: Orders, init: bool, msg: map<MuttThread, Email>, w: Walk, n: MuttThread) {
    KeysRight(o, init, msg, w.f, w.aux, w.thr, n) && forall k :: k in ListOf(w.f, Some(n)) ==> k in w.done
  }

  ghost predicate MidWalk(o: Orders, init: bool, msg: map<MuttThread, Email>, f0: ThreadForest, w: Walk) {
    && WF(w.f) && Permuted(f0, w.f) && w.aux.Keys == w.f.par.Keys && w.thr.Keys == w.f.par.Keys
    && w.done <= w.ent && w.ent <= w.f.par.Keys
    && (forall n :: n in w.ent && w.f.par[n].Some? ==> w.f.par[n].value in w.ent)
    && (forall n :: n in w.done ==> NodeDone(o, init, msg, w, n))
    && (forall n :: n in w.ent && n !in w.done ==> Here(w, n))
  }

  lemma WalkWF(o: Orders, init: bool, msg: map<MuttThread, Email>, f0: ThreadForest, w: Walk)
    requires MidWalk(o, init, msg, f0, w)
    ensures WF(w.f) && w.done <= w.ent && w.ent <= w.f.par.Keys && w.done <= w.aux.Keys && w.done <= w.thr.Keys
    ensures Permuted(f0, w.f) && w.aux.Keys == w.f.par.Keys && w.thr.Keys == w.f.par.Keys
    ensures forall n :: n in w.ent && w.f.par[n].Some? ==> w.f.par[n].value in w.ent
  {
  }

  lemma AtDone(o: Orders, init: bool, msg: map<MuttThread, Email>, f0: ThreadForest, w: Walk, n: MuttThread)
    requires MidWalk(o, init, msg, f0, w)
    ensures n in w.done ==> NodeDone(o, init, msg, w, n)
    ensures n in w.ent && n !in w.done ==> Here(w, n)
  {
  }

  lemma WalkClose(o: Orders, init: bool, msg: map<MuttThread, Email>, f0: ThreadForest, w: Walk)
    requires WF(w.f) && Permuted(f0, w.f) && w.aux.Keys == w.f.par.Keys && w.thr.Keys == w.f.par.Keys
    requires w.done <= w.ent && w.ent <= w.f.par.Keys
    requires forall n :: n in w.ent && w.f.par[n].Some? ==> w.f.par[n].value in w.ent
    requires forall n :: n in w.ent ==> (if n in w.done then NodeDone(o, init, msg, w, n) else Here(w, n))
    ensures MidWalk(o, init, msg, f0, w)
  {
  }

  // --- its steps ---

  lemma Started(o: Orders, init: bool, msg: map<MuttThread, Email>, f: ThreadForest, aux: map<MuttThread, Email?>, thr: map<MuttThread, Email?>)
    requires WF(f) && f.roots != [] && aux.Keys == f.par.Keys && thr.Keys == f.par.Keys
    ensures MidWalk(o, init, msg, f, Walk(f, aux, thr, {}, {})) && Here(Walk(f, aux, thr, {}, {}), f.roots[0])
  {
    assert Later(f.roots, f.roots[0]) == f.roots[1..];
    assert f.roots == [f.roots[0]] + f.roots[1..];
  }

  ghost function Entered(w: Walk, n: MuttThread, a: Email?, t: Email?): Walk {
    Walk(w.f, w.aux[n := a], w.thr[n := t], w.ent + {n}, w.done)
  }

  // Entering n; its old keys do not matter.
  lemma EnterOK(o: Orders, init: bool, msg: map<MuttThread, Email>, f0: ThreadForest, w: Walk, n: MuttThread, a: Email?, t: Email?)
    requires MidWalk(o, init, msg, f0, w) && Here(w, n) && n !in w.ent
    ensures var v := Entered(w, n, a, t);
      MidWalk(o, init, msg, f0, v) && Here(v, n) && forall k :: k in ListOf(w.f, Some(n)) ==> k !in v.ent
  {
    hide *;
    var v := Entered(w, n, a, t);
    WalkWF(o, init, msg, f0, w);
    HereAttached(w, n);
    EnteredIs(w, n, a, t);
    KidsApart(w.f, n);
    KidsNotEntered(w, n);
    forall m | m in v.ent ensures if m in v.done then NodeDone(o, init, msg, v, m) else Here(v, m) {
      AtDone(o, init, msg, f0, w, m);
      EnteredAt(o, init, msg, w, n, a, t, m);
    }
    EnteredAt(o, init, msg, w, n, a, t, n);
    HereParent(w, n);
    WalkClose(o, init, msg, f0, v);
  }

  lemma EnteredIs(w: Walk, n: MuttThread, a: Email?, t: Email?)
    ensures var v := Entered(w, n, a, t);
      v.f == w.f && v.ent == w.ent + {n} && v.done == w.done && v.aux == w.aux[n := a] && v.thr == w.thr[n := t]
  {
  }

  lemma HereParent(w: Walk, n: MuttThread)
    requires Here(w, n)
    ensures w.f.par[n].Some? ==> w.f.par[n].value in w.ent
  {
  }

  lemma KidsNotEntered(w: Walk, n: MuttThread)
    requires n !in w.ent && n in w.f.par && w.ent <= w.f.par.Keys
    requires forall m :: m in w.ent && w.f.par[m].Some? ==> w.f.par[m].value in w.ent
    requires forall k :: k in ListOf(w.f, Some(n)) ==> k in w.f.par && k != n && w.f.par[k] == Some(n)
    ensures forall k :: k in ListOf(w.f, Some(n)) ==> k !in w.ent && k != n
  {
    hide ListOf;
  }

  lemma EnteredAt(o: Orders, init: bool, msg: map<MuttThread, Email>, w: Walk, n: MuttThread, a: Email?, t: Email?, m: MuttThread)
    requires WF(w.f) && n in w.f.par && n !in w.ent && w.done <= w.ent && Here(w, n) && w.done <= w.aux.Keys && w.done <= w.thr.Keys
    requires if m in w.done then NodeDone(o, init, msg, w, m) else if m == n then true else m in w.ent && Here(w, m)
    ensures if m in w.done then NodeDone(o, init, msg, Entered(w, n, a, t), m) else Here(Entered(w, n, a, t), m)
  {
    hide WF, Permuted, KeysRight, Sibs, Attached, NodeDone;
    var v := Entered(w, n, a, t);
    AttachedSibs(w.f, n);
    NotLater(w.f, n);
    if m in w.done {
      KeyedSame(o, init, msg, w, v, m);
    } else if m != n {
      AttachedSibs(w.f, m);
      if n in Later(Sibs(w.f, m), m) { LaterSibs(w.f, m, n); }
    }
  }

  lemma NotLater(f: ThreadForest, n: MuttThread)
    requires WF(f) && Attached(f, n)
    ensures n !in Later(Sibs(f, n), n)
  {
    AttachedInSibs(f, n);
    LaterNot(Sibs(f, n), n);
  }

  lemma {:induction false} LaterNot(l: seq<MuttThread>, n: MuttThread)
    requires NoDup(l)
    ensures n !in Later(l, n) && forall x :: x in Later(l, n) ==> x in l
  {
    if l != [] && l[0] != n { LaterNot(l[1..], n); }
  }

  lemma AttachedSibs(f: ThreadForest, n: MuttThread)
    requires WF(f) && Attached(f, n)
    ensures n in Sibs(f, n) && forall x :: x in Sibs(f, n) ==> Attached(f, x) && x in f.par && f.par[x] == f.par[n] && Sibs(f, x) == Sibs(f, n)
  {
    AttachedInSibs(f, n);
  }

  lemma LaterSibs(f: ThreadForest, m: MuttThread, n: MuttThread)
    requires WF(f) && Attached(f, m) && n in Later(Sibs(f, m), m)
    ensures n in Sibs(f, m) && Sibs(f, n) == Sibs(f, m) && m in Sibs(f, n) && n != m
    ensures m !in Later(Sibs(f, n), n)
  {
    AttachedInSibs(f, m);
    LaterNot(Sibs(f, m), m);
    LaterAnti(Sibs(f, m), m, n);
  }

  lemma {:induction false} LaterAnti(l: seq<MuttThread>, m: MuttThread, n: MuttThread)
    requires NoDup(l) && n in Later(l, m)
    ensures m !in Later(l, n)
  {
    if l[0] == m {
      LaterNot(l[1..], n);
    } else {
      LaterNot(l[1..], m);
      LaterAnti(l[1..], m, n);
    }
  }

  // The children of n: not n, and their parent is n.
  lemma KidsApart(f: ThreadForest, n: MuttThread)
    requires WF(f) && n in f.par
    ensures n in f.kids && forall k :: k in ListOf(f, Some(n)) ==> k in f.par && k != n && f.par[k] == Some(n) && Attached(f, k)
  {
    assert KidsOK(f, n);
    forall k | k in f.kids[n] ensures k != n { assert ParentOK(f, k, n); }
  }

  // A finished node does not notice what happens to nodes that are not finished.
  lemma KeyedSame(o: Orders, init: bool, msg: map<MuttThread, Email>, w: Walk, v: Walk, m: MuttThread)
    requires m in w.done && NodeDone(o, init, msg, w, m) && w.done <= v.done && ListOf(v.f, Some(m)) == ListOf(w.f, Some(m))
    requires w.done <= w.aux.Keys && w.done <= w.thr.Keys
    requires forall n :: n in w.done ==> n in v.aux && n in v.thr && v.aux[n] == w.aux[n] && v.thr[n] == w.thr[n]
    ensures NodeDone(o, init, msg, v, m)
  {
    hide InOrder;
    var l := ListOf(w.f, Some(m));
    if init {
      SameOrder(o.ranks, w.aux, v.aux, Turned(o.aux), l);
      SameKeys(o, MsgOf(msg, m), w, v, l, m);
    }
  }

  lemma SameOrder(r: Ranks, keys: map<MuttThread, Email?>, keys': map<MuttThread, Email?>, sort: SortType, l: seq<MuttThread>)
    requires InOrder(r, keys, sort, false, l) && forall n :: n in l ==> n in keys && n in keys' && keys'[n] == keys[n]
    ensures InOrder(r, keys', sort, false, l)
  {
    hide Compare;
    forall i, j | 0 <= i < j < |l| ensures Before(r, keys', sort, false, l[i], l[j]) {
      assert Before(r, keys, sort, false, l[i], l[j]);
      assert l[i] in l && l[j] in l;
    }
  }

  lemma SameKeys(o: Orders, m: Email?, w: Walk, v: Walk, l: seq<MuttThread>, n: MuttThread)
    requires forall k :: k in l ==> k in w.aux && k in v.aux && v.aux[k] == w.aux[k] && k in w.thr && k in v.thr && v.thr[k] == w.thr[k]
    requires n in w.aux && n in v.aux && v.aux[n] == w.aux[n] && n in w.thr && n in v.thr && v.thr[n] == w.thr[n]
    requires w.aux[n] != null && w.thr[n] != null
    ensures AuxRight(o, m, w.aux, l, w.aux[n]) ==> AuxRight(o, m, v.aux, l, v.aux[n])
    ensures ThrRight(o, m, w.aux[n], w.thr, l, w.thr[n]) ==> ThrRight(o, m, v.aux[n], v.thr, l, v.thr[n])
  {
  }

  ghost function Finished(w: Walk, n: MuttThread, a: Email?, t: Email?): Walk {
    Walk(w.f, w.aux[n := a], w.thr[n := t], w.ent, w.done + {n})
  }

  // Finishing n, whose children are finished.
  lemma FinishOK(o: Orders, init: bool, msg: map<MuttThread, Email>, f0: ThreadForest, w: Walk, n: MuttThread, a: Email?, t: Email?)
    requires MidWalk(o, init, msg, f0, w) && n in w.ent && n !in w.done
    requires forall k :: k in ListOf(w.f, Some(n)) ==> k in w.done
    requires KeysRight(o, init, msg, w.f, w.aux[n := a], w.thr[n := t], n)
    ensures var v := Finished(w, n, a, t); MidWalk(o, init, msg, f0, v) && Here(v, n)
  {
    hide *;
    var v := Finished(w, n, a, t);
    WalkWF(o, init, msg, f0, w);
    FinishedIs(w, n, a, t);
    KidsOfParent(w.f, n);
    AtDone(o, init, msg, f0, w, n);
    forall m | m in v.ent ensures if m in v.done then NodeDone(o, init, msg, v, m) && (m == n ==> Here(v, m)) else Here(v, m) {
      AtDone(o, init, msg, f0, w, m);
      FinishedAt(o, init, msg, w, n, a, t, m);
    }
    WalkClose(o, init, msg, f0, v);
  }

  lemma FinishedIs(w: Walk, n: MuttThread, a: Email?, t: Email?)
    ensures var v := Finished(w, n, a, t);
      v.f == w.f && v.ent == w.ent && v.done == w.done + {n} && v.aux == w.aux[n := a] && v.thr == w.thr[n := t]
  {
  }

  lemma FinishedAt(o: Orders, init: bool, msg: map<MuttThread, Email>, w: Walk, n: MuttThread, a: Email?, t: Email?, m: MuttThread)
    requires n in w.f.par && n !in w.done && (forall k :: k in ListOf(w.f, Some(n)) ==> k in w.done) && w.f.par[n] != Some(n)
    requires forall k :: k in w.f.par && w.f.par[k] == Some(n) ==> k in ListOf(w.f, Some(n))
    requires KeysRight(o, init, msg, w.f, w.aux[n := a], w.thr[n := t], n) && w.done <= w.aux.Keys && w.done <= w.thr.Keys
    requires if m in w.done then NodeDone(o, init, msg, w, m) else Here(w, m)
    ensures m in w.done || m == n ==> NodeDone(o, init, msg, Finished(w, n, a, t), m)
    ensures m !in w.done ==> Here(Finished(w, n, a, t), m)
  {
    hide KeysRight, Sibs, Attached, Later, Here;
    var v := Finished(w, n, a, t);
    if m in w.done {
      KeyedSame(o, init, msg, w, v, m);
    } else {
      HereAttached(w, m);
      HereStill(w, v, m);
    }
  }

  // More finished nodes, not n's parent.
  lemma HereStill(w: Walk, v: Walk, n: MuttThread)
    requires Here(w, n) && v.f.par == w.f.par && Sibs(v.f, n) == Sibs(w.f, n) && (Attached(w.f, n) ==> Attached(v.f, n))
    requires v.ent == w.ent && v.done >= w.done && (n in w.f.par && w.f.par[n].Some? ==> w.f.par[n].value !in v.done)
    ensures Here(v, n)
  {
    hide Sibs, Attached, Later;
  }

  lemma KidsOfParent(f: ThreadForest, n: MuttThread)
    requires WF(f) && n in f.par
    ensures forall k :: k in f.par && f.par[k] == Some(n) ==> k in ListOf(f, Some(n))
    ensures f.par[n] != Some(n)
  {
    forall k | k in f.par && f.par[k] == Some(n) ensures k in ListOf(f, Some(n)) { assert ParentOK(f, k, n); }
    Tables(f);
  }

  // From n, just entered, to its first child.
  lemma DownOK(o: Orders, init: bool, msg: map<MuttThread, Email>, f0: ThreadForest, w: Walk, n: MuttThread)
    requires MidWalk(o, init, msg, f0, w) && n in w.ent && n !in w.done && ListOf(w.f, Some(n)) != []
    requires forall k :: k in ListOf(w.f, Some(n)) ==> k !in w.ent
    ensures var k := ListOf(w.f, Some(n))[0]; Here(w, k) && k !in w.ent
  {
    hide WF, NodeDone;
    KidsApart(w.f, n);
    var l := ListOf(w.f, Some(n));
    assert l[0] in l && Sibs(w.f, l[0]) == l && Later(l, l[0]) == l[1..];
    assert l == [l[0]] + l[1..];
  }

  // From n, finished, to its next sibling.
  lemma NextOK(o: Orders, init: bool, msg: map<MuttThread, Email>, f0: ThreadForest, w: Walk, n: MuttThread)
    requires MidWalk(o, init, msg, f0, w) && n in w.done && Here(w, n) && NextOf(w.f, n).Some?
    ensures var m := NextOf(w.f, n).value; Here(w, m) && m !in w.ent
  {
    hide *;
    WalkWF(o, init, msg, f0, w);
    NextHere(w, n, NextOf(w.f, n).value);
  }

  lemma NextHere(w: Walk, n: MuttThread, m: MuttThread)
    requires WF(w.f) && n in w.done && w.done <= w.ent && Here(w, n) && NextOf(w.f, n) == Some(m)
    ensures Here(w, m) && m !in w.ent
  {
    HereAttached(w, n);
    AttachedSibs(w.f, n);
    NextSplits(w.f, n, m);
    hide Later, Sibs, WF, Attached, NextOf;
  }

  lemma NextSplits(f: ThreadForest, n: MuttThread, m: MuttThread)
    requires WF(f) && Attached(f, n) && NextOf(f, n) == Some(m)
    ensures m in Sibs(f, n) && m in Later(Sibs(f, n), n)
    ensures forall x :: x in Later(Sibs(f, n), n) ==> x == m || x in Later(Sibs(f, n), m)
    ensures forall x :: x in Later(Sibs(f, n), m) ==> x in Later(Sibs(f, n), n)
  {
    AttachedInSibs(f, n);
    hide WF, Attached, Sibs, Later;
    var l := Sibs(f, n);
    SplitList(l, n, m);
  }

  lemma SplitList(l: seq<MuttThread>, n: MuttThread, m: MuttThread)
    requires NoDup(l) && n in l && NextIn(l, n) == Some(m)
    ensures m in l && Later(l, n) == [m] + Later(l, m)
  {
    LaterNext(l, n);
  }

  // n, finished, is the last one: all its siblings are finished.
  lemma LastOK(o: Orders, init: bool, msg: map<MuttThread, Email>, f0: ThreadForest, w: Walk, n: MuttThread)
    requires MidWalk(o, init, msg, f0, w) && n in w.done && Here(w, n) && NextOf(w.f, n).None?
    ensures var l := ListOf(w.f, w.f.par[n]);
      l == Sibs(w.f, n) && n in l && NoDup(l) && l[|l| - 1] == n && forall x :: x in l ==> x in w.done
    ensures w.f.par[n].Some? ==>
      var p := w.f.par[n].value; p in w.f.kids && p in w.ent && p !in w.done && Here(w, p) && Lvl(w.f, p) < Lvl(w.f, n)
  {
    hide NodeDone, Permuted, Later, KidsOK;
    AttachedInSibs(w.f, n);
    var l := Sibs(w.f, n);
    if w.f.par[n].Some? { assert ParentOK(w.f, n, w.f.par[n].value); }
    var i :| 0 <= i < |l| && l[i] == n;
    NextAt(l, i);
    assert NextOf(w.f, n) == NextIn(l, n);
  }

  // The list of n's siblings, all finished, in another order.
  lemma RelistOK(o: Orders, init: bool, msg: map<MuttThread, Email>, f0: ThreadForest, w: Walk, p: Option<MuttThread>, l: seq<MuttThread>)
    requires MidWalk(o, init, msg, f0, w) && multiset(l) == multiset(ListOf(w.f, p)) && l != []
    requires p.Some? ==> p.value in w.f.kids && p.value in w.ent && p.value !in w.done
    requires forall x :: x in ListOf(w.f, p) ==> x in w.done
    ensures var v := w.(f := WithList(w.f, p, l)); MidWalk(o, init, msg, f0, v) && Here(v, l[|l| - 1]) && l[|l| - 1] in v.done
    ensures var v := w.(f := WithList(w.f, p, l)); NextOf(v.f, l[|l| - 1]).None? && v.f.par[l[|l| - 1]] == p && ListOf(v.f, p) == l
  {
    hide *;
    var v := w.(f := WithList(w.f, p, l));
    WalkWF(o, init, msg, f0, w);
    WithListWF(w.f, p, l);
    SameMembers(l, ListOf(w.f, p));
    Repermuted(f0, w.f, p, l);
    forall m | m in v.ent ensures if m in v.done then NodeDone(o, init, msg, v, m) else Here(v, m) {
      AtDone(o, init, msg, f0, w, m);
      RelistedNode(o, init, msg, w, p, l, m);
    }
    WalkClose(o, init, msg, f0, v);
    LastOfList(v.f, p, l);
    LastHere(v, p, l);
  }

  lemma RelistedNode(o: Orders, init: bool, msg: map<MuttThread, Email>, w: Walk, p: Option<MuttThread>, l: seq<MuttThread>, m: MuttThread)
    requires WF(w.f) && multiset(l) == multiset(ListOf(w.f, p)) && (p.Some? ==> p.value in w.f.kids && p.value !in w.done)
    requires (forall x :: x in ListOf(w.f, p) ==> x in w.done) && w.done <= w.aux.Keys && w.done <= w.thr.Keys
    requires if m in w.done then NodeDone(o, init, msg, w, m) else Here(w, m)
    ensures if m in w.done then NodeDone(o, init, msg, w.(f := WithList(w.f, p, l)), m) else Here(w.(f := WithList(w.f, p, l)), m)
  {
    hide NodeDone, Here, Attached, Sibs, WF;
    RelistedSibs(w.f, p, l);
    if m in w.done {
      RelistedDone(o, init, msg, w, p, l, m);
    } else {
      HereAttached(w, m);
      HereStill(w, w.(f := WithList(w.f, p, l)), m);
    }
  }

  lemma HereAttached(w: Walk, m: MuttThread)
    requires Here(w, m)
    ensures m in w.f.par && Attached(w.f, m) && (w.f.par[m].Some? ==> w.f.par[m].value !in w.done)
  {
  }

  lemma RelistedDone(o: Orders, init: bool, msg: map<MuttThread, Email>, w: Walk, p: Option<MuttThread>, l: seq<MuttThread>, m: MuttThread)
    requires m in w.done && NodeDone(o, init, msg, w, m) && p != Some(m) && w.done <= w.aux.Keys && w.done <= w.thr.Keys
    ensures NodeDone(o, init, msg, w.(f := WithList(w.f, p, l)), m)
  {
    KeyedSame(o, init, msg, w, w.(f := WithList(w.f, p, l)), m);
  }

  lemma Repermuted(f0: ThreadForest, f: ThreadForest, p: Option<MuttThread>, l: seq<MuttThread>)
    requires Permuted(f0, f) && multiset(l) == multiset(ListOf(f, p)) && (p.Some? ==> p.value in f.kids)
    ensures Permuted(f0, WithList(f, p, l)) && WithList(f, p, l).par == f.par && WithList(f, p, l).kids.Keys == f.kids.Keys
    ensures ListOf(WithList(f, p, l), p) == l
  {
  }

  lemma LastHere(v: Walk, p: Option<MuttThread>, l: seq<MuttThread>)
    requires l != [] && (forall x :: x in l ==> x in v.done) && (p.Some? ==> p.value in v.ent && p.value !in v.done)
    requires var n := l[|l| - 1]; n in v.f.par && v.f.par[n] == p && Attached(v.f, n) && Sibs(v.f, n) == l && Later(l, n) == []
    ensures Here(v, l[|l| - 1])
  {
    hide Attached, Sibs, Later;
  }

  lemma RelistedSibs(f: ThreadForest, p: Option<MuttThread>, l: seq<MuttThread>)
    requires WF(f) && multiset(l) == multiset(ListOf(f, p)) && (p.Some? ==> p.value in f.kids)
    ensures forall m :: m in f.par && Attached(f, m) ==> Attached(WithList(f, p, l), m)
    ensures forall m :: m in f.par && Attached(f, m) && m !in ListOf(f, p) ==> Sibs(WithList(f, p, l), m) == Sibs(f, m)
  {
    SameMembers(l, ListOf(f, p));
    forall m | m in f.par && Attached(f, m) && m !in ListOf(f, p) ensures Sibs(WithList(f, p, l), m) == Sibs(f, m) {
      AttachedInSibs(f, m);
    }
  }

  lemma LastOfList(f: ThreadForest, p: Option<MuttThread>, l: seq<MuttThread>)
    requires WF(f) && ListOf(f, p) == l && l != [] && (p.Some? ==> p.value in f.kids)
    ensures var n := l[|l| - 1]; n in f.par && f.par[n] == p && Attached(f, n) && Sibs(f, n) == l && Later(l, n) == [] && NextOf(f, n).None?
  {
    if p.Some? { assert KidsOK(f, p.value); }
    NextAt(l, |l| - 1);
  }

  // --- the end ---

  // At the end everything that hangs somewhere is finished.
  lemma {:induction false} AllFinished(o: Orders, init: bool, msg: map<MuttThread, Email>, f0: ThreadForest, w: Walk, n: MuttThread)
    requires MidWalk(o, init, msg, f0, w) && (forall r :: r in w.f.roots ==> r in w.done)
    requires n in w.f.par && Attached(w.f, n) && (forall p :: p in w.f.kids && w.f.kids[p] != [] ==> Attached(w.f, p))
    ensures n in w.done
    decreases Lvl(w.f, n)
  {
    hide KeysRight, WF;
    UpOfPar(w.f, n);
    if w.f.par[n].Some? {
      var p := w.f.par[n].value;
      KidsOfParent(w.f, p);
      KidsApart(w.f, p);
      AllFinished(o, init, msg, f0, w, p);
    }
  }

  // What a run achieves: parents and sets of siblings as before, keys everywhere; and, if it is a
  // full run, right keys and every list in order.
  ghost predicate SubthreadsSorted(o: Orders, init: bool, msg: map<MuttThread, Email>, f0: ThreadForest, f: ThreadForest,
    aux: map<MuttThread, Email?>, thr: map<MuttThread, Email?>)
  {
    && WF(f) && Permuted(f0, f)
    && (forall n :: n in f.par && Attached(f, n) ==> KeysRight(o, init, msg, f, aux, thr, n))
    && (init ==> ListSorted(o, f, aux, thr, None))
  }

  lemma PermutedGrown(f: ThreadForest, g: ThreadForest, msg: map<MuttThread, Email>)
    requires Permuted(f, g) && Grown(f, msg) && WF(g)
    ensures Grown(g, msg) && forall n :: n in f.par ==> (Attached(g, n) <==> Attached(f, n))
  {
    SameMembers(g.roots, f.roots);
    forall n | n in g.kids ensures g.kids[n] == [] <==> f.kids[n] == [] { SameMembers(g.kids[n], f.kids[n]); }
    assert forall n :: n in f.par ==> (Attached(g, n) <==> Attached(f, n));
  }

  lemma EndOK(o: Orders, init: bool, msg: map<MuttThread, Email>, f0: ThreadForest, w: Walk)
    requires MidWalk(o, init, msg, f0, w) && Grown(f0, msg) && (forall r :: r in w.f.roots ==> r in w.done)
    requires init ==> ListSorted(o, w.f, w.aux, w.thr, None)
    ensures SubthreadsSorted(o, init, msg, f0, w.f, w.aux, w.thr)
  {
    hide KeysRight, WF, ListSorted, Attached;
    PermutedGrown(f0, w.f, msg);
    Tables(w.f);
    forall n | n in w.f.par && Attached(w.f, n) ensures KeysRight(o, init, msg, w.f, w.aux, w.thr, n) {
      AllFinished(o, init, msg, f0, w, n);
    }
  }

  // --- what the keys mean for whole subtrees ---

  // Under SORT_LAST sort_aux_key is a message of the subtree, and none in it ranks higher, although
  // only one child is looked at.
  lemma {:induction false} LastKeyIsHighest(o: Orders, msg: map<MuttThread, Email>, f0: ThreadForest, f: ThreadForest,
    aux: map<MuttThread, Email?>, thr: map<MuttThread, Email?>, n: MuttThread)
    requires SubthreadsSorted(o, true, msg, f0, f, aux, thr) && o.aux.last && n in f.par && Attached(f, n)
    ensures n in aux && aux[n] != null && Highest(o.ranks, o.aux.key, msg, Pre(f, n), aux[n])
    decreases Room(f, n), 1, 0
  {
    hide ListSorted, ThrRight, Permuted, Highest, AuxRight, Pre, PreAll, Attached, WF;
    assert KeysRight(o, true, msg, f, aux, thr, n);
    DownKids(f, n);
    KidsApart(f, n);
    if f.kids[n] != [] { LastKeysHighest(o, msg, f0, f, aux, thr, f.kids[n]); }
    HighestJoin(o, msg, f, aux, n);
  }

  // e is one of the messages of ns, and none of them ranks higher.
  ghost predicate Highest(r: Ranks, key: nat, msg: map<MuttThread, Email>, ns: seq<MuttThread>, e: Email) {
    (exists x :: x in ns && x in msg && msg[x] == e) && forall x :: x in ns && x in msg ==> r.of(msg[x], key) <= r.of(e, key)
  }

  // Of each tree of ks the key is the highest.
  ghost predicate EachHighest(r: Ranks, key: nat, msg: map<MuttThread, Email>, f: ThreadForest, aux: map<MuttThread, Email?>, ks: seq<MuttThread>) {
    forall k :: k in ks ==> k in aux && aux[k] != null && Highest(r, key, msg, Pre(f, k), aux[k])
  }

  lemma {:induction false} PreAllIff(f: ThreadForest, ks: seq<MuttThread>)
    ensures forall x :: x in PreAll(f, ks) ==> exists k :: k in ks && x in Pre(f, k)
    ensures forall k, x :: k in ks && x in Pre(f, k) ==> x in PreAll(f, ks)
    decreases |ks|
  {
    hide Pre;
    if ks != [] {
      PreAllIff(f, ks[1..]);
      forall x | x in PreAll(f, ks) ensures exists k :: k in ks && x in Pre(f, k) {
        if x !in Pre(f, ks[0]) {
          assert x in PreAll(f, ks[1..]);
          var k :| k in ks[1..] && x in Pre(f, k);
          assert k in ks;
        }
      }
    }
  }

  lemma {:induction false} LastKeysHighest(o: Orders, msg: map<MuttThread, Email>, f0: ThreadForest, f: ThreadForest,
    aux: map<MuttThread, Email?>, thr: map<MuttThread, Email?>, ks: seq<MuttThread>)
    requires SubthreadsSorted(o, true, msg, f0, f, aux, thr) && o.aux.last
    requires forall k :: k in ks ==> k in f.par && Attached(f, k)
    ensures EachHighest(o.ranks, o.aux.key, msg, f, aux, ks)
    decreases MaxRoom(f, ks), 2, |ks|
  {
    hide SubthreadsSorted, Attached, Highest, Pre, PreAll;
    if ks != [] {
      LastKeyIsHighest(o, msg, f0, f, aux, thr, ks[0]);
      LastKeysHighest(o, msg, f0, f, aux, thr, ks[1..]);
      assert forall k :: k in ks ==> k == ks[0] || k in ks[1..];
    }
  }

  lemma HighestJoin(o: Orders, msg: map<MuttThread, Email>, f: ThreadForest, aux: map<MuttThread, Email?>, n: MuttThread)
    requires n in f.kids && n in aux && aux[n] != null && o.aux.last && AuxRight(o, MsgOf(msg, n), aux, f.kids[n], aux[n])
    requires EachHighest(o.ranks, o.aux.key, msg, f, aux, f.kids[n]) && Pre(f, n) == [n] + PreAll(f, f.kids[n])
    ensures Highest(o.ranks, o.aux.key, msg, Pre(f, n), aux[n])
  {
    hide Pre, PreAll, Highest, AuxRight, EachHighest;
    var ks := f.kids[n];
    PreAllIff(f, ks);
    forall x | x in Pre(f, n) && x in msg ensures o.ranks.of(msg[x], o.aux.key) <= o.ranks.of(aux[n], o.aux.key) {
      if x in PreAll(f, ks) {
        var k :| k in ks && x in Pre(f, k);
        KeyBounds(o, msg, f, aux, n, k, x);
      } else {
        OwnBound(o, msg, f, aux, n);
      }
    }
    HighestFrom(o, msg, f, aux, n);
  }

  lemma KeyBounds(o: Orders, msg: map<MuttThread, Email>, f: ThreadForest, aux: map<MuttThread, Email?>, n: MuttThread, k: MuttThread, x: MuttThread)
    requires n in f.kids && n in aux && aux[n] != null && o.aux.last && AuxRight(o, MsgOf(msg, n), aux, f.kids[n], aux[n])
    requires EachHighest(o.ranks, o.aux.key, msg, f, aux, f.kids[n]) && k in f.kids[n] && x in Pre(f, k) && x in msg
    ensures o.ranks.of(msg[x], o.aux.key) <= o.ranks.of(aux[n], o.aux.key)
  {
    hide Pre;
    assert Highest(o.ranks, o.aux.key, msg, Pre(f, k), aux[k]);
  }

  lemma OwnBound(o: Orders, msg: map<MuttThread, Email>, f: ThreadForest, aux: map<MuttThread, Email?>, n: MuttThread)
    requires n in f.kids && n in aux && aux[n] != null && o.aux.last && AuxRight(o, MsgOf(msg, n), aux, f.kids[n], aux[n])
    ensures n in msg ==> o.ranks.of(msg[n], o.aux.key) <= o.ranks.of(aux[n], o.aux.key)
  {
  }

  lemma HighestFrom(o: Orders, msg: map<MuttThread, Email>, f: ThreadForest, aux: map<MuttThread, Email?>, n: MuttThread)
    requires n in f.kids && n in aux && aux[n] != null && o.aux.last && AuxRight(o, MsgOf(msg, n), aux, f.kids[n], aux[n])
    requires EachHighest(o.ranks, o.aux.key, msg, f, aux, f.kids[n]) && Pre(f, n) == [n] + PreAll(f, f.kids[n])
    requires forall k, x :: k in f.kids[n] && x in Pre(f, k) ==> x in PreAll(f, f.kids[n])
    requires forall x :: x in Pre(f, n) && x in msg ==> o.ranks.of(msg[x], o.aux.key) <= o.ranks.of(aux[n], o.aux.key)
    ensures Highest(o.ranks, o.aux.key, msg, Pre(f, n), aux[n])
  {
    hide Pre, PreAll;
    var ks := f.kids[n];
    assert n in Pre(f, n) by { assert Pre(f, n)[0] == n; }
    if !(n in msg && aux[n] == msg[n]) {
      var k :| k in ks && k in aux && aux[k] == aux[n];
      assert Highest(o.ranks, o.aux.key, msg, Pre(f, k), aux[k]);
      var x :| x in Pre(f, k) && x in msg && msg[x] == aux[k];
      assert x in PreAll(f, ks) && x in Pre(f, n);
    }
  }
}
