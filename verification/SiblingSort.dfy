// mutt_sort_subthreads, one list of siblings: collected, sorted and linked again.
module SiblingSort {
  import opened Wrappers
  import opened Forests
  import opened Mirror
  import opened Threads
  import opened EmailOrder

  // --- the list on the forest ---

  ghost function ListOf(f: ThreadForest, p: Option<MuttThread>): seq<MuttThread> {
    match p case None => f.roots case Some(q) => if q in f.kids then f.kids[q] else []
  }

  ghost function WithList(f: ThreadForest, p: Option<MuttThread>, l: seq<MuttThread>): ThreadForest {
    match p case None => f.(roots := l) case Some(q) => f.(kids := f.kids[q := l])
  }

  lemma {:induction false} NoDupCount<T>(s: seq<T>)
    ensures NoDup(s) <==> forall x :: x in s ==> multiset(s)[x] == 1
  {
    if s != [] {
      NoDupCount(s[1..]);
      assert s == [s[0]] + s[1..];
      assert multiset(s) == multiset{s[0]} + multiset(s[1..]);
      forall x | x in s[1..] ensures multiset(s[1..])[x] == multiset(s)[x] - (if x == s[0] then 1 else 0) {}
      if NoDup(s[1..]) && s[0] !in s[1..] {
        forall x | x in s ensures multiset(s)[x] == 1 {
          if x != s[0] { assert x in s[1..]; }
        }
      } else if s[0] in s[1..] {
        assert multiset(s)[s[0]] >= 2;
      } else {
        var x :| x in s[1..] && multiset(s[1..])[x] != 1;
        assert x in s && multiset(s)[x] == multiset(s[1..])[x];
      }
    }
  }

  lemma SameMembers<T>(a: seq<T>, b: seq<T>)
    requires multiset(a) == multiset(b)
    ensures NoDup(a) <==> NoDup(b)
    ensures |a| == |b| && forall x :: x in a <==> x in b
  {
    NoDupCount(a);
    NoDupCount(b);
    assert |multiset(a)| == |a| && |multiset(b)| == |b|;
    assert forall x :: x in a <==> x in multiset(a);
    assert forall x :: x in b <==> x in multiset(b);
  }

  lemma WithListWF(f: ThreadForest, p: Option<MuttThread>, l: seq<MuttThread>)
    requires WF(f) && multiset(l) == multiset(ListOf(f, p)) && (p.Some? ==> p.value in f.kids)
    ensures WF(WithList(f, p, l))
  {
    var g := WithList(f, p, l);
    SameMembers(l, ListOf(f, p));
    forall n | n in g.kids ensures KidsOK(g, n) { assert KidsOK(f, n); }
    forall n | n in g.par && g.par[n].Some? ensures ParentOK(g, n, g.par[n].value) {
      assert ParentOK(f, n, f.par[n].value);
    }
  }

  // The links after the list of p became l.
  ghost predicate RelistAt(f: ThreadForest, g: ThreadForest, p: Option<MuttThread>, l: seq<MuttThread>, n: MuttThread) {
    && FirstKid(g, n) == (if Some(n) == p then First(l) else FirstKid(f, n))
    && (Attached(g, n) <==> Attached(f, n))
    && (n in l ==> Attached(g, n) && NextOf(g, n) == NextIn(l, n) && PrevOf(g, n) == PrevIn(l, n))
    && (n !in l && Attached(f, n) ==> NextOf(g, n) == NextOf(f, n) && PrevOf(g, n) == PrevOf(f, n))
  }

  lemma WithListLinks(f: ThreadForest, p: Option<MuttThread>, l: seq<MuttThread>, n: MuttThread)
    requires WF(f) && multiset(l) == multiset(ListOf(f, p)) && (p.Some? ==> p.value in f.kids) && n in f.par
    ensures RelistAt(f, WithList(f, p, l), p, l, n)
  {
    hide NextIn, PrevIn;
    SameMembers(l, ListOf(f, p));
    if p.Some? { assert KidsOK(f, p.value); }
    if Attached(f, n) { AttachedInSibs(f, n); }
  }

  // --- the list on the heap ---

  // The siblings from the last one back.
  method Collect(last: MuttThread, ghost S: set<MuttThread>, ghost f: ThreadForest, ghost head: MuttThread?, ghost l: seq<MuttThread>)
    returns (arr: seq<MuttThread>)
    requires WF(f) && Linked(S, f, head, {}) && Attached(f, last) && l == Sibs(f, last) && |l| > 0 && l[|l| - 1] == last
    ensures arr == Rev(l)
  {
    hide PrevIn, NextIn, Attached, FirstKid, First, WF;
    arr := [];
    ghost var i: int := |l|;
    AttachedInSibs(f, last);
    var thread: MuttThread? := last;
    while thread != null
      invariant 0 <= i <= |l| && (if i == 0 then thread == null else thread == l[i - 1])
      invariant arr == Rev(l)[..|l| - i]
      decreases i
    {
      PrevLink(S, f, head, last, l, i - 1);
      arr := arr + [thread];
      thread := thread.prev;
      i := i - 1;
    }
  }

  lemma PrevLink(S: set<MuttThread>, f: ThreadForest, head: MuttThread?, last: MuttThread, l: seq<MuttThread>, i: nat)
    requires WF(f) && Linked(S, f, head, {}) && Attached(f, last) && l == Sibs(f, last) && i < |l|
    ensures l[i].prev == if i > 0 then l[i - 1] else null
  {
    AttachedInSibs(f, last);
    var n := l[i];
    assert n in l && Attached(f, n) && f.par[n] == f.par[last];
    assert Sibs(f, n) == l;
    PrevAt(l, i);
    assert NodeLinked(f, n);
  }

  ghost predicate NextSet(arr: seq<MuttThread>, i: nat)
    requires i < |arr|
    reads {arr[i]}`next
  {
    arr[i].next == if i == 0 then null else arr[i - 1]
  }

  ghost predicate PrevSet(arr: seq<MuttThread>, i: nat)
    requires i < |arr|
    reads {arr[i]}`prev
  {
    arr[i].prev == if i + 1 < |arr| then arr[i + 1] else null
  }

  // The loop that attaches the sorted siblings back together, the last one first.
  method Reattach(arr: seq<MuttThread>, parent: MuttThread?, ghost S: set<MuttThread>)
    requires arr != [] && NoDup(arr) && (forall n :: n in arr ==> n in S) && (parent != null ==> parent in S)
    modifies S`child, S`next, S`prev
    ensures forall i :: 0 <= i < |arr| ==> NextSet(arr, i) && PrevSet(arr, i)
    ensures forall n :: n in S && n !in arr ==> n.next == old(n.next) && n.prev == old(n.prev)
    ensures forall n :: n in S ==> n.child == if n == parent then arr[|arr| - 1] else old(n.child)
  {
    AllDifferent(arr);
    hide NoDup;
    var i := |arr|;
    arr[0].next := null;
    arr[i - 1].prev := null;
    if parent != null {
      parent.child := arr[i - 1];
    }
    i := i - 1;
    while i > 0
      invariant 0 <= i < |arr|
      invariant forall k :: i <= k < |arr| ==> PrevSet(arr, k)
      invariant forall k :: 0 <= k < |arr| && (k == 0 || i < k) ==> NextSet(arr, k)
      invariant forall n :: n in S && n !in arr ==> n.next == old(n.next) && n.prev == old(n.prev)
      invariant forall n :: n in S ==> n.child == if n == parent then arr[|arr| - 1] else old(n.child)
    {
      arr[i - 1].prev := arr[i];
      arr[i].next := arr[i - 1];
      i := i - 1;
    }
  }

  lemma AllDifferent(s: seq<MuttThread>)
    requires NoDup(s)
    ensures forall i, j :: 0 <= i < j < |s| ==> s[i] != s[j]
  {
    forall i, j | 0 <= i < j < |s| ensures s[i] != s[j] { NoDupIndex(s, i, j); }
  }

  // After that, the heap is the forest with the list in its new order.
  method Relist(arr: seq<MuttThread>, parent: MuttThread?, ghost S: set<MuttThread>, ghost f: ThreadForest, ghost head: MuttThread?)
    requires WF(f) && Linked(S, f, head, {}) && arr != [] && (parent != null ==> parent in S)
    requires multiset(arr) == multiset(ListOf(f, ToOption(parent)))
    modifies S`child, S`next, S`prev
    ensures WF(WithList(f, ToOption(parent), Rev(arr)))
    ensures Linked(S, WithList(f, ToOption(parent), Rev(arr)), if parent == null then arr[|arr| - 1] else head, {})
  {
    hide *;
    ghost var p, l := ToOption(parent), Rev(arr);
    ghost var g := WithList(f, p, l);
    ListFacts(S, f, head, arr, parent);
    WithListWF(f, p, l);
    forall n | n in S ensures RelistAt(f, g, p, l, n) { WithListLinks(f, p, l, n); }
    Reattach(arr, parent, S);
    forall n | n in S ensures NodeLinked(g, n) {
      RevLinks(arr, n);
      NodeRelinked(f, g, parent, arr, n, old(n.child), old(n.next), old(n.prev));
    }
    RelinkedAll(S, f, head, arr, parent);
  }

  lemma RelinkedAll(S: set<MuttThread>, f: ThreadForest, head: MuttThread?, arr: seq<MuttThread>, parent: MuttThread?)
    requires S == f.par.Keys && arr != []
    requires forall n :: n in S ==> n.parent == OrNull(f.par[n]) && NodeLinked(WithList(f, ToOption(parent), Rev(arr)), n)
    requires parent != null ==> head == OrNull(First(f.roots))
    ensures Linked(S, WithList(f, ToOption(parent), Rev(arr)), if parent == null then arr[|arr| - 1] else head, {})
  {
    hide NodeLinked;
  }

  function ToOption(n: MuttThread?): Option<MuttThread> { if n == null then None else Some(n) }

  lemma ListFacts(S: set<MuttThread>, f: ThreadForest, head: MuttThread?, arr: seq<MuttThread>, parent: MuttThread?)
    requires WF(f) && Linked(S, f, head, {}) && (parent != null ==> parent in S)
    requires multiset(arr) == multiset(ListOf(f, ToOption(parent)))
    ensures NoDup(arr) && (forall n :: n in arr ==> n in S) && S == f.par.Keys && head == OrNull(First(f.roots))
    ensures ToOption(parent).Some? ==> ToOption(parent).value in f.kids
    ensures multiset(Rev(arr)) == multiset(ListOf(f, ToOption(parent)))
    ensures forall n :: n in S ==> n.child == OrNull(FirstKid(f, n)) && n.parent == OrNull(f.par[n])
    ensures forall n :: n in S && Attached(f, n) ==> n.next == OrNull(NextOf(f, n)) && n.prev == OrNull(PrevOf(f, n))
  {
    hide Attached, NextOf, PrevOf, FirstKid;
    assert forall n :: n in S ==> NodeLinked(f, n);
    SameMembers(arr, ListOf(f, ToOption(parent)));
    if parent != null { assert KidsOK(f, parent); }
    RevCount(arr);
  }

  lemma {:induction false} RevCount<T>(s: seq<T>)
    ensures multiset(Rev(s)) == multiset(s)
  {
    if s != [] {
      RevCount(s[1..]);
      assert Rev(s) == Rev(s[1..]) + [s[0]];
      assert s == [s[0]] + s[1..];
    }
  }

  // The neighbours in the list turned round.
  ghost predicate InTurn(arr: seq<MuttThread>, n: MuttThread) {
    forall i :: 0 <= i < |arr| && arr[i] == n ==> TurnedAt(arr, i)
  }

  ghost predicate TurnedAt(arr: seq<MuttThread>, i: nat)
    requires i < |arr|
  {
    && NextIn(Rev(arr), arr[i]) == (if i > 0 then Some(arr[i - 1]) else None)
    && PrevIn(Rev(arr), arr[i]) == (if i + 1 < |arr| then Some(arr[i + 1]) else None)
  }

  lemma RevLinks(arr: seq<MuttThread>, n: MuttThread)
    requires NoDup(arr)
    ensures n in arr <==> n in Rev(arr)
    ensures InTurn(arr, n)
    ensures arr != [] ==> First(Rev(arr)) == Some(arr[|arr| - 1])
  {
    hide NextIn, PrevIn;
    var l := Rev(arr);
    RevNoDup(arr);
    forall i | 0 <= i < |arr| && arr[i] == n ensures TurnedAt(arr, i) {
      NextAt(l, |l| - 1 - i);
      PrevAt(l, |l| - 1 - i);
    }
  }

  lemma NodeRelinked(f: ThreadForest, g: ThreadForest, parent: MuttThread?, arr: seq<MuttThread>, n: MuttThread,
    child: MuttThread?, next: MuttThread?, prev: MuttThread?)
    requires RelistAt(f, g, ToOption(parent), Rev(arr), n) && arr != []
    requires child == OrNull(FirstKid(f, n)) && (Attached(f, n) ==> next == OrNull(NextOf(f, n)) && prev == OrNull(PrevOf(f, n)))
    requires n in arr <==> n in Rev(arr)
    requires First(Rev(arr)) == Some(arr[|arr| - 1])
    requires InTurn(arr, n)
    requires forall i :: 0 <= i < |arr| ==> NextSet(arr, i) && PrevSet(arr, i)
    requires n !in arr ==> n.next == next && n.prev == prev
    requires n.child == if n == parent then arr[|arr| - 1] else child
    ensures NodeLinked(g, n)
  {
    hide NextIn, PrevIn, Attached, FirstKid, NextOf, PrevOf, First, Rev;
    if n in arr {
      var i :| 0 <= i < |arr| && arr[i] == n;
      assert NextSet(arr, i) && PrevSet(arr, i) && TurnedAt(arr, i);
    }
  }

  // --- sorting ---

  // The sort methods as mutt_sort_subthreads keeps them, turned; reverse: the style is UT_REVERSE.
  datatype Orders = Orders(ranks: Ranks, sort: SortType, aux: SortType, reverse: bool)

  // compare_threads
  function CompareThreads(ta: MuttThread, tb: MuttThread, o: Orders): int
    requires ta.parent == tb.parent
    requires ta.sortAuxKey != null && tb.sortAuxKey != null && ta.sortThreadKey != null && tb.sortThreadKey != null
    reads ta, tb
  {
    if ta.parent != null then Compare(o.ranks, ta.sortAuxKey, tb.sortAuxKey, o.aux, true)
    else Compare(o.ranks, ta.sortThreadKey, tb.sortThreadKey, o.sort, true)
  }

  ghost predicate Before(r: Ranks, keys: map<MuttThread, Email?>, sort: SortType, ur: bool, a: MuttThread, b: MuttThread) {
    a in keys && b in keys && keys[a] != null && keys[b] != null && Compare(r, keys[a], keys[b], sort, ur) <= 0
  }

  ghost predicate InOrder(r: Ranks, keys: map<MuttThread, Email?>, sort: SortType, ur: bool, l: seq<MuttThread>) {
    forall i, j :: 0 <= i < j < |l| ==> Before(r, keys, sort, ur, l[i], l[j])
  }

  lemma BeforeOrder(r: Ranks, keys: map<MuttThread, Email?>, sort: SortType, ur: bool, a: MuttThread, b: MuttThread, c: MuttThread)
    ensures a in keys && b in keys && keys[a] != null && keys[b] != null && !Before(r, keys, sort, ur, a, b) ==> Before(r, keys, sort, ur, b, a)
    ensures Before(r, keys, sort, ur, a, b) && Before(r, keys, sort, ur, b, c) ==> Before(r, keys, sort, ur, a, c)
  {
    hide Compare;
    if a in keys && b in keys && keys[a] != null && keys[b] != null {
      if c in keys && keys[c] != null { CompareOrder(r, keys[a], keys[b], keys[c], sort, ur); }
      CompareOrder(r, keys[a], keys[b], keys[a], sort, ur);
    }
  }

  // Backwards by the turned method is forwards by the method.
  lemma TurnedRound(r: Ranks, keys: map<MuttThread, Email?>, sort: SortType, arr: seq<MuttThread>)
    requires InOrder(r, keys, sort, true, arr)
    ensures InOrder(r, keys, Turned(sort), false, Rev(arr))
  {
    hide Compare;
    var l := Rev(arr);
    forall i, j | 0 <= i < j < |l| ensures Before(r, keys, Turned(sort), false, l[i], l[j]) {
      var a, b := arr[|l| - 1 - j], arr[|l| - 1 - i];
      assert Before(r, keys, sort, true, a, b);
      CompareTurned(r, keys[a], keys[b], sort, true);
    }
  }

  // What the comparison looks at.
  ghost predicate ComparedBy(a: seq<MuttThread>, parent: MuttThread?, keys: map<MuttThread, Email?>)
    reads a
  {
    forall n :: n in a ==>
      && n.parent == parent && n.sortAuxKey != null && n.sortThreadKey != null
      && n in keys && keys[n] == if parent != null then n.sortAuxKey else n.sortThreadKey
  }

  // A sorting routine, for mutt_qsort_r.
  method SortArray(a: seq<MuttThread>, o: Orders, ghost parent: MuttThread?, ghost keys: map<MuttThread, Email?>) returns (b: seq<MuttThread>)
    requires ComparedBy(a, parent, keys)
    ensures multiset(b) == multiset(a)
    ensures InOrder(o.ranks, keys, if parent != null then o.aux else o.sort, true, b)
  {
    hide Compare, InOrder, ComparedBy;
    ghost var sort := if parent != null then o.aux else o.sort;
    b := [];
    NoneInOrder(o.ranks, keys, sort);
    for i := 0 to |a|
      invariant multiset(b) == multiset(a[..i]) && InOrder(o.ranks, keys, sort, true, b)
    {
      assert a[..i + 1] == a[..i] + [a[i]];
      KeyedPart(a, i, b, parent, keys);
      b := InsertInto(b, a[i], o, parent, keys);
    }
    assert a[..|a|] == a;
  }

  lemma KeyedPart(a: seq<MuttThread>, i: nat, b: seq<MuttThread>, parent: MuttThread?, keys: map<MuttThread, Email?>)
    requires ComparedBy(a, parent, keys) && i < |a| && multiset(b) == multiset(a[..i])
    ensures ComparedBy(b + [a[i]], parent, keys)
  {
    SameMembers(b, a[..i]);
  }

  lemma NoneInOrder(r: Ranks, keys: map<MuttThread, Email?>, sort: SortType)
    ensures InOrder(r, keys, sort, true, [])
  {
  }

  method InsertInto(b: seq<MuttThread>, x: MuttThread, o: Orders, ghost parent: MuttThread?, ghost keys: map<MuttThread, Email?>)
    returns (c: seq<MuttThread>)
    requires ComparedBy(b + [x], parent, keys)
    requires InOrder(o.ranks, keys, if parent != null then o.aux else o.sort, true, b)
    ensures multiset(c) == multiset(b) + multiset{x}
    ensures InOrder(o.ranks, keys, if parent != null then o.aux else o.sort, true, c)
  {
    hide Compare;
    ghost var sort := if parent != null then o.aux else o.sort;
    assert (b + [x])[|b|] == x;
    var i := |b|;
    while i > 0 && CompareThreads(x, b[i - 1], o) < 0
      invariant 0 <= i <= |b|
      invariant i < |b| ==> Before(o.ranks, keys, sort, true, x, b[i])
    {
      assert b[i - 1] in b + [x];
      i := i - 1;
    }
    if i > 0 {
      assert b[i - 1] in b + [x];
      CompareOrder(o.ranks, keys[x], keys[b[i - 1]], keys[x], sort, true);
    }
    c := b[..i] + [x] + b[i..];
    assert b == b[..i] + b[i..];
    InsertedInOrder(o.ranks, keys, sort, b, x, i);
  }

  lemma InsertedInOrder(r: Ranks, keys: map<MuttThread, Email?>, sort: SortType, b: seq<MuttThread>, x: MuttThread, i: nat)
    requires i <= |b| && InOrder(r, keys, sort, true, b)
    requires i < |b| ==> Before(r, keys, sort, true, x, b[i])
    requires i > 0 ==> Before(r, keys, sort, true, b[i - 1], x)
    ensures InOrder(r, keys, sort, true, b[..i] + [x] + b[i..])
  {
    hide Before;
    var c := b[..i] + [x] + b[i..];
    forall j, k | 0 <= j < k < |c| ensures Before(r, keys, sort, true, c[j], c[k]) {
      if j == i && k > i + 1 {
        BeforeOrder(r, keys, sort, true, x, b[i], b[k - 1]);
      } else if k == i && j < i - 1 {
        BeforeOrder(r, keys, sort, true, b[j], b[i - 1], x);
      }
    }
  }
}
