// What the display order means for the array of emails: siblings, with all that is below them, stand in
// the order of their list, and messages before those below them; or the other way round.
module DisplayOrder {
  import opened Wrappers
  import opened Forests
  import opened Mirror
  import opened Preorder
  import opened Threads
  import opened Context
  import opened ThreadTree
  import opened SortThreads
  import opened Linearize
  import opened EmailOrder
  import opened SubthreadSort
  import opened MuttSort

  // x stands before y in s.
  ghost predicate Parted<T>(s: seq<T>, x: T, y: T) {
    exists k :: 0 <= k <= |s| && x in s[..k] && y in s[k..]
  }

  lemma PartedIn<T>(a: seq<T>, s: seq<T>, b: seq<T>, x: T, y: T)
    requires Parted(s, x, y)
    ensures Parted(a + s + b, x, y)
  {
    var k :| 0 <= k <= |s| && x in s[..k] && y in s[k..];
    var t := a + s + b;
    assert t[..|a| + k] == a + s[..k] && t[|a| + k..] == s[k..] + b;
  }

  lemma PartedAt<T>(a: seq<T>, b: seq<T>, x: T, y: T)
    requires x in a && y in b
    ensures Parted(a + b, x, y)
  {
    assert (a + b)[..|a|] == a && (a + b)[|a|..] == b;
  }

  // Trees of one list.
  lemma TreesParted(f: ThreadForest, ks: seq<MuttThread>, i: nat, j: nat, x: MuttThread, y: MuttThread)
    requires i < j < |ks| && x in Pre(f, ks[i]) && y in Pre(f, ks[j])
    ensures Parted(PreAll(f, ks), x, y)
  {
    hide Pre, PreAll;
    assert ks == ks[..j] + ks[j..];
    PreAllAppend(f, ks[..j], ks[j..]);
    assert ks[i] == ks[..j][i] && ks[j] == ks[j..][0];
    PreInAll(f, ks[..j], ks[i], x);
    PreInAll(f, ks[j..], ks[j], y);
    PartedAt(PreAll(f, ks[..j]), PreAll(f, ks[j..]), x, y);
  }

  // Two nodes in the trees of siblings, in the preorder of the whole.
  lemma SiblingsParted(f: ThreadForest, msg: map<MuttThread, Email>, p: Option<MuttThread>, ks: seq<MuttThread>, i: nat, j: nat, x: MuttThread, y: MuttThread)
    requires Grown(f, msg) && (if p.Some? then p.value in f.kids && ks == f.kids[p.value] else ks == f.roots)
    requires i < j < |ks| && x in f.par && y in f.par && IsUnder(f, x, ks[i]) && IsUnder(f, y, ks[j])
    ensures Parted(PreAll(f, f.roots), x, y)
  {
    hide *;
    GrownWF(f, msg);
    UnderPre(f, ks[i], x);
    UnderPre(f, ks[j], y);
    TreesParted(f, ks, i, j, x, y);
    if p.Some? {
      KidsIn(f, msg, p.value);
      PartedIn([p.value], PreAll(f, ks), [], x, y);
      assert [p.value] + PreAll(f, ks) + [] == Pre(f, p.value);
      PartedBelow(f, msg, p.value, x, y);
    }
  }

  lemma KidsIn(f: ThreadForest, msg: map<MuttThread, Email>, p: MuttThread)
    requires Grown(f, msg) && p in f.kids && f.kids[p] != []
    ensures p in f.par && Attached(f, p) && Pre(f, p) == [p] + PreAll(f, f.kids[p])
  {
    Tables(f);
    DownKids(f, p);
    hide Pre, PreAll;
  }

  // The tree of n is a stretch of the whole preorder.
  lemma PartedBelow(f: ThreadForest, msg: map<MuttThread, Email>, n: MuttThread, x: MuttThread, y: MuttThread)
    requires Grown(f, msg) && n in f.par && Attached(f, n) && Parted(Pre(f, n), x, y)
    ensures Parted(PreAll(f, f.roots), x, y)
  {
    hide *;
    GrownWF(f, msg);
    GrownRoot(f, msg, n);
    var a := AheadIsTail(f, n);
    PartedIn(a, Pre(f, n), After(f, n), x, y);
    assert a + Pre(f, n) + After(f, n) == a + (Pre(f, n) + After(f, n));
  }

  // A node and one below it.
  lemma BelowParted(f: ThreadForest, msg: map<MuttThread, Email>, x: MuttThread, y: MuttThread)
    requires Grown(f, msg) && x in f.par && y in f.par && x != y && IsUnder(f, y, x) && Attached(f, x)
    ensures Parted(PreAll(f, f.roots), x, y)
  {
    hide *;
    GrownWF(f, msg);
    UnderPre(f, x, y);
    DownKids(f, x);
    PartedAt([x], PreAll(f, f.kids[x]), x, y);
    PartedBelow(f, msg, x, x, y);
  }

  // --- in the array ---

  lemma {:induction false} MsgSeqParts(msg: map<MuttThread, Email>, a: seq<MuttThread>, b: seq<MuttThread>)
    ensures MsgSeq(msg, a + b) == MsgSeq(msg, a) + MsgSeq(msg, b)
  {
    if a == [] {
      assert a + b == b;
    } else {
      assert (a + b)[1..] == a[1..] + b;
      MsgSeqParts(msg, a[1..], b);
    }
  }

  lemma {:induction false} MsgSeqHas(msg: map<MuttThread, Email>, ns: seq<MuttThread>, n: MuttThread)
    requires n in ns && n in msg
    ensures msg[n] in MsgSeq(msg, ns)
  {
    if ns[0] != n { MsgSeqHas(msg, ns[1..], n); }
  }

  // The messages of two nodes, where each message occurs once.
  lemma MsgBefore(msg: map<MuttThread, Email>, ns: seq<MuttThread>, x: MuttThread, y: MuttThread, u: nat, v: nat)
    requires Parted(ns, x, y) && x in msg && y in msg && NoDup(MsgSeq(msg, ns))
    requires u < |MsgSeq(msg, ns)| && v < |MsgSeq(msg, ns)| && MsgSeq(msg, ns)[u] == msg[x] && MsgSeq(msg, ns)[v] == msg[y]
    ensures u < v
  {
    var k :| 0 <= k <= |ns| && x in ns[..k] && y in ns[k..];
    assert ns == ns[..k] + ns[k..];
    MsgSeqParts(msg, ns[..k], ns[k..]);
    MsgSeqHas(msg, ns[..k], x);
    MsgSeqHas(msg, ns[k..], y);
    var a, b := MsgSeq(msg, ns[..k]), MsgSeq(msg, ns[k..]);
    var u' :| 0 <= u' < |a| && a[u'] == msg[x];
    var v' :| 0 <= v' < |b| && b[v'] == msg[y];
    OnlyPlace(a + b, u, u');
    OnlyPlace(a + b, v, |a| + v');
  }

  lemma OnlyPlace(s: seq<Email>, i: nat, j: nat)
    requires NoDup(s) && i < |s| && j < |s| && s[i] == s[j]
    ensures i == j
  {
    if i < j { NoDupIndex(s, i, j); }
    if j < i { NoDupIndex(s, j, i); }
  }

  lemma InArray(c: Ctx, E: set<Email>, list: seq<Email>, reverse: bool, x: MuttThread, y: MuttThread, u: nat, v: nat)
    requires CtxOK(c, E, None, None) && c.done == c.thr.Keys && InDisplayOrder(c, list, reverse) && Parted(PreAll(c.f, c.f.roots), x, y)
    requires u < |list| && v < |list| && x in c.msg && y in c.msg && list[u] == c.msg[x] && list[v] == c.msg[y]
    ensures if reverse then v < u else u < v
  {
    hide PreAll, MsgSeq, CtxOK, Parted;
    DisplayedOnce(c, E);
    var d := Displayed(c.f, c.msg);
    if reverse {
      assert |Rev(d)| == |d| && Rev(d)[u] == d[|d| - 1 - u] && Rev(d)[v] == d[|d| - 1 - v];
      MsgBefore(c.msg, PreAll(c.f, c.f.roots), x, y, |d| - 1 - u, |d| - 1 - v);
    } else {
      MsgBefore(c.msg, PreAll(c.f, c.f.roots), x, y, u, v);
    }
  }

  lemma Seat(c: Ctx, E: set<Email>, e: Email)
    requires CtxOK(c, E, None, None) && c.done == c.thr.Keys && e in c.thr
    ensures c.thr[e] in c.msg && c.msg[c.thr[e]] == e && c.thr[e] in c.f.par && Attached(c.f, c.thr[e])
  {
    hide WF, HashOK;
    Tables(c.f);
    assert EmailOK(c, e);
    assert NodeOK(c, E, None, None, c.thr[e]);
  }

  // The messages at u and v of the array are in the trees of two siblings: the earlier sibling has its
  // messages first, or in the reverse style last.
  lemma SiblingsInArray(c: Ctx, E: set<Email>, list: seq<Email>, reverse: bool, p: Option<MuttThread>, i: nat, j: nat, u: nat, v: nat)
    requires CtxOK(c, E, None, None) && c.done == c.thr.Keys && InDisplayOrder(c, list, reverse)
    requires p.Some? ==> p.value in c.f.kids
    requires i < j < |if p.Some? then c.f.kids[p.value] else c.f.roots| && u < |list| && v < |list| && list[u] in c.thr && list[v] in c.thr
    requires var ks := if p.Some? then c.f.kids[p.value] else c.f.roots;
      IsUnder(c.f, c.thr[list[u]], ks[i]) && IsUnder(c.f, c.thr[list[v]], ks[j])
    ensures if reverse then v < u else u < v
  {
    hide CtxOK, WF, Pre, PreAll, IsUnder, Grown, Attached, InDisplayOrder, Parted;
    CtxGrown(c, E);
    Seat(c, E, list[u]);
    Seat(c, E, list[v]);
    var x, y := c.thr[list[u]], c.thr[list[v]];
    SiblingsParted(c.f, c.msg, p, if p.Some? then c.f.kids[p.value] else c.f.roots, i, j, x, y);
    InArray(c, E, list, reverse, x, y, u, v);
  }

  // A message comes before those below it, or in the reverse style after them.
  lemma ParentInArray(c: Ctx, E: set<Email>, list: seq<Email>, reverse: bool, u: nat, v: nat)
    requires CtxOK(c, E, None, None) && c.done == c.thr.Keys && InDisplayOrder(c, list, reverse)
    requires u < |list| && v < |list| && u != v && list[u] in c.thr && list[v] in c.thr && IsUnder(c.f, c.thr[list[v]], c.thr[list[u]])
    requires list[u] != list[v]
    ensures if reverse then v < u else u < v
  {
    hide CtxOK, WF, Pre, PreAll, IsUnder, Grown, Attached, InDisplayOrder, Parted;
    CtxGrown(c, E);
    Seat(c, E, list[u]);
    Seat(c, E, list[v]);
    BelowParted(c.f, c.msg, c.thr[list[u]], c.thr[list[v]]);
    InArray(c, E, list, reverse, c.thr[list[u]], c.thr[list[v]], u, v);
  }

  // The messages of a thread whose key ranks lower come first, if the method is reversed exactly in the
  // reverse style; otherwise last.
  lemma ThreadsInArray(c: Ctx, E: set<Email>, list: seq<Email>, reverse: bool, thr: map<MuttThread, Email?>, ranks: Ranks, s: SortType,
                       i: nat, j: nat, u: nat, v: nat)
    requires CtxOK(c, E, None, None) && c.done == c.thr.Keys && InDisplayOrder(c, list, reverse) && ThreadsInTurn(c.f, thr, ranks, s)
    requires i < |c.f.roots| && j < |c.f.roots| && u < |list| && v < |list| && list[u] in c.thr && list[v] in c.thr
    requires IsUnder(c.f, c.thr[list[u]], c.f.roots[i]) && IsUnder(c.f, c.thr[list[v]], c.f.roots[j])
    requires c.f.roots[i] in thr && c.f.roots[j] in thr && thr[c.f.roots[i]] != null && thr[c.f.roots[j]] != null
    requires ranks.of(thr[c.f.roots[i]], s.key) < ranks.of(thr[c.f.roots[j]], s.key)
    ensures if s.reverse == reverse then u < v else v < u
  {
    hide CtxOK, WF, IsUnder, InDisplayOrder;
    if i < j {
      assert Leading(thr, ranks, s, c.f.roots, i, j);
      SiblingsInArray(c, E, list, reverse, None, i, j, u, v);
    } else {
      if j < i {
        assert Leading(thr, ranks, s, c.f.roots, j, i);
        SiblingsInArray(c, E, list, reverse, None, j, i, v, u);
      }
    }
  }
}
