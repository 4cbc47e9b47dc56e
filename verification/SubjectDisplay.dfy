// need_display_subject: whether the subject of a message is shown in the tree.
module SubjectDisplay {
  import opened Wrappers
  import opened Forests
  import opened Preorder
  import opened Threads
  import opened ThreadTree
  import opened TopmostWalk
  import opened SubtreeWalk

  // is_visible
  predicate IsVisible(e: Email)
    reads e`vnum, e`collapsed, e`visible
  {
    e.vnum >= 0 || (e.collapsed && e.visible)
  }

  // vis is the set of nodes whose message is visible.
  ghost predicate VisibleNodes(S: set<MuttThread>, msg: map<MuttThread, Email>, vis: set<MuttThread>)
    reads S`message, msg.Values`vnum, msg.Values`collapsed, msg.Values`visible
  {
    forall n :: n in S ==> (n in vis <==> n in msg && (msg[n].vnum >= 0 || (msg[n].collapsed && msg[n].visible)))
  }

  // The messages of the nodes ch differ in subject from those above them.
  ghost predicate ChangedNodes(S: set<MuttThread>, msg: map<MuttThread, Email>, ch: set<MuttThread>)
    reads msg.Values`subjectChanged
  {
    ch <= msg.Keys && forall n :: n in S && n in msg ==> (msg[n].subjectChanged <==> n in ch)
  }

  // --- siblings ---

  ghost function Before<T>(l: seq<T>, n: T): seq<T> {
    if l == [] || l[0] == n then [] else [l[0]] + Before(l[1..], n)
  }

  lemma {:induction false} BeforePrev<T>(l: seq<T>, n: T)
    requires n in l && NoDup(l)
    ensures if PrevIn(l, n).None? then Before(l, n) == []
            else PrevIn(l, n).value in l && Before(l, n) == Before(l, PrevIn(l, n).value) + [PrevIn(l, n).value]
  {
    if l[0] != n {
      if l[1] == n {
        assert Before(l[1..], n) == [];
      } else {
        BeforePrev(l[1..], n);
        var p := PrevIn(l[1..], n).value;
        assert p != l[0];
        assert Before(l, p) == [l[0]] + Before(l[1..], p);
      }
    }
  }

  // The siblings before n.
  ghost function Earlier(f: ThreadForest, n: MuttThread): seq<MuttThread> {
    Before(Sibs(f, n), n)
  }

  ghost function LastVisible(vis: set<MuttThread>, ns: seq<MuttThread>): Option<MuttThread> {
    if ns == [] then None
    else if ns[|ns| - 1] in vis then Some(ns[|ns| - 1])
    else LastVisible(vis, ns[..|ns| - 1])
  }

  lemma LastVisibleSnoc(vis: set<MuttThread>, ns: seq<MuttThread>, n: MuttThread)
    ensures LastVisible(vis, ns + [n]) == if n in vis then Some(n) else LastVisible(vis, ns)
  {
    assert (ns + [n])[..|ns|] == ns;
  }

  // --- when the subject is shown ---

  // Up to the nearest visible message above n, or to the top if there is none, a subject changes; or
  // there is none.
  ghost predicate ShowsAbove(f: ThreadForest, vis: set<MuttThread>, ch: set<MuttThread>, n: MuttThread)
    decreases Lvl(f, n)
  {
    Up(f, n).None? || (Up(f, n).value !in vis && (Up(f, n).value in ch || ShowsAbove(f, vis, ch, Up(f, n).value)))
  }

  ghost predicate ShowsSubject(f: ThreadForest, vis: set<MuttThread>, ch: set<MuttThread>, hideSubject: bool, n: MuttThread) {
    var p := LastVisible(vis, Earlier(f, n));
    !hideSubject || n in ch || (p.Some? && p.value in ch) || ShowsAbove(f, vis, ch, n)
  }

  // Nothing above n shows its subject exactly if some visible message does, with no visible message and
  // no change of subject in between.
  lemma {:induction false} ShownAboveIff(f: ThreadForest, vis: set<MuttThread>, ch: set<MuttThread>, n: MuttThread)
    requires WF(f) && n in f.par
    ensures !ShowsAbove(f, vis, ch, n) <==> exists a :: NearestAbove(f, vis, ch, n, a)
    decreases Lvl(f, n)
  {
    hide WF;
    if Up(f, n).Some? {
      var p := Up(f, n).value;
      UpIn(f, n);
      ShownAboveIff(f, vis, ch, p);
      if p in vis {
        NearestHere(f, vis, ch, n);
      } else {
        forall a ensures NearestAbove(f, vis, ch, n, a) <==> p !in ch && NearestAbove(f, vis, ch, p, a) {
          NearestUp(f, vis, ch, n, a);
        }
      }
    }
  }

  ghost predicate NearestAbove(f: ThreadForest, vis: set<MuttThread>, ch: set<MuttThread>, n: MuttThread, a: MuttThread) {
    a != n && a in vis && IsUnder(f, n, a) && forall m :: m in f.par && m != n && m != a && IsUnder(f, n, m) && IsUnder(f, m, a) ==> m !in vis && m !in ch
  }

  lemma UpIn(f: ThreadForest, n: MuttThread)
    requires WF(f) && n in f.par && Up(f, n).Some?
    ensures Up(f, n).value in f.par
  {
    UpOfPar(f, n);
    Tables(f);
  }

  lemma NearestHere(f: ThreadForest, vis: set<MuttThread>, ch: set<MuttThread>, n: MuttThread)
    requires Up(f, n).Some? && Up(f, n).value in vis
    ensures NearestAbove(f, vis, ch, n, Up(f, n).value)
  {
    var p := Up(f, n).value;
    assert IsUnder(f, p, p);
    forall m | m in f.par && m != n && m != p && IsUnder(f, n, m) && IsUnder(f, m, p) ensures false {
      UnderBoth(f, m, p);
    }
  }

  lemma NearestUp(f: ThreadForest, vis: set<MuttThread>, ch: set<MuttThread>, n: MuttThread, a: MuttThread)
    requires Up(f, n).Some? && Up(f, n).value !in vis && Up(f, n).value in f.par
    ensures NearestAbove(f, vis, ch, n, a) <==> Up(f, n).value !in ch && NearestAbove(f, vis, ch, Up(f, n).value, a)
  {
    var p := Up(f, n).value;
    assert IsUnder(f, p, p) && IsUnder(f, n, p);
    assert forall m :: m != n ==> (IsUnder(f, n, m) <==> IsUnder(f, p, m));
    if NearestAbove(f, vis, ch, p, a) && a == n { UnderBoth(f, n, p); }
    if NearestAbove(f, vis, ch, p, a) {
      forall m | m in f.par && m != n && m != a && IsUnder(f, n, m) && IsUnder(f, m, a) && p !in ch ensures m !in vis && m !in ch { }
    }
    if NearestAbove(f, vis, ch, n, a) {
      forall m | m in f.par && m != p && m != a && IsUnder(f, p, m) && IsUnder(f, m, a) ensures m !in vis && m !in ch {
        if m == n { UnderBoth(f, n, p); }
      }
    }
  }

  // --- need_display_subject ---

  method NeedDisplaySubject(e: Email, hideSubject: bool, ghost S: set<MuttThread>, ghost f: ThreadForest, ghost msg: map<MuttThread, Email>,
    ghost vis: set<MuttThread>, ghost ch: set<MuttThread>, ghost head: MuttThread?) returns (show: bool)
    requires Linked(S, f, head, {}) && Messages(S, msg) && WF(f) && VisibleNodes(S, msg, vis) && ChangedNodes(S, msg, ch)
    requires e.thread != null && e.thread in S && e.thread in msg && msg[e.thread] == e && Attached(f, e.thread)
    ensures show == ShowsSubject(f, vis, ch, hideSubject, e.thread)
  {
    hide *;
    var n: MuttThread := e.thread;
    EmailHere(S, msg, vis, ch, n);
    ShowsIs(f, vis, ch, hideSubject, n);
    if !hideSubject || e.subjectChanged {
      return true;
    }
    var p := VisibleBefore(n, S, f, msg, vis, head);
    if p != null {
      EmailHere(S, msg, vis, ch, p);
      if p.message.subjectChanged {
        return true;
      }
    }
    show := AboveShows(n, S, f, msg, vis, ch, head);
  }

  lemma ShowsIs(f: ThreadForest, vis: set<MuttThread>, ch: set<MuttThread>, hideSubject: bool, n: MuttThread)
    ensures var p := LastVisible(vis, Earlier(f, n));
      ShowsSubject(f, vis, ch, hideSubject, n) <==> !hideSubject || n in ch || (p.Some? && p.value in ch) || ShowsAbove(f, vis, ch, n)
  {
  }

  lemma EmailHere(S: set<MuttThread>, msg: map<MuttThread, Email>, vis: set<MuttThread>, ch: set<MuttThread>, n: MuttThread)
    requires Messages(S, msg) && VisibleNodes(S, msg, vis) && ChangedNodes(S, msg, ch) && n in S
    ensures n.message == null <==> n !in msg
    ensures n in msg ==> n.message == msg[n] && (n.message.subjectChanged <==> n in ch) && (IsVisible(n.message) <==> n in vis)
    ensures (n in vis ==> n in msg) && (n in ch ==> n in msg)
  {
  }

  // The nearest visible sibling before n.
  method VisibleBefore(n: MuttThread, ghost S: set<MuttThread>, ghost f: ThreadForest, ghost msg: map<MuttThread, Email>, ghost vis: set<MuttThread>,
    ghost head: MuttThread?) returns (tmp: MuttThread?)
    requires Linked(S, f, head, {}) && Messages(S, msg) && WF(f) && VisibleNodes(S, msg, vis) && n in S && Attached(f, n)
    ensures tmp != null ==> tmp in S && tmp in vis
    ensures LastVisible(vis, Earlier(f, n)) == if tmp == null then None else Some(tmp)
  {
    hide *;
    PrevHere(S, f, head, vis, n);
    tmp := n.prev;
    while tmp != null
      invariant tmp != null ==> tmp in S && Attached(f, tmp) && Sibs(f, tmp) == Sibs(f, n)
      invariant LastVisible(vis, Earlier(f, n)) == if tmp == null then None else LastVisible(vis, Earlier(f, tmp) + [tmp])
      decreases if tmp == null then 0 else |Earlier(f, tmp)| + 1
    {
      VisibleHere(S, msg, vis, tmp);
      LastVisibleSnoc(vis, Earlier(f, tmp), tmp);
      if tmp.message != null && IsVisible(tmp.message) {
        return;
      }
      PrevHere(S, f, head, vis, tmp);
      tmp := tmp.prev;
    }
  }

  lemma VisibleHere(S: set<MuttThread>, msg: map<MuttThread, Email>, vis: set<MuttThread>, n: MuttThread)
    requires Messages(S, msg) && VisibleNodes(S, msg, vis) && n in S
    ensures n in vis <==> n.message != null && IsVisible(n.message)
  {
  }

  lemma PrevHere(S: set<MuttThread>, f: ThreadForest, head: MuttThread?, vis: set<MuttThread>, n: MuttThread)
    requires Linked(S, f, head, {}) && WF(f) && n in S && Attached(f, n)
    ensures n.prev == null ==> LastVisible(vis, Earlier(f, n)) == None
    ensures n.prev != null ==>
      var p: MuttThread := n.prev;
      p in S && Attached(f, p) && Sibs(f, p) == Sibs(f, n) && Earlier(f, n) == Earlier(f, p) + [p]
  {
    AttachedInSibs(f, n);
    BeforePrev(Sibs(f, n), n);
    LinkedNodes(S, f, head, {});
    assert NodeLinked(f, n);
  }

  // The walk up.
  method AboveShows(n: MuttThread, ghost S: set<MuttThread>, ghost f: ThreadForest, ghost msg: map<MuttThread, Email>, ghost vis: set<MuttThread>,
    ghost ch: set<MuttThread>, ghost head: MuttThread?) returns (show: bool)
    requires Linked(S, f, head, {}) && Messages(S, msg) && WF(f) && VisibleNodes(S, msg, vis) && ChangedNodes(S, msg, ch) && n in S
    ensures show == ShowsAbove(f, vis, ch, n)
  {
    hide *;
    UpHere(S, f, head, vis, ch, n);
    var tmp := n.parent;
    while tmp != null
      invariant tmp != null ==> tmp in S
      invariant ShowsAbove(f, vis, ch, n) == (tmp == null || (tmp !in vis && (tmp in ch || ShowsAbove(f, vis, ch, tmp))))
      decreases tmp != null, if tmp == null then 0 else Lvl(f, tmp)
    {
      EmailHere(S, msg, vis, ch, tmp);
      if tmp.message != null {
        if IsVisible(tmp.message) {
          return false;
        }
        if tmp.message.subjectChanged {
          return true;
        }
      }
      UpHere(S, f, head, vis, ch, tmp);
      tmp := tmp.parent;
    }
    show := true;
  }

  lemma UpHere(S: set<MuttThread>, f: ThreadForest, head: MuttThread?, vis: set<MuttThread>, ch: set<MuttThread>, n: MuttThread)
    requires Linked(S, f, head, {}) && WF(f) && n in S
    ensures n.parent == null ==> ShowsAbove(f, vis, ch, n)
    ensures n.parent != null ==>
      var p: MuttThread := n.parent;
      p in S && Lvl(f, p) < Lvl(f, n) && ShowsAbove(f, vis, ch, n) == (p !in vis && (p in ch || ShowsAbove(f, vis, ch, p)))
  {
    ParentField(S, f, head, n);
    UpOfPar(f, n);
    LinkedNodes(S, f, head, {});
    Tables(f);
  }
}
