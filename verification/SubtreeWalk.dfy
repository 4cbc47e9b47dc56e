// The walk over everything below a node, as several loops of the program do it: to the first
// child, else to the next sibling, else up until there is one.
module SubtreeWalk {
  import opened Sequences
  import opened Wrappers
  import opened Forests
  import opened Preorder
  import opened Threads

  // One step of the walk below start, which has seen the nodes `seen` and stands at cur.
  ghost predicate Ongoing(f: ThreadForest, start: MuttThread, seen: seq<MuttThread>, cur: MuttThread) {
    && cur in f.par && cur != start && IsUnder(f, cur, start)
    && (seen + Pre(f, cur)) + After(f, cur) == Pre(f, start) + After(f, start)
  }

  // ... and one that is done with the subtree of cur.
  ghost predicate Passed(f: ThreadForest, start: MuttThread, seen: seq<MuttThread>, cur: MuttThread) {
    && cur in f.par && IsUnder(f, cur, start)
    && seen + After(f, cur) == Pre(f, start) + After(f, start)
  }

  // How much of the forest a walk that stands at n has ahead of it.
  ghost function Left(f: ThreadForest, n: MuttThread): nat {
    |Pre(f, n) + After(f, n)|
  }

  lemma KidUnder(f: ThreadForest, k: MuttThread, p: MuttThread, start: MuttThread)
    requires WF(f) && k in f.par && f.par[k] == Some(p) && IsUnder(f, p, start)
    ensures IsUnder(f, k, start) && k != start && Attached(f, k)
  {
    UpOfPar(f, k);
    if k == start { UnderLvl(f, p, k); }
  }

  // From cur to its first child.
  lemma GoDown(f: ThreadForest, start: MuttThread, seen: seq<MuttThread>, cur: MuttThread)
    requires WF(f) && cur in f.par && IsUnder(f, cur, start)
    requires (seen + Pre(f, cur)) + After(f, cur) == Pre(f, start) + After(f, start)
    ensures FirstKid(f, cur).None? ==> Passed(f, start, seen + [cur], cur)
    ensures FirstKid(f, cur).Some? ==> var k := FirstKid(f, cur).value; Ongoing(f, start, seen + [cur], k) && Left(f, k) < Left(f, cur)
    ensures |After(f, cur)| < Left(f, cur)
  {
    hide IsUnder, After, WF, Attached;
    DownKids(f, cur);
    if FirstKid(f, cur).None? {
      assert Pre(f, cur) == [cur];
    } else {
      hide Pre, PreAll;
      var k := FirstKid(f, cur).value;
      ToChild(f, cur);
      KidUnder(f, k, cur, start);
      Assoc(seen, Pre(f, cur), After(f, cur));
      Assoc(seen, [cur], Pre(f, k) + After(f, k));
      Assoc(seen + [cur], Pre(f, k), After(f, k));
    }
  }

  // From cur to its next sibling, or up.
  lemma GoOn(f: ThreadForest, start: MuttThread, seen: seq<MuttThread>, cur: MuttThread)
    requires WF(f) && Passed(f, start, seen, cur) && cur != start
    ensures f.par[cur].Some? && f.par[cur].value in f.par && Attached(f, cur)
    ensures NextOf(f, cur).Some? ==>
              var k := NextOf(f, cur).value; Ongoing(f, start, seen, k) && Left(f, k) == |After(f, cur)| && f.par[k] == f.par[cur]
    ensures NextOf(f, cur).None? ==>
              var p := f.par[cur].value; Passed(f, start, seen, p) && After(f, p) == After(f, cur) && Lvl(f, p) < Lvl(f, cur)
  {
    hide After, Pre, PreAll;
    UpOfPar(f, cur);
    var p: MuttThread := f.par[cur].value;
    if NextOf(f, cur).Some? {
      var k := NextOf(f, cur).value;
      ToNext(f, cur);
      KidUnder(f, k, p, start);
      Assoc(seen, Pre(f, k), After(f, k));
    } else {
      ToParent(f, cur);
    }
  }

  lemma OngoingFacts(f: ThreadForest, start: MuttThread, seen: seq<MuttThread>, cur: MuttThread)
    requires Ongoing(f, start, seen, cur)
    ensures cur in f.par && cur != start && IsUnder(f, cur, start)
    ensures (seen + Pre(f, cur)) + After(f, cur) == Pre(f, start) + After(f, start)
  {
  }

  lemma WalkedAll(f: ThreadForest, start: MuttThread, seen: seq<MuttThread>)
    requires Passed(f, start, seen, start)
    ensures seen == Pre(f, start)
  {
    hide Pre, After;
    var a, b, x := seen, Pre(f, start), After(f, start);
    assert |a| == |b|;
    assert a == (a + x)[..|a|] && b == (b + x)[..|b|];
  }

  // --- on the heap ---

  // The fields of a node.
  lemma Fields(S: set<MuttThread>, f: ThreadForest, head: MuttThread?, n: MuttThread)
    requires Linked(S, f, head, {}) && n in S
    ensures S == f.par.Keys
    ensures if n.child == null then FirstKid(f, n).None? else FirstKid(f, n).Some? && FirstKid(f, n).value == n.child
    ensures if n.parent == null then f.par[n].None? else f.par[n].Some? && f.par[n].value == n.parent
    ensures Attached(f, n) ==> if n.next == null then NextOf(f, n).None? else NextOf(f, n).Some? && NextOf(f, n).value == n.next
  {
    assert NodeLinked(f, n);
  }

  lemma StartBelow(S: set<MuttThread>, f: ThreadForest, head: MuttThread?, start: MuttThread)
    requires WF(f) && Linked(S, f, head, {}) && start in S && start.child != null
    ensures start.child in S && Ongoing(f, start, [start], start.child)
  {
    hide Pre, PreAll, After, Linked, WF, FirstKid;
    Fields(S, f, head, start);
    assert ([] + Pre(f, start)) == Pre(f, start);
    GoDown(f, start, [], start);
    assert [] + [start] == [start];
    var k: MuttThread := start.child;
    OngoingFacts(f, start, [start], k);
  }

  // Up to the next node that has a following sibling; null if that would be above start.
  method Climb(start: MuttThread, from: MuttThread, ghost S: set<MuttThread>, ghost f: ThreadForest, ghost head: MuttThread?,
               ghost seen: seq<MuttThread>) returns (next: MuttThread?)
    requires WF(f) && Linked(S, f, head, {}) && from in S && from != start && Passed(f, start, seen, from)
    ensures next == null ==> seen == Pre(f, start)
    ensures next != null ==> next in S && Ongoing(f, start, seen, next) && Left(f, next) == |After(f, from)|
  {
    hide *;
    var cur := from;
    GoOn(f, start, seen, cur);
    Fields(S, f, head, cur);
    while cur.next == null
      invariant cur in S && cur != start && Passed(f, start, seen, cur) && After(f, cur) == After(f, from)
      invariant Attached(f, cur)
      decreases Lvl(f, cur)
    {
      GoOn(f, start, seen, cur);
      Fields(S, f, head, cur);
      cur := cur.parent;
      if cur == start {
        WalkedAll(f, start, seen);
        return null;
      }
      GoOn(f, start, seen, cur);
    }
    GoOn(f, start, seen, cur);
    Fields(S, f, head, cur);
    next := cur.next;
    var k: MuttThread := next;
    OngoingFacts(f, start, seen, k);
  }

  // Where the walk goes from cur; null when it is back at start.
  method NextNode(start: MuttThread, cur: MuttThread, ghost S: set<MuttThread>, ghost f: ThreadForest, ghost head: MuttThread?,
                  ghost seen: seq<MuttThread>) returns (next: MuttThread?)
    requires WF(f) && Linked(S, f, head, {}) && start in S && cur in S && Ongoing(f, start, seen, cur)
    ensures next == null ==> seen + [cur] == Pre(f, start)
    ensures next != null ==> next in S && Ongoing(f, start, seen + [cur], next) && Left(f, next) < Left(f, cur)
  {
    hide *;
    OngoingFacts(f, start, seen, cur);
    GoDown(f, start, seen, cur);
    Fields(S, f, head, cur);
    if cur.child != null {
      next := cur.child;
      var k: MuttThread := next;
      OngoingFacts(f, start, seen + [cur], k);
    } else {
      next := Climb(start, cur, S, f, head, seen + [cur]);
    }
  }
}
