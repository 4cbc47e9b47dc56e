// The walk over the topmost messages of a thread: down to a message, then to the next sibling, or up
// until there is one; not below messages.
module TopmostWalk {
  import opened Wrappers
  import opened Forests
  import opened Preorder
  import opened Threads
  import opened SubtreeWalk

  // --- the topmost messages of a thread ---

  // No message on the way from n up to start.
  ghost predicate Clear(f: ThreadForest, msg: map<MuttThread, Email>, start: MuttThread, n: MuttThread)
    decreases Lvl(f, n)
  {
    n == start || (Up(f, n).Some? && Up(f, n).value !in msg && Clear(f, msg, start, Up(f, n).value))
  }

  // A message below start with no message above it there.
  ghost predicate Topmost(f: ThreadForest, msg: map<MuttThread, Email>, start: MuttThread, n: MuttThread) {
    n in msg && Clear(f, msg, start, n)
  }

  lemma {:induction false} ClearUnder(f: ThreadForest, msg: map<MuttThread, Email>, start: MuttThread, n: MuttThread)
    requires Clear(f, msg, start, n)
    ensures IsUnder(f, n, start)
    decreases Lvl(f, n)
  {
    if n != start { ClearUnder(f, msg, start, Up(f, n).value); }
  }

  // Nothing below a message is topmost.
  lemma {:induction false} Covered(f: ThreadForest, msg: map<MuttThread, Email>, start: MuttThread, cur: MuttThread, n: MuttThread)
    requires cur in msg && IsUnder(f, n, cur) && n != cur && IsUnder(f, cur, start)
    ensures !Clear(f, msg, start, n)
    decreases Lvl(f, n)
  {
    if n == start {
      UnderBoth(f, n, cur);
    } else if Up(f, n).Some? && Up(f, n).value != cur {
      Covered(f, msg, start, cur, Up(f, n).value);
    }
  }

  // The topmost messages among ns, in their order.
  ghost function TopsIn(f: ThreadForest, msg: map<MuttThread, Email>, start: MuttThread, ns: seq<MuttThread>): seq<MuttThread> {
    if ns == [] then [] else (if Topmost(f, msg, start, ns[0]) then [ns[0]] else []) + TopsIn(f, msg, start, ns[1..])
  }

  lemma {:induction false} TopsInMembers(f: ThreadForest, msg: map<MuttThread, Email>, start: MuttThread, ns: seq<MuttThread>)
    ensures forall n :: n in TopsIn(f, msg, start, ns) ==> n in ns && Topmost(f, msg, start, n)
    ensures forall n :: n in ns && Topmost(f, msg, start, n) ==> n in TopsIn(f, msg, start, ns)
  {
    hide Topmost;
    if ns != [] {
      TopsInMembers(f, msg, start, ns[1..]);
      assert forall n :: n in ns <==> n == ns[0] || n in ns[1..];
    }
  }

  lemma {:induction false} TopsInAppend(f: ThreadForest, msg: map<MuttThread, Email>, start: MuttThread, a: seq<MuttThread>, b: seq<MuttThread>)
    ensures TopsIn(f, msg, start, a + b) == TopsIn(f, msg, start, a) + TopsIn(f, msg, start, b)
  {
    hide Topmost;
    if a == [] {
      assert a + b == b;
    } else {
      assert (a + b)[1..] == a[1..] + b && (a + b)[0] == a[0];
      TopsInAppend(f, msg, start, a[1..], b);
    }
  }

  // The nodes tops are the topmost messages below start, in the order of the tree.
  ghost predicate TopsAre(f: ThreadForest, msg: map<MuttThread, Email>, start: MuttThread, tops: seq<MuttThread>) {
    && tops != [] && tops == TopsIn(f, msg, start, Pre(f, start))
    && (forall n :: n in tops ==> n in f.par && Topmost(f, msg, start, n))
    && (forall n :: n in f.par && Topmost(f, msg, start, n) ==> n in tops)
  }

  lemma TopsMessage(f: ThreadForest, msg: map<MuttThread, Email>, start: MuttThread, seen: seq<MuttThread>, tops: seq<MuttThread>, cur: MuttThread)
    requires WF(f) && tops == TopsIn(f, msg, start, seen) && cur in f.par && Topmost(f, msg, start, cur)
    ensures tops + [cur] == TopsIn(f, msg, start, seen + Pre(f, cur))
  {
    DownKids(f, cur);
    var below := PreAll(f, f.kids[cur]);
    OnlyTop(f, msg, start, cur);
    hide Pre, PreAll, WF, Topmost;
    TopsInAppend(f, msg, start, seen, [cur] + below);
    assert seen + Pre(f, cur) == seen + ([cur] + below);
    assert ([cur] + below)[0] == cur && ([cur] + below)[1..] == below;
  }

  // Below a topmost message there is none.
  lemma OnlyTop(f: ThreadForest, msg: map<MuttThread, Email>, start: MuttThread, cur: MuttThread)
    requires WF(f) && cur in f.par && cur in f.kids && Topmost(f, msg, start, cur)
    ensures TopsIn(f, msg, start, PreAll(f, f.kids[cur])) == []
  {
    ClearUnder(f, msg, start, cur);
    var below := PreAll(f, f.kids[cur]);
    var tops := TopsIn(f, msg, start, below);
    TopsInMembers(f, msg, start, below);
    if tops != [] {
      var n := tops[0];
      assert n in tops;
      assert KidsOK(f, cur);
      PreAllUnder(f, f.kids[cur], cur, n);
      Covered(f, msg, start, cur, n);
    }
  }

  lemma TopsMissing(f: ThreadForest, msg: map<MuttThread, Email>, start: MuttThread, seen: seq<MuttThread>, tops: seq<MuttThread>, cur: MuttThread)
    requires tops == TopsIn(f, msg, start, seen) && cur !in msg
    ensures tops == TopsIn(f, msg, start, seen + [cur])
  {
    TopsInAppend(f, msg, start, seen, [cur]);
    assert TopsIn(f, msg, start, [cur]) == [];
  }

  lemma TopsEnd(f: ThreadForest, msg: map<MuttThread, Email>, start: MuttThread, tops: seq<MuttThread>)
    requires WF(f) && start in f.par && tops == TopsIn(f, msg, start, Pre(f, start)) && tops != []
    ensures TopsAre(f, msg, start, tops)
  {
    TopsInMembers(f, msg, start, Pre(f, start));
    forall n | n in tops ensures n in f.par { PreUnder(f, start, n); }
    forall n | n in f.par && Topmost(f, msg, start, n) ensures n in tops {
      ClearUnder(f, msg, start, n);
      UnderPre(f, start, n);
    }
  }

  // --- the walk over the topmost messages ---

  // The walk stands at cur, above which there is no message, and has collected the topmost messages
  // before it.
  ghost predicate At(f: ThreadForest, msg: map<MuttThread, Email>, start: MuttThread, seen: seq<MuttThread>,
                     tops: seq<MuttThread>, cur: MuttThread) {
    && cur in f.par && Clear(f, msg, start, cur) && tops == TopsIn(f, msg, start, seen)
    && (seen + Pre(f, cur)) + After(f, cur) == Pre(f, start) + After(f, start)
  }

  ghost predicate Beyond(f: ThreadForest, msg: map<MuttThread, Email>, start: MuttThread, seen: seq<MuttThread>,
                        tops: seq<MuttThread>, cur: MuttThread) {
    Clear(f, msg, start, cur) && tops == TopsIn(f, msg, start, seen) && Passed(f, start, seen, cur) && tops != []
  }

  lemma AtStart(f: ThreadForest, msg: map<MuttThread, Email>, start: MuttThread)
    requires start in f.par
    ensures At(f, msg, start, [], [], start)
  {
    assert ([] + Pre(f, start)) == Pre(f, start);
  }

  // Every missing message that hangs somewhere has a child.
  ghost predicate Real(f: ThreadForest, msg: map<MuttThread, Email>) {
    WF(f) && forall n :: n in f.kids && Attached(f, n) && n !in msg ==> f.kids[n] != []
  }

  // A missing message has a child; the walk goes on there.
  lemma ChildStep(f: ThreadForest, msg: map<MuttThread, Email>, start: MuttThread, seen: seq<MuttThread>, tops: seq<MuttThread>, cur: MuttThread)
    requires Real(f, msg) && At(f, msg, start, seen, tops, cur) && cur !in msg && Attached(f, start)
    ensures FirstKid(f, cur).Some?
    ensures var k := FirstKid(f, cur).value; At(f, msg, start, seen + [cur], tops, k) && Left(f, k) < Left(f, cur) && k != start
  {
    hide WF, TopsIn, Pre, After, PreAll;
    ClearUnder(f, msg, start, cur);
    ClearAttached(f, msg, start, cur);
    HasChild(f, msg, cur);
    GoDown(f, start, seen, cur);
    TopsMissing(f, msg, start, seen, tops, cur);
    var k := FirstKid(f, cur).value;
    ChildClear(f, msg, start, cur);
    OngoingFacts(f, start, seen + [cur], k);
  }

  lemma ClearAttached(f: ThreadForest, msg: map<MuttThread, Email>, start: MuttThread, cur: MuttThread)
    requires WF(f) && Clear(f, msg, start, cur) && cur in f.par && Attached(f, start)
    ensures Attached(f, cur)
  {
    UpIsPar(f, cur);
  }

  lemma HasChild(f: ThreadForest, msg: map<MuttThread, Email>, cur: MuttThread)
    requires Real(f, msg) && Attached(f, cur) && cur !in msg
    ensures FirstKid(f, cur).Some?
  {
    Tables(f);
  }

  lemma ChildClear(f: ThreadForest, msg: map<MuttThread, Email>, start: MuttThread, cur: MuttThread)
    requires WF(f) && Clear(f, msg, start, cur) && cur in f.par && cur !in msg && FirstKid(f, cur).Some?
    ensures var k := FirstKid(f, cur).value; k in f.par && f.par[k] == Some(cur) && Clear(f, msg, start, k)
  {
    Tables(f);
    assert KidsOK(f, cur);
    UpIsPar(f, FirstKid(f, cur).value);
  }

  lemma MessageStep(f: ThreadForest, msg: map<MuttThread, Email>, start: MuttThread, seen: seq<MuttThread>, tops: seq<MuttThread>, cur: MuttThread)
    requires WF(f) && At(f, msg, start, seen, tops, cur) && cur in msg
    ensures Beyond(f, msg, start, seen + Pre(f, cur), tops + [cur], cur) && |After(f, cur)| < Left(f, cur)
  {
    hide WF, TopsIn, After;
    ClearUnder(f, msg, start, cur);
    TopsMessage(f, msg, start, seen, tops, cur);
  }

  // From a node that is done with: to its next sibling, or up.
  lemma PassStep(f: ThreadForest, msg: map<MuttThread, Email>, start: MuttThread, seen: seq<MuttThread>, tops: seq<MuttThread>, cur: MuttThread)
    requires WF(f) && Beyond(f, msg, start, seen, tops, cur) && cur != start
    ensures f.par[cur].Some? && Attached(f, cur)
    ensures NextOf(f, cur).Some? ==> var k := NextOf(f, cur).value; At(f, msg, start, seen, tops, k) && Left(f, k) == |After(f, cur)| && k != start
    ensures NextOf(f, cur).None? ==>
              var p := f.par[cur].value; Beyond(f, msg, start, seen, tops, p) && After(f, p) == After(f, cur) && Lvl(f, p) < Lvl(f, cur)
  {
    hide WF, TopsIn, Pre, After, PreAll, NextOf, Attached;
    GoOn(f, start, seen, cur);
    UpOfPar(f, cur);
    if NextOf(f, cur).Some? {
      var k := NextOf(f, cur).value;
      OngoingFacts(f, start, seen, k);
      UpOfPar(f, k);
    }
  }

  // The fields that the walk reads are those of f: the parents and next siblings of the nodes
  // without a message above them, and the first children of the missing messages among them.
  ghost predicate Walks(S: set<MuttThread>, f: ThreadForest, msg: map<MuttThread, Email>, start: MuttThread)
    reads S`parent, S`next, S`child
  {
    S == f.par.Keys && forall n :: n in S && Clear(f, msg, start, n) ==> WalksAt(f, msg, start, n)
  }

  ghost predicate WalksAt(f: ThreadForest, msg: map<MuttThread, Email>, start: MuttThread, n: MuttThread)
    reads n`parent, n`next, n`child
    requires n in f.par
  {
    && (n != start ==> n.parent == OrNull(f.par[n]) && n.next == OrNull(NextOf(f, n)))
    && (n !in msg ==> n.child == OrNull(FirstKid(f, n)))
  }

  lemma LinkedWalks(S: set<MuttThread>, f: ThreadForest, head: MuttThread?, msg: map<MuttThread, Email>, start: MuttThread)
    requires Linked(S, f, head, {}) && WF(f) && start in S && Attached(f, start)
    ensures Walks(S, f, msg, start)
  {
    LinkedNodes(S, f, head, {});
    forall n | n in S && Clear(f, msg, start, n) ensures WalksAt(f, msg, start, n) {
      ClearAttached(f, msg, start, n);
      Fields(S, f, head, n);
    }
  }

  lemma WalkFields(S: set<MuttThread>, f: ThreadForest, msg: map<MuttThread, Email>, start: MuttThread, n: MuttThread)
    requires Walks(S, f, msg, start) && n in S && Clear(f, msg, start, n)
    ensures S == f.par.Keys && WalksAt(f, msg, start, n)
    ensures n != start ==> if n.parent == null then f.par[n].None? else f.par[n].Some? && f.par[n].value == n.parent
    ensures n != start ==> if n.next == null then NextOf(f, n).None? else NextOf(f, n).Some? && NextOf(f, n).value == n.next
    ensures n !in msg ==> if n.child == null then FirstKid(f, n).None? else FirstKid(f, n).Some? && FirstKid(f, n).value == n.child
  {
  }

  lemma AtClear(f: ThreadForest, msg: map<MuttThread, Email>, start: MuttThread, seen: seq<MuttThread>, tops: seq<MuttThread>, cur: MuttThread)
    ensures At(f, msg, start, seen, tops, cur) ==> cur in f.par && Clear(f, msg, start, cur)
    ensures Beyond(f, msg, start, seen, tops, cur) ==> cur in f.par && Clear(f, msg, start, cur)
  {
  }

  // while (!cur->next && (cur != start)): null if the walk is over.
  method NextTop(start: MuttThread, from: MuttThread, ghost S: set<MuttThread>, ghost f: ThreadForest,
                 ghost msg: map<MuttThread, Email>, ghost seen: seq<MuttThread>, ghost tops: seq<MuttThread>) returns (next: MuttThread?)
    requires Walks(S, f, msg, start) && WF(f) && start in S && from in S && Beyond(f, msg, start, seen, tops, from)
    ensures next == null ==> TopsAre(f, msg, start, tops)
    ensures next != null ==> next in S && next != start && At(f, msg, start, seen, tops, next) && Left(f, next) == |After(f, from)|
  {
    hide *;
    AtClear(f, msg, start, seen, tops, from);
    WalkFields(S, f, msg, start, from);
    var cur := from;
    while cur.next == null && cur != start
      invariant cur in S && Beyond(f, msg, start, seen, tops, cur) && After(f, cur) == After(f, from)
      decreases Lvl(f, cur)
    {
      AtClear(f, msg, start, seen, tops, cur);
      WalkFields(S, f, msg, start, cur);
      PassStep(f, msg, start, seen, tops, cur);
      cur := cur.parent;
      AtClear(f, msg, start, seen, tops, cur);
    }
    if cur == start {
      WalkOver(f, msg, start, seen, tops);
      return null;
    }
    AtClear(f, msg, start, seen, tops, cur);
    WalkFields(S, f, msg, start, cur);
    PassStep(f, msg, start, seen, tops, cur);
    next := cur.next;
    var k: MuttThread := next;
    AtClear(f, msg, start, seen, tops, k);
  }

  lemma WalkOver(f: ThreadForest, msg: map<MuttThread, Email>, start: MuttThread, seen: seq<MuttThread>, tops: seq<MuttThread>)
    requires WF(f) && start in f.par && Beyond(f, msg, start, seen, tops, start)
    ensures TopsAre(f, msg, start, tops)
  {
    hide WF, TopsIn, TopsAre, Pre, After;
    WalkedAll(f, start, seen);
    TopsEnd(f, msg, start, tops);
  }

  // while (!cur->message) cur = cur->child; the message of start matters only if that is where it starts.
  method DownToMessage(start: MuttThread, from: MuttThread, ghost S: set<MuttThread>, ghost f: ThreadForest,
                       ghost msg: map<MuttThread, Email>, ghost seen0: seq<MuttThread>, ghost tops: seq<MuttThread>)
      returns (cur: MuttThread, ghost seen: seq<MuttThread>)
    requires Walks(S, f, msg, start) && Messages(S - {start}, msg) && (from == start ==> Messages(S, msg)) && Real(f, msg) && Attached(f, start)
    requires from in S && At(f, msg, start, seen0, tops, from)
    ensures cur in S && cur in msg && cur.message == msg[cur] && At(f, msg, start, seen, tops, cur) && Left(f, cur) <= Left(f, from)
    ensures from != start ==> cur != start
  {
    hide *;
    RealWF(f, msg);
    MessagesAt(S, msg, start, from);
    cur, seen := from, seen0;
    while cur.message == null
      invariant cur in S && At(f, msg, start, seen, tops, cur) && Left(f, cur) <= Left(f, from)
      invariant cur == start ==> from == start
      decreases Left(f, cur)
    {
      AtClear(f, msg, start, seen, tops, cur);
      WalkFields(S, f, msg, start, cur);
      ChildStep(f, msg, start, seen, tops, cur);
      seen := seen + [cur];
      cur := cur.child;
      AtClear(f, msg, start, seen, tops, cur);
    }
  }

  lemma RealWF(f: ThreadForest, msg: map<MuttThread, Email>)
    requires Real(f, msg)
    ensures WF(f)
  {
  }

  lemma MessagesAt(S: set<MuttThread>, msg: map<MuttThread, Email>, start: MuttThread, from: MuttThread)
    requires Messages(S - {start}, msg) && (from == start ==> Messages(S, msg))
    ensures forall n :: n in S && (n != start || from == start) ==> (n.message == null <==> n !in msg) && (n in msg ==> n.message == msg[n])
  {
  }

  lemma MessagesLess(S: set<MuttThread>, msg: map<MuttThread, Email>, start: MuttThread)
    requires Messages(S, msg)
    ensures Messages(S - {start}, msg)
  {
  }

  // --- marking the topmost messages ---

  // The nodes marked for check_subjects.
  ghost predicate Marks(S: set<MuttThread>, marked: set<MuttThread>)
    reads S`checkSubject
  {
    marked <= S && forall n :: n in S ==> (n.checkSubject <==> n in marked)
  }

  ghost function Tops(f: ThreadForest, msg: map<MuttThread, Email>, start: MuttThread): set<MuttThread> {
    set n | n in f.par && Topmost(f, msg, start, n)
  }

  // The message of thread was missing until now: the messages below it get another message above them.
  method MarkBelow(thread: MuttThread, ghost S: set<MuttThread>, ghost f: ThreadForest, ghost head: MuttThread?, ghost msg: map<MuttThread, Email>)
    requires Linked(S, f, head, {}) && Messages(S - {thread}, msg) && Real(f, msg) && thread in S && thread !in msg
    requires thread.child != null ==> Attached(f, thread)
    modifies S`checkSubject
    ensures forall n :: n in S ==> n.checkSubject == (old(n.checkSubject) || Topmost(f, msg, thread, n))
  {
    hide *;
    RealWF(f, msg);
    LinkedNodes(S, f, head, {});
    var tmp: MuttThread := if thread.child != null then thread.child else thread;
    ghost var seen: seq<MuttThread>, tops: seq<MuttThread> := [], [];
    MarkStart(S, f, head, msg, thread);
    if thread.child != null { seen := [thread]; }
    while tmp != thread
      invariant tmp in S && (if tmp != thread then At(f, msg, thread, seen, tops, tmp) else AllTops(f, msg, thread, tops))
      invariant forall n :: n in S ==> n.checkSubject == (old(n.checkSubject) || n in tops)
      invariant tmp != thread ==> Walks(S, f, msg, thread) && Attached(f, thread)
      decreases tmp != thread, Left(f, tmp)
    {
      tmp, seen := DownToMessage(thread, tmp, S, f, msg, seen, tops);
      tmp.checkSubject := true;
      MessageStep(f, msg, thread, seen, tops, tmp);
      tops, seen := tops + [tmp], seen + Pre(f, tmp);
      var next := NextTop(thread, tmp, S, f, msg, seen, tops);
      if next == null {
        TopsAll(f, msg, thread, tops);
        tmp := thread;
      } else {
        tmp := next;
      }
    }
    TopsMark(f, msg, thread, tops);
  }

  ghost predicate AllTops(f: ThreadForest, msg: map<MuttThread, Email>, start: MuttThread, tops: seq<MuttThread>) {
    && (forall n :: n in tops ==> Topmost(f, msg, start, n))
    && (forall n :: n in f.par && Topmost(f, msg, start, n) ==> n in tops)
  }

  lemma TopsAll(f: ThreadForest, msg: map<MuttThread, Email>, start: MuttThread, tops: seq<MuttThread>)
    requires TopsAre(f, msg, start, tops)
    ensures AllTops(f, msg, start, tops)
  {
    hide Topmost;
  }

  lemma TopsMark(f: ThreadForest, msg: map<MuttThread, Email>, start: MuttThread, tops: seq<MuttThread>)
    requires AllTops(f, msg, start, tops)
    ensures forall n :: n in f.par ==> (n in tops <==> Topmost(f, msg, start, n))
  {
    hide Topmost;
  }

  lemma MarkStart(S: set<MuttThread>, f: ThreadForest, head: MuttThread?, msg: map<MuttThread, Email>, thread: MuttThread)
    requires Linked(S, f, head, {}) && Real(f, msg) && thread in S && thread !in msg && (thread.child != null ==> Attached(f, thread))
    ensures thread.child == null ==> AllTops(f, msg, thread, [])
    ensures thread.child != null ==> thread.child in S && thread.child != thread && At(f, msg, thread, [thread], [], thread.child) && Walks(S, f, msg, thread)
  {
    Fields(S, f, head, thread);
    Tables(f);
    if thread.child == null {
      DownKids(f, thread);
      assert Pre(f, thread) == [thread];
      forall n | n in f.par && Topmost(f, msg, thread, n) ensures false {
        ClearUnder(f, msg, thread, n);
        UnderPre(f, thread, n);
      }
    } else {
      hide Real, Linked, At, Walks, Attached, FirstKid;
      AtStart(f, msg, thread);
      RealWF(f, msg);
      LinkedWalks(S, f, head, msg, thread);
      ChildStep(f, msg, thread, [], [], thread);
      assert [] + [thread] == [thread];
      AtIn(f, msg, thread, [thread], [], thread.child);
    }
  }

  lemma AtIn(f: ThreadForest, msg: map<MuttThread, Email>, start: MuttThread, seen: seq<MuttThread>, tops: seq<MuttThread>, cur: MuttThread)
    requires At(f, msg, start, seen, tops, cur)
    ensures cur in f.par
  {
  }
}
