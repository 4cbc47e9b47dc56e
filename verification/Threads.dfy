// `struct Email` and `struct MuttThread`, and the three pointer operations of email/thread.c.
module Threads {
  import opened Wrappers
  import opened Forests

  // The parts of `struct Email` and its `struct Envelope` that are modelled.  isReply says that the real
  // subject is not the whole subject.
  class Email {
    const messageId: Option<string>
    const inReplyTo: seq<string>
    const references: seq<string>
    const realSubj: Option<string>
    const isReply: bool
    const received: int
    const dateSent: int

    var thread: MuttThread?
    var threaded: bool
    var msgno: int
    var vnum: int
    var collapsed: bool
    var visible: bool
    var subjectChanged: bool
    var displaySubject: bool

    var read: bool
    var isOld: bool
    var flagged: bool
    var deleted: bool
    var purge: bool
    var tagged: bool
    var replied: bool
    var changed: bool
    var trash: bool
    var quasiDeleted: bool

    constructor (id: Option<string>, irt: seq<string>, refs: seq<string>, subj: Option<string>, isReply: bool, received: int, dateSent: int)
      ensures messageId == id && inReplyTo == irt && references == refs && realSubj == subj
      ensures this.isReply == isReply && this.received == received && this.dateSent == dateSent
      ensures thread == null && !threaded
    {
      messageId, inReplyTo, references, realSubj := id, irt, refs, subj;
      this.isReply, this.received, this.dateSent := isReply, received, dateSent;
      thread, threaded, msgno := null, false, -1;
      vnum, collapsed, visible, subjectChanged, displaySubject := -1, false, false, false, false;
      read, isOld, flagged, deleted, purge := false, false, false, false, false;
      tagged, replied, changed, trash, quasiDeleted := false, false, false, false, false;
    }
  }

  class MuttThread {
    var parent: MuttThread?
    var child: MuttThread?
    var next: MuttThread?
    var prev: MuttThread?

    var message: Email?
    var sortThreadKey: Email?
    var sortAuxKey: Email?

    var checkSubject: bool
    var duplicateThread: bool
    var fakeThread: bool
    var sortChildren: bool

    var visible: bool
    var deep: bool
    var nextSubtreeVisible: bool
    var subtreeVisible: int

    constructor ()
      ensures parent == child == next == prev == null
      ensures message == sortThreadKey == sortAuxKey == null
      ensures !checkSubject && !duplicateThread && !fakeThread && !sortChildren
    {
      parent, child, next, prev := null, null, null, null;
      message, sortThreadKey, sortAuxKey := null, null, null;
      checkSubject, duplicateThread, fakeThread, sortChildren := false, false, false, false;
      visible, deep, nextSubtreeVisible, subtreeVisible := false, false, false, 0;
    }
  }

  type ThreadForest = Forest<MuttThread>

  ghost function OrNull(o: Option<MuttThread>): MuttThread? {
    match o case None => null case Some(n) => n
  }

  // The heap nodes S are linked as f says, with `head` the first top-level node.  The parent
  // field of the nodes in `loose` is free: unlink_message does not clear it.
  ghost predicate Linked(S: set<MuttThread>, f: ThreadForest, head: MuttThread?, loose: set<MuttThread>)
    reads S`parent, S`child, S`next, S`prev
  {
    && S == f.par.Keys
    && (forall n :: n in S ==> NodeLinked(f, n) && (n in loose || n.parent == OrNull(f.par[n])))
    && head == OrNull(First(f.roots))
  }

  // The sibling fields of a dangling node are free.
  ghost predicate NodeLinked(f: ThreadForest, n: MuttThread)
    reads n`child, n`next, n`prev
  {
    && n.child == OrNull(FirstKid(f, n))
    && (Attached(f, n) ==> n.next == OrNull(NextOf(f, n)) && n.prev == OrNull(PrevOf(f, n)))
  }

  lemma LinkedNodes(S: set<MuttThread>, f: ThreadForest, head: MuttThread?, loose: set<MuttThread>)
    requires Linked(S, f, head, loose)
    ensures S == f.par.Keys
  {
  }

  // The messages of the nodes S.
  ghost predicate Messages(S: set<MuttThread>, msg: map<MuttThread, Email>)
    reads S`message
  {
    forall n :: n in S ==> n.message == if n in msg then msg[n] else null
  }

  lemma MessageField(S: set<MuttThread>, msg: map<MuttThread, Email>)
    requires Messages(S, msg)
    ensures forall n :: n in S && n.message != null ==> n.message in msg.Values
    ensures forall n :: n in S && n in msg ==> n.message == msg[n]
  {
  }

  lemma MissingField(S: set<MuttThread>, msg: map<MuttThread, Email>)
    requires Messages(S, msg)
    ensures forall n :: n in S ==> (n.message == null <==> n !in msg)
  {
  }

  method IsDescendant(a: MuttThread, b: MuttThread, ghost S: set<MuttThread>, ghost f: ThreadForest, ghost head: MuttThread?)
    returns (r: bool)
    requires WF(f) && Linked(S, f, head, {}) && a in S
    ensures r == IsUnder(f, a, b)
  {
    var x: MuttThread? := a;
    while x != null
      invariant x != null ==> x in S && IsUnder(f, a, b) == IsUnder(f, x, b)
      invariant x == null ==> !IsUnder(f, a, b)
      decreases x != null, if x != null then Lvl(f, x) else 0
    {
      if x == b {
        return true;
      }
      assert f.par[x].Some? ==> ParentOK(f, x, f.par[x].value);
      x := x.parent;
    }
    return false;
  }

  // insert_message(&parent->child, parent, cur)
  method InsertMessage(parent: MuttThread, cur: MuttThread)
    requires parent != cur && parent.child != cur
    modifies parent`child, cur`parent, cur`next, cur`prev
    modifies (if parent.child == null then {} else {parent.child})`prev
    ensures parent.child == cur && cur.parent == parent && cur.next == old(parent.child) && cur.prev == null
    ensures old(parent.child) != null ==> old(parent.child).prev == cur
  {
    if parent.child != null {
      parent.child.prev := cur;
    }
    cur.parent := parent;
    cur.next := parent.child;
    cur.prev := null;
    parent.child := cur;
  }

  // The same call on a well-formed forest.
  method Attach(parent: MuttThread, cur: MuttThread, ghost S: set<MuttThread>, ghost f: ThreadForest, ghost head: MuttThread?)
    requires WF(f) && Linked(S, f, head, {cur})
    requires parent in S && Dangling(f, cur) && !IsUnder(f, parent, cur)
    modifies S`parent, S`child, S`next, S`prev
    ensures WF(Insert(f, parent, cur)) && Linked(S, Insert(f, parent, cur), head, {})
  {
    InsertWF(f, parent, cur);
    assert KidsOK(f, parent);
    forall n | n in S ensures InsertAt(f, Insert(f, parent, cur), parent, cur, n) { InsertLinks(f, parent, cur, n); }
    Relink(parent, cur, S, f, Insert(f, parent, cur), head);
  }

  method Relink(parent: MuttThread, cur: MuttThread, ghost S: set<MuttThread>,
                ghost f: ThreadForest, ghost g: ThreadForest, ghost head: MuttThread?)
    requires Linked(S, f, head, {cur}) && parent in S && cur in S && parent != cur && !Attached(f, cur)
    requires g.par == f.par[cur := Some(parent)] && First(g.roots) == First(f.roots)
    requires forall n :: n in S ==> InsertAt(f, g, parent, cur, n)
    requires FirstKid(f, parent).Some? ==> FirstKid(f, parent).value in S
    modifies S`parent, S`child, S`next, S`prev
    ensures Linked(S, g, head, {})
  {
    hide NextOf, PrevOf, FirstKid, Attached, First;
    InsertMessage(parent, cur);
  }

  // The run of nodes going up from p that all have the key k.
  ghost function KeyRun(f: ThreadForest, keys: map<MuttThread, Email?>, p: Option<MuttThread>, k: Email?): (run: set<MuttThread>)
    ensures forall n :: n in run ==> n in keys && keys[n] == k && p.Some? && Lvl(f, n) <= Lvl(f, p.value)
    decreases p.Some?, if p.Some? then Lvl(f, p.value) else 0
  {
    if p.None? || p.value !in keys || keys[p.value] != k then {} else {p.value} + KeyRun(f, keys, Up(f, p.value), k)
  }

  // A node is in the run exactly if it is p or above it, and all from p up to it have the key.
  lemma {:induction false} RunIs(f: ThreadForest, keys: map<MuttThread, Email?>, p: MuttThread, k: Email?, n: MuttThread)
    ensures n in KeyRun(f, keys, Some(p), k) <==>
      IsUnder(f, p, n) && forall m :: IsUnder(f, p, m) && IsUnder(f, m, n) ==> m in keys && keys[m] == k
    decreases Lvl(f, p)
  {
    if Up(f, p).Some? {
      var q := Up(f, p).value;
      RunIs(f, keys, q, k, n);
      assert forall m :: IsUnder(f, p, m) <==> m == p || IsUnder(f, q, m);
      if IsUnder(f, q, n) && IsUnder(f, n, p) {
        UnderTrans(f, q, n, p);
        UnderLvl(f, q, p);
      }
      if n == p && IsUnder(f, q, n) { UnderLvl(f, q, p); }
      forall m | n == p && IsUnder(f, p, m) && IsUnder(f, m, n) ensures m == p { UnderBoth(f, m, p); }
      assert IsUnder(f, p, p) && IsUnder(f, q, q);
    } else {
      assert IsUnder(f, p, p);
    }
  }

  // Unlinking a node makes those ancestors forget their key that have the key of the node, as have all in between.
  lemma ForgottenIs(f: ThreadForest, keys: map<MuttThread, Email?>, cur: MuttThread, n: MuttThread)
    requires cur in keys
    ensures n in KeysForgotten(f, keys, cur) <==>
      keys[cur] != null && n != cur && IsUnder(f, cur, n) && forall m :: m != cur && IsUnder(f, cur, m) && IsUnder(f, m, n) ==> m in keys && keys[m] == keys[cur]
  {
    if Up(f, cur).Some? {
      var p := Up(f, cur).value;
      RunIs(f, keys, p, keys[cur], n);
      assert forall m :: IsUnder(f, cur, m) <==> m == cur || IsUnder(f, p, m);
      if IsUnder(f, p, cur) { UnderLvl(f, p, cur); }
    }
  }

  // The end of unlink_message: ancestors that sorted by cur's key, in an unbroken run, forget it.
  ghost function KeysForgotten(f: ThreadForest, keys: map<MuttThread, Email?>, cur: MuttThread): set<MuttThread>
    requires cur in keys
  {
    if keys[cur] == null then {} else KeyRun(f, keys, Up(f, cur), keys[cur])
  }

  lemma UpOfPar(f: ThreadForest, n: MuttThread)
    requires WF(f) && n in f.par
    ensures Up(f, n) == f.par[n]
    ensures f.par[n].Some? ==> f.par[n].value in f.par && Lvl(f, f.par[n].value) < Lvl(f, n)
  {
    if f.par[n].Some? { assert ParentOK(f, n, f.par[n].value); }
  }

  // Every parent field of S agrees with f and stays in S.
  ghost predicate ClimbsIn(S: set<MuttThread>, f: ThreadForest)
    reads S`parent
  {
    forall n :: n in S ==> n.parent == OrNull(Up(f, n)) && (Up(f, n).Some? ==> Up(f, n).value in S)
  }

  lemma LinkedClimbs(S: set<MuttThread>, f: ThreadForest, head: MuttThread?)
    requires WF(f) && Linked(S, f, head, {})
    ensures ClimbsIn(S, f)
  {
    forall n | n in S ensures n.parent == OrNull(Up(f, n)) && (Up(f, n).Some? ==> Up(f, n).value in S) {
      UpOfPar(f, n);
    }
  }

  method ForgetThreadKeys(cur: MuttThread, ghost S: set<MuttThread>, ghost f: ThreadForest)
    requires ClimbsIn(S, f) && cur in S
    modifies S`sortThreadKey
    ensures ThreadKeys(S) == Forgotten(f, old(ThreadKeys(S)), cur)
  {
    hide WF, Up;
    ghost var keys := ThreadKeys(S);
    if cur.sortThreadKey != null {
      var tmp := cur.parent;
      ghost var at, k := Up(f, cur), keys[cur];
      ghost var run := KeyRun(f, keys, at, k);
      ghost var left := run;
      while tmp != null && tmp.sortThreadKey == cur.sortThreadKey
        invariant tmp == OrNull(at) && (at.Some? ==> at.value in S && Lvl(f, at.value) < Lvl(f, cur))
        invariant left == KeyRun(f, keys, at, k) && left <= run && cur !in run
        invariant forall n :: n in S ==> n.sortThreadKey == if n in run && n !in left then null else keys[n]
        decreases at.Some?, if at.Some? then Lvl(f, at.value) else 0
      {
        at := Up(f, tmp);
        left := KeyRun(f, keys, at, k);
        tmp.sortThreadKey := null;
        tmp := tmp.parent;
      }
    }
  }

  method ForgetAuxKeys(cur: MuttThread, ghost S: set<MuttThread>, ghost f: ThreadForest)
    requires ClimbsIn(S, f) && cur in S
    modifies S`sortAuxKey
    ensures AuxKeys(S) == Forgotten(f, old(AuxKeys(S)), cur)
  {
    hide WF, Up;
    ghost var keys := AuxKeys(S);
    if cur.sortAuxKey != null {
      var tmp := cur.parent;
      ghost var at, k := Up(f, cur), keys[cur];
      ghost var run := KeyRun(f, keys, at, k);
      ghost var left := run;
      while tmp != null && tmp.sortAuxKey == cur.sortAuxKey
        invariant tmp == OrNull(at) && (at.Some? ==> at.value in S && Lvl(f, at.value) < Lvl(f, cur))
        invariant left == KeyRun(f, keys, at, k) && left <= run && cur !in run
        invariant forall n :: n in S ==> n.sortAuxKey == if n in run && n !in left then null else keys[n]
        decreases at.Some?, if at.Some? then Lvl(f, at.value) else 0
      {
        at := Up(f, tmp);
        left := KeyRun(f, keys, at, k);
        tmp.sortAuxKey := null;
        tmp := tmp.parent;
      }
    }
  }

  // unlink_message(&parent->child, cur), its four links.
  method UnlinkMessage(parent: MuttThread, cur: MuttThread)
    modifies (if cur.prev == null then {parent} else {})`child
    modifies (if cur.prev == null then {} else {cur.prev})`next
    modifies (if cur.next == null then {} else {cur.next})`prev
    ensures old(cur.prev) != null ==> old(cur.prev).next == old(cur.next)
    ensures old(cur.prev) == null ==> parent.child == old(cur.next)
    ensures old(cur.next) != null ==> old(cur.next).prev == old(cur.prev)
  {
    if cur.prev != null {
      cur.prev.next := cur.next;
    } else {
      parent.child := cur.next;
    }
    if cur.next != null {
      cur.next.prev := cur.prev;
    }
  }

  // The same call on a well-formed forest.
  method DetachLinks(parent: MuttThread, cur: MuttThread, ghost S: set<MuttThread>, ghost f: ThreadForest, ghost head: MuttThread?)
    requires WF(f) && Linked(S, f, head, {})
    requires cur in S && f.par[cur] == Some(parent)
    modifies S`child, S`next, S`prev
    ensures WF(Unlink(f, cur)) && Dangling(Unlink(f, cur), cur) && Linked(S, Unlink(f, cur), head, {cur})
  {
    UnlinkWF(f, cur);
    assert ParentOK(f, cur, parent);
    AttachedInSibs(f, cur);
    OrderIn(Sibs(f, cur), cur);
    forall n | n in S ensures UnlinkAt(f, Unlink(f, cur), cur, n) { UnlinkLinks(f, cur, n); }
    RelinkWithout(parent, cur, S, f, Unlink(f, cur), head);
  }

  // unlink_message as a whole: the links, then the sort keys above.
  method Detach(parent: MuttThread, cur: MuttThread, ghost S: set<MuttThread>, ghost f: ThreadForest, ghost head: MuttThread?)
    requires WF(f) && Linked(S, f, head, {})
    requires cur in S && f.par[cur] == Some(parent)
    modifies S`child, S`next, S`prev, S`sortThreadKey, S`sortAuxKey
    ensures WF(Unlink(f, cur)) && Dangling(Unlink(f, cur), cur) && Linked(S, Unlink(f, cur), head, {cur})
    ensures ThreadKeys(S) == Forgotten(f, old(ThreadKeys(S)), cur)
    ensures AuxKeys(S) == Forgotten(f, old(AuxKeys(S)), cur)
  {
    hide *;
    LinkedClimbs(S, f, head);
    DetachLinks(parent, cur, S, f, head);
    ForgetThreadKeys(cur, S, f);
    ForgetAuxKeys(cur, S, f);
  }

  ghost function Forgotten(f: ThreadForest, keys: map<MuttThread, Email?>, cur: MuttThread): map<MuttThread, Email?>
    requires cur in keys
  {
    map n | n in keys :: if n in KeysForgotten(f, keys, cur) then null else keys[n]
  }

  ghost function ThreadKeys(S: set<MuttThread>): map<MuttThread, Email?>
    reads S`sortThreadKey
  {
    map n | n in S :: n.sortThreadKey
  }

  ghost function AuxKeys(S: set<MuttThread>): map<MuttThread, Email?>
    reads S`sortAuxKey
  {
    map n | n in S :: n.sortAuxKey
  }

  method RelinkWithout(parent: MuttThread, cur: MuttThread, ghost S: set<MuttThread>,
                       ghost f: ThreadForest, ghost g: ThreadForest, ghost head: MuttThread?)
    requires Linked(S, f, head, {}) && parent in S && cur in S && Attached(f, cur) && Up(f, cur) == Some(parent)
    requires g.par == f.par[cur := None] && First(g.roots) == First(f.roots)
    requires forall n :: n in S ==> UnlinkAt(f, g, cur, n)
    requires NextOf(f, cur).Some? ==> NextOf(f, cur).value in S
    requires PrevOf(f, cur).Some? ==> PrevOf(f, cur).value in S
    modifies S`child, S`next, S`prev
    ensures Linked(S, g, head, {cur})
  {
    hide NextOf, PrevOf, FirstKid, Attached, First, Up;
    var prev, next := cur.prev, cur.next;
    UnlinkMessage(parent, cur);
    forall n | n in S ensures NodeLinked(g, n) {
      assert UnlinkAt(f, g, cur, n) && old(NodeLinked(f, n));
    }
  }
}
