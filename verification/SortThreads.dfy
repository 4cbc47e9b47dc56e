// mutt_sort_threads as far as the references go: the tree is hung below a temporary node, every
// email gets a node, every new email follows its references, and the temporary node goes away.
module SortThreads {
  import opened Wrappers
  import opened Forests
  import opened Threads
  import opened References
  import opened Context
  import opened TopmostWalk
  import opened ThreadTree
  import opened RefWalk
  import EmailOrder

  ghost function Elements<T>(s: seq<T>): set<T> {
    set x | x in s
  }

  // --- hanging the tree below the temporary node ---

  ghost function Raised(c: Ctx, top: MuttThread): Ctx {
    c.(f := RaiseTop(c.f, top))
  }

  ghost function Dropped(c: Ctx, top: MuttThread): Ctx
    requires top in c.f.kids
  {
    c.(f := DropTop(c.f, top))
  }

  lemma RaisedLinks(S: set<MuttThread>, f: ThreadForest, head: MuttThread?, top: MuttThread)
    requires Linked(S, f, head, {}) && WF(f) && top !in S && top.child == head && top.parent == null
    ensures Linked(S + {top}, RaiseTop(f, top), null, Elements(f.roots))
    ensures WF(RaiseTop(f, top)) && RaiseTop(f, top).kids[top] == f.roots
  {
    hide WF, NodeLinked, RaiseTop;
    LinkedNodes(S, f, head, {});
    RaiseTopWF(f, top);
    RaisedShape(f, top);
    forall n | n in S + {top}
      ensures NodeLinked(RaiseTop(f, top), n)
      ensures n in f.roots || n.parent == OrNull(RaiseTop(f, top).par[n])
    {
      RaisedNode(f, head, top, n);
    }
  }

  lemma RaisedShape(f: ThreadForest, top: MuttThread)
    ensures RaiseTop(f, top).par.Keys == f.par.Keys + {top} && RaiseTop(f, top).roots == []
    ensures top in RaiseTop(f, top).kids && RaiseTop(f, top).kids[top] == f.roots
  {
  }

  lemma RaisedNode(f: ThreadForest, head: MuttThread?, top: MuttThread, n: MuttThread)
    requires WF(f) && top !in f.par && top.child == head == OrNull(First(f.roots)) && top.parent == null
    requires n == top || (n in f.par && NodeLinked(f, n) && n.parent == OrNull(f.par[n]))
    ensures NodeLinked(RaiseTop(f, top), n)
    ensures n in f.roots || n.parent == OrNull(RaiseTop(f, top).par[n])
  {
    hide WF, NextOf, PrevOf;
    if n != top { RaiseTopLinks(f, top, n); }
  }

  lemma DroppedLinks(S: set<MuttThread>, f: ThreadForest, top: MuttThread)
    requires WF(f) && top in f.par && f.par[top].None? && f.roots == []
    requires Linked(S, f, null, Elements(KidsOf(f, top)))
    requires forall n :: n in KidsOf(f, top) ==> n.parent == null
    ensures WF(DropTop(f, top)) && Linked(S - {top}, DropTop(f, top), top.child, {})
  {
    DropTopWF(f, top);
    Tables(f);
    KidsIff(f, top);
    hide WF, NodeLinked;
    forall n | n in S && n != top
      ensures NodeLinked(DropTop(f, top), n) && n.parent == OrNull(DropTop(f, top).par[n])
    {
      DroppedNode(f, top, n);
    }
    TopChild(f, top);
  }

  lemma DroppedNode(f: ThreadForest, top: MuttThread, n: MuttThread)
    requires WF(f) && top in f.par && f.par[top].None? && f.roots == [] && top in f.kids
    requires n in f.par && n != top && NodeLinked(f, n) && n.parent == if f.par[n] == Some(top) then null else OrNull(f.par[n])
    ensures NodeLinked(DropTop(f, top), n) && n.parent == OrNull(DropTop(f, top).par[n])
  {
    hide WF, NextOf, PrevOf;
    DropTopLinks(f, top, n);
  }

  lemma TopChild(f: ThreadForest, top: MuttThread)
    requires NodeLinked(f, top) && top in f.kids
    ensures top.child == OrNull(First(DropTop(f, top).roots))
  {
  }

  lemma KidsIff(f: ThreadForest, p: MuttThread)
    requires WF(f) && p in f.kids
    ensures forall n :: n in f.par ==> (n in KidsOf(f, p) <==> f.par[n] == Some(p))
    ensures forall n :: n in KidsOf(f, p) ==> n in f.par
    ensures NoDup(KidsOf(f, p))
  {
    assert KidsOK(f, p);
    forall n | n in f.par && f.par[n] == Some(p) ensures n in KidsOf(f, p) { assert ParentOK(f, n, p); }
  }

  method SetParent(n: MuttThread, parent: MuttThread?, ghost S: set<MuttThread>, ghost f: ThreadForest, ghost loose: set<MuttThread>)
    requires Linked(S, f, null, loose) && n in S && (parent == null || parent == OrNull(f.par[n]))
    modifies n`parent
    ensures n.parent == parent && Linked(S, f, null, if parent == null then loose + {n} else loose - {n})
  {
    n.parent := parent;
  }

  // for (thread = first; thread; thread = thread->next) thread->parent = parent
  method SetParents(first: MuttThread?, parent: MuttThread?, ghost list: seq<MuttThread>,
    ghost S: set<MuttThread>, ghost f: ThreadForest, ghost p: MuttThread)
    requires WF(f) && Linked(S, f, null, if parent == null then {} else Elements(list))
    requires p in S && list == KidsOf(f, p) && first == OrNull(First(list)) && (parent == null || parent == p)
    modifies S`parent
    ensures Linked(S, f, null, if parent == null then Elements(list) else {})
    ensures parent == null ==> forall n :: n in list ==> n.parent == null
  {
    hide Linked, WF, KidsOf, RaiseTop, DropTop;
    var thread := first;
    ghost var i, loose := 0, if parent == null then {} else Elements(list);
    while thread != null
      invariant 0 <= i <= |list| && thread == (if i < |list| then list[i] else null)
      invariant if parent == null then loose <= Elements(list) else forall n :: n in loose ==> n in list[i..]
      invariant Linked(S, f, null, loose)
      invariant parent == null ==> forall j :: 0 <= j < i ==> list[j].parent == null
      decreases |list| - i
    {
      SiblingStep(S, f, p, list, i, loose);
      var next := thread.next;
      SetParent(thread, parent, S, f, loose);
      loose := if parent == null then loose + {thread} else loose - {thread};
      thread := next;
      i := i + 1;
    }
    LinkedMore(S, f, loose, if parent == null then Elements(list) else {});
  }

  lemma LinkedMore(S: set<MuttThread>, f: ThreadForest, less: set<MuttThread>, more: set<MuttThread>)
    requires Linked(S, f, null, less) && less <= more
    ensures Linked(S, f, null, more)
  {
  }

  lemma SiblingStep(S: set<MuttThread>, f: ThreadForest, p: MuttThread, list: seq<MuttThread>, i: nat, loose: set<MuttThread>)
    requires WF(f) && Linked(S, f, null, loose) && p in S && list == KidsOf(f, p) && i < |list|
    ensures list[i] in S && list[i].next == (if i + 1 < |list| then list[i + 1] else null) && f.par[list[i]] == Some(p)
  {
    KidsIff(f, p);
    NextAt(list, i);
    assert NodeLinked(f, list[i]);
  }

  lemma RaisedOK(c: Ctx, E: set<Email>, top: MuttThread)
    requires CtxOK(c, E, None, None) && top !in c.f.par
    ensures CtxOK(Raised(c, top), E, Some(top), None)
  {
    hide WF, NodeOK, HashOK, EmailOK, RaiseTop;
    RaiseTopWF(c.f, top);
    RaisedShape(c.f, top);
    Tables(c.f);
    Tables(RaiseTop(c.f, top));
    var d := Raised(c, top);
    forall n | n in d.f.kids ensures NodeOK(d, E, Some(top), None, n) { RaisedNodeOK(c, E, top, n); }
    forall k | k in d.hash ensures HashOK(d, Some(top), k) { RaisedHash(c, top, k); }
    forall e | e in d.thr ensures EmailOK(d, e) { EmailSame(c, d, e); }
  }

  lemma RaisedNodeOK(c: Ctx, E: set<Email>, top: MuttThread, n: MuttThread)
    requires CtxOK(c, E, None, None) && top !in c.f.par && (n == top || n in c.f.kids) && n in Raised(c, top).f.kids
    ensures NodeOK(Raised(c, top), E, Some(top), None, n)
  {
    hide WF, HashOK, EmailOK;
    Tables(c.f);
    if n != top {
      assert NodeOK(c, E, None, None, n);
      RaiseTopLinks(c.f, top, n);
      RootsParentless(c.f);
    }
  }

  lemma RootsParentless(f: ThreadForest)
    requires WF(f)
    ensures forall r :: r in f.roots ==> r in f.par && f.par[r].None?
  {
  }

  lemma RaisedHash(c: Ctx, top: MuttThread, k: string)
    requires k in c.hash && HashOK(c, None, k) && top !in c.f.par && WF(c.f)
    ensures HashOK(Raised(c, top), Some(top), k)
  {
    RaisedShape(c.f, top);
  }

  lemma DroppedOK(c: Ctx, E: set<Email>, top: MuttThread)
    requires CtxOK(c, E, Some(top), None) && c.done == c.thr.Keys
    ensures top in c.f.kids && CtxOK(Dropped(c, top), E, None, None)
  {
    hide WF, NodeOK, HashOK, EmailOK, DropTop;
    ViewOK(c, E, top, None);
    Tables(c.f);
    TopPlain(c, E, top);
    DropTopWF(c.f, top);
    DroppedShape(c.f, top);
    Tables(DropTop(c.f, top));
    var d := Dropped(c, top);
    forall n | n in d.f.kids ensures NodeOK(d, E, None, None, n) { DroppedNodeOK(c, E, top, n); }
    forall k | k in d.hash ensures HashOK(d, None, k) { DroppedHash(c, top, k); }
    forall e | e in d.thr ensures EmailOK(d, e) { EmailSame(c, d, e); }
  }

  lemma TopPlain(c: Ctx, E: set<Email>, top: MuttThread)
    requires CtxOK(c, E, Some(top), None)
    ensures top !in c.msg && top !in c.dups && top !in c.fakes && top in c.f.par && c.f.par[top].None?
  {
    hide WF, HashOK, EmailOK;
    Tables(c.f);
    assert NodeOK(c, E, Some(top), None, top);
  }

  lemma DroppedShape(f: ThreadForest, top: MuttThread)
    requires top in f.kids
    ensures DropTop(f, top).par.Keys == f.par.Keys - {top} && DropTop(f, top).roots == f.kids[top]
  {
  }

  lemma DroppedNodeOK(c: Ctx, E: set<Email>, top: MuttThread, n: MuttThread)
    requires CtxOK(c, E, Some(top), None) && c.done == c.thr.Keys && n in c.f.kids && n != top && top in c.f.kids
    requires n in Dropped(c, top).f.kids
    ensures NodeOK(Dropped(c, top), E, None, None, n)
  {
    hide WF, HashOK, EmailOK;
    ViewOK(c, E, top, None);
    Tables(c.f);
    assert NodeOK(c, E, Some(top), None, n) && NodeOK(c, E, Some(top), None, top);
    DropTopLinks(c.f, top, n);
  }

  lemma DroppedHash(c: Ctx, top: MuttThread, k: string)
    requires k in c.hash && HashOK(c, Some(top), k) && top in c.f.kids
    ensures HashOK(Dropped(c, top), None, k)
  {
  }

  lemma DroppedGrows(c: Ctx, E: set<Email>, top: MuttThread)
    requires CtxOK(c, E, Some(top), None)
    ensures top in c.f.kids && WF(Dropped(c, top).f)
    ensures Grows(ViewOf(c, Some(top)), ViewOf(Dropped(c, top), None))
    ensures forall thr :: NewEdges(ViewOf(c, Some(top)), ViewOf(Dropped(c, top), None), thr)
  {
    hide WF, NodeOK, HashOK, EmailOK, Up, CtxOK;
    ViewOK(c, E, top, None);
    Tables(c.f);
    TopPlain(c, E, top);
    DropTopWF(c.f, top);
    DroppedShape(c.f, top);
    var d := Dropped(c, top);
    UpOfPar(c.f, top);
    forall n | n in d.f.par ensures Up(d.f, n) == if Up(c.f, n) == Some(top) then None else Up(c.f, n) {
      UpOfPar(c.f, n);
      UpOfPar(d.f, n);
    }
  }

  // --- first half ---

  // A node keeps its parent, unless it was pseudo-threaded below a message and has gone to the top, or
  // was a missing message and hangs nowhere now: its message has turned up, or its last child has gone.
  ghost predicate Stays(c: Ctx, d: Ctx, top: MuttThread, n: MuttThread)
    requires n in c.f.par && n in d.f.par
  {
    || d.f.par[n] == c.f.par[n]
    || (d.f.par[n] == Some(top) && n in c.fakes && n !in d.fakes && c.f.par[n].Some? && c.f.par[n].value in d.msg)
    || (d.f.par[n] == None && n !in c.msg)
  }

  // A node that hangs below a real node did so before, or is a new duplicate.
  ghost predicate Owed(c: Ctx, d: Ctx, top: MuttThread, n: MuttThread)
    requires n in d.f.par
  {
    d.f.par[n].None? || d.f.par[n] == Some(top) || (n in d.dups && n !in c.f.par) || (n in c.f.par && c.f.par[n] == d.f.par[n])
  }

  // What placing one email, or several, keeps.
  ghost predicate Kept(c: Ctx, d: Ctx, top: MuttThread) {
    && (forall e :: e in c.thr ==> e in d.thr && d.thr[e] == c.thr[e])
    && c.done <= d.done && c.dups <= d.dups && c.msg.Keys <= d.msg.Keys && d.fakes <= c.fakes && c.f.par.Keys <= d.f.par.Keys
    && (forall e :: e in d.done ==> e in c.done || (e in d.thr && e !in c.thr && d.thr[e] in d.dups))
    && (forall n :: n in c.f.par ==> Stays(c, d, top, n))
    && (forall n :: n in d.f.par ==> Owed(c, d, top, n))
  }

  lemma KeptTrans(a: Ctx, b: Ctx, c: Ctx, top: MuttThread)
    requires Kept(a, b, top) && Kept(b, c, top) && top !in b.msg
    ensures Kept(a, c, top)
  {
    hide Stays, Owed;
    forall n | n in a.f.par ensures Stays(a, c, top, n) {
      assert Stays(a, b, top, n) && Stays(b, c, top, n);
      StaysTrans(a, b, c, top, n);
    }
    forall n | n in c.f.par ensures Owed(a, c, top, n) {
      assert Owed(b, c, top, n);
      OwedTrans(a, b, c, top, n);
    }
  }

  lemma StaysTrans(a: Ctx, b: Ctx, c: Ctx, top: MuttThread, n: MuttThread)
    requires n in a.f.par && n in b.f.par && n in c.f.par && Stays(a, b, top, n) && Stays(b, c, top, n) && top !in b.msg && c.fakes <= b.fakes <= a.fakes
    requires a.msg.Keys <= b.msg.Keys <= c.msg.Keys
    ensures Stays(a, c, top, n)
  {
  }

  lemma OwedTrans(a: Ctx, b: Ctx, c: Ctx, top: MuttThread, n: MuttThread)
    requires n in c.f.par && Owed(b, c, top, n) && (n in b.f.par ==> Owed(a, b, top, n))
    requires b.dups <= c.dups && a.f.par.Keys <= b.f.par.Keys
    ensures Owed(a, c, top, n)
  {
  }

  lemma PlacedKept(c: Ctx, d: Ctx, E: set<Email>, top: MuttThread, e: Email, found: Option<MuttThread>, dupThreads: bool)
    requires CtxOK(c, E, Some(top), None) && CtxOK(d, E, Some(top), None) && Placed(c, d, top, e, found, dupThreads)
    ensures Kept(c, d, top) && e in d.thr
  {
    hide WF, NodeOK, HashOK, EmailOK, CtxOK, Placed, Stays, Owed;
    PlacedMail(c, d, E, top, e, found, dupThreads);
    forall n | n in c.f.par ensures Stays(c, d, top, n) { PlacedStays(c, d, E, top, e, found, dupThreads, n); }
    forall n | n in d.f.par ensures Owed(c, d, top, n) { PlacedOwed(c, d, top, e, found, dupThreads, n); }
  }

  lemma PlacedMail(c: Ctx, d: Ctx, E: set<Email>, top: MuttThread, e: Email, found: Option<MuttThread>, dupThreads: bool)
    requires CtxOK(c, E, Some(top), None) && Placed(c, d, top, e, found, dupThreads)
    ensures e in d.thr && (forall x :: x in c.thr ==> x in d.thr && d.thr[x] == c.thr[x])
    ensures c.done <= d.done && c.dups <= d.dups && c.msg.Keys <= d.msg.Keys && d.fakes <= c.fakes && c.f.par.Keys <= d.f.par.Keys
    ensures forall x :: x in d.done ==> x in c.done || (x in d.thr && x !in c.thr && d.thr[x] in d.dups)
  {
    hide WF, NodeOK, HashOK, EmailOK, CtxOK;
  }

  lemma PlacedStays(c: Ctx, d: Ctx, E: set<Email>, top: MuttThread, e: Email, found: Option<MuttThread>, dupThreads: bool, n: MuttThread)
    requires CtxOK(c, E, Some(top), None) && Placed(c, d, top, e, found, dupThreads) && n in c.f.par && n in d.f.par
    ensures Stays(c, d, top, n)
  {
    hide WF, NodeOK, HashOK;
    if e in c.thr { assert EmailOK(c, e); }
  }

  // Placing an email gives nobody but a duplicate a new parent, other than the top.
  lemma PlacedOwed(c: Ctx, d: Ctx, top: MuttThread, e: Email, found: Option<MuttThread>, dupThreads: bool, n: MuttThread)
    requires Placed(c, d, top, e, found, dupThreads) && n in d.f.par
    ensures Owed(c, d, top, n)
  {
  }

  // The emails up to the n-th have been placed one after the other, through the states `placing`.
  ghost predicate PlacedInTurn(emails: seq<Email>, n: nat, init: bool, dupThreads: bool, top: MuttThread, placing: seq<Ctx>) {
    n <= |emails| && |placing| == n + 1 && forall i :: 0 <= i < n ==> PlacedAt(emails, init, dupThreads, top, placing, i)
  }

  ghost predicate PlacedAt(emails: seq<Email>, init: bool, dupThreads: bool, top: MuttThread, placing: seq<Ctx>, i: nat)
    requires i < |emails| && i + 1 < |placing|
  {
    && CtxOK(placing[i + 1], Elements(emails), Some(top), None)
    && Placed(placing[i], placing[i + 1], top, emails[i], Lookup(placing[i].hash, emails[i], init, dupThreads), dupThreads)
  }

  lemma PlacedOneMore(emails: seq<Email>, n: nat, init: bool, dupThreads: bool, top: MuttThread, placing: seq<Ctx>, c: Ctx)
    requires PlacedInTurn(emails, n, init, dupThreads, top, placing) && n < |emails| && CtxOK(c, Elements(emails), Some(top), None)
    requires Placed(placing[n], c, top, emails[n], Lookup(placing[n].hash, emails[n], init, dupThreads), dupThreads)
    ensures PlacedInTurn(emails, n + 1, init, dupThreads, top, placing + [c]) && placing[n] == (placing + [c])[n]
  {
    hide CtxOK, Placed;
    forall i | 0 <= i < n + 1 ensures PlacedAt(emails, init, dupThreads, top, placing + [c], i) {
      if i < n { assert PlacedAt(emails, init, dupThreads, top, placing, i); }
    }
  }

  // The nodes marked once the first n emails are placed.
  ghost function PlacedMarks(emails: seq<Email>, placing: seq<Ctx>, n: nat, marked: set<MuttThread>): set<MuttThread> {
    if n == 0 || n > |emails| || n >= |placing| then marked
    else PlacedMarks(emails, placing, n - 1, marked) + NewMarks(placing[n - 1], placing[n], emails[n - 1])
  }

  lemma {:induction false} MarksOneMore(emails: seq<Email>, placing: seq<Ctx>, c: Ctx, n: nat, marked: set<MuttThread>)
    requires n <= |emails| && n < |placing|
    ensures PlacedMarks(emails, placing + [c], n, marked) == PlacedMarks(emails, placing, n, marked)
  {
    hide NewMarks;
    if n > 0 { MarksOneMore(emails, placing, c, n - 1, marked); }
  }

  method PlaceAll(emails: seq<Email>, top: MuttThread, dupThreads: bool, init: bool, hash0: map<string, MuttThread>,
    ghost S0: set<MuttThread>, ghost E: set<Email>, ghost c0: Ctx, ghost marked: set<MuttThread>)
    returns (hash: map<string, MuttThread>, ghost S: set<MuttThread>, ghost c: Ctx, ghost placing: seq<Ctx>)
    requires Agrees(S0, E, c0, null) && CtxOK(c0, E, Some(top), None) && hash0 == c0.hash && E == Elements(emails) && Marks(S0, marked)
    modifies S0`parent, S0`child, S0`next, S0`prev, S0`sortThreadKey, S0`sortAuxKey, S0`fakeThread
    modifies S0`message, S0`checkSubject, E`thread, E`threaded
    ensures Agrees(S, E, c, null) && CtxOK(c, E, Some(top), None) && hash == c.hash && S0 <= S && fresh(S - S0)
    ensures Kept(c0, c, top) && forall e :: e in emails ==> e in c.thr
    ensures PlacedInTurn(emails, |emails|, init, dupThreads, top, placing) && placing[0] == c0 && placing[|emails|] == c
    ensures Marks(S, PlacedMarks(emails, placing, |emails|, marked))
  {
    hide *;
    hash, S, c, placing := hash0, S0, c0, [c0];
    InElements(emails);
    NonePlaced(emails, init, dupThreads, top, c0, marked);
    for i := 0 to |emails|
      invariant Agrees(S, E, c, null) && CtxOK(c, E, Some(top), None) && hash == c.hash && S0 <= S && fresh(S - S0)
      invariant Kept(c0, c, top) && forall e :: e in emails[..i] ==> e in c.thr
      invariant PlacedInTurn(emails, i, init, dupThreads, top, placing) && |placing| == i + 1 && placing[0] == c0 && placing[i] == c
      invariant Marks(S, PlacedMarks(emails, placing, i, marked))
    {
      hash, S, c := PlaceEmail(emails[i], top, dupThreads, init, hash, S, E, c, PlacedMarks(emails, placing, i, marked));
      PlacedStep(emails, i, init, dupThreads, top, E, placing, c, marked);
      KeptThr(placing[i], c, top);
      placing := placing + [c];
      assert emails[..i + 1] == emails[..i] + [emails[i]];
    }
    assert emails[..|emails|] == emails;
  }

  lemma NonePlaced(emails: seq<Email>, init: bool, dupThreads: bool, top: MuttThread, c: Ctx, marked: set<MuttThread>)
    ensures Kept(c, c, top) && PlacedInTurn(emails, 0, init, dupThreads, top, [c]) && PlacedMarks(emails, [c], 0, marked) == marked
  {
  }

  lemma PlacedStep(emails: seq<Email>, i: nat, init: bool, dupThreads: bool, top: MuttThread, E: set<Email>, placing: seq<Ctx>, c: Ctx, marked: set<MuttThread>)
    requires PlacedInTurn(emails, i, init, dupThreads, top, placing) && i < |emails| && E == Elements(emails)
    requires CtxOK(placing[i], E, Some(top), None) && CtxOK(c, E, Some(top), None) && Kept(placing[0], placing[i], top)
    requires Placed(placing[i], c, top, emails[i], Lookup(placing[i].hash, emails[i], init, dupThreads), dupThreads)
    ensures Kept(placing[i], c, top) && Kept(placing[0], c, top) && emails[i] in c.thr
    ensures PlacedInTurn(emails, i + 1, init, dupThreads, top, placing + [c])
    ensures PlacedMarks(emails, placing + [c], i + 1, marked) == PlacedMarks(emails, placing, i, marked) + NewMarks(placing[i], c, emails[i])
  {
    hide CtxOK, Placed, Kept, PlacedAt, NewMarks;
    PlacedKept(placing[i], c, E, top, emails[i], Lookup(placing[i].hash, emails[i], init, dupThreads), dupThreads);
    TopPlain(placing[i], E, top);
    KeptTrans(placing[0], placing[i], c, top);
    PlacedOneMore(emails, i, init, dupThreads, top, placing, c);
    MarksOneMore(emails, placing, c, i, marked);
  }

  lemma KeptThr(c: Ctx, d: Ctx, top: MuttThread)
    requires Kept(c, d, top)
    ensures forall e :: e in c.thr ==> e in d.thr
  {
  }

  // --- second half ---

  // Since c1, some emails have followed their references.
  ghost predicate Following(c1: Ctx, c: Ctx, E: set<Email>, top: MuttThread) {
    && CtxOK(c, E, Some(top), None) && c == c1.(f := c.f, hash := c.hash, done := c.done)
    && c1.done <= c.done && c1.f.par.Keys <= c.f.par.Keys
    && Grows(ViewOf(c1, Some(top)), ViewOf(c, Some(top)))
    && NewEdges(ViewOf(c1, Some(top)), ViewOf(c, Some(top)), c.thr)
    && (forall e :: e in c.done && e !in c1.done ==> e in c.thr && Follows(ViewOf(c, Some(top)), c.thr[e], EffectiveRefs(e)))
  }

  lemma FollowingStart(c: Ctx, E: set<Email>, top: MuttThread)
    requires CtxOK(c, E, Some(top), None)
    ensures Following(c, c, E, top)
  {
    hide WF, NodeOK, HashOK, EmailOK, CtxOK;
    SelfGrows(c, c, E, top);
  }

  lemma FollowingStep(c1: Ctx, c: Ctx, d: Ctx, E: set<Email>, top: MuttThread, e: Email)
    requires Following(c1, c, E, top) && Walked(c, d, E, top, e)
    ensures Following(c1, d, E, top) && d.done == c.done + {e}
  {
    hide WF, NodeOK, HashOK, EmailOK, CtxOK, Grows, NewEdges, Follows, Up;
    var u, v, w := ViewOf(c1, Some(top)), ViewOf(c, Some(top)), ViewOf(d, Some(top));
    GrowsTrans(u, v, w);
    ViewOK(c, E, top, None);
    NewEdgesTrans(u, v, w, c.thr);
    forall x | x in d.done && x !in c1.done ensures x in d.thr && Follows(w, d.thr[x], EffectiveRefs(x)) {
      if x != e { GrowsFollows(v, w, c.thr[x], EffectiveRefs(x)); }
    }
  }

  method FollowAll(emails: seq<Email>, top: MuttThread, hash0: map<string, MuttThread>,
    ghost S0: set<MuttThread>, ghost E: set<Email>, ghost c0: Ctx)
    returns (hash: map<string, MuttThread>, ghost S: set<MuttThread>, ghost c: Ctx)
    requires Agrees(S0, E, c0, null) && CtxOK(c0, E, Some(top), None) && hash0 == c0.hash
    requires forall e :: e in emails ==> e in E && e in c0.thr
    modifies S0`parent, S0`child, S0`next, S0`prev, S0`sortThreadKey, S0`sortAuxKey, E`threaded
    ensures Agrees(S, E, c, null) && hash == c.hash && S0 <= S && fresh(S - S0) && Unmarked(S, S0)
    ensures Following(c0, c, E, top) && forall e :: e in emails ==> e in c.done
  {
    hide *;
    hash, S, c := hash0, S0, c0;
    FollowingStart(c0, E, top);
    NoneUnmarked(S0);
    for i := 0 to |emails|
      invariant Agrees(S, E, c, null) && hash == c.hash && S0 <= S && fresh(S - S0) && Unmarked(S, S0)
      invariant Following(c0, c, E, top) && forall e :: e in emails[..i] ==> e in c.done
    {
      FollowingFacts(S, E, c0, c, top, emails[i]);
      assert emails[..i + 1] == emails[..i] + [emails[i]];
      if !emails[i].threaded {
        ghost var before, S1 := c, S;
        hash, S, c := WalkRefs(emails[i], top, hash, S, E, c);
        UnmarkedTrans(S0, S1, S);
        FollowingStep(c0, before, c, E, top, emails[i]);
      }
    }
    assert emails[..|emails|] == emails;
  }

  lemma FollowingFacts(S: set<MuttThread>, E: set<Email>, c0: Ctx, c: Ctx, top: MuttThread, e: Email)
    requires Agrees(S, E, c, null) && Following(c0, c, E, top) && e in E && e in c0.thr
    ensures CtxOK(c, E, Some(top), None) && e in c.thr && (e.threaded <==> e in c.done)
  {
    hide WF, NodeOK, HashOK, EmailOK, CtxOK, Grows, NewEdges, Follows, Linked, Messages, Flags;
  }

  // --- before and after ---

  method RaiseTree(head: MuttThread?, ghost S: set<MuttThread>, ghost E: set<Email>, ghost c: Ctx)
    returns (top: MuttThread)
    requires Agrees(S, E, c, head) && CtxOK(c, E, None, None)
    modifies S`parent
    ensures fresh(top) && top !in S && !top.checkSubject && Raised(c, top).hash == c.hash
    ensures Agrees(S + {top}, E, Raised(c, top), null) && CtxOK(Raised(c, top), E, Some(top), None)
  {
    hide *;
    NodesAllocated(S);
    top := new MuttThread();
    top.child := head;
    RaiseParts(S, E, c, head, top);
    SetParents(head, top, c.f.roots, S + {top}, RaiseTop(c.f, top), top);
    RaiseJoin(S + {top}, E, c, top);
    RaisedOK(c, E, top);
  }

  lemma RaiseParts(S: set<MuttThread>, E: set<Email>, c: Ctx, head: MuttThread?, top: MuttThread)
    requires Agrees(S, E, c, head) && CtxOK(c, E, None, None) && top !in S && top.child == head && top.parent == null
    requires top.message == null && !top.duplicateThread && !top.fakeThread
    ensures var f := RaiseTop(c.f, top);
            WF(f) && Linked(S + {top}, f, null, Elements(c.f.roots)) && c.f.roots == KidsOf(f, top)
    ensures head == OrNull(First(c.f.roots)) && top !in c.f.par
    ensures Messages(S + {top}, c.msg) && Flags(S + {top}, c.dups, c.fakes) && Mails(E, c.thr, c.done)
  {
    RaisedLinks(S, c.f, head, top);
    hide WF, Linked, RaiseTop;
    LinkedNodes(S, c.f, head, {});
    RaisedShape(c.f, top);
    HeadIs(S, c.f, head);
  }

  lemma HeadIs(S: set<MuttThread>, f: ThreadForest, head: MuttThread?)
    requires Linked(S, f, head, {})
    ensures head == OrNull(First(f.roots))
  {
  }

  lemma RaiseJoin(S: set<MuttThread>, E: set<Email>, c: Ctx, top: MuttThread)
    requires Linked(S, RaiseTop(c.f, top), null, {})
    requires Messages(S, c.msg) && Flags(S, c.dups, c.fakes) && Mails(E, c.thr, c.done)
    ensures Agrees(S, E, Raised(c, top), null) && Raised(c, top).hash == c.hash
  {
  }

  method DropTree(top: MuttThread, ghost S: set<MuttThread>, ghost E: set<Email>, ghost c: Ctx)
    returns (head: MuttThread?)
    requires Agrees(S, E, c, null) && CtxOK(c, E, Some(top), None) && c.done == c.thr.Keys
    modifies S`parent
    ensures top in c.f.kids && top in S
    ensures Agrees(S - {top}, E, Dropped(c, top), head) && CtxOK(Dropped(c, top), E, None, None)
  {
    hide *;
    DropParts(S, E, c, top);
    SetParents(top.child, null, KidsOf(c.f, top), S, c.f, top);
    head := top.child;
    DropJoin(S, E, c, top);
    DroppedOK(c, E, top);
  }

  lemma DropParts(S: set<MuttThread>, E: set<Email>, c: Ctx, top: MuttThread)
    requires Agrees(S, E, c, null) && CtxOK(c, E, Some(top), None)
    ensures WF(c.f) && Linked(S, c.f, null, {}) && top in S && top in c.f.par && top in c.f.kids && c.f.par[top].None? && c.f.roots == []
    ensures top.child == OrNull(First(KidsOf(c.f, top)))
    ensures Messages(S, c.msg) && Flags(S, c.dups, c.fakes) && Mails(E, c.thr, c.done)
  {
    hide NodeOK, HashOK, EmailOK;
    Tables(c.f);
    TopPlain(c, E, top);
    ViewOK(c, E, top, None);
    FirstKidField(S, c.f, null, top);
  }

  lemma DropJoin(S: set<MuttThread>, E: set<Email>, c: Ctx, top: MuttThread)
    requires WF(c.f) && top in c.f.par && c.f.par[top].None? && c.f.roots == [] && top in c.f.kids
    requires Linked(S, c.f, null, Elements(KidsOf(c.f, top)))
    requires forall n :: n in KidsOf(c.f, top) ==> n.parent == null
    requires Messages(S, c.msg) && Flags(S, c.dups, c.fakes) && Mails(E, c.thr, c.done)
    ensures Agrees(S - {top}, E, Dropped(c, top), top.child)
  {
    hide Linked, WF, DropTop;
    DroppedLinks(S, c.f, top);
  }

  // --- the threading context ---

  ghost function EmptyForest(): ThreadForest {
    Forest([], map[], map[], map[], 0)
  }

  ghost function EmptyCtx(): Ctx {
    Ctx(EmptyForest(), map[], map[], {}, {}, map[], {})
  }

  // struct ThreadsContext
  class ThreadsContext {
    var tree: MuttThread?
    var hash: map<string, MuttThread>
    var hasHash: bool
    var cSort: EmailOrder.SortType
    var cSortAux: EmailOrder.SortType
    ghost var nodes: set<MuttThread>
    ghost var c: Ctx

    // The heap is in the state c, and every email that has a node has been placed.
    ghost predicate Valid(E: set<Email>)
      reads this`tree, this`hash, this`hasHash, this`nodes, this`c, nodes`parent, nodes`child, nodes`next, nodes`prev, nodes`message, nodes`duplicateThread, nodes`fakeThread
      reads E`thread, E`threaded
    {
      Agrees(nodes, E, c, tree) && CtxOK(c, E, None, None) && hash == c.hash && c.done == c.thr.Keys
      && (!hasHash ==> c == EmptyCtx())
    }

    constructor ()
      ensures fresh(nodes) && c == EmptyCtx() && !hasHash
      ensures forall E :: (forall e: Email :: e in E ==> e.thread == null && !e.threaded) ==> Valid(E)
    {
      tree, hash, hasHash := null, map[], false;
      cSort, cSortAux := EmailOrder.SortType(0, false, false), EmailOrder.SortType(0, false, false);
      nodes, c := {}, EmptyCtx();
    }

    // The part of mutt_sort_threads before check_subjects.
    method ThreadByReferences(emails: seq<Email>, init0: bool, dupThreads: bool) returns (ghost w: Course)
      requires Valid(Elements(emails)) && (init0 ==> c == EmptyCtx())
      modifies this, nodes, Elements(emails)`thread, Elements(emails)`threaded
      ensures Valid(Elements(emails)) && hasHash && fresh(nodes - old(nodes))
      ensures Threaded(emails, old(c), c) && Runs(emails, init0 || !old(hasHash), dupThreads, old(c), w, c)
      ensures Marks(nodes, MarksAfter(emails, w, old(Marked(nodes))))
      ensures cSort == old(cSort) && cSortAux == old(cSortAux)
    {
      hide *;
      ghost var E := Elements(emails);
      ValidParts(this, E);
      var head, table, S, d, way := SortByReferences(emails, init0 || !hasHash, dupThreads, tree, hash, nodes, c);
      w := way;
      tree, hash, hasHash, nodes, c := head, table, true, S, d;
      ValidJoin(this, E);
    }
  }

  ghost function Marked(S: set<MuttThread>): set<MuttThread>
    reads S`checkSubject
  {
    set n | n in S && n.checkSubject
  }

  // The way of the emails: below the node `top` they are placed one by one, through the states
  // `placing`, and then follow their references, up to the state `last`.
  datatype Course = Course(top: MuttThread, placing: seq<Ctx>, last: Ctx)

  ghost predicate Runs(emails: seq<Email>, init: bool, dupThreads: bool, c0: Ctx, w: Course, c: Ctx) {
    && PlacedInTurn(emails, |emails|, init, dupThreads, w.top, w.placing) && w.placing[0] == Raised(c0, w.top)
    && Following(w.placing[|emails|], w.last, Elements(emails), w.top)
    && w.top in w.last.f.kids && c == Dropped(w.last, w.top)
  }

  // The nodes marked by then, if those of `marked` were at the start.
  ghost function MarksAfter(emails: seq<Email>, w: Course, marked: set<MuttThread>): set<MuttThread> {
    PlacedMarks(emails, w.placing, |emails|, marked) - {w.top}
  }

  method SortByReferences(emails: seq<Email>, init: bool, dupThreads: bool, head0: MuttThread?, hash0: map<string, MuttThread>,
    ghost S0: set<MuttThread>, ghost c0: Ctx)
    returns (head: MuttThread?, hash: map<string, MuttThread>, ghost S: set<MuttThread>, ghost c: Ctx, ghost w: Course)
    requires Agrees(S0, Elements(emails), c0, head0) && CtxOK(c0, Elements(emails), None, None) && hash0 == c0.hash && c0.done == c0.thr.Keys
    modifies S0`parent, S0`child, S0`next, S0`prev, S0`sortThreadKey, S0`sortAuxKey, S0`fakeThread
    modifies S0`message, S0`checkSubject, Elements(emails)`thread, Elements(emails)`threaded
    ensures Agrees(S, Elements(emails), c, head) && CtxOK(c, Elements(emails), None, None) && hash == c.hash && c.done == c.thr.Keys
    ensures fresh(S - S0) && Threaded(emails, c0, c) && Runs(emails, init, dupThreads, c0, w, c)
    ensures Marks(S, MarksAfter(emails, w, old(Marked(S0))))
  {
    hide *;
    ghost var E, marked := Elements(emails), Marked(S0);
    InElements(emails);
    MarkedIs(S0);
    var top := RaiseTree(head0, S0, E, c0);
    TopUnmarked(S0, top, marked);
    var table, S1, c1, placing := PlaceAll(emails, top, dupThreads, init, hash0, S0 + {top}, E, Raised(c0, top), marked);
    var table2, S2, c2 := FollowAll(emails, top, table, S1, E, c1);
    MarksMore(S1, S2, PlacedMarks(emails, placing, |emails|, marked));
    AllDone(emails, c0, top, c1, c2, E);
    head := DropTree(top, S2, E, c2);
    ThreadedOK(emails, c0, top, c1, c2, E);
    hash, S, c, w := table2, S2 - {top}, Dropped(c2, top), Course(top, placing, c2);
    RunsOK(emails, init, dupThreads, c0, w, c, S2, marked);
  }

  lemma MarkedIs(S: set<MuttThread>)
    ensures Marks(S, Marked(S))
  {
  }

  lemma TopUnmarked(S: set<MuttThread>, top: MuttThread, marked: set<MuttThread>)
    requires Marks(S, marked) && !top.checkSubject
    ensures Marks(S + {top}, marked)
  {
  }

  lemma RunsOK(emails: seq<Email>, init: bool, dupThreads: bool, c0: Ctx, w: Course, c: Ctx, S: set<MuttThread>, marked: set<MuttThread>)
    requires PlacedInTurn(emails, |emails|, init, dupThreads, w.top, w.placing) && w.placing[0] == Raised(c0, w.top)
    requires Following(w.placing[|emails|], w.last, Elements(emails), w.top) && w.top in w.last.f.kids && c == Dropped(w.last, w.top)
    requires Marks(S, PlacedMarks(emails, w.placing, |emails|, marked))
    ensures Runs(emails, init, dupThreads, c0, w, c) && Marks(S - {w.top}, MarksAfter(emails, w, marked))
  {
    hide PlacedInTurn, Following, PlacedMarks;
  }

  lemma ValidParts(t: ThreadsContext, E: set<Email>)
    requires t.Valid(E)
    ensures Agrees(t.nodes, E, t.c, t.tree) && CtxOK(t.c, E, None, None) && t.hash == t.c.hash
    ensures t.c.done == t.c.thr.Keys
  {
  }

  lemma InElements<T>(s: seq<T>)
    ensures forall x :: x in s ==> x in Elements(s)
  {
  }

  lemma ValidJoin(t: ThreadsContext, E: set<Email>)
    requires Agrees(t.nodes, E, t.c, t.tree) && CtxOK(t.c, E, None, None) && t.hash == t.c.hash && t.c.done == t.c.thr.Keys && t.hasHash
    ensures t.Valid(E)
  {
  }

  lemma AllDone(emails: seq<Email>, c: Ctx, top: MuttThread, c1: Ctx, c2: Ctx, E: set<Email>)
    requires E == Elements(emails) && Following(c1, c2, E, top)
    requires (forall e :: e in emails ==> e in c1.thr && e in c2.done)
    ensures CtxOK(c2, E, Some(top), None) && c2.done == c2.thr.Keys
  {
    hide WF, NodeOK, HashOK, EmailOK, Grows, NewEdges, Follows;
  }

  lemma ThreadedOK(emails: seq<Email>, c: Ctx, top: MuttThread, c1: Ctx, c2: Ctx, E: set<Email>)
    requires E == Elements(emails) && CtxOK(c, E, None, None) && c.done == c.thr.Keys && top !in c.f.par
    requires Kept(Raised(c, top), c1, top) && CtxOK(c1, E, Some(top), None) && Following(c1, c2, E, top)
    requires forall e :: e in emails ==> e in c1.thr && e in c2.done
    ensures top in c2.f.kids && Threaded(emails, c, Dropped(c2, top))
    ensures Dropped(c2, top).hash == c2.hash && Dropped(c2, top).done == c2.done && Dropped(c2, top).thr == c2.thr
  {
    hide WF, NodeOK, HashOK, EmailOK, CtxOK, Grows, NewEdges, Follows, Up, Settled, RaiseTop, DropTop, Sourced, Lasts, Based, Honours, EffectiveRefs;
    DroppedGrows(c2, E, top);
    ViewOK(c2, E, top, None);
    var v2 := ViewOf(c2, Some(top));
    var d := Dropped(c2, top);
    forall e | e in emails && e !in c.thr ensures c2.thr[e] in c2.dups || Honours(ViewOf(d, None), c2.thr[e], e) {
      if e !in c1.done {
        GrowsFollows(v2, ViewOf(d, None), c2.thr[e], EffectiveRefs(e));
        HonoursIs(ViewOf(d, None), c2.thr[e], e);
      }
    }
    SecondHalf(c1, c2, E, top);
    DroppedShape(c2.f, top);
    forall n | n in c.f.par && Settled(ViewOf(c, None), n) ensures Lasts(c, d, n) { LastsOK(c, c1, c2, d, E, top, n); }
    forall n | n in d.f.par && Settled(ViewOf(d, None), n) ensures Based(c, d, n) { BasedOK(c, c1, d, E, top, n); }
  }

  // The second half and the end of the temporary node, together.
  lemma SecondHalf(c1: Ctx, c2: Ctx, E: set<Email>, top: MuttThread)
    requires CtxOK(c1, E, Some(top), None) && Following(c1, c2, E, top)
    ensures top in c2.f.kids && WF(Dropped(c2, top).f)
    ensures Grows(ViewOf(c1, Some(top)), ViewOf(Dropped(c2, top), None))
    ensures NewEdges(ViewOf(c1, Some(top)), ViewOf(Dropped(c2, top), None), c2.thr)
    ensures c1.f.par.Keys - {top} <= Dropped(c2, top).f.par.Keys
    ensures Dropped(c2, top) == c1.(f := Dropped(c2, top).f, hash := c2.hash, done := c2.done)
  {
    hide WF, NodeOK, HashOK, EmailOK, CtxOK, Grows, Follows, Sourced, NewEdges;
    DroppedGrows(c2, E, top);
    DroppedShape(c2.f, top);
    ViewOK(c1, E, top, None);
    ViewOK(c2, E, top, None);
    hide DropTop;
    var v1, v2 := ViewOf(c1, Some(top)), ViewOf(c2, Some(top));
    var w := ViewOf(Dropped(c2, top), None);
    assert v1.f.par.Keys <= v2.f.par.Keys;
    GrowsTrans(v1, v2, w);
    NewEdgesTrans(v1, v2, w, c2.thr);
  }

  // What becomes of a node that hangs below another one: it stays there, unless it was pseudo-threaded
  // below a message, or was a missing message that has turned up or has lost all its children.
  ghost predicate Lasts(c0: Ctx, c: Ctx, n: MuttThread) {
    || Up(c.f, n) == Up(c0.f, n)
    || (n in c0.fakes && n !in c.fakes && Up(c0.f, n).Some? && Up(c0.f, n).value in c.msg)
    || (n !in c0.msg && (n in c.msg || forall k :: k in c.f.par && Up(c.f, k) == Some(n) ==> Sourced(ViewOf(c, None), c.thr, k)))
  }

  // Where the parent of a node comes from: it was there before, or was given to a new duplicate, or
  // is owed to a reference.
  ghost predicate Based(c0: Ctx, c: Ctx, n: MuttThread) {
    || (n in c0.f.par && Up(c.f, n) == Up(c0.f, n))
    || (n !in c0.f.par && n in c.dups)
    || Sourced(ViewOf(c, None), c.thr, n)
  }

  lemma LastsOK(c: Ctx, c1: Ctx, c2: Ctx, d: Ctx, E: set<Email>, top: MuttThread, n: MuttThread)
    requires CtxOK(c, E, None, None) && CtxOK(c1, E, Some(top), None) && top !in c.f.par && Kept(Raised(c, top), c1, top)
    requires Grows(ViewOf(c1, Some(top)), ViewOf(d, None)) && NewEdges(ViewOf(c1, Some(top)), ViewOf(d, None), d.thr) && WF(d.f)
    requires d == c1.(f := d.f, hash := d.hash, done := d.done)
    requires n in c.f.par && Settled(ViewOf(c, None), n)
    ensures Lasts(c, d, n)
  {
    hide WF, NodeOK, HashOK, EmailOK, CtxOK, Up, RaiseTop, Sourced, NewEdges;
    RaisedUp(c, E, top, n);
    assert Stays(Raised(c, top), c1, top, n);
    ViewOK(c1, E, top, None);
    UpOfPar(c1.f, n);
    if c1.f.par[n] == None && n !in d.msg {
      forall k | k in d.f.par && Up(d.f, k) == Some(n) ensures Sourced(ViewOf(d, None), d.thr, k) {
        Emptied(c1, d, E, top, n, k);
      }
    }
  }

  lemma RaisedUp(c: Ctx, E: set<Email>, top: MuttThread, n: MuttThread)
    requires CtxOK(c, E, None, None) && top !in c.f.par && n in c.f.par
    ensures var r := Raised(c, top);
            n in r.f.par && r == c.(f := r.f) && r.f.par[n] == (if Up(c.f, n).None? && n in c.f.roots then Some(top) else Up(c.f, n))
    ensures Up(c.f, n) != Some(top)
  {
    hide NodeOK, HashOK, EmailOK;
    UpOfPar(c.f, n);
    RaisedShape(c.f, top);
    Tables(c.f);
    RootsParentless(c.f);
    hide WF;
  }

  // A missing message that hangs nowhere after the first half has no child then.
  lemma Emptied(c1: Ctx, d: Ctx, E: set<Email>, top: MuttThread, n: MuttThread, k: MuttThread)
    requires CtxOK(c1, E, Some(top), None) && n in c1.f.par && c1.f.par[n] == None && n !in c1.msg && n != top
    requires Grows(ViewOf(c1, Some(top)), ViewOf(d, None)) && NewEdges(ViewOf(c1, Some(top)), ViewOf(d, None), d.thr)
    requires k in d.f.par && Up(d.f, k) == Some(n)
    ensures Sourced(ViewOf(d, None), d.thr, k)
  {
    hide HashOK, EmailOK, Up, Sourced;
    Tables(c1.f);
    assert NodeOK(c1, E, Some(top), None, n) && NodeOK(c1, E, Some(top), None, top);
    if k in c1.f.par && Settled(ViewOf(c1, Some(top)), k) {
      UpOfPar(c1.f, k);
      ParentWithKid(c1.f, k);
    }
  }

  lemma BasedOK(c: Ctx, c1: Ctx, d: Ctx, E: set<Email>, top: MuttThread, n: MuttThread)
    requires CtxOK(c, E, None, None) && CtxOK(c1, E, Some(top), None) && top !in c.f.par && Kept(Raised(c, top), c1, top)
    requires Grows(ViewOf(c1, Some(top)), ViewOf(d, None)) && NewEdges(ViewOf(c1, Some(top)), ViewOf(d, None), d.thr)
    requires d == c1.(f := d.f, hash := d.hash, done := d.done) && n != top
    requires n in d.f.par && Settled(ViewOf(d, None), n)
    ensures Based(c, d, n)
  {
    hide WF, NodeOK, HashOK, EmailOK, CtxOK, Up, RaiseTop, Sourced;
    if n in c1.f.par && Settled(ViewOf(c1, Some(top)), n) {
      RaisedShape(c.f, top);
      assert Owed(Raised(c, top), c1, top, n);
      ViewOK(c1, E, top, None);
      UpOfPar(c1.f, n);
      if n in c.f.par { RaisedUp(c, E, top, n); }
    }
  }

  // The references of e are honoured: all of References, or of In-Reply-To, if that is the only header of
  // the two; else the first In-Reply-To, if References does not begin with it, and all of References.
  ghost predicate Honours(v: View, n: MuttThread, e: Email) {
    && (e.inReplyTo == [] ==> Follows(v, n, e.references))
    && (e.references == [] ==> Follows(v, n, e.inReplyTo))
    && (e.inReplyTo != [] && e.references != [] ==>
          Follows(v, n, if e.inReplyTo[0] == e.references[0] then e.references else [e.inReplyTo[0]] + e.references))
  }

  lemma HonoursIs(v: View, n: MuttThread, e: Email)
    requires Follows(v, n, EffectiveRefs(e))
    ensures Honours(v, n, e)
  {
    hide Follows;
    if e.inReplyTo != [] && e.references != [] && e.inReplyTo[0] == e.references[0] {
      assert [e.references[0]] + e.references[1..] == e.references;
    }
  }

  // What threading by references achieves, from the state c0 to c.
  ghost predicate Threaded(emails: seq<Email>, c0: Ctx, c: Ctx) {
    && (forall e :: e in emails ==> e in c.thr && e in c.done)
    && (forall e :: e in emails && e !in c0.thr && e in c.thr ==> c.thr[e] in c.dups || Honours(ViewOf(c, None), c.thr[e], e))
    && (forall n :: n in c0.f.par && Settled(ViewOf(c0, None), n) ==> Lasts(c0, c, n))
    && (forall n :: n in c.f.par && Settled(ViewOf(c, None), n) ==> Based(c0, c, n))
  }
}
