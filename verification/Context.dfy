// The state of a threading context as a value, the invariant that mutt_sort_threads keeps on it,
// and the steps it is made of.
module Context {
  import opened Wrappers
  import opened Forests
  import opened Threads
  import opened References

  // msg: the email of each node that has one.  thr: the node of each email that has one.
  // done: the emails already placed (`threaded`).
  datatype Ctx = Ctx(f: ThreadForest, hash: map<string, MuttThread>, msg: map<MuttThread, Email>,
                     dups: set<MuttThread>, fakes: set<MuttThread>,
                     thr: map<Email, MuttThread>, done: set<Email>)

  // The key an email's node is stored under.
  function Key(e: Email): string {
    match e.messageId case None => "" case Some(id) => id
  }

  ghost function ViewOf(c: Ctx, top: Option<MuttThread>): View {
    View(c.f, c.hash, c.msg.Keys, c.dups, top)
  }

  // `busy` is the one node in the middle of being moved.
  ghost predicate NodeOK(c: Ctx, E: set<Email>, top: Option<MuttThread>, busy: Option<MuttThread>, n: MuttThread)
    requires n in c.f.kids
  {
    if Some(n) == top then
      n !in c.msg && n !in c.dups && n !in c.fakes && n in c.f.par && c.f.par[n].None? && c.f.roots == []
    else
      && (n !in c.msg ==>
            n !in c.dups && (Some(n) != busy ==> (Attached(c.f, n) <==> c.f.kids[n] != [])))
      && (n in c.msg ==>
            && c.msg[n] in E && c.msg[n] in c.thr && c.thr[c.msg[n]] == n
            && (Some(n) != busy ==> if c.msg[n] in c.done then Attached(c.f, n) else Unplaced(c.f, top, n)))
      && (n in c.dups ==> n in c.msg && DupOK(c, n) && n !in c.fakes)
  }

  // An email not placed yet hangs nowhere, or was put on top when a reference led to it.
  ghost predicate Unplaced(f: ThreadForest, top: Option<MuttThread>, n: MuttThread) {
    n in f.par && (f.par[n].None? || f.par[n] == top) && n !in f.roots
  }

  // A duplicate hangs below the message it duplicates, which is not a duplicate itself.
  ghost predicate DupOK(c: Ctx, n: MuttThread)
    requires n in c.msg
  {
    && n in c.f.par && c.f.par[n].Some?
    && var p := c.f.par[n].value;
       p in c.msg && p !in c.dups && Key(c.msg[p]) == Key(c.msg[n])
  }

  ghost predicate HashOK(c: Ctx, top: Option<MuttThread>, k: string)
    requires k in c.hash
  {
    && c.hash[k] in c.f.par && Some(c.hash[k]) != top
    && (c.hash[k] in c.msg ==> k == Key(c.msg[c.hash[k]]))
  }

  // The email's node has it as its message, and there is a message of its id.
  ghost predicate EmailOK(c: Ctx, e: Email)
    requires e in c.thr
  {
    c.thr[e] in c.msg && c.msg[c.thr[e]] == e && Key(e) in c.hash && c.hash[Key(e)] in c.msg
  }

  ghost predicate CtxOK(c: Ctx, E: set<Email>, top: Option<MuttThread>, busy: Option<MuttThread>) {
    && WF(c.f)
    && (top.Some? ==> top.value in c.f.par)
    && c.msg.Keys <= c.f.par.Keys && c.dups <= c.f.par.Keys && c.fakes <= c.f.par.Keys
    && (forall n :: n in c.f.kids ==> NodeOK(c, E, top, busy, n))
    && (forall k :: k in c.hash ==> HashOK(c, top, k))
    && (forall k, k' :: k in c.hash && k' in c.hash && c.hash[k] == c.hash[k'] ==> k == k')
    && c.thr.Keys <= E && c.done <= c.thr.Keys
    && (forall e :: e in c.thr ==> EmailOK(c, e))
  }

  // --- steps ---

  ghost function Cut(f: ThreadForest, n: MuttThread): ThreadForest
    requires n in f.par && (f.par[n].Some? ==> f.par[n].value in f.kids)
  {
    if f.par[n].Some? then Unlink(f, n) else f
  }

  // n, wherever it hangs, becomes the first child of p.
  ghost function Reparent(c: Ctx, n: MuttThread, p: MuttThread): Ctx
    requires n in c.f.par && (c.f.par[n].Some? ==> c.f.par[n].value in c.f.kids)
    requires p in c.f.kids && p in c.f.lvl
  {
    c.(f := Insert(Cut(c.f, n), p, n))
  }

  lemma CutOK(f: ThreadForest, n: MuttThread, p: MuttThread)
    requires WF(f) && n in f.par && n !in f.roots && p in f.par && !IsUnder(f, p, n)
    ensures WF(Cut(f, n)) && Dangling(Cut(f, n), n) && !IsUnder(Cut(f, n), p, n)
  {
    if f.par[n].Some? {
      UnlinkWF(f, n);
      UnlinkUnder(f, n, p, n);
    }
  }

  lemma ReparentWF(c: Ctx, n: MuttThread, p: MuttThread)
    requires WF(c.f) && n in c.f.par && n !in c.f.roots && p in c.f.par && !IsUnder(c.f, p, n)
    ensures c.f.par[n].Some? ==> c.f.par[n].value in c.f.kids
    ensures p in c.f.kids && p in c.f.lvl && WF(Reparent(c, n, p).f)
  {
    if c.f.par[n].Some? { assert ParentOK(c.f, n, c.f.par[n].value); }
    hide Unlink, Insert, IsUnder, Dangling, WF;
    CutOK(c.f, n, p);
    InsertWF(Cut(c.f, n), p, n);
  }

  // The nodes, parents and child lists after the move.
  lemma ReparentShape(c: Ctx, n: MuttThread, p: MuttThread)
    requires n in c.f.par && (c.f.par[n].Some? ==> c.f.par[n].value in c.f.kids)
    requires p in c.f.kids && p in c.f.lvl
    ensures var g := Reparent(c, n, p).f;
            && g.roots == c.f.roots && g.par == c.f.par[n := Some(p)] && g.kids.Keys == c.f.kids.Keys
            && g.kids[p] != []
            && (forall m :: m in g.kids && m != p && Some(m) != c.f.par[n] ==> g.kids[m] == c.f.kids[m])
  {
  }

  // A placed node n moves below p.  If p is a missing message that hangs nowhere yet, p becomes busy.
  lemma ReparentOK(c: Ctx, E: set<Email>, top: Option<MuttThread>, busy: Option<MuttThread>, n: MuttThread, p: MuttThread)
    requires CtxOK(c, E, top, busy) && (busy.None? || busy == Some(n))
    requires n in c.f.par && n !in c.f.roots && Some(n) != top && n !in c.dups
    requires p in c.f.par && !IsUnder(c.f, p, n)
    requires c.f.par[n].Some? ==> c.f.par[n] == top || c.f.par[n].value in c.msg
    requires if n in c.msg then c.msg[n] in c.done || Some(p) == top else c.f.kids[n] != []
    ensures c.f.par[n].Some? ==> c.f.par[n].value in c.f.kids
    ensures CtxOK(Reparent(c, n, p), E, top, Waiting(c, top, p))
  {
    hide WF, IsUnder, HashOK, EmailOK, Insert, Unlink, Cut;
    Tables(c.f);
    ReparentWF(c, n, p);
    ReparentShape(c, n, p);
    var d := Reparent(c, n, p);
    assert n != p by { IsUnderSelf(c.f, n); }
    forall m | m in d.f.kids ensures NodeOK(d, E, top, Waiting(c, top, p), m) {
      ReparentNode(c, d, E, top, busy, n, p, m);
    }
    forall k | k in d.hash ensures HashOK(d, top, k) { HashSame(c, d, top, k); }
    forall e | e in d.thr ensures EmailOK(d, e) { EmailSame(c, d, e); }
  }

  lemma ReparentNode(c: Ctx, d: Ctx, E: set<Email>, top: Option<MuttThread>, busy: Option<MuttThread>,
    n: MuttThread, p: MuttThread, m: MuttThread)
    requires busy.None? || busy == Some(n)
    requires n in c.f.par && p in c.f.kids && m in c.f.kids && m in c.f.par && n != p
    requires NodeOK(c, E, top, busy, m) && Some(n) != top && n !in c.dups && n !in c.f.roots
    requires c.f.par[n].Some? ==> c.f.par[n] == top || c.f.par[n].value in c.msg
    requires n in c.f.kids && if n in c.msg then c.msg[n] in c.done || Some(p) == top else c.f.kids[n] != []
    requires d == c.(f := d.f) && d.f.roots == c.f.roots && d.f.par == c.f.par[n := Some(p)] && d.f.kids.Keys == c.f.kids.Keys
    requires d.f.kids[p] != []
    requires m != p && Some(m) != c.f.par[n] ==> d.f.kids[m] == c.f.kids[m]
    requires d.f.kids[n] == c.f.kids[n]
    ensures NodeOK(d, E, top, Waiting(c, top, p), m)
  {
  }

  // p, about to get a child, is left waiting for a parent of its own.
  ghost function Waiting(c: Ctx, top: Option<MuttThread>, p: MuttThread): Option<MuttThread> {
    if Some(p) == top || p in c.msg || Attached(c.f, p) then None else Some(p)
  }

  lemma IsUnderSelf(f: ThreadForest, n: MuttThread)
    ensures IsUnder(f, n, n)
  {
  }

  lemma HashSame(c: Ctx, d: Ctx, top: Option<MuttThread>, k: string)
    requires k in c.hash && HashOK(c, top, k) && k in d.hash && d.hash[k] == c.hash[k]
    requires d.msg == c.msg && d.f.par.Keys >= c.f.par.Keys
    ensures HashOK(d, top, k)
  {
  }

  lemma EmailSame(c: Ctx, d: Ctx, e: Email)
    requires e in c.thr && EmailOK(c, e) && e in d.thr && d.thr[e] == c.thr[e] && d.msg == c.msg
    requires Key(e) in c.hash ==> Key(e) in d.hash && d.hash[Key(e)] == c.hash[Key(e)]
    ensures EmailOK(d, e)
  {
  }

  lemma FakesOK(c: Ctx, E: set<Email>, top: Option<MuttThread>, busy: Option<MuttThread>, n: MuttThread)
    requires CtxOK(c, E, top, busy)
    ensures CtxOK(c.(fakes := c.fakes - {n}), E, top, busy)
  {
    hide WF, Attached;
    var d := c.(fakes := c.fakes - {n});
    forall m | m in d.f.kids ensures NodeOK(d, E, top, busy, m) { assert NodeOK(c, E, top, busy, m); }
    forall k | k in d.hash ensures HashOK(d, top, k) { assert HashOK(c, top, k); }
    forall e | e in d.thr ensures EmailOK(d, e) { assert EmailOK(c, e); }
  }

  // e is about to be placed: its node becomes busy.
  lemma DoneOK(c: Ctx, E: set<Email>, top: Option<MuttThread>, e: Email)
    requires CtxOK(c, E, top, None) && e in c.thr
    ensures CtxOK(c.(done := c.done + {e}), E, top, Some(c.thr[e]))
  {
    hide WF, Attached;
    var d := c.(done := c.done + {e});
    assert EmailOK(c, e);
    forall m | m in d.f.kids ensures NodeOK(d, E, top, Some(c.thr[e]), m) { assert NodeOK(c, E, top, None, m); }
    forall k | k in d.hash ensures HashOK(d, top, k) { assert HashOK(c, top, k); }
    forall e' | e' in d.thr ensures EmailOK(d, e') { assert EmailOK(c, e'); }
  }

  // A missing message n turns up as e.
  lemma FoundOK(c: Ctx, E: set<Email>, top: Option<MuttThread>, n: MuttThread, e: Email)
    requires CtxOK(c, E, top, None) && n in c.f.par && n !in c.msg && Some(n) != top
    requires e in E && e !in c.thr && Key(e) in c.hash && c.hash[Key(e)] == n
    ensures CtxOK(c.(msg := c.msg[n := e], thr := c.thr[e := n]), E, top, Some(n))
  {
    hide WF, Attached;
    var d := c.(msg := c.msg[n := e], thr := c.thr[e := n]);
    forall m | m in d.f.kids ensures NodeOK(d, E, top, Some(n), m) { assert NodeOK(c, E, top, None, m); }
    forall k | k in d.hash ensures HashOK(d, top, k) { assert HashOK(c, top, k); }
    forall e' | e' in d.thr ensures EmailOK(d, e') {
      if e' != e { assert EmailOK(c, e'); }
    }
  }

  // A node n without a message, or one whose email has not been placed yet, comes loose from its
  // parent; a missing message left without a child becomes busy in turn.
  lemma LooseOK(c: Ctx, E: set<Email>, top: Option<MuttThread>, n: MuttThread)
    requires CtxOK(c, E, top, Some(n)) && n in c.f.par && c.f.par[n].Some? && Some(n) != top && n !in c.dups
    requires n in c.f.kids && if n in c.msg then c.msg[n] !in c.done else c.f.kids[n] == []
    ensures c.f.par[n].value in c.f.kids
    ensures CtxOK(c.(f := Unlink(c.f, n)), E, top, Childless(c.(f := Unlink(c.f, n)), top, c.f.par[n].value))
  {
    hide WF, NodeOK, HashOK, EmailOK, Childless, Dangling;
    Tables(c.f);
    UnlinkWF(c.f, n);
    ParentWithKid(c.f, n);
    var d := c.(f := Unlink(c.f, n));
    var q := c.f.par[n].value;
    forall m | m in d.f.kids ensures NodeOK(d, E, top, Childless(d, top, q), m) { LooseNode(c, d, E, top, n, q, m); }
    forall k | k in d.hash ensures HashOK(d, top, k) { HashSame(c, d, top, k); }
    forall e | e in d.thr ensures EmailOK(d, e) { EmailSame(c, d, e); }
  }

  lemma LooseNode(c: Ctx, d: Ctx, E: set<Email>, top: Option<MuttThread>, n: MuttThread, q: MuttThread, m: MuttThread)
    requires n in c.f.par && m in c.f.kids && m in c.f.par && NodeOK(c, E, top, Some(n), m)
    requires c.f.par[n] == Some(q) && Some(n) != top && n !in c.dups && n != q
    requires n in c.f.kids && if n in c.msg then c.msg[n] !in c.done else c.f.kids[n] == []
    requires q in c.f.kids && c.f.kids[q] != []
    requires d == c.(f := d.f) && d.f.roots == c.f.roots && n !in d.f.roots && d.f.par == c.f.par[n := None]
    requires d.f.kids.Keys == c.f.kids.Keys && (m != q ==> d.f.kids[m] == c.f.kids[m])
    ensures NodeOK(d, E, top, Childless(d, top, q), m)
  {
  }

  lemma ParentWithKid(f: ThreadForest, n: MuttThread)
    requires WF(f) && n in f.par && f.par[n].Some?
    ensures f.par[n].value in f.kids && n in f.kids[f.par[n].value] && f.kids[f.par[n].value] != [] && n !in f.roots
  {
    assert ParentOK(f, n, f.par[n].value);
  }

  ghost function Childless(c: Ctx, top: Option<MuttThread>, q: MuttThread): Option<MuttThread>
    requires q in c.f.kids
  {
    if Some(q) != top && q !in c.msg && c.f.kids[q] == [] then Some(q) else None
  }

  // A new node for the email e, hanging nowhere.
  ghost function NewMessage(c: Ctx, n: MuttThread, e: Email): Ctx {
    c.(f := AddNode(c.f, n), msg := c.msg[n := e], thr := c.thr[e := n], hash := c.hash[Key(e) := n])
  }

  lemma NewMessageOK(c: Ctx, E: set<Email>, top: Option<MuttThread>, n: MuttThread, e: Email)
    requires CtxOK(c, E, top, None) && n !in c.f.par && e in E && e !in c.thr
    ensures CtxOK(NewMessage(c, n, e), E, top, None)
  {
    hide WF, NodeOK, HashOK, EmailOK, Dangling;
    Tables(c.f);
    AddNodeWF(c.f, n);
    RootsAreNodes(c.f);
    var d := NewMessage(c, n, e);
    forall m | m in d.f.kids ensures NodeOK(d, E, top, None, m) { NewMessageNode(c, E, top, n, e, m); }
    forall k | k in d.hash ensures HashOK(d, top, k) { NewMessageHash(c, top, n, e, k); }
    forall k, k' | k in d.hash && k' in d.hash && d.hash[k] == d.hash[k'] ensures k == k' {
      if k != Key(e) { NewMessageHash(c, top, n, e, k); }
      if k' != Key(e) { NewMessageHash(c, top, n, e, k'); }
    }
    forall e' | e' in d.thr ensures EmailOK(d, e') { NewMessageEmail(c, n, e, e'); }
  }

  lemma RootsAreNodes(f: ThreadForest)
    requires WF(f)
    ensures forall r :: r in f.roots ==> r in f.par
  {
  }

  lemma NewMessageNode(c: Ctx, E: set<Email>, top: Option<MuttThread>, n: MuttThread, e: Email, m: MuttThread)
    requires n !in c.f.par && n !in c.f.kids && n !in c.f.roots && e in E && e !in c.thr && e !in c.done
    requires top.Some? ==> top.value in c.f.par
    requires n !in c.msg && n !in c.dups && n !in c.fakes
    requires m == n || (m in c.f.kids && m in c.f.par && NodeOK(c, E, top, None, m))
    ensures NodeOK(NewMessage(c, n, e), E, top, None, m)
  {
  }

  lemma NewMessageHash(c: Ctx, top: Option<MuttThread>, n: MuttThread, e: Email, k: string)
    requires n !in c.f.par && n !in c.msg && (top.Some? ==> top.value in c.f.par)
    requires k == Key(e) || (k in c.hash && HashOK(c, top, k))
    ensures HashOK(NewMessage(c, n, e), top, k)
    ensures k != Key(e) ==> NewMessage(c, n, e).hash[k] != n
  {
  }

  lemma NewMessageEmail(c: Ctx, n: MuttThread, e: Email, e': Email)
    requires n !in c.msg && (e' == e || (e' in c.thr && EmailOK(c, e')))
    ensures EmailOK(NewMessage(c, n, e), e')
  {
  }

  // A new node for a reference nobody has answered yet, hanging nowhere.
  ghost function NewReference(c: Ctx, n: MuttThread, ref: string): Ctx {
    c.(f := AddNode(c.f, n), hash := c.hash[ref := n])
  }

  lemma NewReferenceOK(c: Ctx, E: set<Email>, top: Option<MuttThread>, busy: Option<MuttThread>, n: MuttThread, ref: string)
    requires CtxOK(c, E, top, busy) && n !in c.f.par && ref !in c.hash
    ensures CtxOK(NewReference(c, n, ref), E, top, busy)
  {
    hide WF, NodeOK, HashOK, EmailOK, Dangling;
    Tables(c.f);
    AddNodeWF(c.f, n);
    RootsAreNodes(c.f);
    var d := NewReference(c, n, ref);
    forall m | m in d.f.kids ensures NodeOK(d, E, top, busy, m) { NewReferenceNode(c, E, top, busy, n, ref, m); }
    forall k | k in d.hash ensures HashOK(d, top, k) { NewReferenceHash(c, top, n, ref, k); }
    forall k, k' | k in d.hash && k' in d.hash && d.hash[k] == d.hash[k'] ensures k == k' {
      if k != ref { NewReferenceHash(c, top, n, ref, k); }
      if k' != ref { NewReferenceHash(c, top, n, ref, k'); }
    }
    forall e | e in d.thr ensures EmailOK(d, e) { EmailSame(c, d, e); }
  }

  lemma NewReferenceNode(c: Ctx, E: set<Email>, top: Option<MuttThread>, busy: Option<MuttThread>,
    n: MuttThread, ref: string, m: MuttThread)
    requires n !in c.f.par && n !in c.f.kids && n !in c.f.roots && (top.Some? ==> top.value in c.f.par)
    requires n !in c.msg && n !in c.dups && n !in c.fakes
    requires m == n || (m in c.f.kids && m in c.f.par && NodeOK(c, E, top, busy, m))
    ensures NodeOK(NewReference(c, n, ref), E, top, busy, m)
  {
  }

  lemma NewReferenceHash(c: Ctx, top: Option<MuttThread>, n: MuttThread, ref: string, k: string)
    requires n !in c.f.par && n !in c.msg && (top.Some? ==> top.value in c.f.par)
    requires k == ref || (k in c.hash && HashOK(c, top, k))
    ensures HashOK(NewReference(c, n, ref), top, k)
    ensures k != ref ==> NewReference(c, n, ref).hash[k] != n
  {
  }

  lemma DupMarkOK(c: Ctx, E: set<Email>, top: Option<MuttThread>, n: MuttThread)
    requires CtxOK(c, E, top, None) && n in c.msg && n !in c.fakes && DupOK(c, n)
    requires n in c.f.kids && c.f.kids[n] == [] && Some(n) != top
    ensures CtxOK(c.(dups := c.dups + {n}), E, top, None)
  {
    hide WF, NodeOK, HashOK, EmailOK, Dangling, DupOK;
    Tables(c.f);
    var d := c.(dups := c.dups + {n});
    forall m | m in d.f.kids ensures NodeOK(d, E, top, None, m) {
      if c.f.par[m].Some? { ParentWithKid(c.f, m); }
      DupMarkNode(c, E, top, n, m);
    }
    forall k | k in d.hash ensures HashOK(d, top, k) { HashSame(c, d, top, k); }
    forall e | e in d.thr ensures EmailOK(d, e) { EmailSame(c, d, e); }
  }

  lemma DupMarkNode(c: Ctx, E: set<Email>, top: Option<MuttThread>, n: MuttThread, m: MuttThread)
    requires n in c.msg && n !in c.fakes && DupOK(c, n) && Some(n) != top
    requires m in c.f.kids && m in c.f.par && NodeOK(c, E, top, None, m) && c.f.par[m] != Some(n)
    ensures NodeOK(c.(dups := c.dups + {n}), E, top, None, m)
  {
  }

  // What the invariant says of one node that hangs below a real node.
  lemma PlacedNode(c: Ctx, E: set<Email>, top: Option<MuttThread>, busy: Option<MuttThread>, n: MuttThread)
    requires CtxOK(c, E, top, busy) && Some(n) != busy && Some(n) != top && n in c.f.par && c.f.par[n].Some? && c.f.par[n] != top
    ensures n in c.f.kids && if n in c.msg then c.msg[n] in c.done else c.f.kids[n] != []
    ensures n in c.fakes ==> n !in c.dups
    ensures n !in c.f.roots
  {
    assert NodeOK(c, E, top, busy, n);
  }

  // Being busy is only an exemption.
  lemma BusyWeaken(c: Ctx, E: set<Email>, top: Option<MuttThread>, n: MuttThread)
    requires CtxOK(c, E, top, None)
    ensures CtxOK(c, E, top, Some(n))
  {
    hide WF, HashOK, EmailOK, Attached, DupOK;
    forall m | m in c.f.kids ensures NodeOK(c, E, top, Some(n), m) { assert NodeOK(c, E, top, None, m); }
  }

  // A busy node that ended up somewhere proper is no longer busy.
  lemma BusyEnd(c: Ctx, E: set<Email>, top: Option<MuttThread>, n: MuttThread)
    requires CtxOK(c, E, top, Some(n)) && Some(n) != top && n in c.f.kids && Attached(c.f, n)
    requires if n in c.msg then c.msg[n] in c.done || Unplaced(c.f, top, n) else c.f.kids[n] != []
    ensures CtxOK(c, E, top, None)
  {
    hide WF, HashOK, EmailOK, Attached, DupOK, Unplaced;
    forall m | m in c.f.kids ensures NodeOK(c, E, top, None, m) { assert NodeOK(c, E, top, Some(n), m); }
  }
}
