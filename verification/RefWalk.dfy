// The second half of mutt_sort_threads: every email not yet placed follows its references.
module RefWalk {
  import opened Wrappers
  import opened Forests
  import opened Threads
  import opened References
  import opened Context
  import opened TopmostWalk
  import opened ThreadTree

  // `using_refs` and the list position, as the C loop keeps them.
  datatype Cursor = Cursor(usingRefs: int, idx: nat)

  // The references still to be tried.
  ghost function Rest(e: Email, at: Cursor): seq<string> {
    if at.usingRefs == 0 then EffectiveRefs(e)
    else if at.usingRefs == 1 then
      if e.inReplyTo == [] then []
      else if e.references == [] then e.inReplyTo[if at.idx < |e.inReplyTo| then at.idx + 1 else |e.inReplyTo|..]
      else if e.inReplyTo[0] != e.references[0] then e.references else e.references[1..]
    else e.references[if at.idx < |e.references| then at.idx + 1 else |e.references|..]
  }

  ghost predicate CursorOK(e: Email, at: Cursor) {
    && 0 <= at.usingRefs <= 2
    && (at.usingRefs == 1 ==> at.idx < |e.inReplyTo| && (e.references != [] ==> at.idx == 0))
    && (at.usingRefs == 2 ==> at.idx < |e.references|)
  }

  // One turn of the switch on `using_refs`.
  method NextRef(e: Email, at: Cursor) returns (next: Cursor, ref: Option<string>)
    requires CursorOK(e, at)
    ensures ref.None? ==> Rest(e, at) == []
    ensures ref.Some? ==> CursorOK(e, next) && Rest(e, at) == [ref.value] + Rest(e, next)
  {
    next, ref := at, None;
    if at.usingRefs == 0 {
      if e.inReplyTo != [] {
        next, ref := Cursor(1, 0), Some(e.inReplyTo[0]);
      } else {
        next, ref := Cursor(2, 0), if e.references != [] then Some(e.references[0]) else None;
      }
    } else if at.usingRefs == 1 {
      if e.references == [] {
        if at.idx + 1 < |e.inReplyTo| {
          next, ref := Cursor(1, at.idx + 1), Some(e.inReplyTo[at.idx + 1]);
        }
      } else {
        if e.inReplyTo[at.idx] != e.references[0] {
          next, ref := Cursor(2, 0), Some(e.references[0]);
        } else {
          next, ref := Cursor(2, 1), if |e.references| > 1 then Some(e.references[1]) else None;
        }
      }
    } else {
      if at.idx + 1 < |e.references| {
        next, ref := Cursor(2, at.idx + 1), Some(e.references[at.idx + 1]);
      }
    }
  }

  // --- the walk on values ---

  // Apart from the shape of the forest, the hash and e being placed, nothing changes.
  ghost predicate SameMail(c0: Ctx, c: Ctx, e: Email) {
    c == c0.(f := c.f, hash := c.hash, done := c0.done + {e}) && c0.f.par.Keys <= c.f.par.Keys
  }

  // The walk of e has come to `thread` by the references `walked`.
  ghost predicate Walk(c0: Ctx, c: Ctx, E: set<Email>, top: MuttThread, e: Email, thread: MuttThread, walked: seq<string>) {
    && CtxOK(c, E, Some(top), Some(thread)) && Movable(c, top, thread)
    && e in c.thr && SameMail(c0, c, e)
    && Grows(ViewOf(c0, Some(top)), ViewOf(c, Some(top)))
    && NewEdges(ViewOf(c0, Some(top)), ViewOf(c, Some(top)), c.thr)
    && Leads(ViewOf(c, Some(top)), c.thr[e], walked, thread)
    && walked <= EffectiveRefs(e)
    && (thread == c.thr[e] || (thread !in c.msg && NamedBefore(ViewOf(c, Some(top)), walked, |walked|, thread)))
  }

  // The node may be hung below another one.
  ghost predicate Movable(c: Ctx, top: MuttThread, n: MuttThread) {
    && n in c.f.par && n in c.f.kids && n != top && n !in c.dups && !Settled(ViewOf(c, Some(top)), n)
    && (c.f.par[n].None? || c.f.par[n] == Some(top)) && n !in c.f.roots
    && if n in c.msg then c.msg[n] in c.done else c.f.kids[n] != []
  }

  // The walk of e is over; it ended at `thread`.
  ghost predicate WalkOver(c0: Ctx, c: Ctx, E: set<Email>, top: MuttThread, e: Email, thread: MuttThread) {
    && CtxOK(c, E, Some(top), Some(thread)) && e in c.thr && SameMail(c0, c, e)
    && Grows(ViewOf(c0, Some(top)), ViewOf(c, Some(top)))
    && NewEdges(ViewOf(c0, Some(top)), ViewOf(c, Some(top)), c.thr)
    && Follows(ViewOf(c, Some(top)), c.thr[e], EffectiveRefs(e))
    && thread in c.f.par && thread in c.f.kids && thread != top && thread !in c.f.roots
    && (c.f.par[thread].None? ==> thread !in c.dups)
    && (if thread in c.msg then c.msg[thread] in c.done || c.f.par[thread].None? || c.f.par[thread] == Some(top)
        else c.f.kids[thread] != [])
  }

  lemma ViewOK(c: Ctx, E: set<Email>, top: MuttThread, busy: Option<MuttThread>)
    requires CtxOK(c, E, Some(top), busy)
    ensures top in c.f.par && Up(c.f, top).None? && WF(c.f) && c.f.roots == []
    ensures forall k :: k in c.hash ==> c.hash[k] in c.f.par && c.hash[k] != top
    ensures forall n :: n in c.dups ==> Settled(ViewOf(c, Some(top)), n) && c.f.par[n].value in c.msg && c.f.par[n].value !in c.dups
    ensures forall e :: e in c.thr ==> c.thr[e] in c.f.par && c.thr[e] != top
  {
    hide WF;
    Tables(c.f);
    forall e | e in c.thr ensures c.thr[e] in c.f.par && c.thr[e] != top { assert EmailOK(c, e); }
    assert NodeOK(c, E, Some(top), busy, top);
    forall k | k in c.hash ensures c.hash[k] in c.f.par && c.hash[k] != top { assert HashOK(c, Some(top), k); }
    forall n | n in c.dups
      ensures Settled(ViewOf(c, Some(top)), n) && c.f.par[n].value in c.msg && c.f.par[n].value !in c.dups
    {
      assert NodeOK(c, E, Some(top), busy, n);
      UpOfPar(c.f, n);
    }
  }

  // Moving a node that hangs nowhere, or on top, forgets nothing.
  lemma ReparentGrows(c: Ctx, E: set<Email>, top: MuttThread, n: MuttThread, p: MuttThread)
    requires CtxOK(c, E, Some(top), Some(n)) && n in c.f.par && !Settled(ViewOf(c, Some(top)), n) && n !in c.f.roots && p in c.f.par
    requires !IsUnder(c.f, p, n)
    ensures c.f.par[n].Some? ==> c.f.par[n].value in c.f.kids
    ensures p in c.f.kids && p in c.f.lvl
    ensures var w := ViewOf(Reparent(c, n, p), Some(top));
            && Grows(ViewOf(c, Some(top)), w) && Up(w.f, n) == Some(p)
            && (forall m :: m in c.f.par && m != n ==> Up(w.f, m) == Up(c.f, m))
  {
    hide WF, NodeOK, HashOK, EmailOK, CtxOK, IsUnder, Up;
    ViewOK(c, E, top, Some(n));
    ReparentWF(c, n, p);
    ReparentShape(c, n, p);
    var d := Reparent(c, n, p);
    forall m | m in c.f.par ensures m != n ==> Up(d.f, m) == Up(c.f, m) {
      UpOfPar(c.f, m);
      UpOfPar(d.f, m);
    }
    UpOfPar(d.f, n);
  }

  lemma WalkStart(c0: Ctx, E: set<Email>, top: MuttThread, e: Email)
    requires CtxOK(c0, E, Some(top), None) && e in c0.thr && e !in c0.done
    ensures Walk(c0, c0.(done := c0.done + {e}), E, top, e, c0.thr[e], [])
  {
    hide WF, NodeOK, HashOK, EmailOK, CtxOK, Follows, IsUnder;
    DoneOK(c0, E, Some(top), e);
    ViewOK(c0, E, top, None);
    Tables(c0.f);
    StartMovable(c0, E, top, e);
    SelfGrows(c0, c0.(done := c0.done + {e}), E, top);
  }

  lemma StartMovable(c0: Ctx, E: set<Email>, top: MuttThread, e: Email)
    requires CtxOK(c0, E, Some(top), None) && e in c0.thr && e !in c0.done
    ensures Movable(c0.(done := c0.done + {e}), top, c0.thr[e])
  {
    hide WF, HashOK;
    ViewOK(c0, E, top, None);
    Tables(c0.f);
    assert EmailOK(c0, e) && NodeOK(c0, E, Some(top), None, c0.thr[e]);
    UpOfPar(c0.f, c0.thr[e]);
  }

  lemma SelfGrows(c: Ctx, d: Ctx, E: set<Email>, top: MuttThread)
    requires CtxOK(c, E, Some(top), None) && ViewOf(d, Some(top)) == ViewOf(c, Some(top))
    ensures Grows(ViewOf(c, Some(top)), ViewOf(d, Some(top)))
    ensures forall thr :: NewEdges(ViewOf(c, Some(top)), ViewOf(d, Some(top)), thr)
  {
    hide WF, NodeOK, HashOK, EmailOK, CtxOK, Up;
    ViewOK(c, E, top, None);
  }

  // The next reference leads to a node under the one in hand: no loops.
  lemma WalkSkip(c0: Ctx, c: Ctx, E: set<Email>, top: MuttThread, e: Email, thread: MuttThread, walked: seq<string>, ref: string)
    requires Walk(c0, c, E, top, e, thread, walked) && walked + [ref] <= EffectiveRefs(e)
    requires var t := Resolve(ViewOf(c, Some(top)), ref);
             t.Some? && IsUnder(c.f, t.value, thread)
    ensures Walk(c0, c, E, top, e, thread, walked + [ref])
  {
    hide WF, NodeOK, HashOK, EmailOK, CtxOK, IsUnder, Follows, Grows, NewEdges, Movable, Resolve;
    var v := ViewOf(c, Some(top));
    LeadsSnoc(v, c.thr[e], walked, thread, ref, thread);
    if thread != c.thr[e] { NamedLater(v, walked, ref, thread); }
  }

  lemma NamedLater(v: View, walked: seq<string>, ref: string, n: MuttThread)
    requires NamedBefore(v, walked, |walked|, n)
    ensures NamedBefore(v, walked + [ref], |walked + [ref]|, n)
  {
    var i :| 0 <= i < |walked| && Resolve(v, walked[i]) == Some(n);
    assert (walked + [ref])[i] == walked[i];
  }

  // Nobody has answered the next reference yet: a node is made for it.
  lemma WalkNew(c0: Ctx, c: Ctx, E: set<Email>, top: MuttThread, e: Email, thread: MuttThread, walked: seq<string>,
    ref: string, n: MuttThread)
    requires Walk(c0, c, E, top, e, thread, walked) && ref !in c.hash && n !in c.f.par
    ensures Walk(c0, NewReference(c, n, ref), E, top, e, thread, walked)
    ensures Resolve(ViewOf(NewReference(c, n, ref), Some(top)), ref) == Some(n) && !IsUnder(NewReference(c, n, ref).f, n, thread)
    ensures n in NewReference(c, n, ref).f.par && n != thread
  {
    hide WF, NodeOK, HashOK, EmailOK, CtxOK, IsUnder, Follows, Leads, Up, Grows, NewEdges, Movable, NamedBefore, Resolve;
    var d := NewReference(c, n, ref);
    NewReferenceOK(c, E, Some(top), Some(thread), n, ref);
    NewReferenceGrows(c, E, top, Some(thread), n, ref);
    GrowsTrans(ViewOf(c0, Some(top)), ViewOf(c, Some(top)), ViewOf(d, Some(top)));
    NewReferenceEdges(c0, c, E, top, thread, n, ref, c.thr);
    ViewOK(c, E, top, Some(thread));
    GrowsLeads(ViewOf(c, Some(top)), ViewOf(d, Some(top)), c.thr[e], walked, thread);
    if thread != c.thr[e] { NamedGrows(ViewOf(c, Some(top)), ViewOf(d, Some(top)), walked, thread); }
    MovableNew(c, E, top, thread, n, ref);
    NewAlone(c, n, ref, thread);
    NewResolve(c, E, top, thread, n, ref);
  }

  lemma MovableNew(c: Ctx, E: set<Email>, top: MuttThread, thread: MuttThread, n: MuttThread, ref: string)
    requires CtxOK(c, E, Some(top), Some(thread)) && Movable(c, top, thread) && n !in c.f.par && ref !in c.hash
    ensures Movable(NewReference(c, n, ref), top, thread) && thread in c.f.par
  {
    hide WF, NodeOK, HashOK, EmailOK, CtxOK, Up;
    NewReferenceGrows(c, E, top, Some(thread), n, ref);
  }

  lemma NewResolve(c: Ctx, E: set<Email>, top: MuttThread, thread: MuttThread, n: MuttThread, ref: string)
    requires CtxOK(c, E, Some(top), Some(thread)) && n !in c.f.par
    ensures Resolve(ViewOf(NewReference(c, n, ref), Some(top)), ref) == Some(n)
  {
    hide WF, NodeOK, HashOK, EmailOK;
  }

  lemma NewAlone(c: Ctx, n: MuttThread, ref: string, thread: MuttThread)
    requires n !in c.f.par && thread in c.f.par
    ensures !IsUnder(NewReference(c, n, ref).f, n, thread)
  {
  }

  lemma NamedGrows(v: View, w: View, walked: seq<string>, n: MuttThread)
    requires WF(v.f) && Grows(v, w) && NamedBefore(v, walked, |walked|, n)
    ensures NamedBefore(w, walked, |walked|, n)
  {
    var i :| 0 <= i < |walked| && Resolve(v, walked[i]) == Some(n);
    GrowsResolve(v, w, walked[i]);
  }

  lemma NewReferenceGrows(c: Ctx, E: set<Email>, top: MuttThread, busy: Option<MuttThread>, n: MuttThread, ref: string)
    requires CtxOK(c, E, Some(top), busy) && n !in c.f.par && ref !in c.hash
    ensures Grows(ViewOf(c, Some(top)), ViewOf(NewReference(c, n, ref), Some(top)))
    ensures forall m :: m in c.f.par ==> Up(NewReference(c, n, ref).f, m) == Up(c.f, m)
    ensures Up(NewReference(c, n, ref).f, n).None?
    ensures WF(NewReference(c, n, ref).f)
  {
    hide WF, NodeOK, HashOK, EmailOK, CtxOK, Up, NewReference;
    ViewOK(c, E, top, busy);
    NewReferenceUp(c, n, ref);
    NewReferenceShape(c, n, ref);
  }

  lemma NewReferenceUp(c: Ctx, n: MuttThread, ref: string)
    requires WF(c.f) && n !in c.f.par
    ensures forall m :: m in c.f.par ==> Up(NewReference(c, n, ref).f, m) == Up(c.f, m)
    ensures Up(NewReference(c, n, ref).f, n).None?
    ensures WF(NewReference(c, n, ref).f)
  {
    hide WF, Up;
    AddNodeWF(c.f, n);
    var d := NewReference(c, n, ref);
    forall m | m in c.f.par ensures Up(d.f, m) == Up(c.f, m) {
      UpOfPar(c.f, m);
      UpOfPar(d.f, m);
    }
    UpOfPar(d.f, n);
  }

  lemma NewReferenceShape(c: Ctx, n: MuttThread, ref: string)
    ensures var d := NewReference(c, n, ref);
            d.hash == c.hash[ref := n] && d.msg == c.msg && d.dups == c.dups && d.f.par.Keys == c.f.par.Keys + {n}
  {
  }

  lemma NewReferenceEdges(c0: Ctx, c: Ctx, E: set<Email>, top: MuttThread, thread: MuttThread, n: MuttThread, ref: string,
    thr: map<Email, MuttThread>)
    requires CtxOK(c, E, Some(top), Some(thread)) && n !in c.f.par && ref !in c.hash
    requires Grows(ViewOf(c0, Some(top)), ViewOf(c, Some(top))) && NewEdges(ViewOf(c0, Some(top)), ViewOf(c, Some(top)), thr)
    ensures NewEdges(ViewOf(c0, Some(top)), ViewOf(NewReference(c, n, ref), Some(top)), thr)
  {
    hide WF, NodeOK, HashOK, EmailOK, CtxOK, Up, Sourced;
    ViewOK(c, E, top, Some(thread));
    NewReferenceGrows(c, E, top, Some(thread), n, ref);
    var u, v, w := ViewOf(c0, Some(top)), ViewOf(c, Some(top)), ViewOf(NewReference(c, n, ref), Some(top));
    NewEdgesTrans(u, v, w, thr);
  }

  // The next reference leads elsewhere: the node in hand is hung below it.
  lemma WalkMove(c0: Ctx, c: Ctx, E: set<Email>, top: MuttThread, e: Email, thread: MuttThread, walked: seq<string>,
    ref: string, rest: seq<string>, t: MuttThread)
    requires Walk(c0, c, E, top, e, thread, walked) && EffectiveRefs(e) == walked + ([ref] + rest)
    requires Resolve(ViewOf(c, Some(top)), ref) == Some(t) && !IsUnder(c.f, t, thread) && t in c.f.par && t != top
    requires t in c.f.kids && t in c.f.lvl && thread in c.f.par && (c.f.par[thread].Some? ==> c.f.par[thread].value in c.f.kids)
    ensures var d := Reparent(c, thread, t);
            if t in c.msg || Settled(ViewOf(d, Some(top)), t) then WalkOver(c0, d, E, top, e, t)
            else Walk(c0, d, E, top, e, t, walked + [ref])
  {
    hide WF, NodeOK, HashOK, EmailOK, CtxOK, IsUnder, Leads, Up, Grows, NewEdges, Movable, NamedBefore, Resolve, Settled, Reparent;
    hide Follows;
    var d := Reparent(c, thread, t);
    var v, w := ViewOf(c, Some(top)), ViewOf(d, Some(top));
    MoveCtx(c, E, top, thread, t);
    MoveSame(c0, c, e, thread, t);
    MoveGrows(c, E, top, thread, t, ref);
    GrowsTrans(ViewOf(c0, Some(top)), v, w);
    ViewOK(c, E, top, Some(thread));
    GrowsLeads(v, w, c.thr[e], walked, thread);
    if thread != c.thr[e] { NamedGrows(v, w, walked, thread); }
    MoveSourced(w, e, c.thr, thread, walked, ref, rest, t);
    MoveEdges(c, E, top, thread, t);
    NewEdgesTrans(ViewOf(c0, Some(top)), v, w, c.thr);
    MovePlace(c, E, top, thread, t);
    if t in c.msg || Settled(w, t) {
      MoveFollows(w, thread, [ref] + rest, t);
      LeadsFollows(w, c.thr[e], walked, thread, [ref] + rest);
    } else {
      LeadsSnoc(w, c.thr[e], walked, thread, ref, t);
      NamedHere(w, walked, ref, t);
      assert walked + ([ref] + rest) == walked + [ref] + rest;
    }
  }

  lemma MoveCtx(c: Ctx, E: set<Email>, top: MuttThread, n: MuttThread, t: MuttThread)
    requires CtxOK(c, E, Some(top), Some(n)) && Movable(c, top, n) && !IsUnder(c.f, t, n) && t in c.f.par
    requires t in c.f.kids && t in c.f.lvl && (c.f.par[n].Some? ==> c.f.par[n].value in c.f.kids)
    ensures CtxOK(Reparent(c, n, t), E, Some(top), Some(t))
  {
    hide WF, NodeOK, HashOK, EmailOK, CtxOK, IsUnder, Up, Reparent;
    ReparentOK(c, E, Some(top), Some(n), n, t);
    if Waiting(c, Some(top), t).None? { BusyWeaken(Reparent(c, n, t), E, Some(top), t); }
  }

  lemma MoveSame(c0: Ctx, c: Ctx, e: Email, n: MuttThread, t: MuttThread)
    requires SameMail(c0, c, e) && n in c.f.par && t in c.f.par
    requires t in c.f.kids && t in c.f.lvl && (c.f.par[n].Some? ==> c.f.par[n].value in c.f.kids)
    ensures SameMail(c0, Reparent(c, n, t), e) && SameMailTables(c, Reparent(c, n, t))
  {
  }

  ghost predicate SameMailTables(c: Ctx, d: Ctx) {
    d == c.(f := d.f) && d.f.par.Keys == c.f.par.Keys && d.f.kids.Keys == c.f.kids.Keys && d.f.roots == c.f.roots
  }

  lemma MoveGrows(c: Ctx, E: set<Email>, top: MuttThread, n: MuttThread, t: MuttThread, ref: string)
    requires CtxOK(c, E, Some(top), Some(n)) && Movable(c, top, n) && !IsUnder(c.f, t, n) && t in c.f.par && t != top
    requires t in c.f.kids && t in c.f.lvl && (c.f.par[n].Some? ==> c.f.par[n].value in c.f.kids)
    requires Resolve(ViewOf(c, Some(top)), ref) == Some(t)
    ensures var v, w := ViewOf(c, Some(top)), ViewOf(Reparent(c, n, t), Some(top));
            && Grows(v, w) && Up(w.f, n) == Some(t) && Settled(w, n) && Resolve(w, ref) == Some(t)
            && (forall m :: m in c.f.par && m != n ==> Up(w.f, m) == Up(c.f, m))
            && !IsUnder(w.f, t, n)
  {
    hide WF, NodeOK, HashOK, EmailOK, CtxOK, IsUnder, Up, Reparent, Resolve, Grows;
    ViewOK(c, E, top, Some(n));
    ReparentGrows(c, E, top, n, t);
    var v, w := ViewOf(c, Some(top)), ViewOf(Reparent(c, n, t), Some(top));
    ResolveIn(v, ref);
    GrowsResolve(v, w, ref);
    ParentNotUnder(w, n);
  }

  lemma ResolveIn(v: View, ref: string)
    requires Resolve(v, ref).Some?
    ensures ref in v.hash
  {
  }

  lemma MoveSourced(w: View, e: Email, thr: map<Email, MuttThread>, n: MuttThread, walked: seq<string>, ref: string,
    rest: seq<string>, t: MuttThread)
    requires EffectiveRefs(e) == walked + ([ref] + rest) && e in thr && Resolve(w, ref) == Some(t) && Up(w.f, n) == Some(t)
    requires n == thr[e] || (n !in w.msgs && NamedBefore(w, walked, |walked|, n))
    ensures Sourced(w, thr, n)
  {
    hide Resolve, Up;
    var refs := EffectiveRefs(e);
    assert refs[|walked|] == ref;
    if n != thr[e] {
      var i :| 0 <= i < |walked| && Resolve(w, walked[i]) == Some(n);
      assert refs[i] == walked[i];
    }
    assert SourcedBy(w, e, thr[e], n, |walked|);
  }

  lemma MoveEdges(c: Ctx, E: set<Email>, top: MuttThread, n: MuttThread, t: MuttThread)
    requires CtxOK(c, E, Some(top), Some(n)) && Movable(c, top, n) && !IsUnder(c.f, t, n) && t in c.f.par
    requires t in c.f.kids && t in c.f.lvl && (c.f.par[n].Some? ==> c.f.par[n].value in c.f.kids)
    requires Sourced(ViewOf(Reparent(c, n, t), Some(top)), c.thr, n)
    ensures NewEdges(ViewOf(c, Some(top)), ViewOf(Reparent(c, n, t), Some(top)), c.thr)
  {
    hide WF, NodeOK, HashOK, EmailOK, CtxOK, IsUnder, Up, Grows, Sourced;
    ReparentGrows(c, E, top, n, t);
    ReparentShape(c, n, t);
    hide Reparent;
  }

  // Where t stands after n was hung below it.
  lemma MovePlace(c: Ctx, E: set<Email>, top: MuttThread, n: MuttThread, t: MuttThread)
    requires CtxOK(c, E, Some(top), Some(n)) && Movable(c, top, n) && !IsUnder(c.f, t, n) && t in c.f.par && t != top
    requires t in c.f.kids && t in c.f.lvl && (c.f.par[n].Some? ==> c.f.par[n].value in c.f.kids)
    ensures var d := Reparent(c, n, t);
            && t in d.f.par && t in d.f.kids && t !in d.f.roots && t != n
            && (t !in c.msg ==> t !in c.dups && d.f.kids[t] != [])
            && (d.f.par[t].None? ==> t !in c.dups)
            && (t in c.msg ==> c.msg[t] in c.done || d.f.par[t].None? || d.f.par[t] == Some(top))
            && (t !in c.msg && !Settled(ViewOf(d, Some(top)), t) ==> Movable(d, top, t))
  {
    hide WF, HashOK, EmailOK, CtxOK, IsUnder, Up;
    assert t != n by { IsUnderSelf(c.f, t); }
    ReparentShape(c, n, t);
    PlaceFacts(c, E, top, n, t);
    hide Reparent;
    MoveUp(c, E, top, n, t);
  }

  lemma PlaceFacts(c: Ctx, E: set<Email>, top: MuttThread, n: MuttThread, t: MuttThread)
    requires CtxOK(c, E, Some(top), Some(n)) && t in c.f.par && t != top && t != n
    ensures t !in c.f.roots && t in c.f.kids && (t !in c.msg ==> t !in c.dups) && (c.f.par[t].None? ==> t !in c.dups)
    ensures t in c.msg ==> c.msg[t] in c.done || c.f.par[t].None? || c.f.par[t] == Some(top)
  {
    hide WF, HashOK, EmailOK;
    Tables(c.f);
    assert NodeOK(c, E, Some(top), Some(n), t) && NodeOK(c, E, Some(top), Some(n), top);
  }

  lemma MoveUp(c: Ctx, E: set<Email>, top: MuttThread, n: MuttThread, t: MuttThread)
    requires CtxOK(c, E, Some(top), Some(n)) && Movable(c, top, n) && !IsUnder(c.f, t, n) && t in c.f.par
    requires t in c.f.kids && t in c.f.lvl && (c.f.par[n].Some? ==> c.f.par[n].value in c.f.kids)
    ensures t in Reparent(c, n, t).f.par && Up(Reparent(c, n, t).f, t) == Reparent(c, n, t).f.par[t]
  {
    hide WF, NodeOK, HashOK, EmailOK, CtxOK, IsUnder, Up;
    ViewOK(c, E, top, Some(n));
    ReparentWF(c, n, t);
    ReparentShape(c, n, t);
    hide Reparent;
    UpOfPar(Reparent(c, n, t).f, t);
  }

  lemma MoveFollows(w: View, n: MuttThread, refs: seq<string>, t: MuttThread)
    requires refs != [] && Resolve(w, refs[0]) == Some(t) && Settled(w, n) && Up(w.f, n) == Some(t) && !IsUnder(w.f, t, n)
    requires t in w.msgs || Settled(w, t)
    ensures Follows(w, n, refs)
  {
  }

  lemma NamedHere(w: View, walked: seq<string>, ref: string, t: MuttThread)
    requires Resolve(w, ref) == Some(t)
    ensures NamedBefore(w, walked + [ref], |walked + [ref]|, t)
  {
    assert (walked + [ref])[|walked|] == ref;
  }

  // No reference is left.
  lemma WalkEnd(c0: Ctx, c: Ctx, E: set<Email>, top: MuttThread, e: Email, thread: MuttThread, walked: seq<string>)
    requires Walk(c0, c, E, top, e, thread, walked) && walked == EffectiveRefs(e)
    ensures WalkOver(c0, c, E, top, e, thread)
  {
    hide WF, NodeOK, HashOK, EmailOK, CtxOK, IsUnder, Leads, Up, Grows, NewEdges, NamedBefore;
    LeadsFollows(ViewOf(c, Some(top)), c.thr[e], walked, thread, []);
    assert walked + [] == walked;
  }

  // What the walk of e achieves.  Apart from e being placed no email changes; nothing real is
  // forgotten; every new parent comes from references; and e follows all of its own.
  ghost predicate Walked(c0: Ctx, c: Ctx, E: set<Email>, top: MuttThread, e: Email) {
    && CtxOK(c, E, Some(top), None) && e in c.thr && SameMail(c0, c, e)
    && Grows(ViewOf(c0, Some(top)), ViewOf(c, Some(top)))
    && NewEdges(ViewOf(c0, Some(top)), ViewOf(c, Some(top)), c.thr)
    && Follows(ViewOf(c, Some(top)), c.thr[e], EffectiveRefs(e))
  }

  lemma OverPlaced(c0: Ctx, c: Ctx, E: set<Email>, top: MuttThread, e: Email, thread: MuttThread)
    requires WalkOver(c0, c, E, top, e, thread) && c.f.par[thread].Some?
    ensures Walked(c0, c, E, top, e)
  {
    hide WF, NodeOK, HashOK, EmailOK, CtxOK, IsUnder, Follows, Up, Grows, NewEdges;
    BusyEnd(c, E, Some(top), thread);
  }

  // A walk that ends at a node without a parent hangs that node on top.
  lemma OverOnTop(c0: Ctx, c: Ctx, E: set<Email>, top: MuttThread, e: Email, thread: MuttThread)
    requires WalkOver(c0, c, E, top, e, thread) && c.f.par[thread].None?
    ensures top in c.f.par && !IsUnder(c.f, top, thread) && WF(c.f) && top in c.f.kids && top in c.f.lvl
    ensures Walked(c0, Reparent(c, thread, top), E, top, e) && Reparent(c, thread, top).hash == c.hash
  {
    hide WF, NodeOK, HashOK, EmailOK, CtxOK, IsUnder, Follows, Up, Grows, NewEdges, Reparent, Settled;
    ViewOK(c, E, top, Some(thread));
    TopNotUnder(c.f, top, thread);
    Tables(c.f);
    var d := Reparent(c, thread, top);
    var v, w := ViewOf(c, Some(top)), ViewOf(d, Some(top));
    ReparentOK(c, E, Some(top), Some(thread), thread, top);
    ReparentSame(c, thread, top);
    ReparentShape(c, thread, top);
    NotSettled(c, thread, top);
    ReparentGrows(c, E, top, thread, top);
    GrowsTrans(ViewOf(c0, Some(top)), v, w);
    TopEdges(c, E, top, thread);
    NewEdgesTrans(ViewOf(c0, Some(top)), v, w, c.thr);
    GrowsFollows(v, w, c.thr[e], EffectiveRefs(e));
  }

  lemma TopNotUnder(f: ThreadForest, top: MuttThread, n: MuttThread)
    requires Up(f, top).None? && n != top
    ensures !IsUnder(f, top, n)
  {
  }

  lemma NotSettled(c: Ctx, n: MuttThread, top: MuttThread)
    requires n in c.f.par && c.f.par[n].None?
    ensures !Settled(ViewOf(c, Some(top)), n)
  {
  }

  lemma TopEdges(c: Ctx, E: set<Email>, top: MuttThread, n: MuttThread)
    requires CtxOK(c, E, Some(top), Some(n)) && n in c.f.par && c.f.par[n].None? && n !in c.f.roots && !IsUnder(c.f, top, n)
    requires top in c.f.par && top in c.f.kids && top in c.f.lvl
    ensures NewEdges(ViewOf(c, Some(top)), ViewOf(Reparent(c, n, top), Some(top)), c.thr)
  {
    hide WF, NodeOK, HashOK, EmailOK, CtxOK, IsUnder, Grows, Sourced, Up;
    NotSettled(c, n, top);
    ReparentGrows(c, E, top, n, top);
    ReparentShape(c, n, top);
    hide Reparent;
  }

  // --- the walk on the heap ---

  lemma CursorStart(e: Email)
    ensures CursorOK(e, Cursor(0, 0)) && EffectiveRefs(e) == [] + Rest(e, Cursor(0, 0))
  {
  }

  lemma OverField(S: set<MuttThread>, E: set<Email>, c0: Ctx, c: Ctx, top: MuttThread, e: Email, thread: MuttThread)
    requires Agrees(S, E, c, null) && WalkOver(c0, c, E, top, e, thread)
    ensures thread in S && top in S && thread in c.f.par && (thread.parent == null <==> c.f.par[thread].None?) && thread !in c.f.roots
  {
    hide Follows, Grows, NewEdges, NodeOK, HashOK, EmailOK;
  }

  method SetThreaded(e: Email, ghost S: set<MuttThread>, ghost E: set<Email>, ghost c: Ctx)
    requires Agrees(S, E, c, null) && e in E
    modifies e`threaded
    ensures Agrees(S, E, c.(done := c.done + {e}), null)
  {
    hide Linked, Messages, Flags;
    e.threaded := true;
  }

  lemma StartField(S: set<MuttThread>, E: set<Email>, c: Ctx, top: MuttThread, e: Email)
    requires Agrees(S, E, c, null) && CtxOK(c, E, Some(top), None) && e in E && e in c.thr
    ensures e.thread == c.thr[e] && c.thr[e] in S
  {
    assert EmailOK(c, e);
  }

  // mutt_hash_find, and the step from a duplicate to what it duplicates.
  lemma HashField(S: set<MuttThread>, E: set<Email>, c: Ctx, top: MuttThread, cur: MuttThread, ref: string)
    requires Agrees(S, E, c, null) && CtxOK(c, E, Some(top), Some(cur)) && ref in c.hash
    ensures var t := c.hash[ref];
            && t in S && (t.duplicateThread ==> t.parent != null)
            && (var o := if t.duplicateThread then t.parent else t;
                o != null && o in S && o != top && Resolve(ViewOf(c, Some(top)), ref) == Some(o))
  {
    hide WF, NodeOK, EmailOK;
    ViewOK(c, E, top, Some(cur));
    Tables(c.f);
    var t := c.hash[ref];
    ParentField(S, c.f, null, t);
    UpOfPar(c.f, t);
    MsgNotTop(c, E, top, cur);
  }

  lemma MsgNotTop(c: Ctx, E: set<Email>, top: MuttThread, cur: MuttThread)
    requires CtxOK(c, E, Some(top), Some(cur))
    ensures top !in c.msg
  {
    hide WF;
    Tables(c.f);
    assert NodeOK(c, E, Some(top), Some(cur), top);
  }

  lemma WalkFacts(S: set<MuttThread>, E: set<Email>, c0: Ctx, c: Ctx, top: MuttThread, e: Email, thread: MuttThread, walked: seq<string>)
    requires Agrees(S, E, c, null) && Walk(c0, c, E, top, e, thread, walked)
    ensures WF(c.f) && Linked(S, c.f, null, {}) && CtxOK(c, E, Some(top), Some(thread)) && S == c.f.par.Keys
    ensures thread in c.f.par && thread !in c.f.roots && (c.f.par[thread].Some? ==> c.f.par[thread].value in c.f.kids)
    ensures forall t :: t in S ==> t in c.f.kids && t in c.f.lvl
    ensures c.msg.Keys <= S && c.dups <= S && c.fakes <= S
  {
    hide Leads, NamedBefore, Follows, Grows, NewEdges, NodeOK, HashOK, EmailOK;
    Tables(c.f);
  }

  lemma NewReferenceHere(S0: set<MuttThread>, E: set<Email>, c: Ctx, n: MuttThread, ref: string)
    requires Agrees(S0 + {n}, E, c.(f := AddNode(c.f, n)), null)
    ensures Agrees(S0 + {n}, E, NewReference(c, n, ref), null) && NewReference(c, n, ref).hash == c.hash[ref := n]
  {
  }

  // The nodes of S that are not in S0 are not marked for check_subjects.
  ghost predicate Unmarked(S: set<MuttThread>, S0: set<MuttThread>)
    reads S`checkSubject
  {
    forall n :: n in S && n !in S0 ==> !n.checkSubject
  }

  lemma NoneUnmarked(S: set<MuttThread>)
    ensures Unmarked(S, S)
  {
  }

  lemma OneUnmarked(S: set<MuttThread>, n: MuttThread)
    requires !n.checkSubject
    ensures Unmarked(S + {n}, S)
  {
  }

  lemma UnmarkedTrans(S0: set<MuttThread>, S1: set<MuttThread>, S: set<MuttThread>)
    requires Unmarked(S1, S0) && Unmarked(S, S1)
    ensures Unmarked(S, S0)
  {
  }

  lemma MarksMore(S0: set<MuttThread>, S: set<MuttThread>, marked: set<MuttThread>)
    requires Marks(S0, marked) && Unmarked(S, S0) && S0 <= S
    ensures Marks(S, marked)
  {
  }

  // Try one reference: skip it if it leads back under `cur`, else hang `cur` below its node, which
  // is made if there is none.
  method FollowRef(e: Email, ref: string, cur: MuttThread, top: MuttThread, hash0: map<string, MuttThread>,
    ghost S0: set<MuttThread>, ghost E: set<Email>, ghost c0: Ctx, ghost c1: Ctx, ghost walked: seq<string>, ghost rest: seq<string>)
    returns (thread: MuttThread, hash: map<string, MuttThread>, more: bool, ghost S: set<MuttThread>, ghost c: Ctx)
    requires Agrees(S0, E, c1, null) && hash0 == c1.hash && cur in S0
    requires Walk(c0, c1, E, top, e, cur, walked) && EffectiveRefs(e) == walked + ([ref] + rest)
    modifies S0`parent, S0`child, S0`next, S0`prev, S0`sortThreadKey, S0`sortAuxKey
    ensures Agrees(S, E, c, null) && hash == c.hash && S0 <= S && fresh(S - S0) && thread in S && Unmarked(S, S0)
    ensures more ==> Walk(c0, c, E, top, e, thread, walked + [ref])
    ensures !more ==> WalkOver(c0, c, E, top, e, thread)
  {
    hide *;
    WalkFacts(S0, E, c0, c1, top, e, cur, walked);
    S, c, hash := S0, c1, hash0;
    NoneUnmarked(S0);
    if ref in hash {
      var tnew := hash[ref];
      HashField(S, E, c, top, cur, ref);
      if tnew.duplicateThread {
        tnew := tnew.parent;
      }
      var loops := IsDescendant(tnew, cur, S, c.f, null);
      if loops {
        assert walked + [ref] + rest == EffectiveRefs(e);
        WalkSkip(c0, c, E, top, e, cur, walked, ref);
        thread, more := cur, true;
      } else {
        thread, more, c := HangBelow(e, ref, cur, tnew, top, S, E, c0, c, walked, rest);
      }
    } else {
      var tnew := NewNode(S, E, c);
      S := S + {tnew};
      OneUnmarked(S0, tnew);
      hash := hash[ref := tnew];
      NewReferenceHere(S0, E, c, tnew, ref);
      WalkNew(c0, c, E, top, e, cur, walked, ref, tnew);
      c := NewReference(c, tnew, ref);
      NewNotTop(c0, c, E, top, e, cur, walked, ref);
      thread, more, c := HangBelow(e, ref, cur, tnew, top, S, E, c0, c, walked, rest);
    }
  }

  lemma NewNotTop(c0: Ctx, c: Ctx, E: set<Email>, top: MuttThread, e: Email, cur: MuttThread, walked: seq<string>, ref: string)
    requires Walk(c0, c, E, top, e, cur, walked) && ref in c.hash
    ensures c.hash[ref] != top
  {
    hide WF, NodeOK, EmailOK, Leads, Grows, NewEdges, NamedBefore;
    assert HashOK(c, Some(top), ref);
  }

  method HangBelow(e: Email, ref: string, cur: MuttThread, tnew: MuttThread, top: MuttThread,
    ghost S: set<MuttThread>, ghost E: set<Email>, ghost c0: Ctx, ghost c1: Ctx, ghost walked: seq<string>, ghost rest: seq<string>)
    returns (thread: MuttThread, more: bool, ghost c: Ctx)
    requires Agrees(S, E, c1, null) && cur in S && tnew in S && tnew != top
    requires Walk(c0, c1, E, top, e, cur, walked) && EffectiveRefs(e) == walked + ([ref] + rest)
    requires Resolve(ViewOf(c1, Some(top)), ref) == Some(tnew) && !IsUnder(c1.f, tnew, cur)
    modifies S`parent, S`child, S`next, S`prev, S`sortThreadKey, S`sortAuxKey
    ensures Agrees(S, E, c, null) && c.hash == c1.hash && thread in S
    ensures more ==> Walk(c0, c, E, top, e, thread, walked + [ref])
    ensures !more ==> WalkOver(c0, c, E, top, e, thread)
  {
    hide *;
    WalkFacts(S, E, c0, c1, top, e, cur, walked);
    WalkMove(c0, c1, E, top, e, cur, walked, ref, rest, tnew);
    Move(cur, tnew, S, E, c1, null);
    thread, c := tnew, Reparent(c1, cur, tnew);
    StopField(S, E, c1, c, cur, tnew, top);
    more := !(thread.message != null || (thread.parent != null && thread.parent != top));
  }

  lemma StopField(S: set<MuttThread>, E: set<Email>, c1: Ctx, c: Ctx, n: MuttThread, t: MuttThread, top: MuttThread)
    requires n in c1.f.par && (c1.f.par[n].Some? ==> c1.f.par[n].value in c1.f.kids) && t in c1.f.kids && t in c1.f.lvl
    requires c == Reparent(c1, n, t) && WF(c.f) && Agrees(S, E, c, null) && t in S
    ensures t.message != null <==> t in c1.msg
    ensures (t.parent != null && t.parent != top) <==> Settled(ViewOf(c, Some(top)), t)
    ensures c.hash == c1.hash
  {
    ParentField(S, c.f, null, t);
    UpOfPar(c.f, t);
  }

  method WalkRefs(e: Email, top: MuttThread, hash0: map<string, MuttThread>,
    ghost S0: set<MuttThread>, ghost E: set<Email>, ghost c0: Ctx)
    returns (hash: map<string, MuttThread>, ghost S: set<MuttThread>, ghost c: Ctx)
    requires Agrees(S0, E, c0, null) && CtxOK(c0, E, Some(top), None) && hash0 == c0.hash
    requires e in E && e in c0.thr && e !in c0.done
    modifies S0`parent, S0`child, S0`next, S0`prev, S0`sortThreadKey, S0`sortAuxKey, E`threaded
    ensures Agrees(S, E, c, null) && hash == c.hash && S0 <= S && fresh(S - S0) && Unmarked(S, S0)
    ensures Walked(c0, c, E, top, e)
  {
    hide *;
    hash, S, c := hash0, S0, c0.(done := c0.done + {e});
    NoneUnmarked(S0);
    WalkStart(c0, E, top, e);
    StartField(S0, E, c0, top, e);
    SetThreaded(e, S, E, c0);
    var thread := e.thread;
    var at, more := Cursor(0, 0), true;
    ghost var walked: seq<string> := [];
    CursorStart(e);
    while more
      invariant Agrees(S, E, c, null) && hash == c.hash && S0 <= S && fresh(S - S0) && thread in S && Unmarked(S, S0)
      invariant more ==> Walk(c0, c, E, top, e, thread, walked) && CursorOK(e, at) && EffectiveRefs(e) == walked + Rest(e, at)
      invariant !more ==> WalkOver(c0, c, E, top, e, thread)
      decreases more, |Rest(e, at)|
    {
      var next, ref := NextRef(e, at);
      if ref == None {
        WalkEnd(c0, c, E, top, e, thread, walked);
        more := false;
      } else {
        assert EffectiveRefs(e) == walked + ([ref.value] + Rest(e, next)) == walked + [ref.value] + Rest(e, next);
        ghost var S1 := S;
        thread, hash, more, S, c := FollowRef(e, ref.value, thread, top, hash, S, E, c0, c, walked, Rest(e, next));
        UnmarkedTrans(S0, S1, S);
        at := next;
        walked := walked + [ref.value];
      }
    }
    OverField(S, E, c0, c, top, e, thread);
    if thread.parent == null {
      OverOnTop(c0, c, E, top, e, thread);
      Move(thread, top, S, E, c, null);
      c := Reparent(c, thread, top);
    } else {
      OverPlaced(c0, c, E, top, e, thread);
    }
  }
}
