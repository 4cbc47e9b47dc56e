// What threading by references promises (the second half of mutt_sort_threads), stated on a
// snapshot of the threading context.
module References {
  import opened Wrappers
  import opened Forests
  import opened Threads

  // The references of an email in the order they are tried: the first In-Reply-To, then
  // References without it; all of In-Reply-To only when there is no References header.
  ghost function EffectiveRefs(e: Email): seq<string> {
    if e.inReplyTo == [] then e.references
    else if e.references == [] then e.inReplyTo
    else [e.inReplyTo[0]] + (if e.inReplyTo[0] != e.references[0] then e.references else e.references[1..])
  }

  // `top` is the temporary node above the tree, while there is one.
  datatype View = View(f: ThreadForest, hash: map<string, MuttThread>, msgs: set<MuttThread>,
                       dups: set<MuttThread>, top: Option<MuttThread>)

  // n hangs below a real node.
  ghost predicate Settled(v: View, n: MuttThread) {
    Up(v.f, n).Some? && Up(v.f, n) != v.top
  }

  // The node a reference stands for: a duplicate stands for the message it duplicates.
  ghost function Resolve(v: View, ref: string): Option<MuttThread> {
    if ref !in v.hash then None
    else if v.hash[ref] in v.dups && Up(v.f, v.hash[ref]).Some? then Up(v.f, v.hash[ref])
    else Some(v.hash[ref])
  }

  // Starting at cur, every reference is honoured: either following it would close a loop, or it
  // is the parent; and from a parent that is a missing message without a parent of its own, the
  // rest of the list goes on.
  ghost predicate Follows(v: View, cur: MuttThread, refs: seq<string>)
    decreases |refs|
  {
    refs == [] ||
    (var t := Resolve(v, refs[0]);
     t.Some? &&
     if IsUnder(v.f, t.value, cur) then Follows(v, cur, refs[1..])
     else Settled(v, cur) && Up(v.f, cur) == t &&
          (t.value in v.msgs || Settled(v, t.value) || Follows(v, t.value, refs[1..])))
  }

  // The references `done` lead from start to cur.
  ghost predicate Leads(v: View, start: MuttThread, done: seq<string>, cur: MuttThread)
    decreases |done|
  {
    if done == [] then start == cur
    else
      var t := Resolve(v, done[0]);
      t.Some? &&
      if IsUnder(v.f, t.value, start) then Leads(v, start, done[1..], cur)
      else Settled(v, start) && Up(v.f, start) == t && Leads(v, t.value, done[1..], cur)
  }

  // w knows at least what v knows: no name, message or real parent is forgotten.
  ghost predicate Grows(v: View, w: View) {
    && (forall k :: k in v.hash ==> k in w.hash && w.hash[k] == v.hash[k] && v.hash[k] in v.f.par)
    && v.msgs <= w.msgs
    && (forall n :: n in v.f.par ==> (n in v.dups <==> n in w.dups))
    && (forall n :: n in v.dups ==> Settled(v, n))
    && (forall n :: n in v.f.par && Settled(v, n) ==> Up(w.f, n) == Up(v.f, n) && Settled(w, n))
  }

  lemma {:induction false} GrowsUnder(v: View, w: View, a: MuttThread, b: MuttThread)
    requires WF(v.f) && Grows(v, w) && (v.top.Some? ==> Up(v.f, v.top.value).None?)
    requires IsUnder(v.f, a, b) && Some(b) != v.top
    ensures IsUnder(w.f, a, b)
    decreases Lvl(v.f, a)
  {
    if a != b {
      GrowsUnder(v, w, Up(v.f, a).value, b);
    }
  }

  lemma GrowsResolve(v: View, w: View, ref: string)
    requires WF(v.f) && Grows(v, w) && ref in v.hash
    ensures Resolve(w, ref) == Resolve(v, ref)
  {
  }

  // What is settled stays settled, and what is under a settled parent cannot be above it.
  lemma {:induction false} GrowsFollows(v: View, w: View, cur: MuttThread, refs: seq<string>)
    requires WF(v.f) && Grows(v, w) && (v.top.Some? ==> Up(v.f, v.top.value).None?)
    requires Some(cur) != v.top && Follows(v, cur, refs)
    ensures Follows(w, cur, refs)
    decreases |refs|
  {
    if refs != [] {
      var t := Resolve(v, refs[0]).value;
      GrowsResolve(v, w, refs[0]);
      if IsUnder(v.f, t, cur) {
        GrowsUnder(v, w, t, cur);
        GrowsFollows(v, w, cur, refs[1..]);
      } else {
        ParentNotUnder(w, cur);
        if t !in v.msgs && !Settled(v, t) { GrowsFollows(v, w, t, refs[1..]); }
      }
    }
  }

  lemma ParentNotUnder(w: View, cur: MuttThread)
    requires Up(w.f, cur).Some?
    ensures !IsUnder(w.f, Up(w.f, cur).value, cur)
  {
    if IsUnder(w.f, Up(w.f, cur).value, cur) { UnderLvl(w.f, Up(w.f, cur).value, cur); }
  }

  lemma {:induction false} GrowsLeads(v: View, w: View, start: MuttThread, done: seq<string>, cur: MuttThread)
    requires WF(v.f) && Grows(v, w) && (v.top.Some? ==> Up(v.f, v.top.value).None?)
    requires Some(start) != v.top && Leads(v, start, done, cur)
    ensures Leads(w, start, done, cur)
    decreases |done|
  {
    if done != [] {
      var t := Resolve(v, done[0]).value;
      GrowsResolve(v, w, done[0]);
      if IsUnder(v.f, t, start) {
        GrowsUnder(v, w, t, start);
        GrowsLeads(v, w, start, done[1..], cur);
      } else {
        ParentNotUnder(w, start);
        GrowsLeads(v, w, t, done[1..], cur);
      }
    }
  }

  // One more reference at the end of the path: a loop that is skipped, or a new parent.
  lemma {:induction false} LeadsSnoc(v: View, start: MuttThread, done: seq<string>, cur: MuttThread, ref: string, next: MuttThread)
    requires Leads(v, start, done, cur) && Resolve(v, ref).Some?
    requires var t := Resolve(v, ref).value;
             if IsUnder(v.f, t, cur) then next == cur else Settled(v, cur) && Up(v.f, cur) == Some(t) && next == t
    ensures Leads(v, start, done + [ref], next)
    decreases |done|
  {
    if done == [] {
      assert ([] + [ref])[1..] == [];
      assert Leads(v, next, [], next);
    } else {
      assert (done + [ref])[1..] == done[1..] + [ref];
      var t := Resolve(v, done[0]).value;
      LeadsSnoc(v, if IsUnder(v.f, t, start) then start else t, done[1..], cur, ref, next);
    }
  }

  lemma {:induction false} LeadsFollows(v: View, start: MuttThread, done: seq<string>, cur: MuttThread, rest: seq<string>)
    requires Leads(v, start, done, cur) && Follows(v, cur, rest)
    ensures Follows(v, start, done + rest)
    decreases |done|
  {
    if done == [] {
      assert [] + rest == rest;
    } else {
      assert (done + rest)[1..] == done[1..] + rest;
      var t := Resolve(v, done[0]).value;
      LeadsFollows(v, if IsUnder(v.f, t, start) then start else t, done[1..], cur, rest);
    }
  }

  // The hanging of n below p comes from the references of e: p is the j-th of them, and n is the
  // node of e or a missing message named by an earlier one.
  ghost predicate SourcedBy(v: View, e: Email, start: MuttThread, n: MuttThread, j: nat) {
    && j < |EffectiveRefs(e)| && Resolve(v, EffectiveRefs(e)[j]) == Up(v.f, n)
    && (n == start || (n !in v.msgs && NamedBefore(v, EffectiveRefs(e), j, n)))
  }

  ghost predicate NamedBefore(v: View, refs: seq<string>, j: nat, n: MuttThread) {
    exists i :: 0 <= i < j && i < |refs| && Resolve(v, refs[i]) == Some(n)
  }

  ghost predicate Sourced(v: View, thr: map<Email, MuttThread>, n: MuttThread) {
    exists e, j :: e in thr && 0 <= j < |EffectiveRefs(e)| && SourcedBy(v, e, thr[e], n, j)
  }

  // Every node that hangs below a real node either did so before, or owes it to some reference.
  ghost predicate NewEdges(v: View, w: View, thr: map<Email, MuttThread>) {
    forall n :: n in w.f.par && Settled(w, n) ==> (n in v.f.par && Settled(v, n)) || Sourced(w, thr, n)
  }

  lemma GrowsSourced(v: View, w: View, thr: map<Email, MuttThread>, n: MuttThread)
    requires WF(v.f) && Grows(v, w) && w.msgs == v.msgs && n in v.f.par && Settled(v, n) && Sourced(v, thr, n)
    ensures Sourced(w, thr, n)
  {
    var e, j :| e in thr && 0 <= j < |EffectiveRefs(e)| && SourcedBy(v, e, thr[e], n, j);
    var refs := EffectiveRefs(e);
    GrowsResolve(v, w, refs[j]);
    if n != thr[e] {
      var i :| 0 <= i < j && i < |refs| && Resolve(v, refs[i]) == Some(n);
      GrowsResolve(v, w, refs[i]);
      assert Resolve(w, refs[i]) == Some(n);
    }
    assert SourcedBy(w, e, thr[e], n, j);
  }

  lemma NewEdgesTrans(u: View, v: View, w: View, thr: map<Email, MuttThread>)
    requires WF(v.f) && Grows(u, v) && Grows(v, w) && w.msgs == v.msgs && NewEdges(u, v, thr) && NewEdges(v, w, thr)
    ensures NewEdges(u, w, thr)
  {
    forall n | n in w.f.par && Settled(w, n) ensures (n in u.f.par && Settled(u, n)) || Sourced(w, thr, n) {
      if n in v.f.par && Settled(v, n) && Sourced(v, thr, n) { GrowsSourced(v, w, thr, n); }
    }
  }

  lemma GrowsTrans(u: View, v: View, w: View)
    requires Grows(u, v) && Grows(v, w) && u.f.par.Keys <= v.f.par.Keys
    ensures Grows(u, w)
  {
  }
}
