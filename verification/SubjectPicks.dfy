// When a message differs in subject, and what threading by subject picks and moves, in terms of the emails and of who is below whom.
module SubjectPicks {
  import opened Wrappers
  import opened Forests
  import opened Threads
  import opened ThreadTree
  import opened TopmostWalk
  import opened SubjectList
  import opened Subjects
  import opened SubjectTree
  import opened MuttSort

  // --- the subject check ---

  // a is a message above n, and the nearest one.
  ghost predicate Nearest(f: ThreadForest, msg: map<MuttThread, Email>, n: MuttThread, a: MuttThread) {
    a in msg && a != n && IsUnder(f, n, a) && forall m :: m in msg && m != n && IsUnder(f, n, m) ==> IsUnder(f, a, m)
  }

  // A message counts as changed in subject exactly if no nearest message above it has the same.
  lemma DiffersIff(f: ThreadForest, msg: map<MuttThread, Email>, n: MuttThread)
    requires n in msg
    ensures SubjectDiffers(f, msg, n) <==> !exists a :: Nearest(f, msg, n, a) && msg[a].realSubj == msg[n].realSubj
  {
    AboveIs(f, msg, n);
    var above := MessageAbove(f, msg, n);
    forall a | Nearest(f, msg, n, a) ensures above == Some(a) {
      UnderBoth(f, a, above.value);
    }
  }

  lemma {:induction false} AboveIs(f: ThreadForest, msg: map<MuttThread, Email>, n: MuttThread)
    ensures var above := MessageAbove(f, msg, n);
      if above.Some? then Nearest(f, msg, n, above.value) else forall m :: m in msg && m != n ==> !IsUnder(f, n, m)
    decreases Lvl(f, n)
  {
    if Up(f, n).Some? {
      var p := Up(f, n).value;
      assert IsUnder(f, p, p) && IsUnder(f, n, p);
      if p !in msg {
        AboveIs(f, msg, p);
        var above := MessageAbove(f, msg, p);
        if above.Some? { UnderLvl(f, p, above.value); }
      }
    }
  }

  // --- the pick ---

  // n is a message below start, and there is no other one between them.
  ghost predicate NoneBetween(f: ThreadForest, msg: map<MuttThread, Email>, start: MuttThread, n: MuttThread) {
    n in msg && IsUnder(f, n, start) && forall m :: m in msg && IsUnder(f, n, m) && IsUnder(f, m, start) ==> m == n
  }

  lemma {:induction false} TopmostIs(f: ThreadForest, msg: map<MuttThread, Email>, start: MuttThread, n: MuttThread)
    ensures Topmost(f, msg, start, n) <==> NoneBetween(f, msg, start, n)
  {
    if Topmost(f, msg, start, n) {
      ClearUnder(f, msg, start, n);
      forall m | m in msg && IsUnder(f, n, m) && IsUnder(f, m, start) ensures m == n {
        if m != n { Covered(f, msg, start, m, n); }
      }
    } else if NoneBetween(f, msg, start, n) {
      ClearIs(f, msg, start, n, n);
    }
  }

  // x is on the way up from n.
  lemma {:induction false} ClearIs(f: ThreadForest, msg: map<MuttThread, Email>, start: MuttThread, n: MuttThread, x: MuttThread)
    requires IsUnder(f, x, start) && IsUnder(f, n, x) && forall m :: m in msg && IsUnder(f, n, m) && IsUnder(f, m, start) ==> m == n
    ensures Clear(f, msg, start, x)
    decreases Lvl(f, x)
  {
    if x != start {
      var p := Up(f, x).value;
      assert IsUnder(f, p, start) && IsUnder(f, x, p);
      UnderTrans(f, n, x, p);
      if p in msg {
        UnderLvl(f, n, x);
        assert false;
      }
      ClearIs(f, msg, start, n, p);
    }
  }

  // The date that counts, for $thread_received or not, is no later for a than for b.
  ghost predicate NoLater(threadReceived: bool, a: Email, b: Email) {
    if threadReceived then a.received <= b.received else a.dateSent <= b.dateSent
  }

  // A topmost message of the thread has the subject; for $sort_re only replies count.
  ghost predicate TopHas(p: Pick, msg: map<MuttThread, Email>, sortRe: bool, subject: string, t: MuttThread) {
    t in p.f.par && NoneBetween(p.f, msg, p.cur, t) && msg[t].realSubj == Some(subject) && (sortRe ==> msg[t].isReply)
  }

  // The parent is another message that differs in subject from its own parent, has not been threaded by
  // subject itself, is not in the thread, and has the subject of a topmost message there and no later date
  // than one of these.
  lemma PickSays(p: Pick, msg: map<MuttThread, Email>, threadReceived: bool, sortRe: bool) returns (s: MuttThread, t: MuttThread)
    requires GoodPick(p, msg, threadReceived, sortRe) && p.parent != null
    ensures p.parent in msg && p.parent != p.cur && p.parent !in p.fakes && msg[p.parent] in p.ch && !IsUnder(p.f, p.parent, p.cur)
    ensures msg[p.parent].realSubj.Some? && TopHas(p, msg, sortRe, msg[p.parent].realSubj.value, s)
    ensures t in p.f.par && NoneBetween(p.f, msg, p.cur, t) && NoLater(threadReceived, msg[p.parent], msg[t])
  {
    hide IsUnder, Topmost, NoneBetween, ListFrom, SubjectSeq;
    SubjectsAre(msg, p.tops, sortRe, msg[p.parent].realSubj.value);
    s :| s in p.tops && s in msg && SubjectOf(msg[s], sortRe, msg[p.parent].realSubj.value);
    TopmostIs(p.f, msg, p.cur, s);
    t := DatedBy(p, msg, threadReceived);
    TopmostIs(p.f, msg, p.cur, t);
  }

  lemma DatedBy(p: Pick, msg: map<MuttThread, Email>, threadReceived: bool) returns (t: MuttThread)
    requires TopsAre(p.f, msg, p.cur, p.tops)
    ensures t in p.tops && t in msg && Earliest(Dates(msg, p.tops, threadReceived)) == Date(msg[t], threadReceived)
  {
    hide Topmost;
    TopsInMsg(p, msg);
    DatesIn(msg, p.tops, threadReceived);
    EarliestIff(Dates(msg, p.tops, threadReceived));
    t :| t in p.tops && Date(msg[t], threadReceived) == Earliest(Dates(msg, p.tops, threadReceived));
  }

  // Every such message that is dated no later than any topmost message of the thread is a candidate: then there
  // is a parent, and it is dated no earlier.
  lemma PickLatest(p: Pick, msg: map<MuttThread, Email>, threadReceived: bool, sortRe: bool, c: MuttThread, s: MuttThread)
    requires GoodPick(p, msg, threadReceived, sortRe)
    requires c in msg && c != p.cur && c !in p.fakes && msg[c] in p.ch && !IsUnder(p.f, c, p.cur)
    requires msg[c].realSubj.Some? && TopHas(p, msg, sortRe, msg[c].realSubj.value, s)
    requires forall t :: t in p.f.par && NoneBetween(p.f, msg, p.cur, t) ==> NoLater(threadReceived, msg[c], msg[t])
    ensures p.parent != null && p.parent in msg && NoLater(threadReceived, msg[c], msg[p.parent])
  {
    hide IsUnder, Topmost, ListFrom, SubjectSeq;
    TopmostIs(p.f, msg, p.cur, s);
    assert s in p.tops && SubjectOf(msg[s], sortRe, msg[c].realSubj.value);
    assert HasSubject(msg, p.tops, sortRe, msg[c].realSubj.value);
    SubjectsAre(msg, p.tops, sortRe, msg[c].realSubj.value);
    var t := DatedBy(p, msg, threadReceived);
    TopmostIs(p.f, msg, p.cur, t);
    assert Eligible(p.f, msg, p.fakes, p.ch, p.cur, p.subjects, Earliest(Dates(msg, p.tops, threadReceived)), threadReceived, c);
  }

  // A node has a new parent exactly if it is the thread itself, or has been threaded by subject below a topmost message
  // there that is the thread itself or has the parent's subject; and these messages lose the mark of a
  // changed subject.
  lemma TurnSays(p: Pick, msg: map<MuttThread, Email>, f: ThreadForest, fakes: set<MuttThread>, ch: set<Email>, n: MuttThread)
    requires Turn(p, msg, f, fakes, ch) && p.parent != null && p.parent in msg && n in p.f.par && TopsAre(p.f, msg, p.cur, p.tops)
    requires p.cur in p.f.par && (p.f.par[n].Some? ==> p.f.par[n].value in p.f.par)
    ensures n in f.par && p.cur in f.par && f.par[p.cur] == Some(p.parent) && p.cur in fakes
    ensures n != p.cur ==> (f.par[n] == Some(p.parent) <==>
      || p.f.par[n] == Some(p.parent)
      || (n in p.fakes && p.f.par[n].Some? && var m := p.f.par[n].value; NoneBetween(p.f, msg, p.cur, m) && (m == p.cur || msg[m].realSubj == msg[p.parent].realSubj)))
    ensures n != p.cur && f.par[n] != Some(p.parent) ==> f.par[n] == p.f.par[n]
    ensures n in msg && msg[n] in p.ch ==>
      (NoneBetween(p.f, msg, p.cur, n) && (n == p.cur || msg[n].realSubj == msg[p.parent].realSubj) ==> msg[n] !in ch)
    ensures forall e :: e in p.ch && e !in ch ==> exists m :: m in msg && msg[m] == e && NoneBetween(p.f, msg, p.cur, m) && (m == p.cur || e.realSubj == msg[p.parent].realSubj)
  {
    hide IsUnder, Topmost;
    TopsInMsg(p, msg);
    assert f.par[n] == NewParent(p, msg, n);
    TopmostIs(p.f, msg, p.cur, n);
    if p.f.par[n].Some? { TopmostIs(p.f, msg, p.cur, p.f.par[n].value); }
    forall e | e in p.ch && e !in ch
      ensures exists m :: m in msg && msg[m] == e && NoneBetween(p.f, msg, p.cur, m) && (m == p.cur || e.realSubj == msg[p.parent].realSubj)
    {
      var m :| m in p.tops && m in msg && Hands(p.f, msg, p.cur, p.parent, m) && msg[m] == e;
      TopmostIs(p.f, msg, p.cur, m);
    }
  }
}
