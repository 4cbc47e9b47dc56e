// mutt_sort_threads as a whole: references, subjects, sorting, and the array of emails.
module MuttSort {
  import opened Wrappers
  import opened Forests
  import opened Mirror
  import opened Threads
  import opened Context
  import opened ThreadTree
  import opened SortThreads
  import opened TopmostWalk
  import opened Linearize
  import opened Subjects
  import opened SubjectTree
  import opened EmailOrder
  import opened SiblingSort
  import opened SubthreadWalk
  import opened SubthreadSort

  // --- check_subjects ---

  // The nearest message above n.
  ghost function MessageAbove(f: ThreadForest, msg: map<MuttThread, Email>, n: MuttThread): Option<MuttThread>
    decreases Lvl(f, n)
  {
    if Up(f, n).None? then None
    else if Up(f, n).value in msg then Up(f, n)
    else MessageAbove(f, msg, Up(f, n).value)
  }

  // The subject of the message at n is another one than that of the message above it.
  ghost predicate SubjectDiffers(f: ThreadForest, msg: map<MuttThread, Email>, n: MuttThread)
    requires n in msg
  {
    var above := MessageAbove(f, msg, n);
    above.None? || above.value !in msg || msg[above.value].realSubj != msg[n].realSubj
  }

  method FindAbove(e: Email, ghost S: set<MuttThread>, ghost f: ThreadForest, ghost msg: map<MuttThread, Email>, ghost head: MuttThread?)
    returns (tmp: MuttThread?)
    requires Linked(S, f, head, {}) && Messages(S, msg) && WF(f) && e.thread != null && e.thread in S
    ensures if tmp == null then MessageAbove(f, msg, e.thread).None? else MessageAbove(f, msg, e.thread) == Some(tmp) && tmp in S && tmp in msg && tmp.message == msg[tmp]
  {
    UpOfPar(f, e.thread);
    ParentField(S, f, head, e.thread);
    tmp := e.thread.parent;
    while tmp != null && tmp.message == null
      invariant tmp != null ==> tmp in S
      invariant MessageAbove(f, msg, e.thread) == if tmp == null then None else if tmp in msg then Some(tmp) else MessageAbove(f, msg, tmp)
      decreases tmp != null, if tmp != null then Lvl(f, tmp) else 0
    {
      UpOfPar(f, tmp);
      ParentField(S, f, head, tmp);
      tmp := tmp.parent;
    }
  }

  // One email.
  method CheckSubject(e: Email, init: bool, ghost S: set<MuttThread>, ghost f: ThreadForest, ghost msg: map<MuttThread, Email>, ghost head: MuttThread?)
    requires Linked(S, f, head, {}) && Messages(S, msg) && WF(f) && e.thread != null && e.thread in S && e.thread in msg && msg[e.thread] == e
    modifies e.thread`checkSubject, e`subjectChanged
    ensures !e.thread.checkSubject
    ensures e.subjectChanged == if init || old(e.thread.checkSubject) then SubjectDiffers(f, msg, e.thread) else old(e.subjectChanged)
  {
    hide Linked, Messages, WF, MessageAbove;
    if e.thread.checkSubject {
      e.thread.checkSubject := false;
    } else if !init {
      return;
    }
    var tmp := FindAbove(e, S, f, msg, head);
    if tmp == null {
      e.subjectChanged := true;
    } else if e.realSubj.Some? && tmp.message.realSubj.Some? {
      e.subjectChanged := e.realSubj != tmp.message.realSubj;
    } else {
      e.subjectChanged := e.realSubj.Some? || tmp.message.realSubj.Some?;
    }
  }

  // The emails and their nodes.
  ghost predicate Seats(E: set<Email>, S: set<MuttThread>, msg: map<MuttThread, Email>, thr: map<Email, MuttThread>)
    reads E`thread
  {
    forall e :: e in E ==>
      && e.thread == (if e in thr then thr[e] else null)
      && (e in thr ==> thr[e] in S && thr[e] in msg && msg[thr[e]] == e)
  }

  // The emails whose subject differs after check_subjects, if those of ch did before and the nodes
  // marked were to be looked at.
  ghost function Rechecked(E: set<Email>, f: ThreadForest, msg: map<MuttThread, Email>, thr: map<Email, MuttThread>,
    init: bool, marked: set<MuttThread>, ch: set<Email>): set<Email>
  {
    set e | e in E && RecheckedAt(f, msg, thr, init, marked, ch, e)
  }

  ghost predicate RecheckedAt(f: ThreadForest, msg: map<MuttThread, Email>, thr: map<Email, MuttThread>,
    init: bool, marked: set<MuttThread>, ch: set<Email>, e: Email)
  {
    if e in thr && thr[e] in msg && (init || thr[e] in marked) then SubjectDiffers(f, msg, thr[e]) else e in ch
  }

  method CheckSubjects(emails: seq<Email>, init: bool, ghost S: set<MuttThread>, ghost f: ThreadForest, ghost msg: map<MuttThread, Email>,
    ghost head: MuttThread?, ghost thr: map<Email, MuttThread>, ghost marked: set<MuttThread>, ghost ch: set<Email>)
    requires Linked(S, f, head, {}) && Messages(S, msg) && WF(f) && Seats(Elements(emails), S, msg, thr) && NoDup(emails)
    requires Marks(S, marked) && Changed(Elements(emails), ch)
    modifies S`checkSubject, Elements(emails)`subjectChanged
    ensures Changed(Elements(emails), Rechecked(Elements(emails), f, msg, thr, init, marked, ch))
    ensures Marks(S, marked - NodesOf(emails, thr))
  {
    hide Linked, Messages, WF, SubjectDiffers, RecheckedAt, Marks, NoDup, NodesOf;
    AllApart(emails);
    NodesOfNone(thr, marked);
    for i := 0 to |emails|
      invariant forall k :: 0 <= k < i ==> (emails[k].subjectChanged <==> RecheckedAt(f, msg, thr, init, marked, ch, emails[k]))
      invariant forall k :: i <= k < |emails| ==> (emails[k].subjectChanged <==> emails[k] in ch)
      invariant Marks(S, marked - NodesOf(emails[..i], thr))
    {
      var e := emails[i];
      assert e in Elements(emails);
      NotYet(emails, i, S, msg, thr);
      CheckOne(e, init, S, f, msg, head, thr, marked, NodesOf(emails[..i], thr), ch);
      NodesOfSnoc(emails[..i], e, thr);
      assert emails[..i + 1] == emails[..i] + [e];
    }
    assert emails[..|emails|] == emails;
  }

  ghost function NodesOf(emails: seq<Email>, thr: map<Email, MuttThread>): set<MuttThread> {
    set e | e in emails && e in thr :: thr[e]
  }

  lemma NodesOfNone(thr: map<Email, MuttThread>, marked: set<MuttThread>)
    ensures marked - NodesOf([], thr) == marked
  {
  }

  lemma NodesOfSnoc(emails: seq<Email>, e: Email, thr: map<Email, MuttThread>)
    ensures NodesOf(emails + [e], thr) == NodesOf(emails, thr) + if e in thr then {thr[e]} else {}
  {
  }

  // An email of the loop, when the nodes `before` have been seen to.
  method CheckOne(e: Email, init: bool, ghost S: set<MuttThread>, ghost f: ThreadForest, ghost msg: map<MuttThread, Email>, ghost head: MuttThread?,
    ghost thr: map<Email, MuttThread>, ghost marked: set<MuttThread>, ghost before: set<MuttThread>, ghost ch: set<Email>)
    requires Linked(S, f, head, {}) && Messages(S, msg) && WF(f) && e.thread == (if e in thr then thr[e] else null)
    requires e in thr ==> thr[e] in S && thr[e] in msg && msg[thr[e]] == e && thr[e] !in before
    requires Marks(S, marked - before) && (e.subjectChanged <==> e in ch)
    modifies S`checkSubject, e`subjectChanged
    ensures e.subjectChanged <==> RecheckedAt(f, msg, thr, init, marked, ch, e)
    ensures Marks(S, marked - (before + if e in thr then {thr[e]} else {}))
  {
    hide Linked, Messages, WF, SubjectDiffers;
    if e.thread != null {
      CheckSubject(e, init, S, f, msg, head);
    }
    assert forall n :: n in S && (e !in thr || n != thr[e]) ==> n.checkSubject == old(n.checkSubject);
  }

  lemma AllApart(emails: seq<Email>)
    requires NoDup(emails)
    ensures forall i, j :: 0 <= i < j < |emails| ==> emails[i] != emails[j]
  {
    forall i, j | 0 <= i < j < |emails| ensures emails[i] != emails[j] { NoDupIndex(emails, i, j); }
  }

  lemma NotYet(emails: seq<Email>, i: nat, S: set<MuttThread>, msg: map<MuttThread, Email>, thr: map<Email, MuttThread>)
    requires i < |emails| && (forall j, k :: 0 <= j < k < |emails| ==> emails[j] != emails[k]) && Seats(Elements(emails), S, msg, thr)
    ensures emails[i] in thr ==> thr[emails[i]] !in NodesOf(emails[..i], thr)
  {
    forall e | e in emails[..i] && e in thr && emails[i] in thr ensures thr[e] != thr[emails[i]] {
      assert e in Elements(emails) && emails[i] in Elements(emails);
    }
  }

  // --- make_subj_hash ---

  method MakeSubjHash(emails: seq<Email>) returns (hash: map<string, seq<Email>>)
    ensures SubjectHash(hash, Elements(emails))
  {
    hash := map[];
    for i := 0 to |emails|
      invariant SubjectHash(hash, Elements(emails[..i]))
    {
      var e := emails[i];
      assert emails[..i + 1] == emails[..i] + [e];
      if e.realSubj.Some? {
        var k := e.realSubj.value;
        hash := hash[k := (if k in hash then hash[k] else []) + [e]];
      }
      assert Elements(emails[..i + 1]) == Elements(emails[..i]) + {e};
    }
    assert emails[..|emails|] == emails;
  }

  // --- pseudo_threads in the context ---

  // The context invariant after the turns of pseudo_threads.
  lemma PseudoOK(c: Ctx, E: set<Email>, f: ThreadForest, fakes: set<MuttThread>)
    requires CtxOK(c, E, None, None) && c.done == c.thr.Keys && Grown(f, c.msg) && f.par.Keys == c.f.par.Keys
    requires c.fakes <= fakes && fakes <= f.par.Keys
    requires forall n :: n in f.par && f.par[n] != c.f.par[n] ==> n in fakes
    requires forall n :: n in fakes && n !in c.fakes ==> n in c.f.roots
    ensures CtxOK(c.(f := f, fakes := fakes), E, None, None)
  {
    hide WF, HashOK, EmailOK, Attached;
    var d := c.(f := f, fakes := fakes);
    GrownWF(f, c.msg);
    Tables(f);
    Tables(c.f);
    forall n | n in d.f.kids ensures NodeOK(d, E, None, None, n) {
      PseudoNode(c, E, f, fakes, n);
    }
    forall k | k in d.hash ensures HashOK(d, None, k) { HashSame(c, d, None, k); }
    forall e | e in d.thr ensures EmailOK(d, e) { EmailSame(c, d, e); }
  }

  lemma PseudoNode(c: Ctx, E: set<Email>, f: ThreadForest, fakes: set<MuttThread>, n: MuttThread)
    requires CtxOK(c, E, None, None) && c.done == c.thr.Keys && Grown(f, c.msg) && f.par.Keys == c.f.par.Keys && n in f.kids && n in f.par
    requires n in c.f.kids && (f.par[n] != c.f.par[n] ==> n in fakes)
    requires n in fakes && n !in c.fakes ==> n in c.f.roots
    ensures NodeOK(c.(f := f, fakes := fakes), E, None, None, n)
  {
    hide Attached;
    AtNode(c, E, n);
    AtGrown(f, c.msg, n);
    if n in c.dups { RootlessDup(c, E, n); }
    hide CtxOK, Grown;
  }

  lemma AtNode(c: Ctx, E: set<Email>, n: MuttThread)
    requires CtxOK(c, E, None, None) && n in c.f.kids
    ensures NodeOK(c, E, None, None, n)
    ensures n in c.msg ==> c.msg[n] in c.thr
  {
  }

  lemma AtGrown(f: ThreadForest, msg: map<MuttThread, Email>, n: MuttThread)
    requires Grown(f, msg) && n in f.kids
    ensures f.kids[n] != [] || n in msg ==> Attached(f, n)
    ensures Attached(f, n) && n !in msg ==> f.kids[n] != []
  {
  }

  lemma RootlessDup(c: Ctx, E: set<Email>, n: MuttThread)
    requires CtxOK(c, E, None, None) && n in c.dups && n in c.f.kids
    ensures n !in c.f.roots && n !in c.fakes
  {
    assert NodeOK(c, E, None, None, n);
  }

  // --- the steps in the context ---

  lemma ContextSeats(t: ThreadsContext, E: set<Email>)
    requires t.Valid(E)
    ensures Seats(E, t.nodes, t.c.msg, t.c.thr) && Linked(t.nodes, t.c.f, t.tree, {}) && Messages(t.nodes, t.c.msg) && WF(t.c.f)
  {
    forall e | e in E && e in t.c.thr ensures t.c.thr[e] in t.nodes && t.c.thr[e] in t.c.msg && t.c.msg[t.c.thr[e]] == e {
      assert EmailOK(t.c, e);
    }
  }

  // check_subjects
  method CheckContext(tctx: ThreadsContext, emails: seq<Email>, init: bool, ghost marked: set<MuttThread>, ghost ch0: set<Email>)
    returns (ghost ch: set<Email>)
    requires tctx.Valid(Elements(emails)) && NoDup(emails) && Changed(Elements(emails), ch0) && Marks(tctx.nodes, marked)
    modifies tctx.nodes`checkSubject, Elements(emails)`subjectChanged
    ensures tctx.Valid(Elements(emails)) && Changed(Elements(emails), ch)
    ensures Marks(tctx.nodes, marked - NodesOf(emails, tctx.c.thr))
    ensures ch == Rechecked(Elements(emails), tctx.c.f, tctx.c.msg, tctx.c.thr, init, marked, ch0)
  {
    hide *;
    EmailsAllocated(Elements(emails));
    ContextSeats(tctx, Elements(emails));
    CheckSubjects(emails, init, tctx.nodes, tctx.c.f, tctx.c.msg, tctx.tree, tctx.c.thr, marked, ch0);
    ch := Rechecked(Elements(emails), tctx.c.f, tctx.c.msg, tctx.c.thr, init, marked, ch0);
  }

  lemma EmailsAllocated(E: set<Email>)
    ensures forall e :: e in E ==> allocated(e)
  {
  }

  ghost function ChangedIn(E: set<Email>): set<Email>
    reads E`subjectChanged
  {
    set e | e in E && e.subjectChanged
  }

  lemma ChangedNow(E: set<Email>)
    ensures Changed(E, ChangedIn(E))
  {
  }

  lemma ContextGroups(t: ThreadsContext, E: set<Email>, ch: set<Email>)
    requires t.Valid(E) && Changed(E, ch) && forall e :: e in E ==> e in t.c.thr
    ensures Grouping(t.nodes, E, t.c.f, t.tree, t.c.msg, t.c.fakes, ch)
    ensures CtxOK(t.c, E, None, None) && t.c.done == t.c.thr.Keys && Flags(t.nodes, t.c.dups, t.c.fakes) && Mails(E, t.c.thr, t.c.done) && t.hash == t.c.hash
  {
    hide WF, Linked, HashOK;
    ContextSeats(t, E);
    CtxGrown(t.c, E);
    Tables(t.c.f);
    LinkedNodes(t.nodes, t.c.f, t.tree, {});
    forall n | n in t.c.msg ensures t.c.msg[n] in E && t.c.msg[n].thread == n && n in t.nodes {
      assert NodeOK(t.c, E, None, None, n);
    }
  }

  lemma GroupedContext(t: ThreadsContext, E: set<Email>, c: Ctx, f: ThreadForest, fakes: set<MuttThread>, ch: set<Email>, ch0: set<Email>, picks: seq<Pick>)
    requires Grouping(t.nodes, E, f, t.tree, c.msg, fakes, ch) && t.c == c.(f := f, fakes := fakes) && t.hash == c.hash && t.hasHash
    requires CtxOK(c, E, None, None) && c.done == c.thr.Keys && Mails(E, c.thr, c.done)
    requires forall n :: n in t.nodes ==> (n.duplicateThread <==> n in c.dups)
    requires Turns(c.f, c.fakes, ch0, picks, c.msg, f, fakes, ch)
    ensures t.Valid(E)
  {
    hide WF, Linked, Grown, NodeOK, HashOK, EmailOK, Turns;
    TurnsKeep(c.f, c.fakes, ch0, picks, c.msg, f, fakes, ch);
    GroupingParts(t.nodes, E, f, t.tree, c.msg, fakes, ch);
    FakesIn(c, E, f, fakes);
    PseudoOK(c, E, f, fakes);
    assert Flags(t.nodes, c.dups, fakes);
  }

  lemma FakesIn(c: Ctx, E: set<Email>, f: ThreadForest, fakes: set<MuttThread>)
    requires CtxOK(c, E, None, None) && f.par.Keys == c.f.par.Keys
    requires forall n :: n in fakes && n !in c.fakes ==> n in c.f.roots
    ensures fakes <= f.par.Keys
  {
    forall n | n in fakes ensures n in f.par {
      if n !in c.fakes { assert n in c.f.roots; }
    }
  }

  lemma DupFlags(S: set<MuttThread>, dups: set<MuttThread>, fakes: set<MuttThread>)
    requires Flags(S, dups, fakes)
    ensures forall n :: n in S ==> (n.duplicateThread <==> n in dups)
  {
  }

  // pseudo_threads
  method PseudoContext(tctx: ThreadsContext, subjHash: map<string, seq<Email>>, threadReceived: bool, sortRe: bool, ghost E: set<Email>, ghost ch0: set<Email>)
    returns (ghost picks: seq<Pick>, ghost ch: set<Email>)
    requires tctx.Valid(E) && tctx.hasHash && Changed(E, ch0) && SubjectHash(subjHash, E) && forall e :: e in E ==> e in tctx.c.thr
    modifies tctx`tree, tctx`c, E`subjectChanged
    modifies tctx.nodes`parent, tctx.nodes`child, tctx.nodes`next, tctx.nodes`prev
    modifies tctx.nodes`sortThreadKey, tctx.nodes`sortAuxKey, tctx.nodes`fakeThread, tctx.nodes`sortChildren
    ensures tctx.Valid(E) && tctx.c == old(tctx.c).(f := tctx.c.f, fakes := tctx.c.fakes) && Changed(E, ch)
    ensures Turns(old(tctx.c.f), old(tctx.c.fakes), ch0, picks, tctx.c.msg, tctx.c.f, tctx.c.fakes, ch)
    ensures |picks| == |old(tctx.c.f.roots)| && forall i :: 0 <= i < |picks| ==> picks[i].cur == old(tctx.c.f.roots)[i]
    ensures forall p :: p in picks ==> GoodPick(p, tctx.c.msg, threadReceived, sortRe)
  {
    hide *;
    ghost var c := tctx.c;
    ContextGroups(tctx, E, ch0);
    DupFlags(tctx.nodes, c.dups, c.fakes);
    var top;
    ghost var f, fakes;
    top, f, fakes, ch, picks := PseudoThreads(tctx.tree, subjHash, threadReceived, sortRe, tctx.nodes, E, c.f, c.msg, c.fakes, ch0);
    tctx.tree := top;
    tctx.c := c.(f := f, fakes := fakes);
    GroupedContext(tctx, E, c, f, fakes, ch, ch0, picks);
    GroupChanged(tctx.nodes, E, f, top, c.msg, fakes, ch);
  }

  lemma GroupChanged(S: set<MuttThread>, E: set<Email>, f: ThreadForest, head: MuttThread?, msg: map<MuttThread, Email>, fakes: set<MuttThread>, ch: set<Email>)
    requires Grouping(S, E, f, head, msg, fakes, ch)
    ensures Changed(E, ch)
  {
  }

  // linearize_tree
  method LinearizeContext(tctx: ThreadsContext, emails: array<Email>, count: nat, reverse: bool)
    requires count <= emails.Length && NoDup(emails[..count]) && tctx.Valid(Elements(emails[..count]))
    requires forall e :: e in emails[..count] ==> e in tctx.c.thr
    modifies emails
    ensures InDisplayOrder(tctx.c, emails[..count], reverse) && emails[count..] == old(emails[count..])
    ensures multiset(emails[..count]) == multiset(old(emails[..count])) && Elements(emails[..count]) == old(Elements(emails[..count]))
  {
    hide *;
    ghost var list := emails[..count];
    ContextOpen(tctx, Elements(list));
    SlotForEach(tctx.c, list);
    DisplayedOnce(tctx.c, Elements(list));
    ThrInside(tctx.c, Elements(list));
    ElementsIn(list);
    SlotIs(count, reverse);
    LinearizeTree(tctx.tree, emails, count, reverse, tctx.nodes, tctx.c.f, tctx.c.msg);
    Placed(tctx.c, list, emails[..count], reverse);
  }

  lemma ElementsIn(list: seq<Email>)
    ensures forall e :: e in Elements(list) <==> e in list
  {
  }

  lemma ThrInside(c: Ctx, E: set<Email>)
    requires CtxOK(c, E, None, None)
    ensures forall e :: e in c.thr ==> e in E
  {
  }

  // The emails in the order of the tree, or backwards.
  ghost predicate InDisplayOrder(c: Ctx, list: seq<Email>, reverse: bool) {
    list == if reverse then Rev(Displayed(c.f, c.msg)) else Displayed(c.f, c.msg)
  }

  lemma Placed(c: Ctx, list: seq<Email>, slots: seq<Email>, reverse: bool)
    requires NoDup(list) && NoDup(Displayed(c.f, c.msg)) && |slots| == |list| == |Displayed(c.f, c.msg)|
    requires forall e :: e in list <==> e in Displayed(c.f, c.msg)
    requires forall k :: 0 <= k < |list| ==> slots[Slot(|list|, reverse, k)] == Displayed(c.f, c.msg)[k]
    ensures InDisplayOrder(c, slots, reverse) && multiset(slots) == multiset(list) && Elements(slots) == Elements(list)
  {
    hide Displayed, NoDup;
    var d := Displayed(c.f, c.msg);
    if reverse {
      forall i | 0 <= i < |d| ensures slots[i] == Rev(d)[i] { assert slots[Slot(|list|, reverse, |d| - 1 - i)] == d[|d| - 1 - i]; }
      assert slots == Rev(d);
      RevCount(d);
    } else {
      forall i | 0 <= i < |d| ensures slots[i] == d[i] { assert slots[Slot(|list|, reverse, i)] == d[i]; }
      assert slots == d;
    }
    SameOnce(d, list);
    SameElements(slots, list);
  }

  lemma {:induction false} SameOnce(a: seq<Email>, b: seq<Email>)
    requires NoDup(a) && NoDup(b) && forall e :: e in a <==> e in b
    ensures multiset(a) == multiset(b)
  {
    CountOnce(a);
    CountOnce(b);
  }

  lemma {:induction false} CountOnce(s: seq<Email>)
    requires NoDup(s)
    ensures multiset(s) == multiset(set e | e in s)
  {
    if s != [] {
      CountOnce(s[1..]);
      assert s == [s[0]] + s[1..];
      assert (set e | e in s) == {s[0]} + set e | e in s[1..];
    }
  }

  lemma SameElements(a: seq<Email>, b: seq<Email>)
    requires multiset(a) == multiset(b)
    ensures Elements(a) == Elements(b)
  {
    assert forall e :: e in a <==> e in multiset(a);
    assert forall e :: e in b <==> e in multiset(b);
  }

  // --- mutt_sort_threads ---

  // $duplicate_threads, $strict_threads, $thread_received, $sort_re, $sort, $sort_aux, what they
  // order by, whether the thread style is UT_REVERSE, and OptSortSubthreads.
  datatype Options = Options(duplicateThreads: bool, strictThreads: bool, threadReceived: bool, sortRe: bool,
                             sort: SortType, sortAux: SortType, ranks: Ranks, reverse: bool, sortSubthreads: bool)

  // The states on the way: while references are followed, after them, and after check_subjects and
  // pseudo_threads.
  datatype Stages = Stages(way: Course, c1: Ctx, ch1: set<Email>, c2: Ctx, ch2: set<Email>, picks: seq<Pick>)

  // What becomes of the tree before it is sorted, if at first the nodes `marked` are marked and the
  // emails ch0 have another subject: references are followed; subjects are compared with those of the
  // messages above; and unless $strict_threads is set, every top-level thread has its turn.
  ghost predicate Staged(list: seq<Email>, init: bool, o: Options, c0: Ctx, marked: set<MuttThread>, ch0: set<Email>, g: Stages) {
    && Threaded(list, c0, g.c1) && Runs(list, init, o.duplicateThreads, c0, g.way, g.c1)
    && g.ch1 == Rechecked(Elements(list), g.c1.f, g.c1.msg, g.c1.thr, init, MarksAfter(list, g.way, marked), ch0)
    && if o.strictThreads then g.c2 == g.c1 && g.ch2 == g.ch1
       else
         && g.c2 == g.c1.(f := g.c2.f, fakes := g.c2.fakes)
         && Turns(g.c1.f, g.c1.fakes, g.ch1, g.picks, g.c1.msg, g.c2.f, g.c2.fakes, g.ch2)
         && |g.picks| == |g.c1.f.roots| && (forall i :: 0 <= i < |g.picks| ==> g.picks[i].cur == g.c1.f.roots[i])
         && forall p :: p in g.picks ==> GoodPick(p, g.c1.msg, o.threadReceived, o.sortRe)
  }

  // The tree up to sorting.
  method BuildTree(tctx: ThreadsContext, list: seq<Email>, init0: bool, o: Options, subjHash: Option<map<string, seq<Email>>>)
    returns (init: bool, ghost g: Stages)
    requires NoDup(list) && tctx.Valid(Elements(list)) && (init0 ==> tctx.c == EmptyCtx())
    requires subjHash.Some? ==> SubjectHash(subjHash.value, Elements(list))
    modifies tctx, tctx.nodes, Elements(list)`thread, Elements(list)`threaded, Elements(list)`subjectChanged
    ensures tctx.Valid(Elements(list)) && tctx.hasHash && fresh(tctx.nodes - old(tctx.nodes)) && (forall e :: e in list ==> e in tctx.c.thr)
    ensures init == (init0 || !old(tctx.hasHash)) && tctx.c == g.c2
    ensures Staged(list, init, o, old(tctx.c), old(Marked(tctx.nodes)), old(ChangedIn(Elements(list))), g)
    ensures Changed(Elements(list), g.ch2)
    ensures Marks(tctx.nodes, MarksAfter(list, g.way, old(Marked(tctx.nodes))) - NodesOf(list, g.c2.thr))
    ensures tctx.cSort == old(tctx.cSort) && tctx.cSortAux == old(tctx.cSortAux)
  {
    hide *;
    ghost var E, c0, marked0 := Elements(list), tctx.c, Marked(tctx.nodes);
    ghost var ch0 := ChangedIn(E);
    ChangedNow(E);
    init := init0 || !tctx.hasHash;
    ghost var way := tctx.ThreadByReferences(list, init0, o.duplicateThreads);
    ThreadedAll(list, c0, tctx.c);
    ghost var marked := MarksAfter(list, way, marked0);
    ghost var ch1 := CheckContext(tctx, list, init, marked, ch0);
    ghost var c1, ch2, picks := tctx.c, ch1, [];
    if !o.strictThreads {
      picks, ch2 := GroupContext(tctx, list, subjHash, o, E, ch1);
    }
    g := Stages(way, c1, ch1, tctx.c, ch2, picks);
    SameThr(c1, tctx.c);
    StagesOK(list, init, o, c0, marked0, ch0, g);
  }

  // pseudo_threads, with a hash of subjects made for it if there is none.
  method GroupContext(tctx: ThreadsContext, list: seq<Email>, subjHash: Option<map<string, seq<Email>>>, o: Options, ghost E: set<Email>, ghost ch0: set<Email>)
    returns (ghost picks: seq<Pick>, ghost ch: set<Email>)
    requires tctx.Valid(E) && tctx.hasHash && Changed(E, ch0) && E == Elements(list) && forall e :: e in E ==> e in tctx.c.thr
    requires subjHash.Some? ==> SubjectHash(subjHash.value, E)
    modifies tctx`tree, tctx`c, E`subjectChanged
    modifies tctx.nodes`parent, tctx.nodes`child, tctx.nodes`next, tctx.nodes`prev
    modifies tctx.nodes`sortThreadKey, tctx.nodes`sortAuxKey, tctx.nodes`fakeThread, tctx.nodes`sortChildren
    ensures tctx.Valid(E) && tctx.c == old(tctx.c).(f := tctx.c.f, fakes := tctx.c.fakes) && Changed(E, ch)
    ensures Turns(old(tctx.c.f), old(tctx.c.fakes), ch0, picks, tctx.c.msg, tctx.c.f, tctx.c.fakes, ch)
    ensures |picks| == |old(tctx.c.f.roots)| && forall i :: 0 <= i < |picks| ==> picks[i].cur == old(tctx.c.f.roots)[i]
    ensures forall p :: p in picks ==> GoodPick(p, tctx.c.msg, o.threadReceived, o.sortRe)
  {
    hide *;
    var hash;
    if subjHash.Some? {
      hash := subjHash.value;
    } else {
      EmailsAllocated(E);
      hash := MakeSubjHash(list);
    }
    picks, ch := PseudoContext(tctx, hash, o.threadReceived, o.sortRe, E, ch0);
  }

  lemma ThreadedAll(list: seq<Email>, c0: Ctx, c: Ctx)
    requires Threaded(list, c0, c)
    ensures (forall e :: e in list ==> e in c.thr) && forall e :: e in Elements(list) ==> e in c.thr
  {
  }

  lemma StagesOK(list: seq<Email>, init: bool, o: Options, c0: Ctx, marked: set<MuttThread>, ch0: set<Email>, g: Stages)
    requires Threaded(list, c0, g.c1) && Runs(list, init, o.duplicateThreads, c0, g.way, g.c1)
    requires g.ch1 == Rechecked(Elements(list), g.c1.f, g.c1.msg, g.c1.thr, init, MarksAfter(list, g.way, marked), ch0)
    requires o.strictThreads ==> g.c2 == g.c1 && g.ch2 == g.ch1
    requires !o.strictThreads ==>
      && g.c2 == g.c1.(f := g.c2.f, fakes := g.c2.fakes)
      && Turns(g.c1.f, g.c1.fakes, g.ch1, g.picks, g.c1.msg, g.c2.f, g.c2.fakes, g.ch2)
      && |g.picks| == |g.c1.f.roots| && (forall i :: 0 <= i < |g.picks| ==> g.picks[i].cur == g.c1.f.roots[i])
      && forall p :: p in g.picks ==> GoodPick(p, g.c1.msg, o.threadReceived, o.sortRe)
    ensures Staged(list, init, o, c0, marked, ch0, g)
  {
    hide Threaded, Runs, MarksAfter, Rechecked, Turns, GoodPick;
  }

  // Emails that have just arrived have no node yet: the context is ready for them.
  lemma NewMail(t: ThreadsContext, E: set<Email>, more: set<Email>)
    requires t.Valid(E) && forall e :: e in more && e !in E ==> e.thread == null && !e.threaded
    ensures t.Valid(E + more)
  {
    hide WF, HashOK, EmailOK, Attached;
    forall n | n in t.c.f.kids ensures NodeOK(t.c, E + more, None, None, n) {
      assert NodeOK(t.c, E, None, None, n);
    }
  }

  // emails[..count] are the emails of the mailbox; afterwards they are there in display order.
  method MuttSortThreads(tctx: ThreadsContext, emails: array<Email>, count: nat, init0: bool, o: Options, subjHash: Option<map<string, seq<Email>>>)
    returns (ghost g: Stages)
    requires count <= emails.Length && NoDup(emails[..count]) && tctx.Valid(Elements(emails[..count])) && (init0 ==> tctx.c == EmptyCtx())
    requires subjHash.Some? ==> SubjectHash(subjHash.value, Elements(emails[..count]))
    requires o.sort.key == EMAIL_SORT_THREADS ==> o.sort.reverse == o.reverse
    modifies tctx, tctx.nodes, emails
    modifies Elements(emails[..count])`thread, Elements(emails[..count])`threaded, Elements(emails[..count])`subjectChanged
    ensures Elements(emails[..count]) == old(Elements(emails[..count])) && tctx.Valid(Elements(emails[..count]))
    ensures Staged(old(emails[..count]), init0 || !old(tctx.hasHash), o, old(tctx.c), old(Marked(tctx.nodes)), old(ChangedIn(Elements(emails[..count]))), g)
    ensures tctx.c == g.c2.(f := tctx.c.f) && Changed(Elements(emails[..count]), g.ch2)
    ensures Marks(tctx.nodes, MarksAfter(old(emails[..count]), g.way, old(Marked(tctx.nodes))) - NodesOf(old(emails[..count]), g.c2.thr))
    ensures tctx.tree != null ==>
      var q := OrdersFor(o.ranks, o.sort, o.sortAux, o.reverse);
      var init := init0 || !old(tctx.hasHash) || o.sortSubthreads || q.sort != old(tctx.cSort) || q.aux != old(tctx.cSortAux);
      SubthreadsSorted(q, init, g.c2.msg, g.c2.f, tctx.c.f, AuxKeys(tctx.nodes), ThreadKeys(tctx.nodes))
    ensures tctx.tree != null ==>
      var s := if o.sort.key == EMAIL_SORT_THREADS then o.sortAux else o.sort;
      && tctx.cSort == s.(reverse := !s.reverse) && tctx.cSortAux == o.sortAux.(reverse := !o.sortAux.reverse)
      && (init0 || !old(tctx.hasHash) || o.sortSubthreads || tctx.cSort != old(tctx.cSort) || tctx.cSortAux != old(tctx.cSortAux) ==>
            SiblingsInTurn(tctx.c.f, AuxKeys(tctx.nodes), o.ranks, o.sortAux) && ThreadsInTurn(tctx.c.f, ThreadKeys(tctx.nodes), o.ranks, s))
    ensures InDisplayOrder(tctx.c, emails[..count], o.reverse)
    ensures multiset(emails[..count]) == multiset(old(emails[..count])) && emails[count..] == old(emails[count..])
  {
    hide *;
    var list := emails[..count];
    EmailsAllocated(Elements(list));
    var init;
    init, g := BuildTree(tctx, list, init0, o, subjHash);
    if tctx.tree != null {
      MuttSortSubthreads(tctx, init || o.sortSubthreads, o.sort, o.sortAux, o.ranks, o.reverse, Elements(list));
      SameThr(g.c2, tctx.c);
      LinearizeContext(tctx, emails, count, o.reverse);
    } else {
      NothingThere(tctx, list, o.reverse);
    }
  }

  lemma SameThr(c: Ctx, d: Ctx)
    requires d == c.(f := d.f) || d == c.(f := d.f, fakes := d.fakes)
    ensures d.thr == c.thr
  {
  }

  // Without a tree there is no email.
  lemma NothingThere(t: ThreadsContext, list: seq<Email>, reverse: bool)
    requires t.Valid(Elements(list)) && t.tree == null && NoDup(list) && forall e :: e in list ==> e in t.c.thr
    ensures InDisplayOrder(t.c, list, reverse) && t.c == t.c.(f := t.c.f)
  {
    hide *;
    ContextOpen(t, Elements(list));
    SlotForEach(t.c, list);
    StepStart(t.nodes, t.c.f, t.c.msg, t.tree);
    NoneInOrder(t.c, list, reverse);
  }

  lemma NoneInOrder(c: Ctx, list: seq<Email>, reverse: bool)
    requires Displayed(c.f, c.msg) == [] && |list| == 0
    ensures InDisplayOrder(c, list, reverse)
  {
  }
}
