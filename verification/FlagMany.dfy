// flags.c: setting a flag on a selection of emails, and on a thread.
module FlagMany {
  import opened Wrappers
  import opened Forests
  import opened Preorder
  import opened EmailFlags
  import opened Threads
  import opened Accounting
  import Context
  import ThreadTree
  import SortThreads
  import opened SubtreeWalk
  import Linearize

  // The email's flags are s after the flag has been set or cleared, if that is permitted.
  ghost predicate HasMarked(m: Mailbox, e: Email, s: Flags, flag: Flag, bf: bool, flagSafe: bool)
    reads m`readonly, m`mayDelete, m`maySee, m`mayWrite, e
  {
    if Permitted(m, flag) then Step(s, FlagsOf(e), flag, bf, flagSafe, m.kind.Imap?) else FlagsOf(e) == s
  }

  // Setting the flag of an email where it may have been set before.
  method FlagOnce(m: Mailbox, e: Email, flag: Flag, bf: bool, flagSafe: bool, ghost es: seq<Email>, ghost s: Flags)
    requires e in es && Distinct(es)
    requires FlagsOf(e) == s || HasMarked(m, e, s, flag, bf, flagSafe)
    modifies m`changed, m`msgUnread, m`msgNew, m`msgFlagged, m`msgDeleted, m`msgTagged
    modifies e`read, e`isOld, e`flagged, e`deleted, e`purge, e`tagged, e`replied, e`changed
    ensures HasMarked(m, e, s, flag, bf, flagSafe) && (old(Exact(m, es)) ==> Exact(m, es))
  {
    hide Exact, Permitted, Distinct, Counted, FolderChanged, Step, FlagsOf;
    ghost var t := FlagsOf(e);
    SetFlag(m, e, flag, bf, true, flagSafe, es);
    if Permitted(m, flag) && t != s {
      StepTwice(s, t, FlagsOf(e), flag, bf, flagSafe, m.kind.Imap?);
    }
  }

  // mutt_emails_set_flag.  An email may be selected twice.
  method EmailsSetFlag(m: Mailbox, ea: seq<Email>, flag: Flag, bf: bool, flagSafe: bool, ghost es: seq<Email>)
    requires (forall e :: e in ea ==> e in es) && Distinct(es)
    modifies m`changed, m`msgUnread, m`msgNew, m`msgFlagged, m`msgDeleted, m`msgTagged
    modifies ea`read, ea`isOld, ea`flagged, ea`deleted, ea`purge, ea`tagged, ea`replied, ea`changed
    ensures forall e :: e in ea ==> HasMarked(m, e, old(FlagsOf(e)), flag, bf, flagSafe)
    ensures old(Exact(m, es)) ==> Exact(m, es)
  {
    hide HasMarked, FlagsOf, Exact, Distinct;
    for i := 0 to |ea|
      invariant forall e :: e in ea ==> (if e in ea[..i] then HasMarked(m, e, old(FlagsOf(e)), flag, bf, flagSafe) else FlagsOf(e) == old(FlagsOf(e)))
      invariant old(Exact(m, es)) ==> Exact(m, es)
    {
      FlagOnce(m, ea[i], flag, bf, flagSafe, es, old(FlagsOf(ea[i])));
      assert ea[..i + 1] == ea[..i] + [ea[i]];
    }
    assert ea[..|ea|] == ea;
  }

  // --- threads ---

  // The messages of the nodes seen are flagged, the others are as they were.
  ghost predicate FlagsSet(m: Mailbox, msg: map<MuttThread, Email>, seen: seq<MuttThread>, skip: MuttThread,
                           was: map<Email, Flags>, flag: Flag, bf: bool, flagSafe: bool)
    reads m`readonly, m`mayDelete, m`maySee, m`mayWrite, msg.Values
  {
    forall n :: n in msg ==> msg[n] in was && MessageSet(m, msg[n], n in seen && n != skip, was[msg[n]], flag, bf, flagSafe)
  }

  ghost predicate MessageSet(m: Mailbox, e: Email, done: bool, s: Flags, flag: Flag, bf: bool, flagSafe: bool)
    reads m`readonly, m`mayDelete, m`maySee, m`mayWrite, e
  {
    if done then HasMarked(m, e, s, flag, bf, flagSafe) else FlagsOf(e) == s
  }

  ghost predicate OneNodeEach(msg: map<MuttThread, Email>, es: seq<Email>) {
    (forall a, b :: a in msg && b in msg && msg[a] == msg[b] ==> a == b) && (forall n :: n in msg ==> msg[n] in es)
  }

  // A node of the walk: its message is flagged, unless it is the node kept for the end.
  method FlagNode(m: Mailbox, cur: MuttThread, skip: MuttThread, flag: Flag, bf: bool, flagSafe: bool, ghost es: seq<Email>,
                  ghost S: set<MuttThread>, ghost msg: map<MuttThread, Email>, ghost seen: seq<MuttThread>, ghost was: map<Email, Flags>)
    requires cur in S && Messages(S, msg) && OneNodeEach(msg, es) && Distinct(es)
    requires FlagsSet(m, msg, seen, skip, was, flag, bf, flagSafe)
    modifies m`changed, m`msgUnread, m`msgNew, m`msgFlagged, m`msgDeleted, m`msgTagged
    modifies es`read, es`isOld, es`flagged, es`deleted, es`purge, es`tagged, es`replied, es`changed
    ensures FlagsSet(m, msg, seen + [cur], skip, was, flag, bf, flagSafe) && (old(Exact(m, es)) ==> Exact(m, es))
  {
    hide *;
    NodeFacts(m, cur, skip, flag, bf, flagSafe, es, S, msg, seen, was);
    if cur.message != null && cur != skip {
      var e: Email := cur.message;
      FlagOnce(m, e, flag, bf, flagSafe, es, was[e]);
      NowSet(m, e, was[e], flag, bf, flagSafe);
      NowAll(m, cur, skip, flag, bf, flagSafe, msg, seen, was);
    } else {
      NothingNew(m, cur, skip, flag, bf, flagSafe, msg, seen, was);
    }
  }

  lemma NodeFacts(m: Mailbox, cur: MuttThread, skip: MuttThread, flag: Flag, bf: bool, flagSafe: bool, es: seq<Email>,
                  S: set<MuttThread>, msg: map<MuttThread, Email>, seen: seq<MuttThread>, was: map<Email, Flags>)
    requires cur in S && Messages(S, msg) && OneNodeEach(msg, es) && FlagsSet(m, msg, seen, skip, was, flag, bf, flagSafe)
    ensures cur.message == null <==> cur !in msg
    ensures forall n :: n in msg ==> msg[n] in was && msg[n] in es && (n != cur ==> msg[n] != cur.message)
    ensures cur.message != null ==>
              var e: Email := cur.message; msg[cur] == e && (FlagsOf(e) == was[e] || HasMarked(m, e, was[e], flag, bf, flagSafe))
    ensures forall n :: n in msg && n != cur ==> MessageSet(m, msg[n], n in seen && n != skip, was[msg[n]], flag, bf, flagSafe)
  {
    hide HasMarked, FlagsOf;
  }

  lemma NowAll(m: Mailbox, cur: MuttThread, skip: MuttThread, flag: Flag, bf: bool, flagSafe: bool,
               msg: map<MuttThread, Email>, seen: seq<MuttThread>, was: map<Email, Flags>)
    requires cur != skip && cur in msg && forall n :: n in msg ==> msg[n] in was
    requires MessageSet(m, msg[cur], true, was[msg[cur]], flag, bf, flagSafe)
    requires forall n :: n in msg && n != cur ==> MessageSet(m, msg[n], n in seen && n != skip, was[msg[n]], flag, bf, flagSafe)
    ensures FlagsSet(m, msg, seen + [cur], skip, was, flag, bf, flagSafe)
  {
    hide MessageSet;
    forall n | n in msg ensures MessageSet(m, msg[n], n in seen + [cur] && n != skip, was[msg[n]], flag, bf, flagSafe) {}
  }

  lemma NothingNew(m: Mailbox, cur: MuttThread, skip: MuttThread, flag: Flag, bf: bool, flagSafe: bool,
                   msg: map<MuttThread, Email>, seen: seq<MuttThread>, was: map<Email, Flags>)
    requires FlagsSet(m, msg, seen, skip, was, flag, bf, flagSafe) && (cur !in msg || cur == skip)
    ensures FlagsSet(m, msg, seen + [cur], skip, was, flag, bf, flagSafe)
  {
    hide MessageSet;
    forall n | n in msg ensures MessageSet(m, msg[n], n in seen + [cur] && n != skip, was[msg[n]], flag, bf, flagSafe) {}
  }

  lemma NowSet(m: Mailbox, e: Email, s: Flags, flag: Flag, bf: bool, flagSafe: bool)
    requires HasMarked(m, e, s, flag, bf, flagSafe)
    ensures MessageSet(m, e, true, s, flag, bf, flagSafe)
  {
  }

  // The loop of mutt_thread_set_flag, which starts at the first child.
  method FlagBelow(m: Mailbox, start: MuttThread, skip: MuttThread, flag: Flag, bf: bool, flagSafe: bool, ghost es: seq<Email>,
                   ghost S: set<MuttThread>, ghost f: ThreadForest, ghost head: MuttThread?, ghost msg: map<MuttThread, Email>,
                   ghost was: map<Email, Flags>)
    requires WF(f) && Linked(S, f, head, {}) && start in S && start.child != null
    requires Messages(S, msg) && OneNodeEach(msg, es) && Distinct(es)
    requires FlagsSet(m, msg, [start], skip, was, flag, bf, flagSafe)
    modifies m`changed, m`msgUnread, m`msgNew, m`msgFlagged, m`msgDeleted, m`msgTagged
    modifies es`read, es`isOld, es`flagged, es`deleted, es`purge, es`tagged, es`replied, es`changed
    ensures FlagsSet(m, msg, Pre(f, start), skip, was, flag, bf, flagSafe) && (old(Exact(m, es)) ==> Exact(m, es))
  {
    hide *;
    StartBelow(S, f, head, start);
    var cur: MuttThread := start.child;
    ghost var seen := [start];
    while true
      invariant cur in S && Ongoing(f, start, seen, cur)
      invariant FlagsSet(m, msg, seen, skip, was, flag, bf, flagSafe)
      invariant old(Exact(m, es)) ==> Exact(m, es)
      decreases Left(f, cur)
    {
      FlagNode(m, cur, skip, flag, bf, flagSafe, es, S, msg, seen, was);
      var next := NextNode(start, cur, S, f, head, seen);
      seen := seen + [cur];
      if next == null {
        return;
      }
      cur := next;
    }
  }

  // The forest and its messages, as the index shows them.
  ghost predicate Threading(S: set<MuttThread>, f: ThreadForest, head: MuttThread?, msg: map<MuttThread, Email>, es: seq<Email>)
    reads S`parent, S`child, S`next, S`prev, S`message
  {
    WF(f) && Linked(S, f, head, {}) && Messages(S, msg) && OneNodeEach(msg, es) && msg.Keys <= S
  }

  // mutt_thread_set_flag: the flag is set on the messages of the thread, or of the part of it below
  // the email, and on no other; the counters stay exact.
  method ThreadSetFlag(m: Mailbox, e: Email, flag: Flag, bf: bool, subthread: bool, usingThreads: bool, flagSafe: bool,
                       ghost es: seq<Email>, ghost S: set<MuttThread>, ghost f: ThreadForest, ghost head: MuttThread?,
                       ghost msg: map<MuttThread, Email>) returns (rc: int)
    requires Threading(S, f, head, msg, es) && Distinct(es)
    requires e.thread != null && e.thread in msg && msg[e.thread] == e
    modifies m`changed, m`msgUnread, m`msgNew, m`msgFlagged, m`msgDeleted, m`msgTagged
    modifies es`read, es`isOld, es`flagged, es`deleted, es`purge, es`tagged, es`replied, es`changed
    ensures rc == if usingThreads then 0 else -1
    ensures rc == 0 ==> forall n :: n in msg ==>
      MessageSet(m, msg[n], IsUnder(f, n, if subthread then e.thread else Root(f, e.thread)), old(FlagsOf(msg[n])), flag, bf, flagSafe)
    ensures rc == -1 ==> forall n :: n in msg ==> FlagsOf(msg[n]) == old(FlagsOf(msg[n]))
    ensures old(Exact(m, es)) ==> Exact(m, es)
  {
    hide *;
    ThreadingFacts(S, f, head, msg, es, e);
    var thread: MuttThread := e.thread;
    var cur: MuttThread := thread;
    if !usingThreads {
      return -1;
    }
    if !subthread {
      cur := Linearize.TopOf(cur, S, f, head);
    }
    UnderStart(f, thread, subthread);
    FlagWalk(m, e, thread, cur, flag, bf, flagSafe, es, S, f, head, msg);
    rc := 0;
  }

  // The walk, from its start to the email itself.
  method FlagWalk(m: Mailbox, e: Email, thread: MuttThread, start: MuttThread, flag: Flag, bf: bool, flagSafe: bool, ghost es: seq<Email>,
                  ghost S: set<MuttThread>, ghost f: ThreadForest, ghost head: MuttThread?, ghost msg: map<MuttThread, Email>)
    requires WF(f) && Linked(S, f, head, {}) && Messages(S, msg) && OneNodeEach(msg, es) && Distinct(es)
    requires thread in msg && msg[thread] == e && start in S && IsUnder(f, thread, start) && msg.Keys <= S
    modifies m`changed, m`msgUnread, m`msgNew, m`msgFlagged, m`msgDeleted, m`msgTagged
    modifies es`read, es`isOld, es`flagged, es`deleted, es`purge, es`tagged, es`replied, es`changed
    ensures forall n :: n in msg ==> MessageSet(m, msg[n], IsUnder(f, n, start), old(FlagsOf(msg[n])), flag, bf, flagSafe)
    ensures old(Exact(m, es)) ==> Exact(m, es)
  {
    hide *;
    ghost var was := map x | x in msg.Values :: FlagsOf(x);
    LinkedNodes(S, f, head, {});
    NoneSet(m, msg, thread, was, flag, bf, flagSafe);
    FlagNode(m, start, thread, flag, bf, flagSafe, es, S, msg, [], was);
    PreOfStart(S, f, head, start);
    if start.child != null {
      FlagBelow(m, start, thread, flag, bf, flagSafe, es, S, f, head, msg, was);
    }
    FlagLast(m, e, thread, flag, bf, flagSafe, es, S, msg, Pre(f, start), was);
    InThread(m, start, thread, flag, bf, flagSafe, f, msg, was);
  }

  lemma ThreadingFacts(S: set<MuttThread>, f: ThreadForest, head: MuttThread?, msg: map<MuttThread, Email>, es: seq<Email>, e: Email)
    requires Threading(S, f, head, msg, es) && e.thread != null && e.thread in msg && msg[e.thread] == e
    ensures WF(f) && Linked(S, f, head, {}) && Messages(S, msg) && OneNodeEach(msg, es)
    ensures e.thread in S && S == f.par.Keys && msg.Keys <= S && e in es
  {
  }

  lemma NoneSet(m: Mailbox, msg: map<MuttThread, Email>, skip: MuttThread, was: map<Email, Flags>, flag: Flag, bf: bool, flagSafe: bool)
    requires forall n :: n in msg ==> msg[n] in was && was[msg[n]] == FlagsOf(msg[n])
    ensures FlagsSet(m, msg, [], skip, was, flag, bf, flagSafe)
  {
    hide FlagsOf;
  }

  lemma PreOfStart(S: set<MuttThread>, f: ThreadForest, head: MuttThread?, start: MuttThread)
    requires WF(f) && Linked(S, f, head, {}) && start in S
    ensures start.child == null ==> [] + [start] == Pre(f, start)
    ensures [] + [start] == [start]
  {
    ThreadTree.FirstKidField(S, f, head, start);
    DownKids(f, start);
  }

  lemma UnderStart(f: ThreadForest, thread: MuttThread, subthread: bool)
    requires WF(f) && thread in f.par
    ensures IsUnder(f, thread, if subthread then thread else Root(f, thread))
    ensures (if subthread then thread else Root(f, thread)) in f.par
  {
    hide WF;
    assert IsUnder(f, thread, thread);
    UnderRoot(f, thread);
    RootIn(f, thread);
  }

  lemma {:induction false} RootIn(f: ThreadForest, n: MuttThread)
    requires WF(f) && n in f.par
    ensures Root(f, n) in f.par
    decreases Lvl(f, n)
  {
    hide WF;
    UpOfPar(f, n);
    if Up(f, n).Some? { RootIn(f, Up(f, n).value); }
  }

  // The email itself comes last.
  method FlagLast(m: Mailbox, e: Email, thread: MuttThread, flag: Flag, bf: bool, flagSafe: bool, ghost es: seq<Email>,
                  ghost S: set<MuttThread>, ghost msg: map<MuttThread, Email>, ghost seen: seq<MuttThread>, ghost was: map<Email, Flags>)
    requires thread in S && Messages(S, msg) && OneNodeEach(msg, es) && Distinct(es) && thread in msg && msg[thread] == e
    requires FlagsSet(m, msg, seen, thread, was, flag, bf, flagSafe)
    modifies m`changed, m`msgUnread, m`msgNew, m`msgFlagged, m`msgDeleted, m`msgTagged
    modifies es`read, es`isOld, es`flagged, es`deleted, es`purge, es`tagged, es`replied, es`changed
    ensures forall n :: n in msg ==> msg[n] in was && MessageSet(m, msg[n], n in seen || n == thread, was[msg[n]], flag, bf, flagSafe)
    ensures old(Exact(m, es)) ==> Exact(m, es)
  {
    hide *;
    NodeFacts(m, thread, thread, flag, bf, flagSafe, es, S, msg, seen, was);
    if thread.message != null {
      FlagOnce(m, e, flag, bf, flagSafe, es, was[e]);
      NowSet(m, e, was[e], flag, bf, flagSafe);
      forall n | n in msg ensures MessageSet(m, msg[n], n in seen || n == thread, was[msg[n]], flag, bf, flagSafe) {
        if n == thread { assert msg[n] == e; }
      }
    }
  }

  // The nodes walked over are those under start.
  lemma InThread(m: Mailbox, start: MuttThread, thread: MuttThread, flag: Flag, bf: bool, flagSafe: bool, f: ThreadForest,
                 msg: map<MuttThread, Email>, was: map<Email, Flags>)
    requires WF(f) && start in f.par && thread in f.par && IsUnder(f, thread, start) && msg.Keys <= f.par.Keys
    requires forall n :: n in msg ==> msg[n] in was && MessageSet(m, msg[n], n in Pre(f, start) || n == thread, was[msg[n]], flag, bf, flagSafe)
    ensures forall n :: n in msg ==> MessageSet(m, msg[n], IsUnder(f, n, start), was[msg[n]], flag, bf, flagSafe)
  {
    hide MessageSet, WF, Pre, PreAll;
    forall n | n in msg ensures MessageSet(m, msg[n], IsUnder(f, n, start), was[msg[n]], flag, bf, flagSafe) {
      if n in Pre(f, start) {
        PreUnder(f, start, n);
      } else if IsUnder(f, n, start) {
        UnderPre(f, start, n);
      }
    }
  }

  // The tree that sorting builds is one that the walk can be used on.
  lemma SortedThreading(S: set<MuttThread>, c: Context.Ctx, head: MuttThread?, es: seq<Email>)
    requires ThreadTree.Agrees(S, SortThreads.Elements(es), c, head)
    requires Context.CtxOK(c, SortThreads.Elements(es), None, None) && c.done == c.thr.Keys
    ensures Threading(S, c.f, head, c.msg, es)
    ensures forall e :: e in c.thr ==> e in es && e.thread != null && e.thread in c.msg && c.msg[e.thread] == e
  {
    forall n | n in c.msg ensures c.msg[n] in c.thr && c.thr[c.msg[n]] == n {
      Linearize.MsgOwner(c, SortThreads.Elements(es), n);
    }
    SortThreads.InElements(es);
    forall e | e in c.thr ensures e in es && e.thread != null && e.thread in c.msg && c.msg[e.thread] == e {
      assert Context.EmailOK(c, e);
    }
  }
}
