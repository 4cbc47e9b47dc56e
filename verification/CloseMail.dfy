// mx.c: closing a mailbox that is not on an IMAP server.  Read messages may go to $mbox, deleted ones to the
// trash folder, before the backend removes them.
module CloseMail {
  import opened Wrappers
  import opened EmailFlags
  import opened Threads
  import opened Accounting
  import opened SaveMail

  // $move: whether it is `no`, whether the mailbox is a spool file (or has a hook) with a target, and
  // the user's answer.
  datatype MoveSetup = MoveSetup(never: bool, hasTarget: bool, answer: Answer, keepFlagged: bool, target: Target)

  // The messages of the set, in the order of the mailbox.
  ghost function Picked(es: seq<Email>, ms: set<Email>): (ps: seq<Email>)
    ensures forall e :: e in ps ==> e in es && e in ms
    ensures forall e :: e in es && e in ms ==> e in ps
  {
    if es == [] then [] else Picked(es[..|es| - 1], ms) + if es[|es| - 1] in ms then [es[|es| - 1]] else []
  }

  lemma PickedMore(es: seq<Email>, i: nat, ms: set<Email>)
    requires i < |es|
    ensures Picked(es[..i + 1], ms) == Picked(es[..i], ms) + if es[i] in ms then [es[i]] else []
  {
    assert es[..i + 1][..i] == es[..i];
  }

  lemma {:induction false} PickedPrefix(es: seq<Email>, i: nat, ms: set<Email>)
    requires i <= |es|
    ensures Picked(es[..i], ms) <= Picked(es, ms)
    decreases |es| - i
  {
    if i < |es| {
      PickedMore(es, i, ms);
      PickedPrefix(es, i + 1, ms);
    } else {
      assert es[..i] == es;
    }
  }

  // --- flags ---

  lemma HoldsParts(m: Mailbox, es: seq<Email>)
    requires Holds(m, es)
    ensures |es| == m.msgCount <= m.emails.Length && Distinct(es)
    ensures forall i :: 0 <= i < |es| ==> m.emails[i] == es[i] && es[i] in es
    ensures forall i, j :: 0 <= i < j < |es| ==> es[i] != es[j]
  {
  }

  // A message that has been copied is deleted, unless it is safe, and purged, as far as that is permitted.
  method DeleteMoved(m: Mailbox, e: Email, flagSafe: bool, ghost es: seq<Email>)
    requires e in es && Distinct(es) && Exact(m, es) && !m.kind.Imap?
    modifies m`changed, m`msgUnread, m`msgNew, m`msgFlagged, m`msgDeleted, m`msgTagged
    modifies e`read, e`isOld, e`flagged, e`deleted, e`purge, e`tagged, e`replied, e`changed
    ensures Exact(m, es) && m.changed == old(m.changed) && e.flagged == old(e.flagged) && e.read == old(e.read)
    ensures e.deleted == (old(e.deleted) || (!m.readonly && m.mayDelete && !(e.flagged && flagSafe)))
    ensures e.purge == (old(e.purge) || (!m.readonly && m.mayDelete))
  {
    hide Exact, FlagsOf, Counted;
    SetFlag(m, e, Delete, true, true, flagSafe, es);
    SetFlag(m, e, Purge, true, true, flagSafe, es);
  }

  // The marks, where the messages moved have been deleted, as far as that is permitted.
  ghost predicate MarksAre(es: seq<Email>, was: Before, moved: seq<Email>, mayDelete: bool, flagSafe: bool)
    reads es`deleted, es`purge, es`flagged
  {
    forall e :: e in es ==>
      && (e.deleted <==> e in was.deleted || (e in moved && mayDelete && !(e.flagged && flagSafe)))
      && (e.purge <==> e in was.purge || (e in moved && mayDelete))
  }

  lemma MarksStart(es: seq<Email>, was: Before, mayDelete: bool, flagSafe: bool)
    requires forall e :: e in es ==> (e in was.deleted <==> e.deleted) && (e in was.purge <==> e.purge)
    ensures MarksAre(es, was, [], mayDelete, flagSafe)
  {
  }

  // One message: it is appended to the target before it is deleted.
  method MoveOne(m: Mailbox, e: Email, flagSafe: bool, target: Folder, t: Target, ghost es: seq<Email>, ghost was: Before, ghost moved: seq<Email>)
      returns (rc: int)
    requires e in es && Distinct(es) && Exact(m, es) && !m.kind.Imap? && e !in moved
    requires MarksAre(es, was, moved, !m.readonly && m.mayDelete, flagSafe)
    modifies m`changed, m`msgUnread, m`msgNew, m`msgFlagged, m`msgDeleted, m`msgTagged, target
    modifies e`read, e`isOld, e`flagged, e`deleted, e`purge, e`tagged, e`replied, e`changed
    ensures Exact(m, es) && m.changed == old(m.changed) && e.flagged == old(e.flagged)
    ensures rc == (if e in t.refused then -1 else 0) && target.mails == old(target.mails) + if rc == 0 then [e] else []
    ensures MarksAre(es, was, if rc == 0 then moved + [e] else moved, !m.readonly && m.mayDelete, flagSafe)
  {
    hide Exact, Distinct;
    rc := Append(target, e, t);
    if rc == 0 {
      DeleteMoved(m, e, flagSafe, es);
    }
  }

  // Moving the read messages, those of ms; ok: the target refuses none.
  method MoveRead(m: Mailbox, keepFlagged: bool, flagSafe: bool, target: Folder, t: Target, ghost es: seq<Email>, ghost was: Before, ghost ms: set<Email>)
      returns (ok: bool, ghost moved: seq<Email>)
    requires Holds(m, es) && Exact(m, es) && !m.kind.Imap? && MarksAre(es, was, [], !m.readonly && m.mayDelete, flagSafe)
    requires forall e :: e in es ==> (e in ms <==> e.read && !e.deleted && !(e.flagged && keepFlagged))
    modifies m`changed, m`msgUnread, m`msgNew, m`msgFlagged, m`msgDeleted, m`msgTagged, target
    modifies es`read, es`isOld, es`flagged, es`deleted, es`purge, es`tagged, es`replied, es`changed
    ensures Exact(m, es) && m.changed == old(m.changed) && forall e :: e in es ==> e.flagged == old(e.flagged)
    ensures ok <==> forall e :: e in es && e in ms ==> e !in t.refused
    ensures moved <= Picked(es, ms) && (ok ==> moved == Picked(es, ms)) && target.mails == old(target.mails) + moved
    ensures MarksAre(es, was, moved, !m.readonly && m.mayDelete, flagSafe)
  {
    hide *;
    HoldsParts(m, es);
    moved := [];
    NonePicked(es, ms);
    for i := 0 to m.msgCount
      invariant Exact(m, es) && m.changed == old(m.changed) && forall e :: e in es ==> e.flagged == old(e.flagged)
      invariant moved == Picked(es[..i], ms) && target.mails == old(target.mails) + moved
      invariant MarksAre(es, was, moved, !m.readonly && m.mayDelete, flagSafe)
      invariant forall e :: e in moved ==> e !in t.refused
      invariant forall j :: i <= j < |es| ==> es[j].read == old(es[j].read) && es[j].deleted == old(es[j].deleted)
    {
      var e: Email := m.emails[i];
      PickedMore(es, i, ms);
      PickedPrefix(es, i + 1, ms);
      PickedPrefix(es, i, ms);
      NotPicked(es, i, ms);
      assert e == es[i] && e in es && (e in ms <==> e.read && !e.deleted && !(e.flagged && keepFlagged));
      if e.read && !e.deleted && !(e.flagged && keepFlagged) {
        var rc := MoveOne(m, e, flagSafe, target, t, es, was, moved);
        if rc != 0 {
          return false, moved;
        }
        moved := moved + [e];
      }
    }
    assert es[..|es|] == es;
    ok := true;
  }

  lemma NonePicked(es: seq<Email>, ms: set<Email>)
    ensures Picked([], ms) == [] && es[..0] == []
  {
  }

  lemma NotPicked(es: seq<Email>, i: nat, ms: set<Email>)
    requires i < |es| && forall j, k :: 0 <= j < k < |es| ==> es[j] != es[k]
    ensures es[i] !in Picked(es[..i], ms)
  {
  }

  // How many messages there are to move.
  method CountToMove(m: Mailbox, keepFlagged: bool, ghost es: seq<Email>) returns (count: nat)
    requires Holds(m, es)
    ensures count == 0 <==> forall e :: e in es ==> !(e.read && !e.deleted && !(e.flagged && keepFlagged))
  {
    count := 0;
    for i := 0 to m.msgCount
      invariant count == 0 <==> forall j :: 0 <= j < i ==> !(es[j].read && !es[j].deleted && !(es[j].flagged && keepFlagged))
    {
      var e := m.emails[i];
      if !e.deleted && e.read && !(e.flagged && keepFlagged) {
        count := count + 1;
      }
    }
  }

  // --- counters ---

  // What each email adds to the counters once the deleted ones are gone.
  ghost function KeptOnes(es: seq<Email>): (cs: seq<Counts>)
    reads es
    ensures |cs| == |es| && forall i :: 0 <= i < |cs| ==> cs[i] == if es[i].deleted then ZERO else One(es[i])
  {
    seq(|es|, i requires 0 <= i < |es| reads es => if es[i].deleted then ZERO else One(es[i]))
  }

  // The counters of unread, new and flagged messages, without the deleted ones.
  ghost predicate KeptCounted(m: Mailbox, total: Counts)
    reads m`msgUnread, m`msgNew, m`msgFlagged
  {
    m.msgUnread == total.unread && m.msgNew == total.newMail && m.msgFlagged == total.flagged
  }

  method UncountOne(m: Mailbox, e: Email, ghost cs: seq<Counts>, ghost i: nat)
    requires i < |cs| && cs[i] == One(e) && KeptCounted(m, Sum(cs))
    modifies m`msgUnread, m`msgNew, m`msgFlagged
    ensures KeptCounted(m, Sum(cs[i := if e.deleted then ZERO else One(e)]))
  {
    hide Sum;
    if e.deleted {
      SumUpdate(cs, i, ZERO);
    } else {
      assert cs[i := cs[i]] == cs;
    }
    if e.deleted && !e.read {
      m.msgUnread := m.msgUnread - 1;
      if !e.isOld {
        m.msgNew := m.msgNew - 1;
      }
    }
    if e.deleted && e.flagged {
      m.msgFlagged := m.msgFlagged - 1;
    }
  }

  method UncountDeleted(m: Mailbox, ghost es: seq<Email>)
    requires Holds(m, es) && Exact(m, es)
    modifies m`msgUnread, m`msgNew, m`msgFlagged
    ensures KeptCounted(m, Sum(KeptOnes(es)))
  {
    hide Sum, One, KeptCounted;
    ghost var cs := Ones(es);
    ExactCounts(m, es);
    for i := 0 to m.msgCount
      invariant |cs| == |es| && KeptCounted(m, Sum(cs))
      invariant forall j :: 0 <= j < |es| ==> cs[j] == if j < i && es[j].deleted then ZERO else One(es[j])
    {
      UncountOne(m, m.emails[i], cs, i);
      cs := cs[i := if es[i].deleted then ZERO else One(es[i])];
    }
    assert cs == KeptOnes(es);
  }

  lemma ExactCounts(m: Mailbox, es: seq<Email>)
    requires Exact(m, es)
    ensures KeptCounted(m, Sum(Ones(es)))
  {
    hide Sum;
  }

  // --- the backend ---

  // The last part: the trash folder, the backend, and the counters of what is kept.
  method CloseNow(m: Mailbox, purge: bool, t: TrashSetup, trash: Folder, store: Store, b: Backend,
                  ghost es: seq<Email>, ghost was: Before, ghost o: Outcome) returns (rc: Status)
    requires BackendOK(m, b, es, store.mails) && Holds(m, es) && Exact(m, es)
    requires forall e :: e in es && e.deleted ==> e in o.moved || (e in was.deleted && (e.purge ==> e in was.purge))
    requires o.guarded == Guarded(m, t) && store.mails == was.stored
    requires purge ==> o.consent || forall e :: e in es && e in was.deleted ==> e in o.moved
    modifies m`msgUnread, m`msgNew, m`msgFlagged, m`msgDeleted, es`deleted, es`purge, trash, store
    modifies m`emails, m`v2r, m`msgCount, m`vcount, m`msgTagged, m`changed, es`msgno, es`vnum, b.grown`msgno, b.grown`vnum
    ensures NothingLost(store.mails, es, was, o.(trashed := trash.mails)) && old(trash.mails) <= trash.mails
    ensures var fails, syncs := purge && !t.isTrash && old(TrashFails(m, t, es)), old(m.changed) || (purge && exists e :: e in es && old(e.deleted));
      rc == if fails then Error else if syncs then b.status else Ok
    ensures var fails, syncs := purge && !t.isTrash && old(TrashFails(m, t, es)), old(m.changed) || (purge && exists e :: e in es && old(e.deleted));
      if !fails && syncs then store.mails == b.late + (set e | e in old(store.mails) && !(purge && e in b.removes && old(e.deleted)))
      else store.mails == old(store.mails)
    ensures purge ==> forall e :: e in es ==> e.deleted == old(e.deleted) && e.purge == old(e.purge)
    ensures !purge ==> trash.mails == old(trash.mails) && forall e :: e in es ==> !e.deleted && !e.purge
    ensures rc == Ok && purge ==>
      trash.mails == old(trash.mails) + if t.isSet && !t.isTrash && !t.sameInode && !(m.kind.Maildir? && t.maildirTrash) then old(Doomed(es)) else []
    ensures rc == Ok ==> KeptCounted(m, Sum(KeptOnes(es)))
  {
    hide *;
    NoneGoneYet(store.mails, es, was, o.(trashed := trash.mails));
    BackendParts(m, b, es, store.mails);
    rc := Error;
    if purge {
      var r := ToTrash(m, purge, t, trash, es, was, o);
      NoneGoneYet(store.mails, es, was, o.(trashed := trash.mails));
      if r != 0 {
        return;
      }
    } else {
      KeepAll(m, es);
      NoneMayGo(es, was, o.(trashed := trash.mails));
    }
    BackendStill(m, b, es, store.mails);
    rc := SyncKept(m, purge, store, b, es, was, o.(trashed := trash.mails));
  }

  // sync_mailbox, if there is anything to do, and the counters.
  method SyncKept(m: Mailbox, purge: bool, store: Store, b: Backend, ghost es: seq<Email>, ghost was: Before, ghost o: Outcome) returns (rc: Status)
    requires BackendOK(m, b, es, store.mails) && Holds(m, es) && Exact(m, es) && DeletedMayGo(es, was, o) && store.mails == was.stored
    requires purge || forall e :: e in es ==> !e.deleted
    modifies m`msgUnread, m`msgNew, m`msgFlagged, m`msgDeleted, store
    modifies m`emails, m`v2r, m`msgCount, m`vcount, m`msgTagged, m`changed, es`msgno, es`vnum, b.grown`msgno, b.grown`vnum
    ensures NothingLost(store.mails, es, was, o)
    ensures var syncs := old(m.changed) || exists e :: e in es && e.deleted;
      rc == (if syncs then b.status else Ok)
      && store.mails == if syncs then b.late + (set e | e in old(store.mails) && !(e in b.removes && e.deleted)) else old(store.mails)
    ensures rc == Ok ==> KeptCounted(m, Sum(KeptOnes(es)))
  {
    hide *;
    NoneGoneYet(store.mails, es, was, o);
    BackendParts(m, b, es, store.mails);
    NoneDeleted(m, es);
    if m.changed || m.msgDeleted != 0 {
      ghost var now;
      var check, unlinked;
      check, unlinked, now := RemoveDeleted(m, store, b, false, es, was, o);
      if check != Ok {
        return check;
      }
      SameIndex(b, es);
    }
    NoneDeleted(m, es);
    if purge && m.msgDeleted != 0 {
      UncountDeleted(m, es);
    } else {
      ExactCounts(m, es);
      NoneToUncount(es);
    }
    rc := Ok;
  }

  lemma SameIndex(b: Backend, es: seq<Email>)
    ensures !HasGrown(b) ==> IndexAfter(b, es) == es
    ensures b.status == Ok ==> !HasGrown(b)
  {
  }

  lemma NoneMayGo(es: seq<Email>, was: Before, o: Outcome)
    requires forall e :: e in es ==> !e.deleted
    ensures DeletedMayGo(es, was, o)
  {
  }

  lemma NoneToUncount(es: seq<Email>)
    requires forall e :: e in es ==> !e.deleted
    ensures KeptOnes(es) == Ones(es)
  {
  }

  // --- mx_mbox_close ---

  lemma {:induction false} DoomedPicked(es: seq<Email>, ds: set<Email>)
    requires forall e :: e in es ==> (e in ds <==> e.deleted && !e.purge)
    ensures Doomed(es) == Picked(es, ds)
  {
    if es != [] {
      assert es[|es| - 1] in es;
      DoomedPicked(es[..|es| - 1], ds);
    }
  }

  // When the trash folder cannot take the messages ds.
  ghost predicate Fails(kind: Kind, t: TrashSetup, ds: seq<Email>) {
    && t.isSet && !(kind.Maildir? && t.maildirTrash) && ds != []
    && (!t.confirmed || (!t.sameInode && (!t.folder.opens || exists e :: e in ds && e in t.folder.refused)))
  }

  lemma FailsIs(m: Mailbox, t: TrashSetup, es: seq<Email>, ds: seq<Email>)
    requires Doomed(es) == ds
    ensures TrashFails(m, t, es) <==> Fails(m.kind, t, ds)
  {
    hide Doomed;
  }

  // The marks after moving say the same about the trash folder as those before.
  lemma DoomedStill(es: seq<Email>, was: Before, moved: seq<Email>, mayDelete: bool, flagSafe: bool, ds: set<Email>)
    requires MarksAre(es, was, moved, mayDelete, flagSafe) && forall e :: e in moved ==> e !in was.deleted
    requires forall e :: e in es ==> (e in ds <==> e in was.deleted && e !in was.purge)
    ensures Doomed(es) == Picked(es, ds)
  {
    hide Doomed;
    DoomedPicked(es, ds);
  }

  // What closing comes to, once the questions are answered: whether the target refuses to take what is to be
  // moved, whether the trash folder cannot be used, whether the backend is needed, and which messages
  // are marked deleted then.
  datatype Closing = Closing(refused: bool, fails: bool, syncs: bool, gone: set<Email>)

  ghost predicate Closed(k: Closing, rc: Status, es: seq<Email>, b: Backend, purge: bool, before: set<Email>, after: set<Email>)
    reads es`deleted, es`purge
  {
    && rc == (if k.refused || k.fails then Error else if k.syncs then b.status else Ok)
    && after == (if !k.refused && !k.fails && k.syncs then b.late + (set e | e in before && !(purge && e in b.removes && e in k.gone)) else before)
    && (!k.refused ==> forall e :: e in es ==> (e.deleted <==> purge && e in k.gone) && (!purge ==> !e.purge))
  }

  lemma ClosedStop(k: Closing, es: seq<Email>, b: Backend, purge: bool, stored: set<Email>)
    requires k.refused
    ensures Closed(k, Error, es, b, purge, stored, stored)
  {
  }

  // Nothing to be done.
  lemma ClosedIdle(k: Closing, es: seq<Email>, b: Backend, purge: bool, stored: set<Email>)
    requires !k.refused && !k.fails && !k.syncs && k.gone == {} && (forall e :: e in es ==> !e.deleted) && (!purge ==> forall e :: e in es ==> !e.purge)
    ensures Closed(k, Ok, es, b, purge, stored, stored)
  {
  }

  lemma ClosedEnd(k: Closing, rc: Status, es: seq<Email>, b: Backend, purge: bool, before: set<Email>, after: set<Email>)
    requires !k.refused && rc == (if k.fails then Error else if k.syncs then b.status else Ok)
    requires after == if !k.fails && k.syncs then b.late + (set e | e in before && !(purge && e in b.removes && e in k.gone)) else before
    requires if purge then forall e :: e in es ==> (e.deleted <==> e in k.gone) else forall e :: e in es ==> !e.deleted && !e.purge
    ensures Closed(k, rc, es, b, purge, before, after)
  {
  }

  // The messages marked deleted; those to be moved, if any are; those that moving then deletes; those for the
  // trash folder; and those that $mark_old is about.
  datatype Seen = Seen(marked: set<Email>, moving: set<Email>, deletable: set<Email>, doomed: set<Email>, news: set<Email>)

  ghost predicate SeenAs(s: Seen, m: Mailbox, es: seq<Email>, keepFlagged: bool, flagSafe: bool)
    reads m`mayDelete, es`deleted, es`purge, es`read, es`flagged, es`isOld
  {
    && s.marked == (set e | e in es && e.deleted)
    && s.moving == (set e | e in es && e.read && !e.deleted && !(e.flagged && keepFlagged))
    && s.deletable == (set e | e in es && e.read && !e.deleted && !(e.flagged && keepFlagged) && m.mayDelete && !(e.flagged && flagSafe))
    && s.doomed == (set e | e in es && e.deleted && !e.purge)
    && s.news == set e | e in es && !e.deleted && !e.isOld && !e.read
  }

  lemma SeenIs(s: Seen, m: Mailbox, es: seq<Email>, keepFlagged: bool, flagSafe: bool)
    requires SeenAs(s, m, es, keepFlagged, flagSafe)
    ensures s.marked != {} <==> exists e :: e in es && e.deleted
    ensures s.moving == {} <==> forall e :: e in es ==> !(e.read && !e.deleted && !(e.flagged && keepFlagged))
  {
    if e :| e in es && e.deleted { assert e in s.marked; }
    if e :| e in s.marked { assert e in es && e.deleted; }
    if e :| e in s.moving { assert e in es; }
    forall e | e in es && s.moving == {} ensures !(e.read && !e.deleted && !(e.flagged && keepFlagged)) { assert e !in s.moving; }
  }

  // What closing needs to know of these, whatever $mark_old does.
  ghost predicate Ready(s: Seen, m: Mailbox, es: seq<Email>, was: Before, keepFlagged: bool, flagSafe: bool)
    reads m`readonly, m`mayDelete, m`maySee, es`deleted, es`purge, es`read, es`flagged, es`isOld
  {
    && (forall e :: e in es ==> (e in was.deleted <==> e.deleted) && (e in was.purge <==> e.purge))
    && (forall e :: e in es ==> (e in s.moving <==> e.read && !e.deleted && !(e.flagged && keepFlagged)))
    && (forall e :: e in es ==> (e in s.doomed <==> e in was.deleted && e !in was.purge) && (e in s.marked <==> e in was.deleted))
    && (forall e :: e in es ==> (e in s.deletable <==> e in s.moving && !m.readonly && m.mayDelete && !(e.flagged && flagSafe)))
    && (forall e :: e in es ==> (e in s.news <==> !e.deleted && !e.isOld && !e.read)) && (forall e :: e in s.news ==> e in es)
    && (s.marked != {} <==> exists e :: e in es && e.deleted)
  }

  lemma SeenReady(s: Seen, m: Mailbox, es: seq<Email>, was: Before, keepFlagged: bool, flagSafe: bool)
    requires SeenAs(s, m, es, keepFlagged, flagSafe) && MarkedAs(es, was) && !m.readonly
    ensures Ready(s, m, es, was, keepFlagged, flagSafe)
    ensures forall e :: e in s.marked + s.deletable + s.doomed + s.moving ==> e in es
  {
    SeenIs(s, m, es, keepFlagged, flagSafe);
  }

  ghost predicate MarkedAs(es: seq<Email>, was: Before)
    reads es`deleted, es`purge
  {
    forall e :: e in es ==> (e in was.deleted <==> e.deleted) && (e in was.purge <==> e.purge)
  }

  lemma MarkedIs(es: seq<Email>, was: Before)
    ensures MarkedAs(es, was) <==> forall e :: e in es ==> (e in was.deleted <==> e.deleted) && (e in was.purge <==> e.purge)
  {
  }

  // The same, whatever $mark_old has done.
  ghost predicate Settled(s: Seen, m: Mailbox, es: seq<Email>, was: Before, keepFlagged: bool, flagSafe: bool)
    reads m`readonly, m`mayDelete, es`deleted, es`purge, es`read, es`flagged
  {
    && (forall e :: e in es ==> (e in was.deleted <==> e.deleted) && (e in was.purge <==> e.purge))
    && (forall e :: e in es ==> (e in s.moving <==> e.read && !e.deleted && !(e.flagged && keepFlagged)))
    && (forall e :: e in es ==> (e in s.doomed <==> e in was.deleted && e !in was.purge) && (e in s.marked <==> e in was.deleted))
    && (forall e :: e in es ==> (e in s.deletable <==> e in s.moving && !m.readonly && m.mayDelete && !(e.flagged && flagSafe)))
    && (s.marked != {} <==> exists e :: e in es && e.deleted)
  }

  lemma SettledIs(s: Seen, m: Mailbox, es: seq<Email>, was: Before, keepFlagged: bool, flagSafe: bool)
    requires Settled(s, m, es, was, keepFlagged, flagSafe)
    ensures forall e :: e in es ==> (e in was.deleted <==> e.deleted) && (e in was.purge <==> e.purge)
    ensures forall e :: e in es ==> (e in s.moving <==> e.read && !e.deleted && !(e.flagged && keepFlagged))
    ensures forall e :: e in es ==> (e in s.doomed <==> e in was.deleted && e !in was.purge) && (e in s.marked <==> e in was.deleted)
    ensures forall e :: e in es ==> (e in s.deletable <==> e in s.moving && !m.readonly && m.mayDelete && !(e.flagged && flagSafe))
    ensures s.marked != {} <==> exists e :: e in es && e.deleted
  {
  }

  // An unread message is marked old, and that is a change to be saved.
  method SetMark(m: Mailbox, e: Email, flagSafe: bool, keepFlagged: bool, ghost es: seq<Email>, ghost was: Before, ghost s: Seen)
    requires e in es && Distinct(es) && Exact(m, es) && !e.isOld && !m.readonly && Settled(s, m, es, was, keepFlagged, flagSafe)
    modifies m`changed, m`msgUnread, m`msgNew, m`msgFlagged, m`msgDeleted, m`msgTagged
    modifies e`read, e`isOld, e`flagged, e`deleted, e`purge, e`tagged, e`replied, e`changed
    ensures Exact(m, es) && Settled(s, m, es, was, keepFlagged, flagSafe) && m.changed == (old(m.changed) || m.maySee)
  {
    hide Exact, FlagsOf, Counted;
    SetFlag(m, e, Old, true, true, flagSafe, es);
  }

  // $mark_old, if it is wanted.
  method Settle(m: Mailbox, markOld: bool, flagSafe: bool, keepFlagged: bool, ghost es: seq<Email>, ghost was: Before, ghost s: Seen)
    requires Holds(m, es) && Exact(m, es) && Ready(s, m, es, was, keepFlagged, flagSafe) && !m.readonly
    modifies m`changed, m`msgUnread, m`msgNew, m`msgFlagged, m`msgDeleted, m`msgTagged
    modifies es`read, es`isOld, es`flagged, es`deleted, es`purge, es`tagged, es`replied, es`changed
    ensures Exact(m, es) && Settled(s, m, es, was, keepFlagged, flagSafe)
    ensures m.changed == (old(m.changed) || (markOld && m.maySee && s.news != {}))
  {
    hide *;
    HoldsParts(m, es);
    ReadySettled(s, m, es, was, keepFlagged, flagSafe);
    if markOld {
      for i := 0 to m.msgCount
        invariant Exact(m, es) && Settled(s, m, es, was, keepFlagged, flagSafe)
        invariant forall j :: i <= j < |es| ==> (es[j] in s.news <==> !es[j].deleted && !es[j].isOld && !es[j].read)
        invariant m.changed == (old(m.changed) || (m.maySee && exists j :: 0 <= j < i && es[j] in s.news))
      {
        var e: Email := m.emails[i];
        if !e.deleted && !e.isOld && !e.read {
          SetMark(m, e, flagSafe, keepFlagged, es, was, s);
        }
      }
      assert s.news != {} ==> exists e :: e in es && e in s.news;
    }
  }

  lemma ReadySettled(s: Seen, m: Mailbox, es: seq<Email>, was: Before, keepFlagged: bool, flagSafe: bool)
    requires Ready(s, m, es, was, keepFlagged, flagSafe)
    ensures Settled(s, m, es, was, keepFlagged, flagSafe)
    ensures forall j :: 0 <= j < |es| ==> (es[j] in s.news <==> !es[j].deleted && !es[j].isOld && !es[j].read)
    ensures forall e :: e in s.news ==> e in es
  {
  }

  // From $mark_old on.
  method CloseFlags(m: Mailbox, move: bool, purge: bool, mv: MoveSetup, markOld: bool, flagSafe: bool, t: TrashSetup, trash: Folder,
                    target: Folder, store: Store, b: Backend, ghost es: seq<Email>, ghost was: Before, ghost o: Outcome, ghost s: Seen, ghost k: Closing) returns (rc: Status)
    requires BackendOK(m, b, es, store.mails) && Holds(m, es) && Exact(m, es) && trash != target && store.mails == was.stored && !m.kind.Imap?
    requires Ready(s, m, es, was, mv.keepFlagged, flagSafe) && !m.readonly
    requires o.guarded == Guarded(m, t) && (if purge then o.consent || s.marked == {} else s.marked != {})
    requires k.refused <==> move && (!mv.target.opens || exists e :: e in es && e in s.moving && e in mv.target.refused)
    requires k.fails <==> purge && !t.isTrash && Fails(m.kind, t, Picked(es, s.doomed))
    requires k.syncs <==> m.changed || (markOld && m.maySee && s.news != {}) || (purge && k.gone != {})
    requires k.gone == (s.marked + if move then s.deletable else {}) && forall e :: e in k.gone ==> e in es
    modifies m`changed, m`msgUnread, m`msgNew, m`msgFlagged, m`msgDeleted, m`msgTagged, trash, target, store
    modifies m`emails, m`v2r, m`msgCount, m`vcount, es`msgno, es`vnum, b.grown`msgno, b.grown`vnum
    modifies es`read, es`isOld, es`flagged, es`deleted, es`purge, es`tagged, es`replied, es`changed
    ensures NothingLost(store.mails, es, was, o.(trashed := trash.mails, moved := target.mails))
    ensures old(trash.mails) <= trash.mails && old(target.mails) <= target.mails
    ensures Closed(k, rc, es, b, purge, old(store.mails), store.mails)
    ensures !k.refused ==> target.mails == old(target.mails) + if move then Picked(es, s.moving) else []
    ensures !purge ==> trash.mails == old(trash.mails)
    ensures rc == Ok && purge ==>
      trash.mails == old(trash.mails) + if t.isSet && !t.isTrash && !t.sameInode && !(m.kind.Maildir? && t.maildirTrash) then Picked(es, s.doomed) else []
  {
    hide *;
    BackendParts(m, b, es, store.mails);
    Settle(m, markOld, flagSafe, mv.keepFlagged, es, was, s);
    BackendStill(m, b, es, store.mails);
    rc := CloseMarked(m, move, purge, mv, flagSafe, t, trash, target, store, b, es, was, o, s, k);
  }

  // What there is to be said about the marks after moving.
  ghost predicate Ended(es: seq<Email>, was: Before, ds: set<Email>, gone: set<Email>, all: seq<Email>)
    reads es`deleted, es`purge
  {
    && Doomed(es) == Picked(es, ds)
    && (forall e :: e in es ==> (e.deleted <==> e in gone))
    && (forall e :: e in es && e.deleted ==> e in all || (e in was.deleted && (e.purge ==> e in was.purge)))
  }

  lemma EndedIs(es: seq<Email>, was: Before, ds: set<Email>, gone: set<Email>, all: seq<Email>)
    requires Ended(es, was, ds, gone, all)
    ensures Doomed(es) == Picked(es, ds) && forall e :: e in es ==> (e.deleted <==> e in gone)
    ensures forall e :: e in es && e.deleted ==> e in all || (e in was.deleted && (e.purge ==> e in was.purge))
  {
  }

  lemma MarksEnd(es: seq<Email>, was: Before, moved: seq<Email>, ms: set<Email>, all: seq<Email>, mayDelete: bool, flagSafe: bool, gone: set<Email>, ds: set<Email>)
    requires MarksAre(es, was, moved, mayDelete, flagSafe) && (moved == [] || moved == Picked(es, ms)) && forall e :: e in moved ==> e in all
    requires forall e :: e in es ==> (e in gone <==> e in was.deleted || (e in moved && mayDelete && !(e.flagged && flagSafe)))
    requires forall e :: e in es && e in ms ==> e !in was.deleted
    requires forall e :: e in es ==> (e in ds <==> e in was.deleted && e !in was.purge)
    ensures Ended(es, was, ds, gone, all)
  {
    hide Doomed;
    DoomedStill(es, was, moved, mayDelete, flagSafe, ds);
  }

  // Nothing is moved.
  lemma NotMoved(s: Seen, m: Mailbox, es: seq<Email>, was: Before, keepFlagged: bool, flagSafe: bool, all: seq<Email>)
    requires Settled(s, m, es, was, keepFlagged, flagSafe)
    ensures Ended(es, was, s.doomed, s.marked, all) && forall e :: e in es ==> (e.deleted <==> e in was.deleted)
    ensures forall e :: e in es ==> (e in was.deleted <==> e in s.marked)
    ensures s.marked != {} <==> exists e :: e in es && e.deleted
    ensures s.marked == {} ==> Picked(es, s.doomed) == []
  {
    hide Doomed;
    MarksStart(es, was, false, flagSafe);
    DoomedStill(es, was, [], false, flagSafe, s.doomed);
    if s.marked == {} { NoneToPick(es, s.doomed); }
  }

  lemma NoneToPick(es: seq<Email>, ms: set<Email>)
    requires forall e :: e in es ==> e !in ms
    ensures Picked(es, ms) == []
  {
  }

  // Moving, when it has been agreed to.
  method MoveAgreed(m: Mailbox, mv: MoveSetup, flagSafe: bool, target: Folder, ghost es: seq<Email>, ghost was: Before, ghost s: Seen) returns (ok: bool)
    requires Holds(m, es) && Exact(m, es) && !m.kind.Imap? && Settled(s, m, es, was, mv.keepFlagged, flagSafe)
    modifies m`changed, m`msgUnread, m`msgNew, m`msgFlagged, m`msgDeleted, m`msgTagged, target
    modifies es`read, es`isOld, es`flagged, es`deleted, es`purge, es`tagged, es`replied, es`changed
    ensures Exact(m, es) && m.changed == old(m.changed) && old(target.mails) <= target.mails
    ensures ok <==> mv.target.opens && forall e :: e in es && e in s.moving ==> e !in mv.target.refused
    ensures ok ==> target.mails == old(target.mails) + Picked(es, s.moving)
    ensures ok ==> Ended(es, was, s.doomed, s.marked + s.deletable, target.mails)
  {
    hide *;
    ghost var mayDelete := !m.readonly && m.mayDelete;
    SettledIs(s, m, es, was, mv.keepFlagged, flagSafe);
    MarksStart(es, was, mayDelete, flagSafe);
    if !mv.target.opens {
      return false;
    }
    ghost var moved;
    ok, moved := MoveRead(m, mv.keepFlagged, flagSafe, target, mv.target, es, was, s.moving);
    if ok {
      PickedIn(es, s.moving);
      MarksEnd(es, was, moved, s.moving, target.mails, mayDelete, flagSafe, s.marked + s.deletable, s.doomed);
    }
  }

  lemma PickedIn(es: seq<Email>, ms: set<Email>)
    ensures forall e :: e in es ==> (e in Picked(es, ms) <==> e in ms)
  {
  }

  // Once $mark_old has been seen to.
  method CloseMarked(m: Mailbox, move: bool, purge: bool, mv: MoveSetup, flagSafe: bool, t: TrashSetup, trash: Folder, target: Folder,
                     store: Store, b: Backend, ghost es: seq<Email>, ghost was: Before, ghost o: Outcome, ghost s: Seen, ghost k: Closing) returns (rc: Status)
    requires BackendOK(m, b, es, store.mails) && Holds(m, es) && Exact(m, es) && trash != target && store.mails == was.stored && !m.kind.Imap?
    requires Settled(s, m, es, was, mv.keepFlagged, flagSafe)
    requires o.guarded == Guarded(m, t) && (if purge then o.consent || s.marked == {} else s.marked != {})
    requires k.refused <==> move && (!mv.target.opens || exists e :: e in es && e in s.moving && e in mv.target.refused)
    requires (k.fails <==> purge && !t.isTrash && Fails(m.kind, t, Picked(es, s.doomed))) && (k.syncs <==> m.changed || (purge && k.gone != {}))
    requires k.gone == (s.marked + if move then s.deletable else {}) && forall e :: e in k.gone ==> e in es
    modifies m`changed, m`msgUnread, m`msgNew, m`msgFlagged, m`msgDeleted, m`msgTagged, trash, target, store
    modifies m`emails, m`v2r, m`msgCount, m`vcount, es`msgno, es`vnum, b.grown`msgno, b.grown`vnum
    modifies es`read, es`isOld, es`flagged, es`deleted, es`purge, es`tagged, es`replied, es`changed
    ensures NothingLost(store.mails, es, was, o.(trashed := trash.mails, moved := target.mails))
    ensures old(trash.mails) <= trash.mails && old(target.mails) <= target.mails
    ensures Closed(k, rc, es, b, purge, old(store.mails), store.mails)
    ensures !k.refused ==> target.mails == old(target.mails) + if move then Picked(es, s.moving) else []
    ensures !purge ==> trash.mails == old(trash.mails)
    ensures rc == Ok && purge ==>
      trash.mails == old(trash.mails) + if t.isSet && !t.isTrash && !t.sameInode && !(m.kind.Maildir? && t.maildirTrash) then Picked(es, s.doomed) else []
  {
    hide *;
    ghost var before := store.mails;
    assert !move ==> k.gone == s.marked;
    NotMoved(s, m, es, was, mv.keepFlagged, flagSafe, target.mails);
    NoneGoneYet(store.mails, es, was, o.(trashed := trash.mails, moved := target.mails));
    BackendParts(m, b, es, store.mails);
    rc := Error;
    if move {
      var ok := MoveAgreed(m, mv, flagSafe, target, es, was, s);
      NoneGoneYet(store.mails, es, was, o.(trashed := trash.mails, moved := target.mails));
      if !ok {
        ClosedStop(k, es, b, purge, before);
        return;
      }
    } else {
      NoneDeleted(m, es);
      if !m.changed && m.msgDeleted == 0 {
        NoFail(m.kind, t);
        ClosedIdle(k, es, b, purge, before);
        return Ok;
      }
    }
    BackendStill(m, b, es, store.mails);
    rc := CloseRest(m, purge, t, trash, store, b, es, was, o.(moved := target.mails), k, s.doomed);
  }

  lemma NoFail(kind: Kind, t: TrashSetup)
    ensures !Fails(kind, t, [])
  {
  }

  // From the trash folder on, when the messages k.gone are marked deleted.
  method CloseRest(m: Mailbox, purge: bool, t: TrashSetup, trash: Folder, store: Store, b: Backend,
                   ghost es: seq<Email>, ghost was: Before, ghost o: Outcome, ghost k: Closing, ghost ds: set<Email>) returns (rc: Status)
    requires BackendOK(m, b, es, store.mails) && Holds(m, es) && Exact(m, es)
    requires Ended(es, was, ds, k.gone, o.moved) && o.guarded == Guarded(m, t) && store.mails == was.stored
    requires purge ==> o.consent || forall e :: e in es && e in was.deleted ==> e in o.moved
    requires !k.refused && forall e :: e in k.gone ==> e in es
    requires (k.fails <==> purge && !t.isTrash && Fails(m.kind, t, Picked(es, ds))) && (k.syncs <==> m.changed || (purge && k.gone != {}))
    modifies m`msgUnread, m`msgNew, m`msgFlagged, m`msgDeleted, es`deleted, es`purge, trash, store
    modifies m`emails, m`v2r, m`msgCount, m`vcount, m`msgTagged, m`changed, es`msgno, es`vnum, b.grown`msgno, b.grown`vnum
    ensures NothingLost(store.mails, es, was, o.(trashed := trash.mails)) && old(trash.mails) <= trash.mails
    ensures Closed(k, rc, es, b, purge, old(store.mails), store.mails)
    ensures !purge ==> trash.mails == old(trash.mails)
    ensures rc == Ok && purge ==>
      trash.mails == old(trash.mails) + if t.isSet && !t.isTrash && !t.sameInode && !(m.kind.Maildir? && t.maildirTrash) then Picked(es, ds) else []
  {
    hide *;
    ghost var before := store.mails;
    EndedIs(es, was, ds, k.gone, o.moved);
    GoneSome(es, k.gone);
    RemovesIn(m, b, es, before);
    FailsIs(m, t, es, Picked(es, ds));
    rc := CloseNow(m, purge, t, trash, store, b, es, was, o);
    assert forall e :: e in before && e in b.removes ==> (e in k.gone <==> old(e.deleted));
    assert (set e | e in before && !(purge && e in b.removes && old(e.deleted))) == set e | e in before && !(purge && e in b.removes && e in k.gone);
    ClosedEnd(k, rc, es, b, purge, before, store.mails);
  }

  lemma RemovesIn(m: Mailbox, b: Backend, es: seq<Email>, stored: set<Email>)
    requires BackendOK(m, b, es, stored)
    ensures forall e :: e in b.removes ==> e in es
  {
  }

  lemma GoneSome(es: seq<Email>, gone: set<Email>)
    requires (forall e :: e in gone ==> e in es) && forall e :: e in es ==> (e.deleted <==> e in gone)
    ensures gone != {} <==> exists e :: e in es && e.deleted
  {
  }

  // Whether messages are moved, and deleted ones removed; the messages that are to be moved, those for the
  // trash folder, and those marked deleted in the end.
  datatype Answers = Answers(move: bool, purge: bool, moving: set<Email>, doomed: set<Email>, gone: set<Email>)

  // What the folder, $mbox and the trash folder hold.
  datatype Files = Files(stored: set<Email>, target: seq<Email>, trash: seq<Email>)

  // What closing does, when there is something else to save or not.  It fails if the target refuses to take
  // what is to be moved, or the trash folder what is to go there; then the folder stays.  Otherwise the
  // backend is called if need be, and has the last word.
  ghost predicate CloseDoes(kind: Kind, es: seq<Email>, a: Answers, target: Target, t: TrashSetup, b: Backend, changed: bool, was: Files, now: Files, rc: Status) {
    var refused := a.move && (!target.opens || exists e :: e in a.moving && e in target.refused);
    var fails := a.purge && !t.isTrash && t.isSet && !(kind.Maildir? && t.maildirTrash) && a.doomed != {}
                 && (!t.confirmed || (!t.sameInode && (!t.folder.opens || exists e :: e in a.doomed && e in t.folder.refused)));
    var syncs := changed || (a.purge && a.gone != {});
    && rc == (if refused || fails then Error else if syncs then b.status else Ok)
    && now.stored == (if !refused && !fails && syncs then b.late + (set e | e in was.stored && !(a.purge && e in b.removes && e in a.gone)) else was.stored)
    && (!refused ==> now.target == was.target + if a.move then Picked(es, a.moving) else [])
    && (!a.purge ==> now.trash == was.trash)
    && (rc == Ok && a.purge ==>
          now.trash == was.trash + if t.isSet && !t.isTrash && !t.sameInode && !(kind.Maildir? && t.maildirTrash) then Picked(es, a.doomed) else [])
  }

  lemma Foresee(kind: Kind, move: bool, purge: bool, target: Target, t: TrashSetup, es: seq<Email>, s: Seen, changed: bool, gone: set<Email>) returns (k: Closing)
    requires forall e :: e in s.moving + s.doomed ==> e in es
    ensures k.gone == gone && (k.refused <==> move && (!target.opens || exists e :: e in es && e in s.moving && e in target.refused))
    ensures k.refused <==> move && (!target.opens || exists e :: e in s.moving && e in target.refused)
    ensures k.fails <==> purge && !t.isTrash && Fails(kind, t, Picked(es, s.doomed))
    ensures k.fails <==>
      && purge && !t.isTrash && t.isSet && !(kind.Maildir? && t.maildirTrash) && s.doomed != {}
      && (!t.confirmed || (!t.sameInode && (!t.folder.opens || exists e :: e in s.doomed && e in t.folder.refused)))
    ensures k.syncs <==> changed || (purge && gone != {})
  {
    PickedIn(es, s.doomed);
    var ds := Picked(es, s.doomed);
    assert ds != [] ==> ds[0] in s.doomed;
    var refused := move && (!target.opens || exists e :: e in s.moving && e in target.refused);
    k := Closing(refused, purge && !t.isTrash && Fails(kind, t, ds), changed || (purge && gone != {}), gone);
  }

  // What is wanted is done, if it all goes well: what is to be moved is in $mbox, what is to go is in the trash
  // folder if there is one, and the folder has lost just what the backend removes of these.  Without consent,
  // and when it fails on the way to the backend, the folder loses nothing.
  lemma CloseSays(kind: Kind, es: seq<Email>, a: Answers, target: Target, t: TrashSetup, b: Backend, changed: bool, was: Files, now: Files, rc: Status)
    requires CloseDoes(kind, es, a, target, t, b, changed, was, now, rc)
    requires forall e :: e in a.moving + a.doomed ==> e in es
    ensures rc == Ok && a.move ==> target.opens && forall e :: e in a.moving ==> e in now.target && e !in target.refused
    ensures rc == Ok && a.purge ==> forall e :: e in a.gone && e in b.removes && e !in b.late ==> e !in now.stored
    ensures rc == Ok && a.purge && t.isSet && !t.isTrash && !t.sameInode && !kind.Maildir? ==> forall e :: e in a.doomed ==> e in now.trash
    ensures !a.purge || b.removes * a.gone == {} ==> was.stored <= now.stored
    ensures forall e :: e in was.stored && e !in now.stored ==> e in a.gone && e in b.removes
    ensures a.move && (exists e :: e in a.moving && e in target.refused) ==> rc == Error && now.stored == was.stored
    ensures a.purge && !t.isTrash && t.isSet && !kind.Maildir? && !t.sameInode && (exists e :: e in a.doomed && (!t.confirmed || !t.folder.opens || e in t.folder.refused)) ==>
      rc == Error && now.stored == was.stored
    ensures b.status == Ok && (a.move ==> target.opens && target.refused == {}) && (!t.isSet || (t.confirmed && t.folder.opens && t.folder.refused == {})) ==> rc == Ok
  {
    PickedIn(es, a.moving);
    PickedIn(es, a.doomed);
    forall e | e in a.gone && e in b.removes && e !in b.late && rc == Ok && a.purge ensures e !in now.stored {
      assert a.gone != {};
    }
    forall e | e in was.stored && (!a.purge || b.removes * a.gone == {}) ensures e in now.stored {
      if e in b.removes && e in a.gone { assert e in b.removes * a.gone; }
    }
  }

  // Once the questions are answered: whether to move, and whether to delete.
  method CloseAnswered(m: Mailbox, move: bool, purge: bool, mv: MoveSetup, markOld: bool, flagSafe: bool, t: TrashSetup, trash: Folder,
                       target: Folder, store: Store, b: Backend, ghost es: seq<Email>, ghost was: Before, ghost o: Outcome,
                       ghost s: Seen, ghost before: Files) returns (rc: Status)
    requires BackendOK(m, b, es, store.mails) && Holds(m, es) && Exact(m, es) && trash != target && !m.kind.Imap? && !m.readonly
    requires MarkedAs(es, was) && SeenAs(s, m, es, mv.keepFlagged, flagSafe)
    requires before == Files(store.mails, target.mails, trash.mails) && store.mails == was.stored
    requires o.guarded == Guarded(m, t) && (if purge then o.consent || s.marked == {} else s.marked != {})
    modifies m`changed, m`msgUnread, m`msgNew, m`msgFlagged, m`msgDeleted, m`msgTagged, trash, target, store
    modifies m`emails, m`v2r, m`msgCount, m`vcount, es`msgno, es`vnum, b.grown`msgno, b.grown`vnum
    modifies es`read, es`isOld, es`flagged, es`deleted, es`purge, es`tagged, es`replied, es`changed
    ensures NothingLost(store.mails, es, was, o.(trashed := trash.mails, moved := target.mails))
    ensures old(trash.mails) <= trash.mails && old(target.mails) <= target.mails
    ensures CloseDoes(m.kind, es, Answers(move, purge, s.moving, s.doomed, s.marked + if move then s.deletable else {}), mv.target, t, b,
                      old(m.changed) || (markOld && m.maySee && s.news != {}), before, Files(store.mails, target.mails, trash.mails), rc)
    ensures !(move && (!mv.target.opens || exists e :: e in s.moving && e in mv.target.refused)) ==>
      forall e :: e in es ==> (e.deleted <==> purge && e in s.marked + if move then s.deletable else {}) && (!purge ==> !e.purge)
  {
    hide *;
    ghost var changed, gone := m.changed || (markOld && m.maySee && s.news != {}), s.marked + if move then s.deletable else {};
    SeenReady(s, m, es, was, mv.keepFlagged, flagSafe);
    ghost var k := Foresee(m.kind, move, purge, mv.target, t, es, s, changed, gone);
    rc := CloseFlags(m, move, purge, mv, markOld, flagSafe, t, trash, target, store, b, es, was, o, s, k);
    Done(k, m.kind, es, Answers(move, purge, s.moving, s.doomed, gone), mv.target, t, b, changed, before, Files(store.mails, target.mails, trash.mails), rc);
  }

  lemma Done(k: Closing, kind: Kind, es: seq<Email>, a: Answers, target: Target, t: TrashSetup, b: Backend, changed: bool, was: Files, now: Files, rc: Status)
    requires a.gone == k.gone
    requires k.refused <==> a.move && (!target.opens || exists e :: e in a.moving && e in target.refused)
    requires k.fails == (a.purge && !t.isTrash && t.isSet && !(kind.Maildir? && t.maildirTrash) && a.doomed != {}
      && (!t.confirmed || (!t.sameInode && (!t.folder.opens || exists e :: e in a.doomed && e in t.folder.refused))))
    requires k.syncs <==> changed || (a.purge && a.gone != {})
    requires Closed(k, rc, es, b, a.purge, was.stored, now.stored)
    requires !k.refused ==> now.target == was.target + if a.move then Picked(es, a.moving) else []
    requires !a.purge ==> now.trash == was.trash
    requires rc == Ok && a.purge ==>
      now.trash == was.trash + if t.isSet && !t.isTrash && !t.sameInode && !(kind.Maildir? && t.maildirTrash) then Picked(es, a.doomed) else []
    ensures CloseDoes(kind, es, a, target, t, b, changed, was, now, rc)
    ensures !(a.move && (!target.opens || exists e :: e in a.moving && e in target.refused)) ==>
      forall e :: e in es ==> (e.deleted <==> a.purge && e in a.gone) && (!a.purge ==> !e.purge)
  {
  }

  // mx_mbox_close.  What has gone from the folder is in the trash folder or in $mbox, or the user wanted it
  // purged.  If a question is not answered, or there is nothing to save, all stays.  Otherwise the messages
  // to be moved are in $mbox, those deleted in the trash folder if that is wanted, and with the user's consent
  // the backend removes them all; without it no message is marked any more.
  method MxClose(m: Mailbox, dontSave: bool, mv: MoveSetup, purgeAnswer: Answer, markOld: bool, flagSafe: bool, t: TrashSetup,
                 trash: Folder, target: Folder, store: Store, b: Backend, ghost es: seq<Email>)
      returns (rc: Status, stop: Option<Status>, move: bool, purge: bool, ghost s: Seen)
    requires BackendOK(m, b, es, store.mails) && Holds(m, es) && Exact(m, es) && !m.kind.Imap? && trash != target
    modifies m`changed, m`msgUnread, m`msgNew, m`msgFlagged, m`msgDeleted, m`msgTagged, trash, target, store
    modifies m`emails, m`v2r, m`msgCount, m`vcount, es`msgno, es`vnum, b.grown`msgno, b.grown`vnum
    modifies es`read, es`isOld, es`flagged, es`deleted, es`purge, es`tagged, es`replied, es`changed
    ensures NothingLost(store.mails, es, old(Snapshot(store, es)),
                        Outcome(trash.mails, target.mails, Guarded(m, t), purgeAnswer.Yes? || (m.kind.Maildir? && t.maildirTrash)))
    ensures old(trash.mails) <= trash.mails && old(target.mails) <= target.mails
    ensures s.marked == old(set e | e in es && e.deleted) && s.doomed == old(set e | e in es && e.deleted && !e.purge)
    ensures s.moving == old(set e | e in es && e.read && !e.deleted && !(e.flagged && mv.keepFlagged))
    ensures s.deletable == old(set e | e in es && e.read && !e.deleted && !(e.flagged && mv.keepFlagged) && m.mayDelete && !(e.flagged && flagSafe))
    ensures s.news == old(set e | e in es && !e.deleted && !e.isOld && !e.read)
    ensures var asks, offers := s.marked != {} && !(m.kind.Maildir? && t.maildirTrash), s.moving != {} && !m.kind.Nntp? && !mv.never && mv.hasTarget;
      && (stop == if m.readonly || dontSave then Some(Ok) else if (offers && mv.answer.Abort?) || (asks && purgeAnswer.Abort?) then Some(Error) else None)
      && (stop.None? ==> move == (offers && mv.answer.Yes?) && purge == (!asks || purgeAnswer.Yes?))
    ensures stop.Some? ==>
      && rc == stop.value && store.mails == old(store.mails) && target.mails == old(target.mails) && trash.mails == old(trash.mails)
      && forall e :: e in es ==> e.deleted == old(e.deleted) && e.purge == old(e.purge)
    ensures stop.None? ==>
      CloseDoes(m.kind, es, Answers(move, purge, s.moving, s.doomed, s.marked + if move then s.deletable else {}), mv.target, t, b,
                old(m.changed) || (markOld && m.maySee && s.news != {}), old(Files(store.mails, target.mails, trash.mails)),
                Files(store.mails, target.mails, trash.mails), rc)
    ensures stop.None? && !(move && (!mv.target.opens || exists e :: e in s.moving && e in mv.target.refused)) ==>
      forall e :: e in es ==> (e.deleted <==> purge && e in s.marked + if move then s.deletable else {}) && (!purge ==> !e.purge)
  {
    hide *;
    ghost var was := Snapshot(store, es);
    ghost var o := Outcome(trash.mails, target.mails, Guarded(m, t), purgeAnswer.Yes? || (m.kind.Maildir? && t.maildirTrash));
    ghost var before := Files(store.mails, target.mails, trash.mails);
    s := Look(m, es, mv.keepFlagged, flagSafe);
    SnapshotIs(store, es);
    MarkedIs(es, was);
    NoneGoneYet(store.mails, es, was, o);
    stop, move, purge := AskClose(m, dontSave, mv, purgeAnswer, flagSafe, t, es, s);
    if stop.Some? {
      return stop.value, stop, move, purge, s;
    }
    rc := CloseAnswered(m, move, purge, mv, markOld, flagSafe, t, trash, target, store, b, es, was, o, s, before);
  }

  lemma Look(m: Mailbox, es: seq<Email>, keepFlagged: bool, flagSafe: bool) returns (s: Seen)
    ensures SeenAs(s, m, es, keepFlagged, flagSafe)
    ensures s.marked == (set e | e in es && e.deleted) && s.doomed == (set e | e in es && e.deleted && !e.purge)
    ensures s.moving == set e | e in es && e.read && !e.deleted && !(e.flagged && keepFlagged)
    ensures s.deletable == set e | e in es && e.read && !e.deleted && !(e.flagged && keepFlagged) && m.mayDelete && !(e.flagged && flagSafe)
    ensures s.news == set e | e in es && !e.deleted && !e.isOld && !e.read
  {
    s := Seen(set e | e in es && e.deleted, set e | e in es && e.read && !e.deleted && !(e.flagged && keepFlagged),
              set e | e in es && e.read && !e.deleted && !(e.flagged && keepFlagged) && m.mayDelete && !(e.flagged && flagSafe),
              set e | e in es && e.deleted && !e.purge, set e | e in es && !e.deleted && !e.isOld && !e.read);
  }

  // The questions: whether to stop, and with what; whether to move; and whether to delete.
  method AskClose(m: Mailbox, dontSave: bool, mv: MoveSetup, purgeAnswer: Answer, flagSafe: bool, t: TrashSetup, ghost es: seq<Email>, ghost s: Seen)
      returns (stop: Option<Status>, move: bool, purge: bool)
    requires Holds(m, es) && Exact(m, es) && SeenAs(s, m, es, mv.keepFlagged, flagSafe)
    ensures var asks, offers := s.marked != {} && !(m.kind.Maildir? && t.maildirTrash), s.moving != {} && !m.kind.Nntp? && !mv.never && mv.hasTarget;
      && (stop == if m.readonly || dontSave then Some(Ok) else if (offers && mv.answer.Abort?) || (asks && purgeAnswer.Abort?) then Some(Error) else None)
      && (stop.None? ==> move == (offers && mv.answer.Yes?) && purge == (!asks || purgeAnswer.Yes?))
  {
    hide *;
    NoneDeleted(m, es);
    SeenIs(s, m, es, mv.keepFlagged, flagSafe);
    move, purge := false, true;
    if m.readonly || dontSave {
      return Some(Ok), move, purge;
    }
    var readMsgs := CountToMove(m, mv.keepFlagged, es);
    if m.kind.Nntp? {
      readMsgs := 0;
    }
    if readMsgs != 0 && !mv.never && mv.hasTarget {
      move := mv.answer.Yes?;
      if mv.answer.Abort? {
        return Some(Error), move, purge;
      }
    }
    if m.msgDeleted != 0 && !(m.kind.Maildir? && t.maildirTrash) {
      purge := purgeAnswer.Yes?;
      if purgeAnswer.Abort? {
        return Some(Error), move, purge;
      }
    }
    stop := None;
  }
}
