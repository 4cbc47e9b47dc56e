// mx.c: saving a mailbox that is not on an IMAP server.  Deleted messages go to the trash folder before the
// backend removes them.
module SaveMail {
  import opened Wrappers
  import opened EmailFlags
  import opened Threads
  import opened Accounting
  import MailboxTables

  // A folder that messages are appended to, or the file of the mailbox itself.
  class Folder {
    var mails: seq<Email>

    constructor ()
      ensures mails == []
    {
      mails := [];
    }
  }

  datatype Status = Error | Ok | NewMail | Locked | Reopened | FlagsChanged

  datatype Answer = Abort | No | Yes

  // The outcomes of what the model does not contain: whether a folder can be opened, and which
  // messages it then refuses.
  datatype Target = Target(opens: bool, refused: set<Email>)

  // $trash and $maildir_trash, whether this is the trash folder itself (found by name, or by its
  // inode), and whether the user confirms the name of the trash folder.
  datatype TrashSetup = TrashSetup(isSet: bool, maildirTrash: bool, isTrash: bool, sameInode: bool, confirmed: bool, folder: Target)

  // The trash folder is to get the deleted messages.
  ghost predicate Guarded(m: Mailbox, t: TrashSetup) {
    t.isSet && !t.isTrash && !t.sameInode && !(m.kind.Maildir? && t.maildirTrash)
  }

  // mutt_append_message
  method Append(dst: Folder, e: Email, t: Target) returns (rc: int)
    modifies dst
    ensures rc == if e in t.refused then -1 else 0
    ensures dst.mails == old(dst.mails) + if rc == 0 then [e] else []
  {
    if e in t.refused {
      return -1;
    }
    dst.mails := dst.mails + [e];
    rc := 0;
  }

  // The messages to be put in the trash folder.
  ghost function Doomed(es: seq<Email>): (ds: seq<Email>)
    reads es`deleted, es`purge
    ensures forall e :: e in ds ==> e in es && e.deleted && !e.purge
    ensures forall e :: e in es && e.deleted && !e.purge ==> e in ds
  {
    if es == [] then []
    else
      var last := es[|es| - 1];
      Doomed(es[..|es| - 1]) + if last.deleted && !last.purge then [last] else []
  }

  lemma {:induction false} DoomedPrefix(es: seq<Email>, i: nat)
    requires i < |es|
    ensures Doomed(es[..i + 1]) == Doomed(es[..i]) + if es[i].deleted && !es[i].purge then [es[i]] else []
  {
    assert es[..i + 1][..i] == es[..i];
  }

  lemma OnesMembers(es: seq<Email>)
    ensures forall e :: e in es ==> One(e) in Ones(es)
    ensures forall c :: c in Ones(es) ==> exists e :: e in es && One(e) == c
  {
    hide One;
    forall e | e in es ensures One(e) in Ones(es) {
      var i :| 0 <= i < |es| && es[i] == e;
      assert Ones(es)[i] == One(e);
    }
    forall c | c in Ones(es) ensures exists e :: e in es && One(e) == c {
      var i :| 0 <= i < |es| && Ones(es)[i] == c;
      assert es[i] in es && One(es[i]) == c;
    }
  }

  lemma OneDeleted(e: Email)
    ensures One(e).deleted == if e.deleted then 1 else 0
  {
  }

  lemma DeletedTotal(m: Mailbox, es: seq<Email>)
    requires Exact(m, es)
    ensures m.msgDeleted == Sum(Ones(es)).deleted
  {
  }

  // An exact count of 0 means that no message is deleted.
  lemma NoneDeleted(m: Mailbox, es: seq<Email>)
    requires Exact(m, es)
    ensures m.msgDeleted == 0 <==> forall e :: e in es ==> !e.deleted
    ensures m.msgDeleted == |es| <==> forall e :: e in es ==> e.deleted
  {
    hide *;
    DeletedTotal(m, es);
    OnesMembers(es);
    forall e | e in es ensures One(e).deleted == if e.deleted then 1 else 0 { OneDeleted(e); }
    DeletedSum(Ones(es));
  }

  lemma DoomedNone(es: seq<Email>)
    requires forall e :: e in es ==> !e.deleted
    ensures Doomed(es) == []
  {
    if Doomed(es) != [] { assert Doomed(es)[0] in Doomed(es); }
  }

  // The folder refuses a message that is to be put there.
  ghost predicate Refused(es: seq<Email>, t: Target)
    reads es`deleted, es`purge
  {
    exists e :: e in Doomed(es) && e in t.refused
  }

  // When trash_append fails: there is something to append, and the user does not confirm, or the
  // folder cannot be opened or refuses a message.
  ghost predicate TrashFails(m: Mailbox, t: TrashSetup, es: seq<Email>)
    reads es`deleted, es`purge
  {
    && t.isSet && !(m.kind.Maildir? && t.maildirTrash) && Doomed(es) != []
    && (!t.confirmed || (!t.sameInode && (!t.folder.opens || Refused(es, t.folder))))
  }

  // The second loop of trash_append.
  method AppendDoomed(m: Mailbox, firstDel: nat, trash: Folder, t: Target, ghost es: seq<Email>) returns (rc: int)
    requires Holds(m, es) && firstDel <= |es| && Doomed(es[..firstDel]) == []
    modifies trash
    ensures rc == if Refused(es, t) then -1 else 0
    ensures rc == 0 ==> trash.mails == old(trash.mails) + Doomed(es)
    ensures exists ds :: ds <= Doomed(es) && trash.mails == old(trash.mails) + ds
  {
    hide Doomed;
    for i := firstDel to m.msgCount
      invariant trash.mails == old(trash.mails) + Doomed(es[..i])
      invariant forall e :: e in Doomed(es[..i]) ==> e !in t.refused
    {
      DoomedPrefix(es, i);
      DoomedGrows(es, i);
      var e: Email := m.emails[i];
      if e.deleted && !e.purge {
        var r := Append(trash, e, t);
        if r == -1 {
          assert es[i] in Doomed(es[..i + 1]) && Doomed(es[..i + 1]) <= Doomed(es) by { DoomedGrows(es, i + 1); }
          assert trash.mails == old(trash.mails) + Doomed(es[..i]);
          return -1;
        }
      }
    }
    assert es[..|es|] == es;
    rc := 0;
  }

  // The first loop of trash_append: how many, and the first.
  method CountDoomed(m: Mailbox, ghost es: seq<Email>) returns (count: nat, firstDel: int)
    requires Holds(m, es)
    ensures count == |Doomed(es)| && (count != 0 ==> 0 <= firstDel <= |es| && Doomed(es[..firstDel]) == [])
  {
    hide Doomed;
    count, firstDel := 0, -1;
    DoomedNone([]);
    assert es[..0] == [];
    for i := 0 to m.msgCount
      invariant count == |Doomed(es[..i])|
      invariant firstDel < 0 <==> count == 0
      invariant firstDel >= 0 ==> firstDel < i && Doomed(es[..firstDel]) == []
    {
      DoomedPrefix(es, i);
      var e := m.emails[i];
      if e.deleted && !e.purge {
        if firstDel < 0 {
          firstDel := i;
        }
        count := count + 1;
      }
    }
    assert es[..|es|] == es;
  }

  // trash_append
  method TrashAppend(m: Mailbox, t: TrashSetup, trash: Folder, ghost es: seq<Email>) returns (rc: int)
    requires Holds(m, es) && Exact(m, es)
    modifies trash
    ensures rc == if TrashFails(m, t, es) then -1 else 0
    ensures rc == 0 ==> trash.mails == old(trash.mails) + if t.isSet && !t.sameInode && !(m.kind.Maildir? && t.maildirTrash) then Doomed(es) else []
    ensures exists ds :: ds <= Doomed(es) && trash.mails == old(trash.mails) + ds
  {
    hide Doomed, Exact, Holds, Refused;
    NoneDeleted(m, es);
    assert [] <= Doomed(es) && trash.mails == trash.mails + [];
    if !t.isSet || m.msgDeleted == 0 || (m.kind.Maildir? && t.maildirTrash) {
      if m.msgDeleted == 0 { DoomedNone(es); }
      return 0;
    }
    var count, firstDel := CountDoomed(m, es);
    if count == 0 {
      return 0;
    }
    if !t.confirmed {
      return -1;
    }
    if t.sameInode {
      return 0;
    }
    if !t.folder.opens {
      return -1;
    }
    rc := AppendDoomed(m, firstDel, trash, t.folder, es);
  }

  lemma {:induction false} DoomedGrows(es: seq<Email>, i: nat)
    requires i <= |es|
    ensures Doomed(es[..i]) <= Doomed(es)
    decreases |es| - i
  {
    if i < |es| {
      DoomedPrefix(es, i);
      DoomedGrows(es, i + 1);
    } else {
      assert es[..i] == es;
    }
  }

  // --- the backend ---

  // The messages in the mailbox's file or directory.
  class Store {
    var mails: set<Email>

    constructor (mails: set<Email>)
      ensures this.mails == mails
    {
      this.mails := mails;
    }
  }

  // What the backend's mbox_sync does: it removes any of the messages of the index that are marked
  // deleted; or it finds that the folder has changed (NewMail, Reopened), and adds what it finds there
  // to the index.  Before mx.c goes on, `late` mail may be delivered to the folder.
  datatype Backend = Backend(status: Status, removes: set<Email>, grown: seq<Email>, limited: bool, late: set<Email>)

  predicate HasGrown(b: Backend) {
    b.status.NewMail? || b.status.Reopened?
  }

  // The index after the backend has run.
  ghost function IndexAfter(b: Backend, es: seq<Email>): seq<Email> {
    es + if HasGrown(b) then b.grown else []
  }

  // An mbox or MMDF backend holds the lock: all there is in the file is in the index when it is done, and it
  // writes nothing if the file has changed.
  ghost predicate BackendOK(m: Mailbox, b: Backend, es: seq<Email>, stored: set<Email>)
    reads b.grown`deleted
  {
    BackendKnows(m.kind, b, es, stored) && forall e :: e in b.grown ==> !e.deleted
  }

  ghost predicate BackendKnows(kind: Kind, b: Backend, es: seq<Email>, stored: set<Email>) {
    && Distinct(es + b.grown) && (forall e :: e in b.removes ==> e in es)
    && (kind.Mbox? || kind.Mmdf? ==>
          && (HasGrown(b) ==> b.removes == {})
          && (b.status != Error ==> forall e :: e in stored ==> e in IndexAfter(b, es)))
  }

  lemma BackendParts(m: Mailbox, b: Backend, es: seq<Email>, stored: set<Email>)
    requires BackendOK(m, b, es, stored)
    ensures BackendKnows(m.kind, b, es, stored) && forall e :: e in b.grown ==> !e.deleted && e !in es
  {
    forall e | e in b.grown ensures e !in es {
      var j :| 0 <= j < |b.grown| && b.grown[j] == e;
      assert (es + b.grown)[|es| + j] == e;
      assert forall i :: 0 <= i < |es| ==> (es + b.grown)[i] == es[i];
    }
  }

  lemma BackendStill(m: Mailbox, b: Backend, es: seq<Email>, stored: set<Email>)
    requires BackendKnows(m.kind, b, es, stored) && forall e :: e in b.grown ==> !e.deleted
    ensures BackendOK(m, b, es, stored)
  {
  }

  method SyncBackend(m: Mailbox, store: Store, b: Backend, ghost es: seq<Email>) returns (rc: Status, ghost now: seq<Email>)
    requires Holds(m, es) && Exact(m, es) && BackendOK(m, b, es, store.mails)
    modifies store, m`emails, m`v2r, m`msgCount
    modifies m`vcount, m`msgUnread, m`msgNew, m`msgFlagged, m`msgDeleted, m`msgTagged, m`changed
    modifies es`msgno, es`vnum, b.grown`msgno, b.grown`vnum
    ensures rc == b.status && now == IndexAfter(b, es) && Holds(m, now) && Exact(m, now)
    ensures HasGrown(b) && b.grown != [] ==> fresh(m.emails) && fresh(m.v2r)
    ensures !(HasGrown(b) && b.grown != []) ==> m.emails == old(m.emails) && m.v2r == old(m.v2r)
    ensures old(m.emails.Length <= m.v2r.Length) ==> m.emails.Length <= m.v2r.Length
    ensures store.mails == b.late + set e | e in old(store.mails) && !(e in b.removes && e.deleted)
  {
    hide Exact, Distinct;
    rc, now := b.status, es;
    store.mails := b.late + set e | e in store.mails && !(e in b.removes && e.deleted);
    if HasGrown(b) && b.grown != [] {
      Grow(m, b.grown, b.limited, es);
      now := es + b.grown;
    }
    assert es + [] == es;
  }

  // New messages at the end of the table, which is then gone through anew.
  method Grow(m: Mailbox, more: seq<Email>, limited: bool, ghost es: seq<Email>)
    requires Holds(m, es) && Distinct(es + more)
    modifies m`emails, m`v2r, m`msgCount
    modifies m`vcount, m`msgUnread, m`msgNew, m`msgFlagged, m`msgDeleted, m`msgTagged, m`changed
    modifies es`msgno, es`vnum, more`msgno, more`vnum
    ensures Holds(m, es + more) && Exact(m, es + more) && fresh(m.emails) && fresh(m.v2r) && m.emails.Length <= m.v2r.Length
  {
    hide Exact, Distinct;
    var emails := Extended(m, more, es);
    m.emails, m.msgCount := emails, emails.Length;
    m.v2r := new int[emails.Length];
    MailboxTables.MviewUpdate(m, limited, es + more);
  }

  method Extended(m: Mailbox, more: seq<Email>, ghost es: seq<Email>) returns (emails: array<Email?>)
    requires Holds(m, es)
    ensures fresh(emails) && emails.Length == |es| + |more| && forall i :: 0 <= i < |es + more| ==> emails[i] == (es + more)[i]
  {
    hide Distinct;
    emails := new Email?[m.msgCount + |more|](i => null);
    for i := 0 to m.msgCount
      invariant forall j :: 0 <= j < i ==> emails[j] == (es + more)[j]
    {
      emails[i] := m.emails[i];
    }
    for i := 0 to |more|
      invariant forall j :: 0 <= j < m.msgCount + i ==> emails[j] == (es + more)[j]
    {
      emails[m.msgCount + i] := more[i];
    }
  }

  method Undelete(e: Email)
    modifies e`deleted, e`purge
    ensures !e.deleted && !e.purge && One(e) == old(One(e)).(deleted := 0)
  {
    e.deleted := false;
    e.purge := false;
  }

  method ClearDeleted(m: Mailbox)
    modifies m`msgDeleted
    ensures m.msgDeleted == 0 && Counters(m) == old(Counters(m)).(deleted := 0)
  {
    m.msgDeleted := 0;
  }

  lemma ExactIs(m: Mailbox, es: seq<Email>)
    requires Exact(m, es)
    ensures Counters(m) == Sum(Ones(es))
  {
  }

  lemma CountersParts(m: Mailbox, es: seq<Email>, total: Counts)
    requires Counters(m) == total.(deleted := 0) && Sum(Ones(es)) == total.(deleted := 0)
    ensures Exact(m, es)
  {
  }

  // for each email: e->deleted = false; e->purge = false; and msg_deleted = 0
  method KeepAll(m: Mailbox, ghost es: seq<Email>)
    requires Holds(m, es) && Exact(m, es)
    modifies m`msgDeleted, es`deleted, es`purge
    ensures Exact(m, es) && m.msgDeleted == 0 && forall e :: e in es ==> !e.deleted && !e.purge
  {
    hide One, Sum, Exact, Counters;
    ghost var cs := Ones(es);
    ExactIs(m, es);
    for i := 0 to m.msgCount
      invariant forall j :: 0 <= j < |es| ==> One(es[j]) == if j < i then cs[j].(deleted := 0) else cs[j]
      invariant forall j :: 0 <= j < i ==> !es[j].deleted && !es[j].purge
      invariant Counters(m) == old(Counters(m))
    {
      Undelete(m.emails[i]);
    }
    SumUndeleted(cs, Ones(es));
    ClearDeleted(m);
    CountersParts(m, es, Sum(cs));
  }

  lemma {:induction false} SumUndeleted(cs: seq<Counts>, ds: seq<Counts>)
    requires |cs| == |ds| && forall j :: 0 <= j < |cs| ==> ds[j] == cs[j].(deleted := 0)
    ensures Sum(ds) == Sum(cs).(deleted := 0)
  {
    if cs != [] {
      assert forall j :: 0 <= j < |cs[1..]| ==> ds[1..][j] == ds[j + 1] && cs[1..][j] == cs[j + 1];
      SumUndeleted(cs[1..], ds[1..]);
    }
  }

  // --- what may be removed ---

  // The messages in the folder, those marked deleted, and those marked to be purged.
  datatype Before = Before(stored: set<Email>, deleted: set<Email>, purge: set<Email>)

  ghost function Snapshot(store: Store, es: seq<Email>): Before
    reads store, es`deleted, es`purge
  {
    Before(store.mails, set e | e in es && e.deleted, set e | e in es && e.purge)
  }

  // What the outcome is judged by: the copies made in the trash folder and in $mbox, whether the
  // trash folder is to get deleted messages, and whether the user agreed to delete any.
  datatype Outcome = Outcome(trashed: seq<Email>, moved: seq<Email>, guarded: bool, consent: bool)

  // A message may go if it has been moved, or if it was deleted with the user's consent and is in
  // the trash folder (unless it was to be purged, or there is no trash folder).
  ghost predicate MayGo(e: Email, was: Before, o: Outcome) {
    e in o.moved || (e in was.deleted && o.consent && (o.guarded ==> e in was.purge || e in o.trashed))
  }

  ghost predicate DeletedMayGo(es: seq<Email>, was: Before, o: Outcome)
    reads es`deleted
  {
    forall e :: e in es && e.deleted ==> MayGo(e, was, o)
  }

  // What was in the folder is still there, or may have gone.
  ghost predicate NothingLost(stored: set<Email>, es: seq<Email>, was: Before, o: Outcome) {
    forall e :: e in was.stored ==> e in stored || (e in es && MayGo(e, was, o))
  }

  lemma NothingGone(store: Store, es: seq<Email>, o: Outcome)
    ensures NothingLost(store.mails, es, Snapshot(store, es), o)
  {
  }

  // The backend removes deleted messages; a mailbox with nothing else is then unlinked.
  method RemoveDeleted(m: Mailbox, store: Store, b: Backend, unlink: bool, ghost es: seq<Email>, ghost was: Before, ghost o: Outcome)
      returns (rc: Status, unlinked: bool, ghost now: seq<Email>)
    requires Holds(m, es) && Exact(m, es) && DeletedMayGo(es, was, o) && BackendOK(m, b, es, store.mails)
    requires store.mails == was.stored
    modifies store, m`emails, m`v2r, m`msgCount
    modifies m`vcount, m`msgUnread, m`msgNew, m`msgFlagged, m`msgDeleted, m`msgTagged, m`changed
    modifies es`msgno, es`vnum, b.grown`msgno, b.grown`vnum
    ensures NothingLost(store.mails, es, was, o) && rc == b.status && now == IndexAfter(b, es)
    ensures Holds(m, now) && Exact(m, now) && (old(m.emails.Length <= m.v2r.Length) ==> m.emails.Length <= m.v2r.Length)
    ensures HasGrown(b) && b.grown != [] ==> fresh(m.emails) && fresh(m.v2r)
    ensures !(HasGrown(b) && b.grown != []) ==> m.emails == old(m.emails) && m.v2r == old(m.v2r)
    ensures unlinked <==> rc != Error && unlink && (m.kind.Mbox? || m.kind.Mmdf?) && forall e :: e in now ==> e.deleted
    ensures !unlinked ==> store.mails == b.late + set e | e in old(store.mails) && !(e in b.removes && e.deleted)
    ensures if unlinked then store.mails == {} else b.late <= store.mails
  {
    hide Exact, MayGo;
    ghost var known := IndexAfter(b, es);
    rc, now := SyncBackend(m, store, b, es);
    NoneDeleted(m, now);
    unlinked := false;
    if rc != Error && m.msgCount == m.msgDeleted && (m.kind.Mbox? || m.kind.Mmdf?) && unlink {
      store.mails := {};
      unlinked := true;
    }
  }

  // trash_append, or not, before the deleted messages are removed.
  method ToTrash(m: Mailbox, purge: bool, t: TrashSetup, trash: Folder, ghost es: seq<Email>, ghost was: Before, ghost o: Outcome)
      returns (rc: int)
    requires Holds(m, es) && Exact(m, es)
    requires forall e :: e in es && e.deleted ==> e in o.moved || (o.consent && e in was.deleted && (!e.purge || e in was.purge))
    requires o.guarded == Guarded(m, t) && (m.msgDeleted == 0 || purge)
    modifies trash
    ensures rc == 0 ==> DeletedMayGo(es, was, o.(trashed := trash.mails))
    ensures old(trash.mails) <= trash.mails
    ensures rc == 0 <==> t.isTrash || !TrashFails(m, t, es)
    ensures !purge ==> trash.mails == old(trash.mails)
    ensures rc == 0 && purge ==> trash.mails == old(trash.mails) + if t.isSet && !t.isTrash && !t.sameInode && !(m.kind.Maildir? && t.maildirTrash) then Doomed(es) else []
  {
    hide Exact, Holds, Doomed, Refused;
    NoneDeleted(m, es);
    if forall e :: e in es ==> !e.deleted { DoomedNone(es); }
    rc := 0;
    if purge && m.msgDeleted != 0 && !t.isTrash {
      rc := TrashAppend(m, t, trash, es);
    }
  }

  // --- mx_mbox_sync ---

  // The part after the questions.
  method SyncNow(m: Mailbox, purge: bool, t: TrashSetup, trash: Folder, store: Store, b: Backend, unlink: bool,
                 ghost es: seq<Email>, ghost was: Before, ghost o: Outcome)
      returns (rc: Status, ran: bool, unlinked: bool, ghost now: seq<Email>)
    requires BackendOK(m, b, es, store.mails) && Holds(m, es) && Exact(m, es) && m.emails.Length <= m.v2r.Length
    requires forall e :: e in es && e.deleted ==> o.consent && e in was.deleted && (!e.purge || e in was.purge)
    requires o.guarded == Guarded(m, t) && (m.msgDeleted == 0 || purge)
    requires store.mails == was.stored
    modifies m`vcount, m`msgUnread, m`msgNew, m`msgFlagged, m`msgDeleted, m`msgTagged, m`changed, m`msgCount, m`emails, m`v2r
    modifies m.emails, m.v2r, es`msgno, es`vnum, es`changed, b.grown`msgno, b.grown`vnum, b.grown`changed, trash, store
    ensures NothingLost(store.mails, es, was, o.(trashed := trash.mails))
    ensures ran == old(t.isTrash || !TrashFails(m, t, es)) && rc == (if ran && !unlinked then b.status else Ok)
    ensures !unlinked ==> store.mails == if ran then b.late + set e | e in old(store.mails) && !(e in b.removes && e.deleted) else old(store.mails)
    ensures ran && purge ==>
      trash.mails == old(trash.mails) + if t.isSet && !t.isTrash && !t.sameInode && !(m.kind.Maildir? && t.maildirTrash) then old(Doomed(es)) else []
    ensures !purge ==> trash.mails == old(trash.mails)
    ensures ran && !unlinked && b.status != Error && (purge || (!m.kind.Maildir? && !m.kind.Mh?)) ==>
      forall e :: e in IndexAfter(b, es) ==> (e in now <==> !e.quasiDeleted && (!e.deleted || (m.kind.Maildir? && t.maildirTrash)))
    ensures !(ran && !unlinked && b.status != Error && (purge || (!m.kind.Maildir? && !m.kind.Mh?))) ==> now == if ran then IndexAfter(b, es) else es
    ensures unlinked == (ran && b.status != Error && unlink && (m.kind.Mbox? || m.kind.Mmdf?) && old(forall e :: e in IndexAfter(b, es) ==> e.deleted))
    ensures ran ==> if unlinked then store.mails == {} else b.late <= store.mails
    ensures Holds(m, now) && Exact(m, now) && forall e :: e in now ==> e in IndexAfter(b, es)
    ensures old(trash.mails) <= trash.mails
  {
    hide *;
    now, ran, unlinked := es, false, false;
    NoneGoneYet(store.mails, es, was, o);
    IndexHas(b, es);
    var r := ToTrash(m, purge, t, trash, es, was, o);
    NoneGoneYet(store.mails, es, was, o.(trashed := trash.mails));
    if r != 0 {
      return Ok, false, false, now;
    }
    ran := true;
    rc, unlinked, now := RemoveDeleted(m, store, b, unlink, es, was, o.(trashed := trash.mails));
    if rc != Error {
      if unlinked {
        return Ok, true, true, now;
      }
      if purge || (!m.kind.Maildir? && !m.kind.Mh?) {
        AllFilled(m, now);
        assert forall i :: 0 <= i < |now| ==> now[i] in es || now[i] in b.grown;
        KeptAre(now, m.kind.Maildir? && t.maildirTrash);
        var gc;
        now, gc := MailboxTables.UpdateTables(m, t.maildirTrash, now);
      }
    }
  }

  lemma KeptAre(es: seq<Email>, trash: bool)
    ensures forall e :: e in es ==> (e in MailboxTables.Survivors(es, trash) <==> !e.quasiDeleted && (!e.deleted || trash))
  {
  }

  lemma IndexHas(b: Backend, es: seq<Email>)
    ensures (forall e :: e in es ==> e in IndexAfter(b, es)) && forall e :: e in IndexAfter(b, es) ==> e in es || e in b.grown
  {
  }

  lemma NoneGoneYet(stored: set<Email>, es: seq<Email>, was: Before, o: Outcome)
    requires stored == was.stored
    ensures NothingLost(stored, es, was, o)
  {
  }

  lemma AllFilled(m: Mailbox, es: seq<Email>)
    requires Holds(m, es) && m.emails.Length <= m.v2r.Length
    ensures MailboxTables.Filled(m, es) && Distinct(es)
  {
  }

  // The trash folder takes the messages ds, or need not.
  ghost predicate Reaches(kind: Kind, t: TrashSetup, ds: set<Email>) {
    || t.isTrash || !t.isSet || (kind.Maildir? && t.maildirTrash) || ds == {}
    || (t.confirmed && (t.sameInode || (t.folder.opens && forall e :: e in ds ==> e !in t.folder.refused)))
  }

  // All of the index is marked deleted when the backend is done.
  ghost predicate AllGone(b: Backend, es: seq<Email>, gone: set<Email>) {
    forall e :: e in IndexAfter(b, es) ==> e in gone
  }

  lemma AllMarked(b: Backend, es: seq<Email>, gone: set<Email>)
    requires (forall e :: e in gone ==> e in es) && (forall e :: e in es ==> (e in gone <==> e.deleted)) && forall e :: e in b.grown ==> !e.deleted
    ensures AllGone(b, es, gone) <==> forall e :: e in IndexAfter(b, es) ==> e.deleted
    ensures forall e :: e in IndexAfter(b, es) ==> (e in gone <==> e.deleted)
    ensures es != [] && gone == {} ==> !AllGone(b, es, gone)
  {
    assert forall e :: e in gone ==> e in es && e.deleted;
    assert es != [] ==> es[0] in es && es[0] in IndexAfter(b, es);
  }

  // ds are the messages for the trash folder.
  lemma FailsWith(m: Mailbox, t: TrashSetup, es: seq<Email>, ds: set<Email>)
    requires (forall e :: e in ds ==> e in es) && forall e :: e in es ==> (e in ds <==> e.deleted && !e.purge)
    ensures Reaches(m.kind, t, ds) <==> t.isTrash || !TrashFails(m, t, es)
  {
    assert Doomed(es) != [] ==> Doomed(es)[0] in ds;
  }

  // The same, in terms of the messages that are marked deleted (gone) and of those for the trash folder (ds).
  method SyncMarked(m: Mailbox, purge: bool, t: TrashSetup, trash: Folder, store: Store, b: Backend, unlink: bool,
                    ghost es: seq<Email>, ghost was: Before, ghost o: Outcome, ghost gone: set<Email>, ghost ds: set<Email>)
      returns (rc: Status, ran: bool, unlinked: bool, ghost now: seq<Email>)
    requires BackendOK(m, b, es, store.mails) && Holds(m, es) && Exact(m, es) && m.emails.Length <= m.v2r.Length
    requires forall e :: e in es && e.deleted ==> o.consent && e in was.deleted && (!e.purge || e in was.purge)
    requires o.guarded == Guarded(m, t) && (m.msgDeleted == 0 || purge)
    requires store.mails == was.stored
    requires (forall e :: e in gone ==> e in es) && forall e :: e in es ==> (e in gone <==> e.deleted)
    requires (forall e :: e in ds ==> e in es) && forall e :: e in es ==> (e in ds <==> e.deleted && !e.purge)
    modifies m`vcount, m`msgUnread, m`msgNew, m`msgFlagged, m`msgDeleted, m`msgTagged, m`changed, m`msgCount, m`emails, m`v2r
    modifies m.emails, m.v2r, es`msgno, es`vnum, es`changed, b.grown`msgno, b.grown`vnum, b.grown`changed, trash, store
    ensures NothingLost(store.mails, es, was, o.(trashed := trash.mails))
    ensures ran == Reaches(m.kind, t, ds)
    ensures unlinked == (ran && b.status != Error && unlink && (m.kind.Mbox? || m.kind.Mmdf?) && AllGone(b, es, gone))
    ensures ran ==> if unlinked then store.mails == {} else b.late <= store.mails
    ensures Holds(m, now) && Exact(m, now) && forall e :: e in now ==> e in IndexAfter(b, es)
    ensures old(trash.mails) <= trash.mails
    ensures SyncDoes(m.kind, t, b, es, purge, ran, unlinked, gone, ds, old(store.mails), store.mails, now, rc)
    ensures ran && purge ==>
      trash.mails == old(trash.mails) + if t.isSet && !t.isTrash && !t.sameInode && !(m.kind.Maildir? && t.maildirTrash) then old(Doomed(es)) else []
    ensures !purge ==> trash.mails == old(trash.mails)
  {
    hide *;
    FailsWith(m, t, es, ds);
    BackendParts(m, b, es, store.mails);
    AllMarked(b, es, gone);
    ghost var before := store.mails;
    IndexHas(b, es);
    rc, ran, unlinked, now := SyncNow(m, purge, t, trash, store, b, unlink, es, was, o);
    assert (set e | e in before && !(e in b.removes && e.deleted)) == set e | e in before && !(e in b.removes && e in gone);
    SyncDone(m.kind, t, b, es, purge, ran, unlinked, gone, ds, before, store.mails, now, rc);
  }

  // What a sync does from the trash folder on: it goes no further if that fails; else the backend is called, and has
  // the last word unless the folder is unlinked; then the index is brought up to date, if need be.
  ghost predicate SyncDoes(kind: Kind, t: TrashSetup, b: Backend, es: seq<Email>, purge: bool, ran: bool, unlinked: bool,
                           gone: set<Email>, ds: set<Email>, before: set<Email>, after: set<Email>, now: seq<Email>, rc: Status)
    reads IndexAfter(b, es)`quasiDeleted
  {
    var updates := ran && !unlinked && b.status != Error && (purge || (!kind.Maildir? && !kind.Mh?));
    && ran == Reaches(kind, t, ds)
    && rc == (if ran && !unlinked then b.status else Ok)
    && (!unlinked ==> after == if ran then b.late + set e | e in before && !(e in b.removes && e in gone) else before)
    && (updates ==> forall e :: e in IndexAfter(b, es) ==> (e in now <==> !e.quasiDeleted && (e !in gone || (kind.Maildir? && t.maildirTrash))))
    && (!updates ==> now == if ran then IndexAfter(b, es) else es)
  }

  // Once the backend is done, the folder has lost just what it removes of the messages marked deleted, and the index
  // these messages; it is done unless the trash folder cannot take what it should.
  lemma SyncSays(kind: Kind, t: TrashSetup, b: Backend, es: seq<Email>, purge: bool, ran: bool, unlinked: bool,
                 gone: set<Email>, ds: set<Email>, before: set<Email>, after: set<Email>, now: seq<Email>, rc: Status)
    requires SyncDoes(kind, t, b, es, purge, ran, unlinked, gone, ds, before, after, now, rc) && !unlinked
    ensures ran ==> rc == b.status && forall e :: e in gone && e in b.removes && e !in b.late ==> e !in after
    ensures forall e :: e in before && e !in after ==> ran && e in gone && e in b.removes
    ensures !ran ==> rc == Ok && after == before && now == es && t.isSet && !t.isTrash && ds != {}
    ensures t.isTrash || !t.isSet || ds == {} || (t.confirmed && t.folder.opens && t.folder.refused == {}) ==> ran
    ensures !t.isTrash && t.isSet && !kind.Maildir? && !t.sameInode && (exists e :: e in ds && (!t.confirmed || !t.folder.opens || e in t.folder.refused)) ==> !ran
    ensures ran && purge && b.status == Ok && !kind.Maildir? ==> forall e :: e in es ==> (e in now <==> e !in gone && !e.quasiDeleted)
    ensures ran && (b.status == Error || (!purge && (kind.Maildir? || kind.Mh?))) ==> now == IndexAfter(b, es)
  {
    IndexHas(b, es);
  }

  lemma SyncDone(kind: Kind, t: TrashSetup, b: Backend, es: seq<Email>, purge: bool, ran: bool, unlinked: bool,
                 gone: set<Email>, ds: set<Email>, before: set<Email>, after: set<Email>, now: seq<Email>, rc: Status)
    requires ran == Reaches(kind, t, ds)
    requires rc == if ran && !unlinked then b.status else Ok
    requires !unlinked ==> after == if ran then b.late + set e | e in before && !(e in b.removes && e in gone) else before
    requires ran && !unlinked && b.status != Error && (purge || (!kind.Maildir? && !kind.Mh?)) ==>
      forall e :: e in IndexAfter(b, es) ==> (e in now <==> !e.quasiDeleted && (!e.deleted || (kind.Maildir? && t.maildirTrash)))
    requires !(ran && !unlinked && b.status != Error && (purge || (!kind.Maildir? && !kind.Mh?))) ==> now == if ran then IndexAfter(b, es) else es
    requires forall e :: e in IndexAfter(b, es) ==> (e in gone <==> e.deleted)
    ensures SyncDoes(kind, t, b, es, purge, ran, unlinked, gone, ds, before, after, now, rc)
  {
  }

  // When a sync unlinks the folder: something is to be written and may be, all messages of the index
  // are deleted, with the user's consent if there are any, and are in the trash folder if that is wanted; the
  // backend does not fail and finds nothing new; and it is an mbox or MMDF file that need not be kept.
  ghost predicate Unlinks(m: Mailbox, dontwrite: bool, purgeAnswer: Answer, t: TrashSetup, b: Backend, isSpool: bool, saveEmpty: bool, es: seq<Email>)
    reads m`readonly, m`changed, es`deleted, es`purge
  {
    && !dontwrite && !m.readonly && (m.changed || es != []) && (forall e :: e in es ==> e.deleted) && (es != [] ==> purgeAnswer.Yes?)
    && (t.isTrash || !TrashFails(m, t, es))
    && b.status != Error && (HasGrown(b) ==> b.grown == []) && !isSpool && !saveEmpty && (m.kind.Mbox? || m.kind.Mmdf?)
  }

  // ran: the backend was called.  Mail delivered after it has returned is lost exactly if the folder is
  // unlinked; nothing else is lost.
  method MxSync(m: Mailbox, dontwrite: bool, purgeAnswer: Answer, t: TrashSetup, trash: Folder, store: Store, b: Backend,
                isSpool: bool, saveEmpty: bool, ghost es: seq<Email>)
      returns (rc: Status, ran: bool, unlinked: bool, stop: Option<Status>, purge: bool, ghost now: seq<Email>, ghost marked: set<Email>, ghost doomed: set<Email>)
    requires BackendOK(m, b, es, store.mails) && Holds(m, es) && Exact(m, es) && !m.kind.Imap? && m.emails.Length <= m.v2r.Length
    modifies m`vcount, m`msgUnread, m`msgNew, m`msgFlagged, m`msgDeleted, m`msgTagged, m`changed, m`msgCount, m`emails, m`v2r
    modifies m.emails, m.v2r, es`msgno, es`vnum, es`changed, es`deleted, es`purge, b.grown`msgno, b.grown`vnum, b.grown`changed, trash, store
    ensures NothingLost(store.mails, es, old(Snapshot(store, es)), Outcome(trash.mails, [], Guarded(m, t), purgeAnswer.Yes?))
    ensures unlinked == old(Unlinks(m, dontwrite, purgeAnswer, t, b, isSpool, saveEmpty, es)) && (unlinked ==> ran)
    ensures ran ==> if unlinked then store.mails == {} else b.late <= store.mails
    ensures Holds(m, now) && Exact(m, now) && forall e :: e in now ==> e in IndexAfter(b, es)
    ensures old(trash.mails) <= trash.mails
    ensures marked == old(set e | e in es && e.deleted) && doomed == old(set e | e in es && e.deleted && !e.purge)
    ensures stop == if dontwrite || m.readonly then Some(Error)
      else if !old(m.changed) && (marked == {} || purgeAnswer.No?) then Some(Ok)
      else if marked != {} && purgeAnswer.Abort? then Some(Error) else None
    ensures stop.Some? ==>
      && rc == stop.value && !ran && now == es && store.mails == old(store.mails) && trash.mails == old(trash.mails)
      && forall e :: e in es ==> e.deleted == old(e.deleted) && e.purge == old(e.purge)
    ensures stop.None? ==> purge == (marked == {} || purgeAnswer.Yes?) && SyncDoes(m.kind, t, b, es, purge, ran, unlinked, if purge then marked else {},
      if purge then doomed else {}, old(store.mails), store.mails, now, rc)
    ensures stop.None? ==> forall e :: e in es ==> (e.deleted <==> purge && e in marked) && (!purge ==> !e.purge)
    ensures stop.None? && ran && purge ==>
      trash.mails == old(trash.mails) + if t.isSet && !t.isTrash && !t.sameInode && !(m.kind.Maildir? && t.maildirTrash) then old(Doomed(es)) else []
    ensures stop.None? && !purge ==> trash.mails == old(trash.mails)
  {
    hide *;
    now, ran, unlinked := es, false, false;
    marked, doomed := set e | e in es && e.deleted, set e | e in es && e.deleted && !e.purge;
    ghost var was := Snapshot(store, es);
    ghost var o := Outcome(trash.mails, [], Guarded(m, t), purgeAnswer.Yes?);
    NothingGone(store, es, o);
    SnapshotIs(store, es);
    MarkedNone(es, marked);
    IndexHas(b, es);
    BackendParts(m, b, es, store.mails);
    UnlinksWhen(m, dontwrite, purgeAnswer, t, b, isSpool, saveEmpty, es, marked, doomed);
    NoneAllGone(b, es, marked);
    stop, purge := AskSync(m, dontwrite, purgeAnswer, es, marked);
    if stop.Some? {
      rc := stop.value;
      return;
    }
    BackendStill(m, b, es, store.mails);
    rc, ran, unlinked, now := SyncMarked(m, purge, t, trash, store, b, !isSpool && !saveEmpty, es, was, o, if purge then marked else {}, if purge then doomed else {});
  }

  // The question: whether to stop, and with what, and whether to delete; if not, nothing is marked any more.
  method AskSync(m: Mailbox, dontwrite: bool, purgeAnswer: Answer, ghost es: seq<Email>, ghost marked: set<Email>)
      returns (stop: Option<Status>, purge: bool)
    requires Holds(m, es) && Exact(m, es) && marked == set e | e in es && e.deleted
    modifies m`msgDeleted, es`deleted, es`purge
    ensures Exact(m, es)
    ensures stop == if dontwrite || m.readonly then Some(Error)
      else if !m.changed && (marked == {} || purgeAnswer.No?) then Some(Ok)
      else if marked != {} && purgeAnswer.Abort? then Some(Error) else None
    ensures stop.Some? ==> forall e :: e in es ==> e.deleted == old(e.deleted) && e.purge == old(e.purge)
    ensures stop.None? ==> purge == (marked == {} || purgeAnswer.Yes?) && (m.msgDeleted == 0 || purge)
    ensures stop.None? ==> forall e :: e in es ==> (e.deleted <==> purge && e in marked) && e.purge == (purge && old(e.purge))
  {
    hide *;
    MarkedNone(es, marked);
    NoneDeleted(m, es);
    purge := true;
    if dontwrite || m.readonly || (!m.changed && m.msgDeleted == 0) {
      return Some(if dontwrite || m.readonly then Error else Ok), purge;
    }
    if m.msgDeleted != 0 {
      purge := purgeAnswer.Yes?;
      if purgeAnswer.Abort? {
        return Some(Error), purge;
      }
      if purgeAnswer.No? {
        if !m.changed {
          return Some(Ok), purge;
        }
        KeepAll(m, es);
      }
    }
    stop := None;
  }

  lemma MarkedNone(es: seq<Email>, marked: set<Email>)
    requires marked == set e | e in es && e.deleted
    ensures marked == {} <==> forall e :: e in es ==> !e.deleted
  {
    forall e | e in es && e.deleted ensures e in marked { }
  }

  lemma UnlinksWhen(m: Mailbox, dontwrite: bool, purgeAnswer: Answer, t: TrashSetup, b: Backend, isSpool: bool, saveEmpty: bool,
                    es: seq<Email>, marked: set<Email>, doomed: set<Email>)
    requires marked == (set e | e in es && e.deleted) && doomed == (set e | e in es && e.deleted && !e.purge)
    requires forall e :: e in b.grown ==> !e.deleted
    ensures Unlinks(m, dontwrite, purgeAnswer, t, b, isSpool, saveEmpty, es) <==>
      && !dontwrite && !m.readonly && (m.changed || marked != {}) && (marked == {} || purgeAnswer.Yes?) && Reaches(m.kind, t, doomed)
      && b.status != Error && !isSpool && !saveEmpty && (m.kind.Mbox? || m.kind.Mmdf?) && AllGone(b, es, marked)
  {
    hide TrashFails, Reaches;
    FailsWith(m, t, es, doomed);
    AllMarked(b, es, marked);
    MarkedNone(es, marked);
    if HasGrown(b) && b.grown != [] {
      assert b.grown[0] in b.grown && b.grown[0] in IndexAfter(b, es);
    } else {
      assert IndexAfter(b, es) == es;
    }
    assert es != [] ==> es[0] in es;
  }

  lemma NoneAllGone(b: Backend, es: seq<Email>, marked: set<Email>)
    requires marked == set e | e in es && e.deleted
    ensures marked != {} ==> !AllGone(b, es, {})
  {
    assert es != [] ==> es[0] in es && es[0] in IndexAfter(b, es);
  }

  // With one message in an mbox file, deleted with consent and with no trash folder, mail delivered before
  // the file is unlinked is lost.
  lemma LateMailLost(m: Mailbox, t: TrashSetup, b: Backend, e: Email)
    requires m.kind.Mbox? && !m.readonly && e.deleted && !t.isSet && b.status == Ok
    ensures Unlinks(m, false, Yes, t, b, false, false, [e])
  {
  }

  lemma SnapshotIs(store: Store, es: seq<Email>)
    ensures var was := Snapshot(store, es);
            was.stored == store.mails && forall e :: e in es ==> (e in was.deleted <==> e.deleted) && (e in was.purge <==> e.purge)
  {
  }
}
