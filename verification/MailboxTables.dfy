// mview.c: the mailbox's tables of emails and their numbers.
module MailboxTables {
  import opened EmailFlags
  import opened Threads
  import opened Accounting

  // The emails kept when the tables are updated.
  predicate Survives(e: Email, trash: bool)
    reads e`quasiDeleted, e`deleted
  {
    !e.quasiDeleted && (!e.deleted || trash)
  }

  ghost function Survivors(es: seq<Email>, trash: bool): (kept: seq<Email>)
    reads es`quasiDeleted, es`deleted
    ensures |kept| <= |es| && forall e :: e in kept ==> e in es && Survives(e, trash)
    ensures forall e :: e in es && Survives(e, trash) ==> e in kept
  {
    if es == [] then []
    else
      var last := es[|es| - 1];
      Survivors(es[..|es| - 1], trash) + if Survives(last, trash) then [last] else []
  }

  // The emails in the array, up to the first empty slot.
  ghost predicate Filled(m: Mailbox, es: seq<Email>)
    reads m`emails, m`msgCount, m`v2r, m.emails
  {
    && |es| <= m.msgCount <= m.emails.Length <= m.v2r.Length
    && (forall i :: 0 <= i < |es| ==> m.emails[i] == es[i])
    && (|es| < m.msgCount ==> m.emails[|es|] == null)
  }

  // Halfway: the kept emails are at the front, followed by empty slots up to i.
  ghost predicate Packed(m: Mailbox, es: seq<Email>, i: nat, kept: seq<Email>)
    reads m`emails, m`msgCount, m`v2r, m.emails
  {
    && |kept| <= i <= |es| <= m.msgCount <= m.emails.Length <= m.v2r.Length
    && (forall k :: 0 <= k < |kept| ==> m.emails[k] == kept[k])
    && (forall k :: |kept| <= k < i ==> m.emails[k] == null)
    && (forall k :: i <= k < |es| ==> m.emails[k] == es[k])
    && (|es| < m.msgCount ==> m.emails[|es|] == null)
  }

  // msgno is the index of the email; vnum is -1 or its place among the visible ones, which v2r lists.
  ghost predicate Numbered(m: Mailbox, kept: seq<Email>)
    reads m`v2r, m`vcount, m.v2r, kept`msgno, kept`vnum
  {
    && m.vcount <= m.v2r.Length && m.vcount <= |kept|
    && (forall k :: 0 <= k < |kept| ==> EmailNumbered(m, kept[k], k))
    && (forall v :: 0 <= v < m.vcount ==> 0 <= m.v2r[v] < |kept| && kept[m.v2r[v]].vnum == v)
    && (forall u, v :: 0 <= u < v < m.vcount ==> m.v2r[u] < m.v2r[v])
  }

  ghost predicate EmailNumbered(m: Mailbox, e: Email, k: int)
    reads m`v2r, m`vcount, m.v2r, e`msgno, e`vnum
    requires m.vcount <= m.v2r.Length
  {
    e.msgno == k && (e.vnum != -1 ==> 0 <= e.vnum < m.vcount && m.v2r[e.vnum] == k)
  }

  // mutt_get_virt_email
  method GetVirtEmail(m: Mailbox, vnum: int, ghost es: seq<Email>) returns (e: Email?)
    requires Holds(m, es) && Numbered(m, es)
    ensures e == null <==> !(0 <= vnum < m.vcount)
    ensures e != null ==> e in es && e.vnum == vnum
  {
    if vnum < 0 || vnum >= m.vcount {
      return null;
    }
    var inum := m.v2r[vnum];
    if inum < 0 || inum >= m.msgCount {
      return null;
    }
    return m.emails[inum];
  }

  // Every visible email is found under its number, and under no other.
  lemma VirtualNumbers(m: Mailbox, es: seq<Email>, e: Email)
    requires Holds(m, es) && Numbered(m, es) && e in es && e.vnum != -1
    ensures 0 <= e.vnum < m.vcount && m.emails[m.v2r[e.vnum]] == e
    ensures forall d :: d in es && d.vnum == e.vnum ==> d == e
  {
    var k :| 0 <= k < |es| && es[k] == e;
    assert EmailNumbered(m, es[k], k);
    forall d | d in es && d.vnum == e.vnum ensures d == e {
      var l :| 0 <= l < |es| && es[l] == d;
      assert EmailNumbered(m, es[l], l);
    }
  }

  method MoveEmail(m: Mailbox, i: nat, j: nat, ghost es: seq<Email>, ghost kept: seq<Email>)
    requires Packed(m, es, i, kept) && i < |es| && j == |kept|
    modifies m.emails
    ensures Packed(m, es, i + 1, kept + [es[i]])
    ensures forall k :: |es| <= k < m.emails.Length ==> m.emails[k] == old(m.emails[k])
  {
    if i != j {
      m.emails[j] := m.emails[i];
      m.emails[i] := null;
    }
  }

  method NumberEmail(m: Mailbox, e: Email, j: nat, ghost kept: seq<Email>)
    requires Numbered(m, kept) && j == |kept| < m.v2r.Length && e !in kept
    modifies m.v2r, m`vcount, e`msgno, e`vnum
    ensures Numbered(m, kept + [e]) && (e.vnum == -1 <==> old(e.vnum) == -1)
    ensures m.v2r == old(m.v2r)
  {
    e.msgno := j;
    if e.vnum != -1 {
      m.v2r[m.vcount] := j;
      e.vnum := m.vcount;
      m.vcount := m.vcount + 1;
    }
    forall k | 0 <= k < |kept + [e]| ensures EmailNumbered(m, (kept + [e])[k], k) {
      if k < |kept| { assert old(EmailNumbered(m, kept[k], k)); }
    }
  }

  // The counters, with the flags of one more email.
  method CountEmail(m: Mailbox, e: Email, countDeleted: bool, ghost kept: seq<Email>)
    requires Exact(m, kept) && (e.deleted ==> countDeleted)
    modifies m`msgUnread, m`msgNew, m`msgFlagged, m`msgDeleted, m`msgTagged
    ensures Exact(m, kept + [e])
  {
    hide Sum;
    if countDeleted {
      if e.deleted { m.msgDeleted := m.msgDeleted + 1; }
    }
    if e.tagged { m.msgTagged := m.msgTagged + 1; }
    if e.flagged { m.msgFlagged := m.msgFlagged + 1; }
    if !e.read {
      m.msgUnread := m.msgUnread + 1;
      if !e.isOld { m.msgNew := m.msgNew + 1; }
    }
    SumSnoc(Ones(kept), One(e));
    assert Ones(kept + [e]) == Ones(kept) + [One(e)];
  }

  // Which of the first i emails are kept, and which are handed over for disposal.
  ghost predicate Sorted(es: seq<Email>, i: nat, kept: seq<Email>, gc: seq<Email>, trash: bool)
    reads es`quasiDeleted, es`deleted
  {
    && i <= |es| && kept == Survivors(es[..i], trash) && |kept| + |gc| == i
    && (forall e :: e in gc ==> e in es[..i] && !Survives(e, trash))
    && (forall e :: e in es[..i] && !Survives(e, trash) ==> e in gc)
  }

  ghost predicate NoneChanged(kept: seq<Email>)
    reads kept`changed
  {
    forall e :: e in kept ==> !e.changed
  }

  lemma SurvivorsStep(es: seq<Email>, i: nat, trash: bool)
    requires i < |es|
    ensures Survivors(es[..i + 1], trash) == Survivors(es[..i], trash) + if Survives(es[i], trash) then [es[i]] else []
    ensures forall e :: e in es[..i + 1] <==> e in es[..i] || e == es[i]
  {
    assert es[..i + 1][..i] == es[..i] && es[..i + 1] == es[..i] + [es[i]];
  }

  lemma NotYet(es: seq<Email>, i: nat)
    requires i < |es| && Distinct(es)
    ensures es[i] !in es[..i]
  {
  }

  lemma SortedStep(es: seq<Email>, i: nat, kept: seq<Email>, gc: seq<Email>, trash: bool)
    requires Sorted(es, i, kept, gc, trash) && i < |es| && Distinct(es)
    ensures es[i] !in kept
    ensures Survives(es[i], trash) ==> Sorted(es, i + 1, kept + [es[i]], gc, trash)
    ensures !Survives(es[i], trash) ==> Sorted(es, i + 1, kept, gc + [es[i]], trash)
  {
    hide Survivors, Survives, Distinct;
    SurvivorsStep(es, i, trash);
    NotYet(es, i);
    assert kept + [] == kept;
  }

  lemma PackedFacts(m: Mailbox, es: seq<Email>, i: nat, kept: seq<Email>)
    requires Packed(m, es, i, kept)
    ensures i < |es| ==> m.emails[i] == es[i]
    ensures |kept| <= i <= |es| <= m.msgCount <= m.emails.Length <= m.v2r.Length
    ensures i < m.msgCount ==> (m.emails[i] == null <==> i == |es|)
  {
  }

  lemma PackedFront(m: Mailbox, es: seq<Email>, i: nat, kept: seq<Email>)
    requires Packed(m, es, i, kept)
    ensures |kept| <= i <= m.emails.Length
    ensures forall k :: 0 <= k < |kept| ==> m.emails[k] == kept[k]
    ensures forall k :: |kept| <= k < i ==> m.emails[k] == null
  {
  }

  method DropEmail(m: Mailbox, i: nat, ghost es: seq<Email>, ghost kept: seq<Email>)
    requires Packed(m, es, i, kept) && i < |es|
    modifies m.emails
    ensures Packed(m, es, i + 1, kept)
    ensures forall k :: |es| <= k < m.emails.Length ==> m.emails[k] == old(m.emails[k])
  {
    m.emails[i] := null;
  }

  method ClearChanged(e: Email, ghost kept: seq<Email>)
    requires NoneChanged(kept)
    modifies e`changed
    ensures NoneChanged(kept + [e])
  {
    e.changed := false;
  }

  // The survivor e: moved, numbered, no longer changed, counted.
  method KeepEmail(m: Mailbox, e: Email, i: nat, j: nat, countDeleted: bool, ghost es: seq<Email>, ghost kept: seq<Email>)
    requires Packed(m, es, i, kept) && Numbered(m, kept) && Exact(m, kept) && NoneChanged(kept)
    requires i < |es| && e == es[i] && j == |kept| && e !in kept && (e.deleted ==> countDeleted)
    modifies m`vcount, m`msgUnread, m`msgNew, m`msgFlagged, m`msgDeleted, m`msgTagged
    modifies m.emails, m.v2r, e`msgno, e`vnum, e`changed
    ensures Packed(m, es, i + 1, kept + [e]) && Numbered(m, kept + [e]) && Exact(m, kept + [e]) && NoneChanged(kept + [e])
    ensures e.vnum == -1 <==> old(e.vnum) == -1
    ensures forall k :: |es| <= k < m.emails.Length ==> m.emails[k] == old(m.emails[k])
  {
    hide *;
    PackedFacts(m, es, i, kept);
    MoveEmail(m, i, j, es, kept);
    NumberEmail(m, e, j, kept);
    ClearChanged(e, kept);
    CountEmail(m, e, countDeleted, kept);
  }

  lemma SurvivesIs(e: Email, trash: bool)
    ensures Survives(e, trash) <==> !e.quasiDeleted && (!e.deleted || trash)
  {
  }

  method ResetCounters(m: Mailbox)
    modifies m`vcount, m`msgUnread, m`msgNew, m`msgFlagged, m`msgDeleted, m`msgTagged, m`changed
    ensures m.vcount == 0 && !m.changed && Exact(m, [])
  {
    m.vcount, m.msgTagged, m.msgDeleted, m.msgNew, m.msgUnread, m.changed, m.msgFlagged := 0, 0, 0, 0, 0, false, 0;
  }

  lemma UpdateStart(m: Mailbox, es: seq<Email>, trash: bool)
    requires Filled(m, es) && m.vcount == 0
    ensures Packed(m, es, 0, []) && Numbered(m, []) && NoneChanged([]) && Sorted(es, 0, [], [], trash)
  {
  }

  lemma {:induction false} SurvivorsDistinct(es: seq<Email>, trash: bool)
    requires Distinct(es)
    ensures Distinct(Survivors(es, trash))
  {
    if es != [] {
      SurvivorsDistinct(es[..|es| - 1], trash);
    }
  }

  lemma UpdateEnd(m: Mailbox, es: seq<Email>, kept: seq<Email>, gc: seq<Email>, trash: bool)
    requires |kept| == m.msgCount <= m.emails.Length && |es| <= m.emails.Length && Distinct(es)
    requires forall k :: 0 <= k < |kept| ==> m.emails[k] == kept[k]
    requires Sorted(es, |es|, kept, gc, trash)
    ensures Holds(m, kept) && kept == Survivors(es, trash)
    ensures |kept| + |gc| == |es| && forall e :: e in es ==> (e in gc <==> e !in kept)
    ensures forall e :: e in kept ==> e in es
  {
    hide Survivors;
    assert es[..|es|] == es;
    SurvivorsDistinct(es, trash);
  }

  // The body of the loop of update_tables.
  method UpdateOne(m: Mailbox, e: Email, i: nat, j: nat, maildirTrash: bool, ghost es: seq<Email>, ghost kept: seq<Email>, gc: seq<Email>)
      returns (survives: bool)
    requires Packed(m, es, i, kept) && Numbered(m, kept) && Exact(m, kept) && NoneChanged(kept) && j == |kept|
    requires i < |es| && e == es[i] && Distinct(es) && Sorted(es, i, kept, gc, m.kind.Maildir? && maildirTrash)
    modifies m`vcount, m`msgUnread, m`msgNew, m`msgFlagged, m`msgDeleted, m`msgTagged
    modifies m.emails, m.v2r, e`msgno, e`vnum, e`changed
    ensures var kept' := if survives then kept + [e] else kept;
            && Packed(m, es, i + 1, kept') && Numbered(m, kept') && Exact(m, kept') && NoneChanged(kept')
            && Sorted(es, i + 1, kept', if survives then gc else gc + [e], m.kind.Maildir? && maildirTrash)
    ensures e.vnum == -1 <==> old(e.vnum) == -1
    ensures forall k :: |es| <= k < m.emails.Length ==> m.emails[k] == old(m.emails[k])
  {
    hide *;
    SortedStep(es, i, kept, gc, m.kind.Maildir? && maildirTrash);
    SurvivesIs(e, m.kind.Maildir? && maildirTrash);
    survives := !e.quasiDeleted && (!e.deleted || (m.kind.Maildir? && maildirTrash));
    if survives {
      KeepEmail(m, e, i, j, m.kind.Maildir? && maildirTrash, es, kept);
    } else {
      DropEmail(m, i, es, kept);
    }
  }

  // update_tables.  gc are the emails handed to mailbox_gc_add.
  method UpdateTables(m: Mailbox, maildirTrash: bool, ghost es: seq<Email>) returns (ghost kept: seq<Email>, gc: seq<Email>)
    requires Filled(m, es) && Distinct(es)
    modifies m`vcount, m`msgUnread, m`msgNew, m`msgFlagged, m`msgDeleted, m`msgTagged, m`changed, m`msgCount
    modifies m.emails, m.v2r, es`msgno, es`vnum, es`changed
    ensures kept == old(Survivors(es, m.kind.Maildir? && maildirTrash))
    ensures Holds(m, kept) && Numbered(m, kept) && Exact(m, kept) && NoneChanged(kept) && !m.changed
    ensures forall k :: |kept| <= k < |es| ==> m.emails[k] == null
    ensures forall k :: |es| <= k < m.emails.Length ==> m.emails[k] == old(m.emails[k])
    ensures forall e :: e in kept ==> (e.vnum == -1 <==> old(e.vnum) == -1)
    ensures |kept| + |gc| == |es| && forall e :: e in es ==> (e in gc <==> e !in kept)
    ensures forall e :: e in kept ==> e in es
  {
    hide *;
    ResetCounters(m);
    var i, j: nat := 0, 0;
    kept, gc := [], [];
    ghost var trash := m.kind.Maildir? && maildirTrash;
    UpdateStart(m, es, trash);
    while i < m.msgCount
      invariant Packed(m, es, i, kept) && Numbered(m, kept) && Exact(m, kept) && NoneChanged(kept) && j == |kept|
      invariant Sorted(es, i, kept, gc, trash) && i <= |es| && !m.changed
      invariant forall k :: |es| <= k < m.emails.Length ==> m.emails[k] == old(m.emails[k])
      invariant forall e :: e in es ==> (e.vnum == -1 <==> old(e.vnum) == -1)
    {
      PackedFacts(m, es, i, kept);
      if m.emails[i] == null {
        break;
      }
      var e: Email := m.emails[i];
      var survives := UpdateOne(m, e, i, j, maildirTrash, es, kept, gc);
      if survives {
        kept := kept + [e];
        j := j + 1;
      } else {
        gc := gc + [e];
      }
      i := i + 1;
    }
    PackedFacts(m, es, i, kept);
    PackedFront(m, es, i, kept);
    m.msgCount := j;
    UpdateEnd(m, es, kept, gc, trash);
  }

  // --- mview_update ---

  method NumberAfresh(m: Mailbox, e: Email, msgno: nat, hasLimit: bool, ghost done: seq<Email>)
    requires Numbered(m, done) && msgno == |done| < m.v2r.Length && e !in done
    modifies m.v2r, m`vcount, e`msgno, e`vnum
    ensures Numbered(m, done + [e]) && (e.vnum == -1 <==> hasLimit)
    ensures m.v2r == old(m.v2r)
  {
    hide Numbered;
    e.vnum := if hasLimit then -1 else 0;
    NumberEmail(m, e, msgno, done);
  }

  // The counts and numbers of all emails, from scratch (without scoring, which can set flags).
  method MviewUpdate(m: Mailbox, hasLimit: bool, ghost es: seq<Email>)
    requires Holds(m, es) && m.emails.Length <= m.v2r.Length
    modifies m`vcount, m`msgUnread, m`msgNew, m`msgFlagged, m`msgDeleted, m`msgTagged, m`changed
    modifies m.v2r, es`msgno, es`vnum
    ensures Holds(m, es) && Numbered(m, es) && Exact(m, es)
    ensures forall e :: e in es ==> (e.vnum == -1 <==> hasLimit)
    ensures m.changed <==> !NoneChanged(es)
  {
    hide Numbered, Exact, One, Ones, NoneChanged;
    ResetCounters(m);
    ghost var done: seq<Email> := [];
    NumberedNone(m);
    NoneChangedStart();
    for msgno := 0 to m.msgCount
      invariant Numbered(m, done) && Exact(m, done) && done == es[..msgno]
      invariant forall e :: e in done ==> (e.vnum == -1 <==> hasLimit)
      invariant m.changed <==> !NoneChanged(done)
    {
      var e: Email := m.emails[msgno];
      NotYet(es, msgno);
      NumberAfresh(m, e, msgno, hasLimit, done);
      NoneChangedStep(done, e);
      if e.changed {
        m.changed := true;
      }
      CountEmail(m, e, true, done);
      done := done + [e];
    }
    assert es[..|es|] == es;
  }

  lemma NumberedNone(m: Mailbox)
    requires m.vcount == 0
    ensures Numbered(m, [])
  {
  }

  lemma NoneChangedStart()
    ensures NoneChanged([])
  {
  }

  lemma NoneChangedStep(done: seq<Email>, e: Email)
    ensures NoneChanged(done + [e]) <==> NoneChanged(done) && !e.changed
  {
    assert forall x :: x in done + [e] <==> x in done || x == e;
  }
}
