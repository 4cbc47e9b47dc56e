// flags.c: setting the flags of emails, and the mailbox counters that follow them.
module Accounting {
  import opened EmailFlags
  import opened Threads

  class Mailbox {
    const kind: Kind
    var readonly: bool
    var mayDelete: bool
    var maySee: bool
    var mayWrite: bool

    var emails: array<Email?>
    var msgCount: nat
    var v2r: array<int>
    var vcount: nat

    var msgUnread: int
    var msgNew: int
    var msgFlagged: int
    var msgDeleted: int
    var msgTagged: int
    var changed: bool

    constructor (kind: Kind, emails: array<Email?>, v2r: array<int>)
      ensures this.kind == kind && this.emails == emails && this.v2r == v2r && msgCount == vcount == 0
      ensures Counters(this) == ZERO && !changed && !readonly && mayDelete && maySee && mayWrite
    {
      this.kind, this.emails, this.v2r := kind, emails, v2r;
      readonly, mayDelete, maySee, mayWrite := false, true, true, true;
      msgCount, vcount, changed := 0, 0, false;
      msgUnread, msgNew, msgFlagged, msgDeleted, msgTagged := 0, 0, 0, 0, 0;
    }
  }

  // The rights that setting a flag takes.
  predicate Permitted(m: Mailbox, flag: Flag)
    reads m`readonly, m`mayDelete, m`maySee, m`mayWrite
  {
    match flag
    case Delete => !m.readonly && m.mayDelete
    case Purge => !m.readonly && m.mayDelete
    case New => !m.readonly && m.maySee
    case Old => !m.readonly && m.maySee
    case Read => !m.readonly && m.maySee
    case Replied => !m.readonly && m.mayWrite
    case Important => !m.readonly && m.mayWrite
    case Tag => true
  }

  // A read-only mailbox allows tags alone; tags need no right.
  lemma PermittedIs(m: Mailbox, flag: Flag)
    ensures Permitted(m, flag) <==>
      flag.Tag? || (!m.readonly && if flag.Delete? || flag.Purge? then m.mayDelete else if flag.Replied? || flag.Important? then m.mayWrite else m.maySee)
  {
  }

  function Counters(m: Mailbox): Counts
    reads m`msgUnread, m`msgNew, m`msgFlagged, m`msgDeleted, m`msgTagged
  {
    Counts(m.msgUnread, m.msgNew, m.msgFlagged, m.msgDeleted, m.msgTagged)
  }

  // What one email adds to the counters.
  function One(e: Email): (c: Counts)
    reads e
    ensures c.deleted == 0 || c.deleted == 1
  {
    Counts(Bit(!e.read), Bit(!e.read && !e.isOld), Bit(e.flagged), Bit(e.deleted), Bit(e.tagged))
  }

  ghost function FlagsOf(e: Email): (s: Flags)
    reads e
    ensures s.deleted == e.deleted && s.purge == e.purge && s.read == e.read && s.isOld == e.isOld && s.replied == e.replied
    ensures s.flagged == e.flagged && s.tagged == e.tagged && s.changed == e.changed && s.trash == e.trash
    ensures s.quasiDeleted == e.quasiDeleted
  {
    Flags(e.read, e.isOld, e.flagged, e.deleted, e.purge, e.tagged, e.replied, e.changed, e.trash, e.quasiDeleted)
  }

  // The email's flags after a permitted flag has been set or cleared.
  twostate predicate Flagged(e: Email, flag: Flag, bf: bool, flagSafe: bool, isImap: bool)
    reads e
  {
    Step(old(FlagsOf(e)), FlagsOf(e), flag, bf, flagSafe, isImap)
  }

  twostate predicate Untouched(e: Email)
    reads e
  {
    FlagsOf(e) == old(FlagsOf(e))
  }

  // The counters follow the change of one email.
  twostate predicate Counted(m: Mailbox, e: Email)
    reads m`msgUnread, m`msgNew, m`msgFlagged, m`msgDeleted, m`msgTagged, e
  {
    && m.msgUnread == old(m.msgUnread) - Bit(!old(e.read)) + Bit(!e.read)
    && m.msgNew == old(m.msgNew) - Bit(!old(e.read) && !old(e.isOld)) + Bit(!e.read && !e.isOld)
    && m.msgFlagged == old(m.msgFlagged) - Bit(old(e.flagged)) + Bit(e.flagged)
    && m.msgDeleted == old(m.msgDeleted) - Bit(old(e.deleted)) + Bit(e.deleted)
    && m.msgTagged == old(m.msgTagged) - Bit(old(e.tagged)) + Bit(e.tagged)
  }

  twostate predicate Uncounted(m: Mailbox)
    reads m`msgUnread, m`msgNew, m`msgFlagged, m`msgDeleted, m`msgTagged
  {
    && m.msgUnread == old(m.msgUnread) && m.msgNew == old(m.msgNew) && m.msgFlagged == old(m.msgFlagged)
    && m.msgDeleted == old(m.msgDeleted) && m.msgTagged == old(m.msgTagged)
  }

  // IMAP servers keep the deleted flag.
  twostate predicate ServerChanged(m: Mailbox, e: Email)
    reads e`deleted
  {
    m.kind.Imap? && e.deleted != old(e.deleted)
  }

  // Undeleting a message that a maildir folder marks as trash changes the folder, but not the message.
  twostate predicate FolderChanged(m: Mailbox, e: Email)
    reads e`deleted, e`trash
  {
    ServerChanged(m, e) || (m.kind.Maildir? && old(e.deleted) && !e.deleted && e.trash)
  }

  // What a permitted call of mutt_set_flag does.
  twostate predicate Sets(m: Mailbox, e: Email, flag: Flag, bf: bool, upd: bool, flagSafe: bool)
    reads m, e
  {
    && Flagged(e, flag, bf, flagSafe, m.kind.Imap?)
    && (if upd then Counted(m, e) else Uncounted(m))
    && m.changed == (old(m.changed) || (upd && (Altered(old(FlagsOf(e)), FlagsOf(e)) || FolderChanged(m, e))))
  }

  method Change(m: Mailbox, e: Email, upd: bool)
    modifies m`changed, e`changed
    ensures e.changed && m.changed == (old(m.changed) || upd)
  {
    e.changed := true;
    if upd { m.changed := true; }
  }

  // The cases of the switch.

  method SetDelete(m: Mailbox, e: Email, bf: bool, upd: bool, flagSafe: bool)
    requires !m.readonly
    modifies m`changed, m`msgDeleted, e`deleted, e`changed
    ensures e.deleted == (bf && (old(e.deleted) || !(e.flagged && flagSafe)))
    ensures m.msgDeleted == old(m.msgDeleted) + if upd then Bit(e.deleted) - Bit(old(e.deleted)) else 0
    ensures e.changed == (old(e.changed) || ServerChanged(m, e))
    ensures m.changed == (old(m.changed) || (upd && FolderChanged(m, e)))
  {
    if bf {
      if !e.deleted && !m.readonly && (!e.flagged || !flagSafe) {
        e.deleted := true;
        if upd { m.msgDeleted := m.msgDeleted + 1; }
        if m.kind.Imap? {
          Change(m, e, upd);
        }
      }
    } else if e.deleted {
      e.deleted := false;
      if upd { m.msgDeleted := m.msgDeleted - 1; }
      if m.kind.Imap? {
        Change(m, e, upd);
      }
      if m.kind.Maildir? && upd && e.trash { m.changed := true; }
    }
  }

  method SetPurge(m: Mailbox, e: Email, bf: bool, upd: bool)
    requires !m.readonly
    modifies e`purge
    ensures e.purge == bf
  {
    if bf {
      if !e.purge && !m.readonly { e.purge := true; }
    } else if e.purge {
      e.purge := false;
    }
  }

  method SetNew(m: Mailbox, e: Email, bf: bool, upd: bool)
    modifies m`changed, m`msgNew, m`msgUnread, e`isOld, e`read, e`changed
    ensures e.read == !bf && e.isOld == (old(e.isOld) && !bf)
    ensures m.msgUnread == old(m.msgUnread) + if upd then Bit(!e.read) - Bit(!old(e.read)) else 0
    ensures m.msgNew == old(m.msgNew) + if upd then Bit(!e.read && !e.isOld) - Bit(!old(e.read) && !old(e.isOld)) else 0
    ensures e.changed == (old(e.changed) || (if bf then old(e.read) || old(e.isOld) else !old(e.read))) && m.changed == (old(m.changed) || (upd && (if bf then old(e.read) || old(e.isOld) else !old(e.read))))
  {
    if bf {
      if e.read || e.isOld {
        e.isOld := false;
        if upd { m.msgNew := m.msgNew + 1; }
        if e.read {
          e.read := false;
          if upd { m.msgUnread := m.msgUnread + 1; }
        }
        Change(m, e, upd);
      }
    } else if !e.read {
      if !e.isOld {
        if upd { m.msgNew := m.msgNew - 1; }
      }
      e.read := true;
      if upd { m.msgUnread := m.msgUnread - 1; }
      Change(m, e, upd);
    }
  }

  method SetOld(m: Mailbox, e: Email, bf: bool, upd: bool)
    modifies m`changed, m`msgNew, e`isOld, e`changed
    ensures e.isOld == bf
    ensures m.msgNew == old(m.msgNew) + if upd then Bit(!e.read && !e.isOld) - Bit(!old(e.read) && !old(e.isOld)) else 0
    ensures e.changed == (old(e.changed) || e.isOld != old(e.isOld)) && m.changed == (old(m.changed) || (upd && e.isOld != old(e.isOld)))
  {
    if bf {
      if !e.isOld {
        e.isOld := true;
        if !e.read {
          if upd { m.msgNew := m.msgNew - 1; }
        }
        Change(m, e, upd);
      }
    } else if e.isOld {
      e.isOld := false;
      if !e.read {
        if upd { m.msgNew := m.msgNew + 1; }
      }
      Change(m, e, upd);
    }
  }

  method SetRead(m: Mailbox, e: Email, bf: bool, upd: bool)
    modifies m`changed, m`msgNew, m`msgUnread, e`read, e`changed
    ensures e.read == bf
    ensures m.msgUnread == old(m.msgUnread) + if upd then Bit(!e.read) - Bit(!old(e.read)) else 0
    ensures m.msgNew == old(m.msgNew) + if upd then Bit(!e.read && !e.isOld) - Bit(!old(e.read) && !old(e.isOld)) else 0
    ensures e.changed == (old(e.changed) || e.read != old(e.read)) && m.changed == (old(m.changed) || (upd && e.read != old(e.read)))
  {
    if bf {
      if !e.read {
        e.read := true;
        if upd { m.msgUnread := m.msgUnread - 1; }
        if !e.isOld {
          if upd { m.msgNew := m.msgNew - 1; }
        }
        Change(m, e, upd);
      }
    } else if e.read {
      e.read := false;
      if upd { m.msgUnread := m.msgUnread + 1; }
      if !e.isOld {
        if upd { m.msgNew := m.msgNew + 1; }
      }
      Change(m, e, upd);
    }
  }

  method SetReplied(m: Mailbox, e: Email, bf: bool, upd: bool)
    modifies m`changed, m`msgNew, m`msgUnread, e`read, e`replied, e`changed
    ensures e.replied == bf && e.read == (old(e.read) || (bf && !old(e.replied)))
    ensures m.msgUnread == old(m.msgUnread) + if upd then Bit(!e.read) - Bit(!old(e.read)) else 0
    ensures m.msgNew == old(m.msgNew) + if upd then Bit(!e.read && !e.isOld) - Bit(!old(e.read) && !old(e.isOld)) else 0
    ensures e.changed == (old(e.changed) || e.replied != old(e.replied)) && m.changed == (old(m.changed) || (upd && e.replied != old(e.replied)))
  {
    if bf {
      if !e.replied {
        e.replied := true;
        if !e.read {
          e.read := true;
          if upd { m.msgUnread := m.msgUnread - 1; }
          if !e.isOld {
            if upd { m.msgNew := m.msgNew - 1; }
          }
        }
        Change(m, e, upd);
      }
    } else if e.replied {
      e.replied := false;
      Change(m, e, upd);
    }
  }

  method SetImportant(m: Mailbox, e: Email, bf: bool, upd: bool)
    modifies m`changed, m`msgFlagged, e`flagged, e`changed
    ensures e.flagged == bf
    ensures m.msgFlagged == old(m.msgFlagged) + if upd then Bit(e.flagged) - Bit(old(e.flagged)) else 0
    ensures e.changed == (old(e.changed) || e.flagged != old(e.flagged)) && m.changed == (old(m.changed) || (upd && e.flagged != old(e.flagged)))
  {
    if bf {
      if !e.flagged {
        e.flagged := bf;
        if upd { m.msgFlagged := m.msgFlagged + 1; }
        Change(m, e, upd);
      }
    } else if e.flagged {
      e.flagged := false;
      if upd { m.msgFlagged := m.msgFlagged - 1; }
      Change(m, e, upd);
    }
  }

  method SetTag(m: Mailbox, e: Email, bf: bool, upd: bool)
    modifies m`msgTagged, e`tagged
    ensures e.tagged == bf
    ensures m.msgTagged == old(m.msgTagged) + if upd then Bit(e.tagged) - Bit(old(e.tagged)) else 0
  {
    if bf {
      if !e.tagged {
        e.tagged := true;
        if upd { m.msgTagged := m.msgTagged + 1; }
      }
    } else if e.tagged {
      e.tagged := false;
      if upd { m.msgTagged := m.msgTagged - 1; }
    }
  }

  // The same cases, seen as settings of a flag.

  method DeleteFlag(m: Mailbox, e: Email, bf: bool, upd: bool, flagSafe: bool)
    requires !m.readonly
    modifies m`changed, m`msgDeleted, e`deleted, e`changed
    ensures Sets(m, e, Delete, bf, upd, flagSafe)
  {
    hide Bit, FlagsOf;
    SetDelete(m, e, bf, upd, flagSafe);
  }

  method PurgeFlag(m: Mailbox, e: Email, bf: bool, upd: bool, flagSafe: bool)
    requires !m.readonly
    modifies e`purge
    ensures Sets(m, e, Purge, bf, upd, flagSafe)
  {
    hide Bit, FlagsOf;
    SetPurge(m, e, bf, upd);
  }

  method NewFlag(m: Mailbox, e: Email, bf: bool, upd: bool, flagSafe: bool)
    modifies m`changed, m`msgNew, m`msgUnread, e`isOld, e`read, e`changed
    ensures Sets(m, e, New, bf, upd, flagSafe)
  {
    hide Bit, FlagsOf;
    SetNew(m, e, bf, upd);
  }

  method OldFlag(m: Mailbox, e: Email, bf: bool, upd: bool, flagSafe: bool)
    modifies m`changed, m`msgNew, e`isOld, e`changed
    ensures Sets(m, e, Old, bf, upd, flagSafe)
  {
    hide Bit, FlagsOf;
    SetOld(m, e, bf, upd);
  }

  method ReadFlag(m: Mailbox, e: Email, bf: bool, upd: bool, flagSafe: bool)
    modifies m`changed, m`msgNew, m`msgUnread, e`read, e`changed
    ensures Sets(m, e, Read, bf, upd, flagSafe)
  {
    hide Bit, FlagsOf;
    SetRead(m, e, bf, upd);
  }

  method RepliedFlag(m: Mailbox, e: Email, bf: bool, upd: bool, flagSafe: bool)
    modifies m`changed, m`msgNew, m`msgUnread, e`read, e`replied, e`changed
    ensures Sets(m, e, Replied, bf, upd, flagSafe)
  {
    hide Bit, FlagsOf;
    SetReplied(m, e, bf, upd);
  }

  method ImportantFlag(m: Mailbox, e: Email, bf: bool, upd: bool, flagSafe: bool)
    modifies m`changed, m`msgFlagged, e`flagged, e`changed
    ensures Sets(m, e, Important, bf, upd, flagSafe)
  {
    hide Bit, FlagsOf;
    SetImportant(m, e, bf, upd);
  }

  method TagFlag(m: Mailbox, e: Email, bf: bool, upd: bool, flagSafe: bool)
    modifies m`msgTagged, e`tagged
    ensures Sets(m, e, Tag, bf, upd, flagSafe)
  {
    hide Bit, FlagsOf;
    SetTag(m, e, bf, upd);
  }

  // mutt_set_flag, for one email by itself.
  method ApplyFlag(m: Mailbox, e: Email, flag: Flag, bf: bool, upd: bool, flagSafe: bool)
    modifies m`changed, m`msgUnread, m`msgNew, m`msgFlagged, m`msgDeleted, m`msgTagged
    modifies e`read, e`isOld, e`flagged, e`deleted, e`purge, e`tagged, e`replied, e`changed
    ensures Permitted(m, flag) ==> Sets(m, e, flag, bf, upd, flagSafe)
    ensures !Permitted(m, flag) ==> Untouched(e) && Uncounted(m) && m.changed == old(m.changed)
  {
    hide Sets, Flagged, Counted, Altered, Bit;
    if !Permitted(m, flag) {
      return;
    }
    match flag {
      case Delete =>
        DeleteFlag(m, e, bf, upd, flagSafe);
      case Purge =>
        PurgeFlag(m, e, bf, upd, flagSafe);
      case New =>
        NewFlag(m, e, bf, upd, flagSafe);
      case Old =>
        OldFlag(m, e, bf, upd, flagSafe);
      case Read =>
        ReadFlag(m, e, bf, upd, flagSafe);
      case Replied =>
        RepliedFlag(m, e, bf, upd, flagSafe);
      case Important =>
        ImportantFlag(m, e, bf, upd, flagSafe);
      case Tag =>
        TagFlag(m, e, bf, upd, flagSafe);
    }
  }

  // --- the counters of a mailbox ---

  // The mailbox holds these emails.
  ghost predicate Holds(m: Mailbox, es: seq<Email>)
    reads m`emails, m`msgCount, m.emails
  {
    && |es| == m.msgCount <= m.emails.Length
    && (forall i :: 0 <= i < |es| ==> m.emails[i] == es[i])
    && Distinct(es)
  }

  ghost predicate Distinct(es: seq<Email>) {
    forall i, j :: 0 <= i < j < |es| ==> es[i] != es[j]
  }

  ghost function Ones(es: seq<Email>): (cs: seq<Counts>)
    reads es
    ensures |cs| == |es| && forall i :: 0 <= i < |cs| ==> cs[i] == One(es[i])
  {
    seq(|es|, i requires 0 <= i < |es| reads es => One(es[i]))
  }

  // The counters are what a recount of the emails would give.
  ghost predicate Exact(m: Mailbox, es: seq<Email>)
    reads m`msgUnread, m`msgNew, m`msgFlagged, m`msgDeleted, m`msgTagged, es
  {
    Counters(m) == Sum(Ones(es))
  }

  // The counters after a call, as the sum they were before with one part changed.
  method ShiftFlag(m: Mailbox, e: Email, flag: Flag, bf: bool, upd: bool, flagSafe: bool)
    modifies m`changed, m`msgUnread, m`msgNew, m`msgFlagged, m`msgDeleted, m`msgTagged
    modifies e`read, e`isOld, e`flagged, e`deleted, e`purge, e`tagged, e`replied, e`changed
    ensures Permitted(m, flag) ==> Sets(m, e, flag, bf, upd, flagSafe)
    ensures !Permitted(m, flag) ==> Untouched(e) && Uncounted(m) && m.changed == old(m.changed)
    ensures upd ==> Counters(m) == Shift(old(Counters(m)), old(One(e)), One(e))
  {
    hide Bit, Altered, Flagged;
    ApplyFlag(m, e, flag, bf, upd, flagSafe);
  }

  // mutt_set_flag, for an email of the mailbox.
  method SetFlag(m: Mailbox, e: Email, flag: Flag, bf: bool, upd: bool, flagSafe: bool, ghost es: seq<Email>)
    requires e in es && Distinct(es)
    modifies m`changed, m`msgUnread, m`msgNew, m`msgFlagged, m`msgDeleted, m`msgTagged
    modifies e`read, e`isOld, e`flagged, e`deleted, e`purge, e`tagged, e`replied, e`changed
    ensures Permitted(m, flag) ==> Sets(m, e, flag, bf, upd, flagSafe)
    ensures !Permitted(m, flag) ==> Untouched(e) && Uncounted(m) && m.changed == old(m.changed)
    ensures upd && old(Exact(m, es)) ==> Exact(m, es)
  {
    hide Sum, Sets, Untouched, Uncounted, Permitted, Counters, Shift, One;
    ghost var i :| 0 <= i < |es| && es[i] == e;
    ghost var cs := Ones(es);
    ShiftFlag(m, e, flag, bf, upd, flagSafe);
    assert Ones(es) == cs[i := One(e)];
    SumUpdate(cs, i, One(e));
  }
}
