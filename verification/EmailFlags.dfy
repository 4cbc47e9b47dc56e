// The flags that can be set on an email, and the counters that summarise them.
module EmailFlags {
  datatype Flag = Delete | Purge | New | Old | Read | Replied | Important | Tag

  datatype Kind = Mbox | Mmdf | Mh | Maildir | Imap | Nntp | Notmuch

  // The flags of an email, remembered.
  datatype Flags = Flags(read: bool, isOld: bool, flagged: bool, deleted: bool, purge: bool, tagged: bool,
                         replied: bool, changed: bool, trash: bool, quasiDeleted: bool)

  // The flags go from s to t when a flag is set or cleared.
  ghost predicate Step(s: Flags, t: Flags, flag: Flag, bf: bool, flagSafe: bool, isImap: bool) {
    && t.deleted == (if flag.Delete? then bf && (s.deleted || !(s.flagged && flagSafe)) else s.deleted)
    && t.purge == (if flag.Purge? then bf else s.purge)
    && t.read == (match flag case New => !bf case Read => bf case Replied => s.read || (bf && !s.replied) case _ => s.read)
    && t.isOld == (match flag case New => s.isOld && !bf case Old => bf case _ => s.isOld)
    && t.replied == (if flag.Replied? then bf else s.replied)
    && t.flagged == (if flag.Important? then bf else s.flagged)
    && t.tagged == (if flag.Tag? then bf else s.tagged)
    && t.changed == (s.changed || Altered(s, t) || (isImap && t.deleted != s.deleted))
    && t.trash == s.trash && t.quasiDeleted == s.quasiDeleted
  }

  // The flags that are saved with the message differ.
  ghost predicate Altered(s: Flags, t: Flags) {
    t.read != s.read || t.isOld != s.isOld || t.flagged != s.flagged || t.replied != s.replied
  }

  // Each flag by itself: new is neither read nor old; a reply is read; a safe flagged message is not deleted.
  lemma StepSays(s: Flags, t: Flags, flag: Flag, bf: bool, flagSafe: bool, isImap: bool)
    requires Step(s, t, flag, bf, flagSafe, isImap)
    ensures flag.Delete? ==> t == s.(deleted := t.deleted, changed := t.changed) && (if bf then t.deleted == (s.deleted || !s.flagged || !flagSafe) else !t.deleted)
    ensures flag.Delete? ==> t.changed == (s.changed || (isImap && t.deleted != s.deleted))
    ensures flag.Purge? ==> t == s.(purge := bf)
    ensures flag.Tag? ==> t == s.(tagged := bf)
    ensures flag.New? && bf ==> t == s.(read := false, isOld := false, changed := s.changed || s.read || s.isOld)
    ensures flag.New? && !bf ==> t == s.(read := true, changed := s.changed || !s.read)
    ensures flag.Old? ==> t == s.(isOld := bf, changed := s.changed || s.isOld != bf)
    ensures flag.Read? ==> t == s.(read := bf, changed := s.changed || s.read != bf)
    ensures flag.Replied? && (bf ==> !s.replied) ==> t == s.(replied := bf, read := s.read || bf, changed := s.changed || s.replied != bf)
    ensures flag.Replied? && bf && s.replied ==> t == s
    ensures flag.Important? ==> t == s.(flagged := bf, changed := s.changed || s.flagged != bf)
  {
  }

  // Setting a flag twice is setting it once.
  lemma StepTwice(s: Flags, t: Flags, u: Flags, flag: Flag, bf: bool, flagSafe: bool, isImap: bool)
    requires Step(s, t, flag, bf, flagSafe, isImap) && Step(t, u, flag, bf, flagSafe, isImap)
    ensures Step(s, u, flag, bf, flagSafe, isImap)
  {
    match flag {
      case Delete =>
      case Purge =>
      case New =>
      case Old =>
      case Read =>
      case Replied =>
      case Important =>
      case Tag =>
    }
  }

  datatype Counts = Counts(unread: int, newMail: int, flagged: int, deleted: int, tagged: int)

  function Bit(b: bool): int { if b then 1 else 0 }

  function Plus(a: Counts, b: Counts): Counts {
    Counts(a.unread + b.unread, a.newMail + b.newMail, a.flagged + b.flagged, a.deleted + b.deleted, a.tagged + b.tagged)
  }

  // The sum c, when one of its parts changes from a to b.
  function Shift(c: Counts, a: Counts, b: Counts): Counts {
    Counts(c.unread - a.unread + b.unread, c.newMail - a.newMail + b.newMail, c.flagged - a.flagged + b.flagged,
      c.deleted - a.deleted + b.deleted, c.tagged - a.tagged + b.tagged)
  }

  const ZERO: Counts := Counts(0, 0, 0, 0, 0)

  ghost function Sum(cs: seq<Counts>): Counts {
    if cs == [] then ZERO else Plus(cs[0], Sum(cs[1..]))
  }

  lemma PlusLaws(a: Counts, b: Counts, c: Counts, d: Counts)
    ensures Plus(ZERO, a) == a && Plus(a, ZERO) == a
    ensures Plus(Plus(a, b), c) == Plus(a, Plus(b, c))
    ensures Plus(a, Shift(b, c, d)) == Shift(Plus(a, b), c, d)
    ensures Shift(Plus(a, b), a, c) == Plus(c, b)
  {
  }

  lemma {:induction false} SumAppend(a: seq<Counts>, b: seq<Counts>)
    ensures Sum(a + b) == Plus(Sum(a), Sum(b))
  {
    hide Plus;
    if a == [] {
      assert a + b == b;
      PlusLaws(Sum(b), ZERO, ZERO, ZERO);
    } else {
      assert (a + b)[1..] == a[1..] + b;
      SumAppend(a[1..], b);
      PlusLaws(a[0], Sum(a[1..]), Sum(b), ZERO);
    }
  }

  lemma SumSnoc(cs: seq<Counts>, c: Counts)
    ensures Sum(cs + [c]) == Plus(Sum(cs), c)
  {
    hide Plus;
    SumAppend(cs, [c]);
    assert Sum([c]) == Plus(c, Sum([]));
    PlusLaws(c, ZERO, ZERO, ZERO);
  }

  lemma {:induction false} SumUpdate(cs: seq<Counts>, i: nat, c: Counts)
    requires i < |cs|
    ensures Sum(cs[i := c]) == Shift(Sum(cs), cs[i], c)
  {
    hide Plus, Shift;
    if i == 0 {
      assert cs[i := c][1..] == cs[1..];
      PlusLaws(cs[0], Sum(cs[1..]), c, ZERO);
    } else {
      assert cs[i := c][1..] == cs[1..][i - 1 := c];
      SumUpdate(cs[1..], i - 1, c);
      PlusLaws(cs[0], Sum(cs[1..]), cs[i], c);
    }
  }

  // The count is exact enough to tell whether some message, or every message, is deleted.
  lemma {:induction false} DeletedSum(cs: seq<Counts>)
    requires forall c :: c in cs ==> c.deleted == 0 || c.deleted == 1
    ensures 0 <= Sum(cs).deleted <= |cs|
    ensures Sum(cs).deleted == 0 <==> forall c :: c in cs ==> c.deleted == 0
    ensures Sum(cs).deleted == |cs| <==> forall c :: c in cs ==> c.deleted == 1
  {
    if cs != [] {
      DeletedSum(cs[1..]);
      assert Sum(cs).deleted == cs[0].deleted + Sum(cs[1..]).deleted;
      assert cs[0] in cs && forall c :: c in cs <==> c == cs[0] || c in cs[1..];
    }
  }
}
