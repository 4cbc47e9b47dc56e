// email_sort_spam (email/sort.c): spam tags that begin with a number are compared as numbers, others as
// strings, and one of each by what follows the number.
module SpamOrder {
  import opened Wrappers
  import opened SubjectList

  // A spam tag: the number it begins with, if it does, and what follows.
  datatype Tag = Tag(number: Option<real>, text: string)

  function NumberOrder(a: real, b: real): int {
    if a - b < 0.0 then -1 else if a - b > 0.0 then 1 else 0
  }

  // email_sort_spam, for emails with or without a tag.
  function SpamCompare(a: Option<Tag>, b: Option<Tag>, reverse: bool): int {
    if a.Some? && b.None? then (if reverse then -1 else 1)
    else if a.None? && b.Some? then (if reverse then 1 else -1)
    else if a.None? && b.None? then 0
    else
      var result := if a.value.number.None? || b.value.number.None? then 0 else NumberOrder(a.value.number.value, b.value.number.value);
      var r := if result == 0 then Cmp(a.value.text, b.value.text) else result;
      if reverse then -r else r
  }

  lemma SpamTurned(a: Option<Tag>, b: Option<Tag>, reverse: bool)
    ensures SpamCompare(a, b, reverse) < 0 <==> SpamCompare(b, a, reverse) > 0
    ensures SpamCompare(a, b, !reverse) == -SpamCompare(a, b, reverse)
  {
    if a.Some? && b.Some? {
      CmpTurned(a.value.text, b.value.text);
      CmpTurned(b.value.text, a.value.text);
    }
  }

  // An email without a tag comes first; numbers count before what follows them, and a number before text does not
  // count against text alone.
  lemma SpamSays(a: Tag, b: Tag)
    ensures SpamCompare(None, Some(a), false) < 0 && SpamCompare(None, None, false) == SpamCompare(None, None, true) == 0 && SpamCompare(None, Some(a), true) > 0
    ensures a.number.Some? && b.number.Some? && a.number.value != b.number.value ==> (SpamCompare(Some(a), Some(b), false) < 0 <==> a.number.value < b.number.value)
    ensures a.number.None? || b.number.None? || a.number.value == b.number.value ==> SpamCompare(Some(a), Some(b), false) == Cmp(a.text, b.text)
  {
  }

  // The comparison orders the tags.
  ghost predicate Ordered(tags: seq<Option<Tag>>, reverse: bool) {
    forall a, b, c :: a in tags && b in tags && c in tags && SpamCompare(a, b, reverse) <= 0 && SpamCompare(b, c, reverse) <= 0
      ==> SpamCompare(a, c, reverse) <= 0
  }

  // A tag without a number stands between two with numbers, by what follows these, the other way round
  // than their numbers.
  ghost predicate Crossed(a: Option<Tag>, b: Option<Tag>, s: Option<Tag>) {
    && a.Some? && b.Some? && s.Some? && a.value.number.Some? && b.value.number.Some? && s.value.number.None?
    && a.value.number.value < b.value.number.value && Cmp(b.value.text, s.value.text) <= 0 && Cmp(s.value.text, a.value.text) <= 0
  }

  lemma SpamOrderIff(tags: seq<Option<Tag>>, reverse: bool)
    ensures Ordered(tags, reverse) <==> !exists a, b, s :: a in tags && b in tags && s in tags && Crossed(a, b, s)
  {
    hide SpamCompare, Crossed;
    if a, b, s :| a in tags && b in tags && s in tags && Crossed(a, b, s) {
      CrossedBreaks(a, b, s, reverse);
    } else {
      forall a, b, c | a in tags && b in tags && c in tags && SpamCompare(a, b, reverse) <= 0 && SpamCompare(b, c, reverse) <= 0
        ensures SpamCompare(a, c, reverse) <= 0
      {
        if reverse {
          SpamTurned(a, b, false);
          SpamTurned(b, c, false);
          SpamTurned(a, c, false);
          SpamTurned(b, a, false);
          SpamTurned(c, b, false);
          SpamTurned(c, a, false);
          Transitive(c, b, a);
        } else {
          Transitive(a, b, c);
        }
      }
    }
  }

  lemma CrossedBreaks(a: Option<Tag>, b: Option<Tag>, s: Option<Tag>, reverse: bool)
    requires Crossed(a, b, s)
    ensures if reverse then SpamCompare(a, s, true) <= 0 && SpamCompare(s, b, true) <= 0 && SpamCompare(a, b, true) > 0
            else SpamCompare(b, s, false) <= 0 && SpamCompare(s, a, false) <= 0 && SpamCompare(b, a, false) > 0
  {
    CmpTurned(a.value.text, s.value.text);
    CmpTurned(s.value.text, a.value.text);
    CmpTurned(b.value.text, s.value.text);
    CmpTurned(s.value.text, b.value.text);
  }

  // Three tags of which none is crossed by the others are in order.
  lemma Transitive(a: Option<Tag>, b: Option<Tag>, c: Option<Tag>)
    requires SpamCompare(a, b, false) <= 0 && SpamCompare(b, c, false) <= 0
    requires !Crossed(c, a, b) && !Crossed(a, b, c) && !Crossed(b, c, a)
    ensures SpamCompare(a, c, false) <= 0
  {
    if a.Some? && b.Some? && c.Some? {
      TransitiveText(a.value.text, b.value.text, c.value.text);
    }
  }

  lemma TransitiveText(a: string, b: string, c: string)
    ensures Cmp(a, b) <= 0 && Cmp(b, c) <= 0 ==> Cmp(a, c) <= 0
    ensures Cmp(a, b) > 0 ==> Cmp(b, a) < 0
    ensures Cmp(b, c) > 0 ==> Cmp(c, b) < 0
    ensures Cmp(a, c) > 0 ==> Cmp(c, a) < 0
    ensures Cmp(c, a) <= 0 && Cmp(a, b) <= 0 ==> Cmp(c, b) <= 0
    ensures Cmp(b, c) <= 0 && Cmp(c, a) <= 0 ==> Cmp(b, a) <= 0
    ensures Cmp(a, b) == 0 <==> a == b
  {
    CmpTurned(b, a);
    CmpTurned(c, b);
    CmpTurned(c, a);
    if Cmp(a, b) <= 0 && Cmp(b, c) <= 0 { CmpTrans(a, b, c); }
    if Cmp(c, a) <= 0 && Cmp(a, b) <= 0 { CmpTrans(c, a, b); }
    if Cmp(b, c) <= 0 && Cmp(c, a) <= 0 { CmpTrans(b, c, a); }
  }

  // 1 with z after it comes before 2, that before y, and that before 1 with z after it.
  lemma SpamCycle()
    ensures var a, s, b := Some(Tag(Some(1.0), "z")), Some(Tag(None, "y")), Some(Tag(Some(2.0), ""));
      SpamCompare(a, b, false) < 0 && SpamCompare(b, s, false) < 0 && SpamCompare(s, a, false) < 0
  {
  }
}
