// email/sort.c: the order of two emails under a sort method.
module EmailOrder {
  import opened Threads

  // A sort method with its flags SORT_REVERSE and SORT_LAST.
  datatype SortType = SortType(key: nat, reverse: bool, last: bool)

  // The sort functions, as ranks: of(e, key) grows along the method `key`; index is the place in the mailbox.
  datatype Ranks = Ranks(of: (Email, nat) -> int, index: Email -> int)

  const EMAIL_SORT_THREADS: nat := 8

  function Turned(s: SortType): SortType { s.(reverse := !s.reverse) }

  function ThreeWay(a: int, b: int): int {
    if a < b then -1 else if a > b then 1 else 0
  }

  function Signed(c: int, reverse: bool): int {
    if reverse then -c else c
  }

  // mutt_compare_emails, with EMAIL_SORT_UNSORTED, possibly reversed, as the second method.
  function Compare(r: Ranks, a: Email, b: Email, sort: SortType, unsortedReverse: bool): int {
    var c := Signed(ThreeWay(r.of(a, sort.key), r.of(b, sort.key)), sort.reverse);
    if c != 0 then c
    else
      var d := Signed(ThreeWay(r.index(a), r.index(b)), unsortedReverse);
      if d != 0 then d else ThreeWay(r.index(a), r.index(b))
  }

  lemma CompareOrder(r: Ranks, a: Email, b: Email, c: Email, sort: SortType, ur: bool)
    ensures Compare(r, a, b, sort, ur) == -Compare(r, b, a, sort, ur)
    ensures Compare(r, a, b, sort, ur) <= 0 && Compare(r, b, c, sort, ur) <= 0 ==> Compare(r, a, c, sort, ur) <= 0
  {
  }

  // Sorting backwards by the turned methods is sorting forwards by the methods.
  lemma CompareTurned(r: Ranks, a: Email, b: Email, sort: SortType, ur: bool)
    ensures Compare(r, a, b, sort, ur) == Compare(r, b, a, Turned(sort), !ur)
  {
  }

  // What a comparison says about the ranks.
  lemma CompareRanks(r: Ranks, a: Email, b: Email, sort: SortType, ur: bool)
    ensures Compare(r, a, b, sort, ur) <= 0 && !sort.reverse ==> r.of(a, sort.key) <= r.of(b, sort.key)
    ensures Compare(r, a, b, sort, ur) <= 0 && sort.reverse ==> r.of(b, sort.key) <= r.of(a, sort.key)
  {
  }
}
