// Threading by subject: make_subject_list and find_subject.
module Subjects {
  import opened Wrappers
  import opened Forests
  import opened Preorder
  import opened Threads
  import opened ThreadTree
  import opened Linearize
  import opened SubtreeWalk
  import opened TopmostWalk
  import opened SubjectList

  // --- make_subject_list ---

  function Date(e: Email, threadReceived: bool): int {
    if threadReceived then e.received else e.dateSent
  }

  // The earliest date, where 0 stands for none yet.
  ghost function Earliest(ds: seq<int>): int {
    if ds == [] then 0
    else
      var d := Earliest(ds[..|ds| - 1]);
      if d == 0 || ds[|ds| - 1] < d then ds[|ds| - 1] else d
  }

  // It is the earliest date exactly if no date is 0, or one is negative, or the last one is 0.
  ghost predicate Dated(ds: seq<int>) {
    0 !in ds || (exists d :: d in ds && d < 0) || (ds != [] && ds[|ds| - 1] == 0)
  }

  lemma EarliestIff(ds: seq<int>)
    requires ds != []
    ensures Earliest(ds) in ds
    ensures Dated(ds) <==> forall d :: d in ds ==> Earliest(ds) <= d
  {
    EarliestSign(ds);
  }

  lemma {:induction false} EarliestSign(ds: seq<int>)
    requires ds != []
    ensures Earliest(ds) in ds
    ensures Earliest(ds) <= 0 || 0 !in ds <==> forall d :: d in ds ==> Earliest(ds) <= d
    ensures forall d :: d in ds ==> d < 0 ==> Earliest(ds) <= d
    ensures Earliest(ds) == 0 ==> ds[|ds| - 1] == 0
    ensures ds[|ds| - 1] == 0 ==> Earliest(ds) <= 0
  {
    var front, last := ds[..|ds| - 1], ds[|ds| - 1];
    assert ds == front + [last];
    if front != [] {
      EarliestSign(front);
    }
  }

  // --- make_subject_list ---

  ghost predicate SubjectOf(e: Email, sortRe: bool, s: string) {
    e.realSubj == Some(s) && (e.isReply || !sortRe)
  }

  // The subjects of the nodes, in order.
  ghost function SubjectSeq(msg: map<MuttThread, Email>, tops: seq<MuttThread>, sortRe: bool): seq<string> {
    if tops == [] then []
    else
      var last := tops[|tops| - 1];
      SubjectSeq(msg, tops[..|tops| - 1], sortRe) +
      if last in msg && msg[last].realSubj.Some? && (msg[last].isReply || !sortRe) then [msg[last].realSubj.value] else []
  }

  // The list that make_subject_list makes of them.
  ghost predicate SubjectsOf(msg: map<MuttThread, Email>, tops: seq<MuttThread>, sortRe: bool, subjects: seq<string>) {
    subjects == ListFrom(SubjectSeq(msg, tops, sortRe))
  }

  // It holds just these.
  lemma {:induction false} SubjectsAre(msg: map<MuttThread, Email>, tops: seq<MuttThread>, sortRe: bool, s: string)
    ensures s in ListFrom(SubjectSeq(msg, tops, sortRe)) <==> HasSubject(msg, tops, sortRe, s)
  {
    hide SubjectSeq, ListFrom, HasSubject;
    ListMembers(SubjectSeq(msg, tops, sortRe));
    SeqStep(msg, tops, sortRe, s);
    if tops == [] {
      NoSubject(msg, sortRe, s);
    } else {
      var front, last := tops[..|tops| - 1], tops[|tops| - 1];
      SubjectsAre(msg, front, sortRe, s);
      ListMembers(SubjectSeq(msg, front, sortRe));
      HasSubjectSnoc(msg, front, last, sortRe, s);
      assert tops == front + [last];
    }
  }

  // A message among the nodes has the subject s.
  ghost predicate HasSubject(msg: map<MuttThread, Email>, tops: seq<MuttThread>, sortRe: bool, s: string) {
    exists t :: t in tops && t in msg && SubjectOf(msg[t], sortRe, s)
  }

  lemma NoSubject(msg: map<MuttThread, Email>, sortRe: bool, s: string)
    ensures !HasSubject(msg, [], sortRe, s)
  {
  }

  lemma HasSubjectSnoc(msg: map<MuttThread, Email>, tops: seq<MuttThread>, last: MuttThread, sortRe: bool, s: string)
    ensures HasSubject(msg, tops + [last], sortRe, s) <==> HasSubject(msg, tops, sortRe, s) || (last in msg && SubjectOf(msg[last], sortRe, s))
  {
    hide SubjectOf;
    assert forall t :: t in tops + [last] <==> t in tops || t == last;
  }

  lemma SeqStep(msg: map<MuttThread, Email>, tops: seq<MuttThread>, sortRe: bool, s: string)
    ensures tops == [] ==> SubjectSeq(msg, tops, sortRe) == []
    ensures tops != [] ==>
      var front, last := tops[..|tops| - 1], tops[|tops| - 1];
      s in SubjectSeq(msg, tops, sortRe) <==> s in SubjectSeq(msg, front, sortRe) || (last in msg && SubjectOf(msg[last], sortRe, s))
  {
  }

  ghost function Dates(msg: map<MuttThread, Email>, tops: seq<MuttThread>, threadReceived: bool): seq<int> {
    if tops == [] then []
    else
      var last := tops[|tops| - 1];
      Dates(msg, tops[..|tops| - 1], threadReceived) + [if last in msg then Date(msg[last], threadReceived) else 0]
  }

  lemma DatesSnoc(msg: map<MuttThread, Email>, tops: seq<MuttThread>, t: MuttThread, threadReceived: bool)
    requires t in msg
    ensures var d, thisdate := Earliest(Dates(msg, tops, threadReceived)), Date(msg[t], threadReceived);
            Earliest(Dates(msg, tops + [t], threadReceived)) == if d == 0 || thisdate < d then thisdate else d
  {
    assert (tops + [t])[..|tops|] == tops;
    var ds, d := Dates(msg, tops, threadReceived), Date(msg[t], threadReceived);
    assert (ds + [d])[..|ds|] == ds;
  }

  lemma SubjectsSnoc(msg: map<MuttThread, Email>, tops: seq<MuttThread>, t: MuttThread, sortRe: bool, subjects: seq<string>)
    requires t in msg && SubjectsOf(msg, tops, sortRe, subjects)
    ensures var e := msg[t];
      SubjectsOf(msg, tops + [t], sortRe, if e.realSubj.Some? && (e.isReply || !sortRe) then Listed(subjects, e.realSubj.value) else subjects)
  {
    hide Listed;
    var ss, e := SubjectSeq(msg, tops, sortRe), msg[t];
    assert (tops + [t])[..|tops|] == tops && (tops + [t])[|tops|] == t;
    if e.realSubj.Some? && (e.isReply || !sortRe) {
      assert (ss + [e.realSubj.value])[..|ss|] == ss;
    } else {
      assert ss + [] == ss;
    }
  }

  method MakeSubjectList(start: MuttThread, threadReceived: bool, sortRe: bool, ghost S: set<MuttThread>, ghost f: ThreadForest,
                         ghost head: MuttThread?, ghost msg: map<MuttThread, Email>)
      returns (subjects: seq<string>, date: int, ghost tops: seq<MuttThread>)
    requires Linked(S, f, head, {}) && Messages(S, msg) && Grown(f, msg) && Attached(f, start) && start in S
    ensures TopsAre(f, msg, start, tops)
    ensures date == Earliest(Dates(msg, tops, threadReceived))
    ensures SubjectsOf(msg, tops, sortRe, subjects)
  {
    hide *;
    var cur := start;
    subjects, date, tops := [], 0, [];
    ghost var seen: seq<MuttThread> := [];
    GrownWF(f, msg);
    GrownReal(f, msg);
    MessagesLess(S, msg, start);
    LinkedNodes(S, f, head, {});
    AtStart(f, msg, start);
    LinkedWalks(S, f, head, msg, start);
    NothingListed(msg, threadReceived, sortRe);
    while true
      invariant cur in S && At(f, msg, start, seen, tops, cur)
      invariant date == Earliest(Dates(msg, tops, threadReceived)) && SubjectsOf(msg, tops, sortRe, subjects)
      decreases Left(f, cur)
    {
      cur, seen := DownToMessage(start, cur, S, f, msg, seen, tops);
      var e: Email := cur.message;
      var thisdate := Date(e, threadReceived);
      DatesSnoc(msg, tops, cur, threadReceived);
      if date == 0 || thisdate < date {
        date := thisdate;
      }
      SubjectsSnoc(msg, tops, cur, sortRe, subjects);
      if e.realSubj.Some? && (e.isReply || !sortRe) {
        subjects := Listed(subjects, e.realSubj.value);
      }
      MessageStep(f, msg, start, seen, tops, cur);
      tops, seen := tops + [cur], seen + Pre(f, cur);
      var next := NextTop(start, cur, S, f, msg, seen, tops);
      if next == null {
        return;
      }
      cur := next;
    }
  }

  lemma GrownReal(f: ThreadForest, msg: map<MuttThread, Email>)
    requires Grown(f, msg)
    ensures Real(f, msg)
  {
  }

  lemma NothingListed(msg: map<MuttThread, Email>, threadReceived: bool, sortRe: bool)
    ensures Earliest(Dates(msg, [], threadReceived)) == 0 && SubjectsOf(msg, [], sortRe, [])
  {
  }

  // --- find_subject ---

  // Every email is the message of its own node, and every message is one of the emails.
  ghost predicate OwnNodes(E: set<Email>, msg: map<MuttThread, Email>)
    reads E`thread
  {
    && (forall e :: e in E ==> e.thread != null && e.thread in msg && msg[e.thread] == e)
    && (forall n :: n in msg ==> msg[n] in E && msg[n].thread == n)
  }

  // The hash table of subjects: each bucket holds at least the emails with that real subject.
  ghost predicate SubjectHash(hash: map<string, seq<Email>>, E: set<Email>) {
    && (forall k, e :: k in hash && e in hash[k] ==> e in E && e.realSubj.Some?)
    && (forall e :: e in E && e.realSubj.Some? ==> e.realSubj.value in hash && e in hash[e.realSubj.value])
  }

  // A possible parent for cur: another message, not pseudo-threaded, not in cur's own subtree, whose
  // subject differs from its parent's (ch is the set of these), is one of the subjects, and whose
  // date is not later.
  ghost predicate Eligible(f: ThreadForest, msg: map<MuttThread, Email>, fakes: set<MuttThread>, ch: set<Email>, cur: MuttThread,
                           subjects: seq<string>, date: int, threadReceived: bool, t: MuttThread) {
    && t in msg && t != cur && t !in fakes && msg[t] in ch && !IsUnder(f, t, cur)
    && date >= Date(msg[t], threadReceived) && msg[t].realSubj.Some? && msg[t].realSubj.value in subjects
  }

  // `last` is the latest of the eligible candidates with an email in seen.
  ghost predicate BestOf(f: ThreadForest, msg: map<MuttThread, Email>, fakes: set<MuttThread>, ch: set<Email>, cur: MuttThread,
                         subjects: seq<string>, date: int, threadReceived: bool, seen: set<Email>, last: MuttThread?) {
    && (last != null ==> last in msg && Eligible(f, msg, fakes, ch, cur, subjects, date, threadReceived, last))
    && (forall t :: t in msg && msg[t] in seen && Eligible(f, msg, fakes, ch, cur, subjects, date, threadReceived, t) ==>
         last != null && last in msg && Date(msg[t], threadReceived) <= Date(msg[last], threadReceived))
  }

  ghost predicate Changed(E: set<Email>, ch: set<Email>)
    reads E`subjectChanged
  {
    forall e :: e in E ==> (e.subjectChanged <==> e in ch)
  }

  ghost predicate Fakes(S: set<MuttThread>, fakes: set<MuttThread>)
    reads S`fakeThread
  {
    forall n :: n in S ==> (n.fakeThread <==> n in fakes)
  }

  // One candidate of a bucket.
  method TryCandidate(e: Email, np: string, cur: MuttThread, last0: MuttThread?, date: int, threadReceived: bool, ghost subjects: seq<string>,
                      ghost S: set<MuttThread>, ghost f: ThreadForest, ghost head: MuttThread?, ghost msg: map<MuttThread, Email>,
                      ghost fakes: set<MuttThread>, ghost ch: set<Email>, ghost E: set<Email>, ghost seen: set<Email>) returns (last: MuttThread?)
    requires Linked(S, f, head, {}) && Messages(S, msg) && WF(f) && Fakes(S, fakes) && Changed(E, ch) && OwnNodes(E, msg) && msg.Keys <= S
    requires e in E && np in subjects && (last0 != null ==> last0 in S)
    requires BestOf(f, msg, fakes, ch, cur, subjects, date, threadReceived, seen, last0)
    ensures last != null ==> last in S
    ensures BestOf(f, msg, fakes, ch, cur, subjects, date, threadReceived, if e.realSubj == Some(np) then seen + {e} else seen, last)
  {
    hide Linked, WF, IsUnder;
    last := last0;
    var tmp: MuttThread := e.thread;
    assert tmp in S && tmp.message == e;
    var under := IsDescendant(tmp, cur, S, f, head);
    if tmp != cur && !tmp.fakeThread && tmp.message.subjectChanged && !under &&
       date >= Date(tmp.message, threadReceived) &&
       (last == null || Date(last.message, threadReceived) < Date(tmp.message, threadReceived)) &&
       tmp.message.realSubj.Some? && np == tmp.message.realSubj.value
    {
      last := tmp;
    }
  }

  method FindSubject(cur: MuttThread, subjHash: map<string, seq<Email>>, threadReceived: bool, sortRe: bool, ghost S: set<MuttThread>,
                     ghost f: ThreadForest, ghost head: MuttThread?, ghost msg: map<MuttThread, Email>, ghost fakes: set<MuttThread>,
                     ghost ch: set<Email>, ghost E: set<Email>) returns (last: MuttThread?, ghost tops: seq<MuttThread>, ghost subjects: seq<string>)
    requires Linked(S, f, head, {}) && Messages(S, msg) && Grown(f, msg) && Fakes(S, fakes) && Changed(E, ch) && OwnNodes(E, msg) && SubjectHash(subjHash, E)
    requires Attached(f, cur) && cur in S && msg.Keys <= S
    ensures TopsAre(f, msg, cur, tops) && SubjectsOf(msg, tops, sortRe, subjects) && (last != null ==> last in S)
    ensures BestOf(f, msg, fakes, ch, cur, subjects, Earliest(Dates(msg, tops, threadReceived)), threadReceived, E, last)
  {
    hide *;
    var list, date;
    list, date, tops := MakeSubjectList(cur, threadReceived, sortRe, S, f, head, msg);
    subjects := list;
    GrownWF(f, msg);
    last := null;
    ghost var seen: set<Email> := {};
    NoneSeen(f, msg, fakes, ch, cur, subjects, date, threadReceived);
    for i := 0 to |list|
      invariant last != null ==> last in S
      invariant BestOf(f, msg, fakes, ch, cur, subjects, date, threadReceived, seen, last)
      invariant forall e, j :: e in E && 0 <= j < i && e.realSubj == Some(subjects[j]) ==> e in seen
    {
      var np := list[i];
      HashBucket(subjHash, E, np);
      if np in subjHash {
        var bucket := subjHash[np];
        for j := 0 to |bucket|
          invariant last != null ==> last in S
          invariant BestOf(f, msg, fakes, ch, cur, subjects, date, threadReceived, seen, last)
          invariant forall e, k :: e in E && 0 <= k < i && e.realSubj == Some(subjects[k]) ==> e in seen
          invariant forall k :: 0 <= k < j && bucket[k].realSubj == Some(np) ==> bucket[k] in seen
        {
          var e := bucket[j];
          last := TryCandidate(e, np, cur, last, date, threadReceived, subjects, S, f, head, msg, fakes, ch, E, seen);
          seen := if e.realSubj == Some(np) then seen + {e} else seen;
        }
      }
    }
    AllSeen(f, msg, fakes, ch, cur, subjects, date, threadReceived, E, seen, last);
  }

  lemma NoneSeen(f: ThreadForest, msg: map<MuttThread, Email>, fakes: set<MuttThread>, ch: set<Email>, cur: MuttThread, subjects: seq<string>,
                 date: int, threadReceived: bool)
    ensures BestOf(f, msg, fakes, ch, cur, subjects, date, threadReceived, {}, null)
  {
  }

  lemma HashBucket(hash: map<string, seq<Email>>, E: set<Email>, np: string)
    requires SubjectHash(hash, E)
    ensures np in hash ==> forall e :: e in hash[np] ==> e in E
    ensures forall e :: e in E && e.realSubj == Some(np) ==> np in hash && e in hash[np]
  {
  }

  lemma AllSeen(f: ThreadForest, msg: map<MuttThread, Email>, fakes: set<MuttThread>, ch: set<Email>, cur: MuttThread, subjects: seq<string>,
                date: int, threadReceived: bool, E: set<Email>, seen: set<Email>, last: MuttThread?)
    requires BestOf(f, msg, fakes, ch, cur, subjects, date, threadReceived, seen, last)
    requires forall e, j :: e in E && 0 <= j < |subjects| && e.realSubj == Some(subjects[j]) ==> e in seen
    ensures BestOf(f, msg, fakes, ch, cur, subjects, date, threadReceived, E, last)
  {
    hide IsUnder;
    forall t | t in msg && msg[t] in E && Eligible(f, msg, fakes, ch, cur, subjects, date, threadReceived, t) ensures msg[t] in seen {
      var j :| 0 <= j < |subjects| && subjects[j] == msg[t].realSubj.value;
    }
  }
}
