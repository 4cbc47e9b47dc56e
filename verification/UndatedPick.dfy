// An input on which pseudo_threads chooses a parent that is later than a message of the thread.
module UndatedPick {
  import opened Wrappers
  import opened Forests
  import opened Preorder
  import opened Threads
  import opened Linearize
  import opened TopmostWalk
  import opened SubjectList
  import opened Subjects
  import opened SubjectTree

  // Two threads: cur with the children ks, and q.
  ghost function Broom(cur: MuttThread, q: MuttThread, ks: seq<MuttThread>): ThreadForest {
    var nodes := {cur, q} + set k | k in ks;
    Forest([cur, q], map n | n in nodes :: if n in ks then Some(cur) else None,
           map n | n in nodes :: if n == cur then ks else [], map n | n in nodes :: if n in ks then 1 else 0, 2)
  }

  ghost predicate Distinct(cur: MuttThread, q: MuttThread, ks: seq<MuttThread>) {
    cur != q && cur !in ks && q !in ks && NoDup(ks) && ks != []
  }

  lemma BroomGrown(cur: MuttThread, q: MuttThread, ks: seq<MuttThread>, msg: map<MuttThread, Email>)
    requires Distinct(cur, q, ks) && msg.Keys == {q} + set k | k in ks
    ensures Grown(Broom(cur, q, ks), msg)
  {
    var f := Broom(cur, q, ks);
    assert f.kids.Keys == f.par.Keys && f.lvl.Keys == f.par.Keys;
    assert [cur, q][1..] == [q] && NoDup([q]) && NoDup([cur, q]);
    assert forall n :: n in f.kids ==> KidsOK(f, n);
    assert forall n :: n in f.par && f.par[n].Some? ==> ParentOK(f, n, f.par[n].value);
    assert WF(f);
    assert forall n :: n in f.kids ==> Attached(f, n);
  }

  lemma BroomUnder(cur: MuttThread, q: MuttThread, ks: seq<MuttThread>, msg: map<MuttThread, Email>)
    requires Distinct(cur, q, ks) && msg.Keys == {q} + set k | k in ks
    ensures var f := Broom(cur, q, ks); !IsUnder(f, q, cur) && forall k :: k in ks ==> IsUnder(f, k, cur) && Topmost(f, msg, cur, k)
  {
    var f := Broom(cur, q, ks);
    assert Up(f, q).None?;
    assert Clear(f, msg, cur, cur) && IsUnder(f, cur, cur);
    forall k | k in ks ensures Topmost(f, msg, cur, k) && IsUnder(f, k, cur) {
      assert Up(f, k) == Some(cur);
    }
  }

  lemma BroomPre(cur: MuttThread, q: MuttThread, ks: seq<MuttThread>)
    requires Distinct(cur, q, ks) && WF(Broom(cur, q, ks))
    ensures cur in Broom(cur, q, ks).par && Pre(Broom(cur, q, ks), cur) == [cur] + ks
  {
    var f := Broom(cur, q, ks);
    DownKids(f, cur);
    LeavesPre(f, ks);
  }

  lemma {:induction false} LeavesPre(f: ThreadForest, ks: seq<MuttThread>)
    requires forall k :: k in ks ==> k in f.kids && f.kids[k] == []
    ensures PreAll(f, ks) == ks
  {
    if ks != [] {
      assert Down(f, ks[0]) == [];
      LeavesPre(f, ks[1..]);
    }
  }

  lemma {:induction false} TopsOfTops(f: ThreadForest, msg: map<MuttThread, Email>, start: MuttThread, ns: seq<MuttThread>)
    requires forall n :: n in ns ==> Topmost(f, msg, start, n)
    ensures TopsIn(f, msg, start, ns) == ns
  {
    if ns != [] { TopsOfTops(f, msg, start, ns[1..]); }
  }

  lemma BroomTops(cur: MuttThread, q: MuttThread, ks: seq<MuttThread>, msg: map<MuttThread, Email>)
    requires Distinct(cur, q, ks) && msg.Keys == {q} + set k | k in ks
    ensures TopsAre(Broom(cur, q, ks), msg, cur, ks)
  {
    hide *;
    var f := Broom(cur, q, ks);
    BroomGrown(cur, q, ks, msg);
    BroomUnder(cur, q, ks, msg);
    BroomPre(cur, q, ks);
    BroomReady(cur, q, ks, msg);
    TopsOfTops(f, msg, cur, ks);
    CurFirst(f, msg, cur, ks);
    TopsEnd(f, msg, cur, ks);
  }

  lemma BroomReady(cur: MuttThread, q: MuttThread, ks: seq<MuttThread>, msg: map<MuttThread, Email>)
    requires Distinct(cur, q, ks) && msg.Keys == {q} + (set k | k in ks) && Grown(Broom(cur, q, ks), msg)
    ensures WF(Broom(cur, q, ks)) && cur !in msg && ks != []
  {
    hide Broom, WF;
  }

  lemma CurFirst(f: ThreadForest, msg: map<MuttThread, Email>, cur: MuttThread, ks: seq<MuttThread>)
    requires cur !in msg
    ensures TopsIn(f, msg, cur, [cur] + ks) == TopsIn(f, msg, cur, ks)
  {
    hide Clear;
    assert ([cur] + ks)[1..] == ks && ([cur] + ks)[0] == cur;
    assert [] + TopsIn(f, msg, cur, ks) == TopsIn(f, msg, cur, ks);
  }

  // A missing message cur with three children of one subject, dated 5, 0 and 7, and a message q of
  // that subject, dated 6, none with a message above it: q is picked, later than the first child.
  lemma LatePick(cur: MuttThread, q: MuttThread, ks: seq<MuttThread>, msg: map<MuttThread, Email>) returns (p: Pick)
    requires Distinct(cur, q, ks) && |ks| == 3 && msg.Keys == {q} + set k | k in ks
    requires msg[q].dateSent == 6 && msg[ks[0]].dateSent == 5 && msg[ks[1]].dateSent == 0 && msg[ks[2]].dateSent == 7
    requires (forall k :: k in ks ==> msg[k] != msg[q]) && forall n :: n in msg ==> msg[n].realSubj == Some("s")
    ensures p == Pick(Broom(cur, q, ks), {}, msg.Values, cur, q, ks, ["s"]) && Grown(p.f, msg)
    ensures GoodPick(p, msg, false, false) && Topmost(p.f, msg, cur, ks[0]) && Date(msg[q], false) > Date(msg[ks[0]], false)
  {
    hide *;
    p := Pick(Broom(cur, q, ks), {}, msg.Values, cur, q, ks, ["s"]);
    AreDistinct(cur, q, ks);
    DatesOf(msg[q], msg[ks[0]]);
    BroomGrown(cur, q, ks, msg);
    BroomUnder(cur, q, ks, msg);
    BroomTops(cur, q, ks, msg);
    LateDates(msg, ks);
    OneSubject(msg, ks);
    LateEligible(p, msg);
  }

  lemma AreDistinct(cur: MuttThread, q: MuttThread, ks: seq<MuttThread>)
    requires Distinct(cur, q, ks)
    ensures cur != q && cur !in ks && q !in ks && ks != []
  {
  }

  lemma DatesOf(a: Email, b: Email)
    ensures Date(a, false) == a.dateSent && Date(b, false) == b.dateSent
  {
  }

  lemma OneSubject(msg: map<MuttThread, Email>, ks: seq<MuttThread>)
    requires ks != [] && forall k :: k in ks ==> k in msg && msg[k].realSubj == Some("s")
    ensures SubjectsOf(msg, ks, false, ["s"])
  {
    OneListed(msg, ks);
  }

  lemma SameAgain()
    ensures Listed([], "s") == ["s"] && Listed(["s"], "s") == ["s"]
  {
    assert Place(["s"], "s") == 0;
  }

  lemma {:induction false} OneListed(msg: map<MuttThread, Email>, ks: seq<MuttThread>)
    requires forall k :: k in ks ==> k in msg && msg[k].realSubj == Some("s")
    ensures ListFrom(SubjectSeq(msg, ks, false)) == if ks == [] then [] else ["s"]
  {
    if ks != [] {
      var front, ss := ks[..|ks| - 1], SubjectSeq(msg, ks[..|ks| - 1], false);
      assert forall k :: k in front ==> k in ks;
      assert ks[|ks| - 1] in ks;
      OneListed(msg, front);
      hide Listed;
      assert (ss + ["s"])[..|ss|] == ss;
      SameAgain();
    }
  }

  lemma LateEligible(p: Pick, msg: map<MuttThread, Email>)
    requires p.parent != null && p.parent in msg && msg[p.parent].dateSent == 6 && msg[p.parent].realSubj == Some("s")
    requires p.fakes == {} && msg[p.parent] in p.ch && p.subjects == ["s"] && p.parent != p.cur && !IsUnder(p.f, p.parent, p.cur)
    requires forall t :: t in msg ==> t == p.parent || t in p.tops
    requires forall t :: t in p.tops ==> IsUnder(p.f, t, p.cur)
    requires Earliest(Dates(msg, p.tops, false)) == 7
    requires TopsAre(p.f, msg, p.cur, p.tops) && SubjectsOf(msg, p.tops, false, p.subjects)
    ensures GoodPick(p, msg, false, false)
  {
    hide IsUnder, TopsAre, SubjectsOf, Dates, Earliest;
    assert p.subjects[0] == "s";
  }

  lemma LateDates(msg: map<MuttThread, Email>, ks: seq<MuttThread>)
    requires |ks| == 3 && ks[0] in msg && ks[1] in msg && ks[2] in msg
    requires msg[ks[0]].dateSent == 5 && msg[ks[1]].dateSent == 0 && msg[ks[2]].dateSent == 7
    ensures Earliest(Dates(msg, ks, false)) == 7
  {
    var a, b := [ks[0]], [ks[0]] + [ks[1]];
    assert [] + [ks[0]] == a && ks == b + [ks[2]];
    assert Dates(msg, [], false) == [];
    DatesSnoc(msg, [], ks[0], false);
    DatesSnoc(msg, a, ks[1], false);
    DatesSnoc(msg, b, ks[2], false);
  }
}
