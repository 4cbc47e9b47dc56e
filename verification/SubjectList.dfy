// The list of subjects that make_subject_list builds by insertion.
module SubjectList {
  // strcmp
  function Cmp(a: string, b: string): (r: int)
    ensures r == 0 <==> a == b
  {
    if a == "" && b == "" then 0
    else if a == "" then -1
    else if b == "" then 1
    else if a[0] < b[0] then -1
    else if a[0] > b[0] then 1
    else
      assert a == [a[0]] + a[1..] && b == [b[0]] + b[1..];
      Cmp(a[1..], b[1..])
  }

  // The first character that differs decides; a prefix comes first.
  lemma {:induction false} CmpSays(p: string, c: char, d: char, x: string, y: string)
    ensures c != d ==> (Cmp(p + [c] + x, p + [d] + y) < 0 <==> c < d)
    ensures Cmp(p, p + [c] + x) < 0
  {
    var s, t := p + [c] + x, p + [d] + y;
    if p == "" {
      assert s[0] == c && t[0] == d;
    } else {
      assert s[1..] == p[1..] + [c] + x && t[1..] == p[1..] + [d] + y && s[0] == t[0] == p[0];
      CmpSays(p[1..], c, d, x, y);
    }
  }

  // The first place in the list whose subject does not come after s.
  function Place(list: seq<string>, s: string): (i: nat)
    ensures i <= |list|
    ensures forall j :: 0 <= j < i ==> Cmp(s, list[j]) < 0
    ensures i < |list| ==> Cmp(s, list[i]) >= 0
  {
    if list == [] || Cmp(s, list[0]) >= 0 then 0 else 1 + Place(list[1..], s)
  }

  function Listed(list: seq<string>, s: string): (r: seq<string>)
    ensures forall x :: x in r <==> x in list || x == s
  {
    var i := Place(list, s);
    if i == |list| then [s] + list
    else if Cmp(s, list[i]) > 0 then list[..i + 1] + [s] + list[i + 1..]
    else list
  }

  // The list made of the subjects ss, one by one.
  function ListFrom(ss: seq<string>): seq<string> {
    if ss == [] then [] else Listed(ListFrom(ss[..|ss| - 1]), ss[|ss| - 1])
  }

  lemma {:induction false} ListMembers(ss: seq<string>)
    ensures forall s :: s in ListFrom(ss) <==> s in ss
  {
    if ss != [] {
      ListMembers(ss[..|ss| - 1]);
      assert ss == ss[..|ss| - 1] + [ss[|ss| - 1]];
    }
  }

  // --- is it sorted? ---

  predicate Ascending(l: seq<string>) {
    forall i, j :: 0 <= i < j < |l| ==> Cmp(l[i], l[j]) <= 0
  }

  lemma {:induction false} CmpTurned(a: string, b: string)
    ensures Cmp(a, b) < 0 <==> Cmp(b, a) > 0
  {
    if a != "" && b != "" && a[0] == b[0] { CmpTurned(a[1..], b[1..]); }
  }

  lemma {:induction false} CmpTrans(a: string, b: string, c: string)
    requires Cmp(a, b) <= 0 && Cmp(b, c) <= 0
    ensures Cmp(a, c) <= 0 && (Cmp(a, b) < 0 || Cmp(b, c) < 0 ==> Cmp(a, c) < 0)
  {
    if a != "" && b != "" && c != "" && a[0] == b[0] && b[0] == c[0] { CmpTrans(a[1..], b[1..], c[1..]); }
  }

  // A subject leaves an ascending list ascending exactly if it does not come after the second entry.
  lemma ListedStep(list: seq<string>, s: string)
    requires Ascending(list)
    ensures Ascending(Listed(list, s)) <==> |list| <= 1 || Cmp(s, list[0]) <= 0 || Cmp(s, list[1]) <= 0
  {
    hide Cmp, Ascending;
    if list == [] {
      Single(s);
      assert [s] + list == [s] && Ascending([s]);
    } else {
      CmpTurned(s, list[0]);
      FirstPlace(list, s);
      if Cmp(s, list[0]) < 0 {
        InFront(list, s);
      } else if Cmp(s, list[0]) > 0 {
        assert Listed(list, s) == [list[0], s] + list[1..];
        InSecond(list, s);
      }
    }
  }

  lemma Single(s: string)
    ensures Ascending([s])
  {
  }

  lemma InFront(list: seq<string>, s: string)
    requires Ascending(list) && list != [] && Cmp(s, list[0]) < 0
    ensures Ascending([s] + list)
  {
    hide Cmp;
    forall j | 0 <= j < |list| ensures Cmp(s, list[j]) <= 0 {
      if j > 0 { CmpTrans(s, list[0], list[j]); }
    }
  }

  lemma InSecond(list: seq<string>, s: string)
    requires Ascending(list) && list != [] && Cmp(list[0], s) <= 0
    ensures Ascending([list[0], s] + list[1..]) <==> |list| == 1 || Cmp(s, list[1]) <= 0
  {
    hide Cmp;
    var r := [list[0], s] + list[1..];
    assert |list| > 1 ==> r[1] == s && r[2] == list[1];
    if |list| == 1 || Cmp(s, list[1]) <= 0 {
      forall i, j | 0 <= i < j < |r| ensures Cmp(r[i], r[j]) <= 0 {
        if i == 1 && j > 2 { CmpTrans(s, list[1], list[j - 1]); }
      }
    }
  }

  // In an ascending list the place of a subject is the first one, if there is one.
  lemma FirstPlace(list: seq<string>, s: string)
    requires Ascending(list) && list != []
    ensures Place(list, s) == if Cmp(s, list[0]) >= 0 then 0 else |list|
  {
    hide Cmp;
    var i := Place(list, s);
    if 0 < i < |list| {
      CmpTurned(s, list[0]);
      CmpTurned(s, list[i]);
      CmpTrans(s, list[0], list[i]);
    }
  }

  // A list that is not ascending stays so.
  lemma ListedDisorder(list: seq<string>, s: string)
    requires Ascending(Listed(list, s))
    ensures Ascending(list)
  {
    hide Cmp;
    var i, r := Place(list, s), Listed(list, s);
    if r != list {
      forall j, k | 0 <= j < k < |list| ensures Cmp(list[j], list[k]) <= 0 {
        if i == |list| {
          assert r[j + 1] == list[j] && r[k + 1] == list[k];
        } else {
          assert r[if j <= i then j else j + 1] == list[j] && r[if k <= i then k else k + 1] == list[k];
        }
      }
    }
  }

  // A subject that comes after two different smaller ones.
  ghost predicate Crowded(ss: seq<string>) {
    exists i, j, k :: 0 <= i < k < |ss| && 0 <= j < k && ss[i] != ss[j] && Cmp(ss[i], ss[k]) < 0 && Cmp(ss[j], ss[k]) < 0
  }

  // The comment in the source calls the list sorted.  It is so exactly if no subject comes after two
  // different smaller ones.
  lemma {:induction false} ListSortedIff(ss: seq<string>)
    ensures Ascending(ListFrom(ss)) <==> !Crowded(ss)
    ensures var l := ListFrom(ss); Ascending(l) && |l| > 1 ==> Cmp(l[0], l[1]) < 0
  {
    hide Cmp, Listed;
    if ss != [] {
      var front, s := ss[..|ss| - 1], ss[|ss| - 1];
      var l := ListFrom(front);
      ListSortedIff(front);
      CrowdedSnoc(front, s);
      assert ss == front + [s];
      if Ascending(l) {
        ListedStep(l, s);
        ListedFront(l, s);
        SecondEntry(front, s);
      } else if Ascending(Listed(l, s)) {
        ListedDisorder(l, s);
      }
    }
  }

  lemma ListedFront(l: seq<string>, s: string)
    requires Ascending(l) && (|l| > 1 ==> Cmp(l[0], l[1]) < 0)
    ensures var r := Listed(l, s); |r| > 1 && (|l| <= 1 || Cmp(s, l[0]) <= 0 || Cmp(s, l[1]) <= 0) ==> Cmp(r[0], r[1]) < 0
  {
    hide Cmp;
    if l != [] {
      FirstPlace(l, s);
      CmpTurned(s, l[0]);
    }
  }

  ghost predicate TwoBelow(ss: seq<string>, s: string) {
    exists i, j :: 0 <= i < |ss| && 0 <= j < |ss| && ss[i] != ss[j] && Cmp(ss[i], s) < 0 && Cmp(ss[j], s) < 0
  }

  lemma CrowdedSnoc(ss: seq<string>, s: string)
    ensures Crowded(ss + [s]) <==> Crowded(ss) || TwoBelow(ss, s)
  {
    hide Cmp, Crowded, TwoBelow;
    var all := ss + [s];
    assert forall i :: 0 <= i < |ss| ==> all[i] == ss[i];
    if Crowded(ss) {
      var i, j, k := CrowdedOut(ss);
      CrowdedAt(all, i, j, k);
    }
    if TwoBelow(ss, s) {
      var i, j := BelowOut(ss, s);
      CrowdedAt(all, i, j, |ss|);
    }
    if Crowded(all) {
      var i, j, k := CrowdedOut(all);
      if k < |ss| { CrowdedAt(ss, i, j, k); } else { BelowAt(ss, s, i, j); }
    }
  }

  lemma CrowdedOut(ss: seq<string>) returns (i: int, j: int, k: int)
    requires Crowded(ss)
    ensures 0 <= i < k < |ss| && 0 <= j < k && ss[i] != ss[j] && Cmp(ss[i], ss[k]) < 0 && Cmp(ss[j], ss[k]) < 0
  {
    i, j, k :| 0 <= i < k < |ss| && 0 <= j < k && ss[i] != ss[j] && Cmp(ss[i], ss[k]) < 0 && Cmp(ss[j], ss[k]) < 0;
  }

  lemma BelowOut(ss: seq<string>, s: string) returns (i: int, j: int)
    requires TwoBelow(ss, s)
    ensures 0 <= i < |ss| && 0 <= j < |ss| && ss[i] != ss[j] && Cmp(ss[i], s) < 0 && Cmp(ss[j], s) < 0
  {
    i, j :| 0 <= i < |ss| && 0 <= j < |ss| && ss[i] != ss[j] && Cmp(ss[i], s) < 0 && Cmp(ss[j], s) < 0;
  }

  lemma CrowdedAt(ss: seq<string>, i: int, j: int, k: int)
    requires 0 <= i < k < |ss| && 0 <= j < k && ss[i] != ss[j] && Cmp(ss[i], ss[k]) < 0 && Cmp(ss[j], ss[k]) < 0
    ensures Crowded(ss)
  {
  }

  lemma BelowAt(ss: seq<string>, s: string, i: int, j: int)
    requires 0 <= i < |ss| && 0 <= j < |ss| && ss[i] != ss[j] && Cmp(ss[i], s) < 0 && Cmp(ss[j], s) < 0
    ensures TwoBelow(ss, s)
  {
  }

  // The second entry is below s exactly if two different subjects are.
  lemma SecondEntry(ss: seq<string>, s: string)
    requires var l := ListFrom(ss); Ascending(l) && (|l| > 1 ==> Cmp(l[0], l[1]) < 0)
    ensures var l := ListFrom(ss); TwoBelow(ss, s) <==> !(|l| <= 1 || Cmp(s, l[0]) <= 0 || Cmp(s, l[1]) <= 0)
  {
    hide Cmp, ListFrom;
    var l := ListFrom(ss);
    ListMembers(ss);
    if TwoBelow(ss, s) {
      var i, j :| 0 <= i < |ss| && 0 <= j < |ss| && ss[i] != ss[j] && Cmp(ss[i], s) < 0 && Cmp(ss[j], s) < 0;
      assert ss[i] in l && ss[j] in l;
      var x :| 0 <= x < |l| && l[x] == ss[i];
      var y :| 0 <= y < |l| && l[y] == ss[j];
      BelowBy(l, s, if x > y then x else y);
    }
    if |l| > 1 && Cmp(s, l[0]) > 0 && Cmp(s, l[1]) > 0 {
      CmpTurned(l[0], s);
      CmpTurned(l[1], s);
      assert l[0] in ss && l[1] in ss;
      var i :| 0 <= i < |ss| && ss[i] == l[0];
      var j :| 0 <= j < |ss| && ss[j] == l[1];
      CmpSame(l[0]);
      BelowAt(ss, s, i, j);
    }
  }

  lemma CmpSame(a: string)
    ensures Cmp(a, a) == 0
  {
  }

  lemma BelowBy(l: seq<string>, s: string, z: nat)
    requires Ascending(l) && 0 < z < |l| && Cmp(l[z], s) < 0
    ensures Cmp(s, l[0]) > 0 && Cmp(s, l[1]) > 0
  {
    hide Cmp;
    CmpTrans(l[0], l[z], s);
    if z > 1 { CmpTrans(l[1], l[z], s); }
    CmpTurned(l[0], s);
    CmpTurned(l[1], s);
  }

  // For instance this one is not.
  lemma ListNotSorted()
    ensures ListFrom(["b", "a", "c"]) == ["a", "c", "b"] && Crowded(["b", "a", "c"])
  {
    var ss := ["b", "a", "c"];
    Letters();
    assert ss[..2] == ["b", "a"] && ["b", "a"][..1] == ["b"] && ["b"][..0] == [];
    assert ListFrom([]) == [] && ListFrom(["b"]) == Listed([], "b");
    assert ListFrom(["b", "a"]) == Listed(["b"], "a");
    assert ListFrom(ss) == Listed(["a", "b"], "c");
    CrowdedAt(ss, 0, 1, 2);
  }

  lemma Letters()
    ensures Listed([], "b") == ["b"] && Listed(["b"], "a") == ["a", "b"] && Listed(["a", "b"], "c") == ["a", "c", "b"]
    ensures Cmp("b", "c") < 0 && Cmp("a", "c") < 0 && "a" != "b"
  {
    assert Cmp("a", "b") == -1 && Cmp("c", "a") == 1 && "b"[0] == 'b' && "a"[0] == 'a';
    assert ["b"][1..] == [] && Place([], "a") == 0;
    assert Place(["b"], "a") == 1 && Place(["a", "b"], "c") == 0;
  }
}
