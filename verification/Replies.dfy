// What threading does to a reply, in terms of its headers alone: where its first reference takes it,
// and where the next one does.
module Replies {
  import opened Wrappers
  import opened Forests
  import opened Threads
  import opened References
  import opened Context
  import opened ThreadTree
  import opened SortThreads

  // --- the parent of a reply ---

  // A new email hangs below the node of its first reference, or has it below itself. That is the
  // first In-Reply-To or, without one, the first of References.
  lemma FirstParent(list: seq<Email>, c0: Ctx, c: Ctx, e: Email, r: string, t: MuttThread)
    requires Threaded(list, c0, c) && e in list && e !in c0.thr && e in c.thr && c.thr[e] !in c.dups
    requires e.inReplyTo != [] || e.references != []
    requires if e.inReplyTo != [] then r == e.inReplyTo[0] else r == e.references[0]
    requires r in c.hash ==> if c.hash[r] in c.dups && Up(c.f, c.hash[r]).Some? then Up(c.f, c.hash[r]) == Some(t) else c.hash[r] == t
    ensures r in c.hash && (Up(c.f, c.thr[e]) == Some(t) || IsUnder(c.f, t, c.thr[e]))
  {
    assert Honours(ViewOf(c, None), c.thr[e], e);
  }

  // The next reference counts if the first one would close a loop, or stands for a missing message that
  // has no parent otherwise.
  lemma NextParent(list: seq<Email>, c0: Ctx, c: Ctx, e: Email, r: string, s: string, t: MuttThread, u: MuttThread)
    requires Threaded(list, c0, c) && e in list && e !in c0.thr && e in c.thr && c.thr[e] !in c.dups
    requires e.inReplyTo != [] || e.references != []
    requires
      || (e.inReplyTo == [] && |e.references| > 1 && r == e.references[0] && s == e.references[1])
      || (e.references == [] && |e.inReplyTo| > 1 && r == e.inReplyTo[0] && s == e.inReplyTo[1])
      || (e.inReplyTo != [] && |e.references| > 1 && r == e.inReplyTo[0] == e.references[0] && s == e.references[1])
      || (e.inReplyTo != [] && e.references != [] && r == e.inReplyTo[0] != e.references[0] && s == e.references[0])
    requires r in c.hash ==> if c.hash[r] in c.dups && Up(c.f, c.hash[r]).Some? then Up(c.f, c.hash[r]) == Some(t) else c.hash[r] == t
    requires s in c.hash ==> if c.hash[s] in c.dups && Up(c.f, c.hash[s]).Some? then Up(c.f, c.hash[s]) == Some(u) else c.hash[s] == u
    ensures IsUnder(c.f, t, c.thr[e]) ==> s in c.hash && (Up(c.f, c.thr[e]) == Some(u) || IsUnder(c.f, u, c.thr[e]))
    ensures !IsUnder(c.f, t, c.thr[e]) && t !in c.msg && Up(c.f, t).None? ==> s in c.hash && IsUnder(c.f, u, t)
  {
    var v := ViewOf(c, None);
    var refs := if e.inReplyTo == [] then e.references else if e.references == [] then e.inReplyTo
                else if e.inReplyTo[0] == e.references[0] then e.references else [e.inReplyTo[0]] + e.references;
    assert Honours(v, c.thr[e], e);
    assert Follows(v, c.thr[e], refs) && refs[0] == r && refs[1..][0] == s;
    assert if IsUnder(c.f, t, c.thr[e]) then Follows(v, c.thr[e], refs[1..])
           else t in c.msg || Settled(v, t) || Follows(v, t, refs[1..]);
  }

  // A reply to an email of the mailbox hangs below a message of that id, or has one below itself.
  lemma ReplyHangs(list: seq<Email>, E: set<Email>, c0: Ctx, c: Ctx, e: Email, a: Email, r: string) returns (t: MuttThread)
    requires Threaded(list, c0, c) && CtxOK(c, E, None, None) && e in list && a in list
    requires e !in c0.thr && e in c.thr && c.thr[e] !in c.dups && a.messageId == Some(r)
    requires e.inReplyTo != [] || e.references != []
    requires if e.inReplyTo != [] then r == e.inReplyTo[0] else r == e.references[0]
    ensures t in c.msg && t !in c.dups && (c.msg[t].messageId == Some(r) || (r == "" && c.msg[t].messageId.None?))
    ensures Up(c.f, c.thr[e]) == Some(t) || IsUnder(c.f, t, c.thr[e])
  {
    hide WF, Follows, Honours, Lasts, Based, IsUnder;
    assert EmailOK(c, a);
    var n := c.hash[r];
    assert HashOK(c, None, r);
    Tables(c.f);
    assert NodeOK(c, E, None, None, n);
    UpOfPar(c.f, n);
    t := if n in c.dups then Up(c.f, n).value else n;
    FirstParent(list, c0, c, e, r, t);
  }

  // --- placing an email ---

  // What placing the i-th email does, by its Message-ID: nothing but the release of pseudo-threads if it has a
  // node; otherwise, where lookups are made (not on a first run, unless $duplicate_threads is set), the
  // missing message of the id becomes the email, and with $duplicate_threads an email whose id is
  // taken becomes a duplicate; all others get a node of their own.
  lemma EmailPlaced(emails: seq<Email>, init: bool, dupThreads: bool, top: MuttThread, placing: seq<Ctx>, i: nat)
    requires i < |emails| && i + 1 < |placing| && PlacedAt(emails, init, dupThreads, top, placing, i)
    ensures var e, c, d := emails[i], placing[i], placing[i + 1];
      var known := e.messageId.Some? && e.messageId.value in c.hash && (dupThreads || !init);
      var id := if e.messageId.Some? then e.messageId.value else "";
      && (e in c.thr ==> d.thr == c.thr && d.msg == c.msg && d.hash == c.hash && d.dups == c.dups && d.done == c.done)
      && (e !in c.thr && known && c.hash[id] !in c.msg ==>
            d.thr == c.thr[e := c.hash[id]] && d.msg == c.msg[c.hash[id] := e] && d.hash == c.hash && d.dups == c.dups && d.done == c.done
            && c.hash[id] in d.f.par && d.f.par[c.hash[id]].None?)
      && (e !in c.thr && !(known && c.hash[id] !in c.msg) ==>
            && e in d.thr && d.thr[e] !in c.f.par && d.thr == c.thr[e := d.thr[e]] && d.msg == c.msg[d.thr[e] := e] && d.hash == c.hash[id := d.thr[e]]
            && d.thr[e] in d.f.par
            && if known && dupThreads then
                 var t := c.hash[id];
                 && d.dups == c.dups + {d.thr[e]} && d.done == c.done + {e}
                 && d.f.par[d.thr[e]] == if t in c.dups && t in c.f.par && c.f.par[t].Some? then c.f.par[t] else Some(t)
               else d.dups == c.dups && d.done == c.done && d.f.par[d.thr[e]].None?)
  {
    hide CtxOK;
  }
}
