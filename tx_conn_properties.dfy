/// What the transaction coordinator promises, stated over the functions of
/// module `TxConn`: which calls each operation sends to the tablets, what a
/// scripted failure changes, and what the session holds afterwards.
module TxConnProperties {
  import opened Wrappers
  import opened Decimal
  import opened TxConn

  // ---------------------------------------------------------------------
  // The calls a fan-out sends

  /// The verb a per-shard action sends.
  function VerbOf(a: Action): Verb
  {
    match a
    case CommitTx => Commit
    case RollbackTx => Rollback
    case ReleaseConn => Release
    case PrepareTx => Prepare
    case CommitPreparedTx => CommitPrepared
    case RollbackPreparedTx => RollbackPrepared
  }

  /// Whether the action calls the tablet for this shard session: ending a
  /// transaction needs one, releasing needs a transaction or a reserved
  /// connection, two-phase messages are always sent.
  predicate Sends(a: Action, s: ShardSession)
  {
    match a
    case CommitTx => s.transactionId != 0
    case RollbackTx => s.transactionId != 0
    case ReleaseConn => s.transactionId != 0 || s.reservedId != 0
    case _ => true
  }

  /// The calls a fan-out of `a` over `ss` sends, in order.
  function CallsOf(a: Action, ss: seq<ShardSession>): (cs: seq<Call>)
    ensures |cs| <= |ss|
    ensures forall c :: c in cs ==> c.verb == VerbOf(a)
    ensures a.PrepareTx? || a.CommitPreparedTx? || a.RollbackPreparedTx? ==>
      |cs| == |ss| && forall k :: 0 <= k < |ss| ==> cs[k] == Call(VerbOf(a), ss[k].target)
    decreases |ss|
  {
    if ss == [] then []
    else
      var last := ss[|ss| - 1];
      CallsOf(a, ss[..|ss| - 1]) + (if Sends(a, last) then [Call(VerbOf(a), last.target)] else [])
  }

  /// The calls `runTargets` sends.
  function TargetCalls(v: Verb, targets: seq<Target>): (cs: seq<Call>)
    ensures |cs| == |targets| && forall k :: 0 <= k < |targets| ==> cs[k] == Call(v, targets[k])
  {
    if targets == [] then [] else TargetCalls(v, targets[..|targets| - 1]) + [Call(v, targets[|targets| - 1])]
  }

  function Elems(cs: seq<Call>): set<Call>
  {
    set c | c in cs
  }

  /// No failure is scripted for any of the calls.
  predicate Unscripted(t: Tablets, cs: seq<Call>)
  {
    forall c :: c in cs ==> c !in t.failing && c !in t.uncertain
  }

  /// A call is scripted either to fail or to fail uncertainly, not both.
  predicate WellScripted(t: Tablets)
  {
    t.failing !! t.uncertain
  }

  /// Nothing is scripted to fail.
  predicate Clean(t: Tablets)
  {
    t.failing == {} && t.uncertain == {}
  }

  /// The calls one action sends for one shard session: none or one.
  function StepCalls(a: Action, s: ShardSession): (cs: seq<Call>)
  {
    if Sends(a, s) then [Call(VerbOf(a), s.target)] else []
  }

  /// One action: its call (if any) is logged, and two-phase messages
  /// leave the shard session as it was.
  lemma ApplyTrace(a: Action, s: ShardSession, t: Tablets)
    ensures var r := Apply(a, s, t);
      && r.tablets.log == t.log + StepCalls(a, s)
      && r.tablets.unresolved == t.unresolved
      && (a.PrepareTx? || a.CommitPreparedTx? || a.RollbackPreparedTx? ==> r.session == s)
  {
  }

  /// One action hands out only a newer id.
  lemma ApplyIds(a: Action, s: ShardSession, t: Tablets)
    ensures forall x :: LastId(Apply(a, s, t).tablets, x) >= LastId(t, x)
  {
  }

  /// A non-empty sequence is its prefix followed by its last element.
  lemma SnocLast(ss: seq<ShardSession>)
    requires ss != []
    ensures ss[..|ss| - 1] + [ss[|ss| - 1]] == ss
  {
  }

  /// One action: a failure scripted for its call fires and is used up, and
  /// it fails exactly then.
  lemma ApplyFaults(a: Action, s: ShardSession, t: Tablets)
    requires WellScripted(t)
    ensures var r := Apply(a, s, t);
      && r.tablets.failing == t.failing - Elems(StepCalls(a, s))
      && r.tablets.uncertain == t.uncertain - Elems(StepCalls(a, s))
      && (r.err.None? <==> Unscripted(t, StepCalls(a, s)))
  {
    if Sends(a, s) {
      var c := Call(VerbOf(a), s.target);
      assert Elems([c]) == {c};
    } else {
      assert Elems([]) == {};
    }
  }

  /// Every call of a fan-out reaches its tablet, in order, and only ids
  /// newer than the tablets had are handed out.
  lemma FanOutTrace(a: Action, ss: seq<ShardSession>, t: Tablets)
    ensures var r := FanOut(a, ss, t);
      && r.tablets.log == t.log + CallsOf(a, ss)
      && r.tablets.unresolved == t.unresolved
      && (forall x :: LastId(r.tablets, x) >= LastId(t, x))
      && (a.PrepareTx? || a.CommitPreparedTx? || a.RollbackPreparedTx? ==> r.sessions == ss)
  {
    FanOutLog(a, ss, t);
    FanOutIds(a, ss, t);
  }

  /// The calls of a fan-out, in order; two-phase messages leave the shard
  /// sessions as they were.
  lemma {:induction false} FanOutLog(a: Action, ss: seq<ShardSession>, t: Tablets)
    ensures var r := FanOut(a, ss, t);
      && r.tablets.log == t.log + CallsOf(a, ss)
      && r.tablets.unresolved == t.unresolved
      && (a.PrepareTx? || a.CommitPreparedTx? || a.RollbackPreparedTx? ==> r.sessions == ss)
    decreases |ss|
  {
    if ss != [] {
      var p := ss[..|ss| - 1];
      var last := ss[|ss| - 1];
      FanOutLog(a, p, t);
      var r := FanOut(a, p, t);
      ApplyTrace(a, last, r.tablets);
      assert CallsOf(a, ss) == CallsOf(a, p) + StepCalls(a, last);
      if a.PrepareTx? || a.CommitPreparedTx? || a.RollbackPreparedTx? {
        SnocLast(ss);
      }
    }
  }

  /// A fan-out hands out only ids newer than the tablets had.
  lemma {:induction false} FanOutIds(a: Action, ss: seq<ShardSession>, t: Tablets)
    ensures forall x :: LastId(FanOut(a, ss, t).tablets, x) >= LastId(t, x)
    decreases |ss|
  {
    if ss != [] {
      var p := ss[..|ss| - 1];
      FanOutIds(a, p, t);
      ApplyIds(a, ss[|ss| - 1], FanOut(a, p, t).tablets);
    }
  }

  /// Each scripted failure among the calls of a fan-out fires once and is
  /// used up, and the fan-out reports an error exactly when one of its calls
  /// had a failure scripted.
  lemma {:induction false} FanOutFaults(a: Action, ss: seq<ShardSession>, t: Tablets)
    requires WellScripted(t)
    ensures var r := FanOut(a, ss, t);
      && r.tablets.failing == t.failing - Elems(CallsOf(a, ss))
      && r.tablets.uncertain == t.uncertain - Elems(CallsOf(a, ss))
      && (r.errs == [] <==> Unscripted(t, CallsOf(a, ss)))
    decreases |ss|
  {
    if ss != [] {
      var p := ss[..|ss| - 1];
      var last := ss[|ss| - 1];
      FanOutFaults(a, p, t);
      var r := FanOut(a, p, t);
      ApplyFaults(a, last, r.tablets);
      var cs := CallsOf(a, p);
      var more := StepCalls(a, last);
      assert CallsOf(a, ss) == cs + more;
      ScriptedAppend(t, cs, more, r.tablets);
    }
  }

  /// How the scripts of the tablets account for calls `cs` followed by
  /// `more`, once `cs` have used up theirs.
  lemma ScriptedAppend(t: Tablets, cs: seq<Call>, more: seq<Call>, t1: Tablets)
    requires t1.failing == t.failing - Elems(cs) && t1.uncertain == t.uncertain - Elems(cs)
    ensures Elems(cs + more) == Elems(cs) + Elems(more)
    ensures Unscripted(t, cs) ==> (Unscripted(t1, more) <==> Unscripted(t, more))
    ensures Unscripted(t, cs + more) <==> Unscripted(t, cs) && Unscripted(t, more)
  {
    if Unscripted(t, cs) && !Unscripted(t, more) {
      var c :| c in more && (c in t.failing || c in t.uncertain);
      assert c !in Elems(cs);
    }
  }

  /// A two-phase notification to every participant with nothing scripted
  /// to fail: each call is sent, in order, nothing fails, the participants'
  /// sessions are as they were and no scripted failure is used up.
  lemma NotifyUnscripted(a: Action, ss: seq<ShardSession>, t: Tablets)
    requires a.PrepareTx? || a.CommitPreparedTx? || a.RollbackPreparedTx?
    requires WellScripted(t) && Unscripted(t, CallsOf(a, ss))
    ensures var r := FanOut(a, ss, t);
      && r.errs == [] && r.sessions == ss
      && r.tablets.log == t.log + CallsOf(a, ss)
      && r.tablets.failing == t.failing && r.tablets.uncertain == t.uncertain
  {
    FanOutTrace(a, ss, t);
    FanOutFaults(a, ss, t);
    var cs := CallsOf(a, ss);
    assert t.failing - Elems(cs) == t.failing && t.uncertain - Elems(cs) == t.uncertain;
  }

  /// The calls `runTargets` sends, accounted for as `FanOutAccounting` does.
  lemma {:induction false} CallEachAccounting(v: Verb, targets: seq<Target>, t: Tablets)
    requires WellScripted(t)
    ensures var r := CallEach(v, targets, t);
      && r.tablets.log == t.log + TargetCalls(v, targets)
      && r.tablets.failing == t.failing - Elems(TargetCalls(v, targets))
      && r.tablets.uncertain == t.uncertain - Elems(TargetCalls(v, targets))
      && r.tablets.ids == t.ids && r.tablets.unresolved == t.unresolved
      && (r.errs == [] <==> Unscripted(t, TargetCalls(v, targets)))
    decreases |targets|
  {
    if targets != [] {
      var p := targets[..|targets| - 1];
      CallEachAccounting(v, p, t);
      var cs := TargetCalls(v, p);
      var c := Call(v, targets[|targets| - 1]);
      assert TargetCalls(v, targets) == cs + [c];
      assert Elems(cs + [c]) == Elems(cs) + {c};
    }
  }

  /// What ending the transaction of shard session `before` left in
  /// `after`: no transaction, nothing changed without one, and a reserved
  /// connection kept under an id newer than any its tablet had in `t`.
  predicate EndedOne(before: ShardSession, after: ShardSession, t: Tablets)
  {
    && after.target == before.target
    && after.transactionId == 0
    && (before.transactionId == 0 ==> after == before)
    && (after.reservedId == 0 <==> before.reservedId == 0)
    && (before.transactionId != 0 && before.reservedId != 0 ==> after.reservedId > LastId(t, before.target))
  }

  predicate Ended(before: seq<ShardSession>, after: seq<ShardSession>, t: Tablets)
  {
    |after| == |before| && forall k :: 0 <= k < |before| ==> EndedOne(before[k], after[k], t)
  }

  /// A reserved connection whose transaction ended comes back under an id
  /// newer than any its tablet had handed out.
  lemma EndTransactionNewId(verb: Verb, s: ShardSession, t: Tablets)
    requires s.transactionId != 0 && s.reservedId != 0
    ensures var r := EndTransaction(verb, s, t);
      r.err.None? ==> r.session.reservedId > LastId(t, s.target)
  {
  }

  /// Committing or rolling back with no failure scripted ends every
  /// transaction and keeps every reserved connection under a new id.
  lemma {:induction false} FanOutEnds(a: Action, ss: seq<ShardSession>, t: Tablets)
    requires a == CommitTx || a == RollbackTx
    requires WellScripted(t) && Unscripted(t, CallsOf(a, ss))
    ensures Ended(ss, FanOut(a, ss, t).sessions, t)
    decreases |ss|
  {
    if ss != [] {
      var p := ss[..|ss| - 1];
      var last := ss[|ss| - 1];
      FanOutTrace(a, p, t);
      FanOutFaults(a, p, t);
      FanOutEnds(a, p, t);
      var r := FanOut(a, p, t);
      assert CallsOf(a, ss) == CallsOf(a, p) + StepCalls(a, last);
      ScriptedAppend(t, CallsOf(a, p), StepCalls(a, last), r.tablets);
      ApplyEnds(a, last, r.tablets, t);
      SnocLast(ss);
      EndedSnoc(p, r.sessions, last, Apply(a, last, r.tablets).session, t);
    }
  }

  /// One commit or rollback with no failure scripted ends its shard
  /// session's transaction.
  lemma ApplyEnds(a: Action, s: ShardSession, t1: Tablets, t: Tablets)
    requires a == CommitTx || a == RollbackTx
    requires WellScripted(t1) && Unscripted(t1, StepCalls(a, s))
    requires forall x :: LastId(t1, x) >= LastId(t, x)
    ensures EndedOne(s, Apply(a, s, t1).session, t)
  {
    ApplyFaults(a, s, t1);
    if s.transactionId != 0 && s.reservedId != 0 {
      EndTransactionNewId(VerbOf(a), s, t1);
    }
  }

  lemma EndedSnoc(before: seq<ShardSession>, after: seq<ShardSession>, b: ShardSession, a: ShardSession, t: Tablets)
    requires Ended(before, after, t) && EndedOne(b, a, t)
    ensures Ended(before + [b], after + [a], t)
  {
    var bs, as_ := before + [b], after + [a];
    forall k | 0 <= k < |bs|
      ensures EndedOne(bs[k], as_[k], t)
    {
      if k < |before| {
        assert bs[k] == before[k] && as_[k] == after[k];
      }
    }
  }

  lemma EndedWeaken(before: seq<ShardSession>, after: seq<ShardSession>, t1: Tablets, t: Tablets)
    requires Ended(before, after, t1)
    requires forall x :: LastId(t1, x) >= LastId(t, x)
    ensures Ended(before, after, t)
  {
    forall k | 0 <= k < |before|
      ensures EndedOne(before[k], after[k], t)
    {
      assert EndedOne(before[k], after[k], t1);
    }
  }

  /// `log` is `prefix` followed only by calls with verb `v`.
  predicate ThenOnly(log: seq<Call>, prefix: seq<Call>, v: Verb)
  {
    |prefix| <= |log| && log[..|prefix|] == prefix && forall k :: |prefix| <= k < |log| ==> log[k].verb == v
  }

  // ---------------------------------------------------------------------
  // Release

  /// `Release` sends Release to every shard session holding a transaction
  /// or a reserved connection, and fails exactly when one of those calls
  /// fails.
  lemma ReleaseCalls(w: World)
    requires w.session.inTransaction || w.session.inReservedConn
    requires WellScripted(w.tablets)
    ensures var s := w.session; var all := s.pre + s.shards + s.post; var r := AfterRelease(w);
      && r.world.tablets.log == w.tablets.log + CallsOf(ReleaseConn, all)
      && (r.err.None? <==> Unscripted(w.tablets, CallsOf(ReleaseConn, all)))
  {
    var s := w.session;
    FanOutTrace(ReleaseConn, s.pre + s.shards + s.post, w.tablets);
    FanOutFaults(ReleaseConn, s.pre + s.shards + s.post, w.tablets);
  }

  /// Whatever `Release` is given, it only ever sends Release calls.
  lemma ReleaseOnlyReleases(w: World)
    ensures ThenOnly(AfterRelease(w).world.tablets.log, w.tablets.log, Release)
  {
    var s := w.session;
    if s.inTransaction || s.inReservedConn {
      var all := s.pre + s.shards + s.post;
      FanOutTrace(ReleaseConn, all, w.tablets);
      var log := AfterRelease(w).world.tablets.log;
      assert log == w.tablets.log + CallsOf(ReleaseConn, all);
      forall k | |w.tablets.log| <= k < |log|
        ensures log[k].verb == Release
      {
        assert log[k] == CallsOf(ReleaseConn, all)[k - |w.tablets.log|];
      }
    }
  }

  // ---------------------------------------------------------------------
  // Commit

  /// With no failure scripted, committing the normal class in order is the
  /// same as committing every shard session.
  lemma {:induction false} InOrderUnscripted(ss: seq<ShardSession>, t: Tablets)
    requires WellScripted(t) && Unscripted(t, CallsOf(CommitTx, ss))
    ensures var f := FanOut(CommitTx, ss, t);
      CommitInOrder(ss, t) == InOrder(None, |ss|, f.sessions, f.tablets)
    decreases |ss|
  {
    if ss != [] {
      var p := ss[..|ss| - 1];
      var last := ss[|ss| - 1];
      assert CallsOf(CommitTx, ss) == CallsOf(CommitTx, p) + StepCalls(CommitTx, last);
      InOrderUnscripted(p, t);
      FanOutFaults(CommitTx, p, t);
      ApplyFaults(CommitTx, last, FanOut(CommitTx, p, t).tablets);
    }
  }

  /// A commit with no failure scripted: Commit goes to every shard session
  /// holding a transaction (none to those holding only a reserved
  /// connection), pre class first, then the normal class, then the post
  /// class. The session leaves its transaction; without reserved
  /// connections it is emptied, with them every shard session survives
  /// without a transaction and with a newly issued reserved id. With one
  /// shard session or none, two-phase commit does the same.
  lemma CommitSucceeds(w: World, txMode: TransactionMode)
    requires w.session.inTransaction
    requires !UsesTwoPC(w.session, txMode) || |w.session.shards| <= 1
    requires WellScripted(w.tablets)
    requires Unscripted(w.tablets, CallsOf(CommitTx, w.session.pre))
    requires Unscripted(w.tablets, CallsOf(CommitTx, w.session.shards))
    requires Unscripted(w.tablets, CallsOf(CommitTx, w.session.post))
    ensures var s := w.session; var r := AfterCommit(w, txMode); var s' := r.world.session;
      && r.err.None?
      && r.world.tablets.log == w.tablets.log + CallsOf(CommitTx, s.pre) + CallsOf(CommitTx, s.shards) + CallsOf(CommitTx, s.post)
      && r.world.nonAtomicCommits == w.nonAtomicCommits && s'.warnings == s.warnings
      && s'.inReservedConn == s.inReservedConn
      && (!s.inReservedConn ==> s'.pre == [] && s'.shards == [] && s'.post == [])
      && (s.inReservedConn ==> Ended(s.pre, s'.pre, w.tablets) && Ended(s.shards, s'.shards, w.tablets) && Ended(s.post, s'.post, w.tablets))
  {
    var s := w.session;
    var t := w.tablets;
    FanOutTrace(CommitTx, s.pre, t);
    FanOutFaults(CommitTx, s.pre, t);
    FanOutEnds(CommitTx, s.pre, t);
    var pre := FanOut(CommitTx, s.pre, t);
    var t1 := pre.tablets;
    assert Unscripted(t1, CallsOf(CommitTx, s.shards));
    FanOutTrace(CommitTx, s.shards, t1);
    FanOutFaults(CommitTx, s.shards, t1);
    FanOutEnds(CommitTx, s.shards, t1);
    InOrderUnscripted(s.shards, t1);
    var normal := FanOut(CommitTx, s.shards, t1);
    var t2 := normal.tablets;
    assert Unscripted(t2, CallsOf(CommitTx, s.post));
    FanOutTrace(CommitTx, s.post, t2);
    FanOutFaults(CommitTx, s.post, t2);
    FanOutEnds(CommitTx, s.post, t2);
    var post := FanOut(CommitTx, s.post, t2);
    EndedWeaken(s.shards, normal.sessions, t1, t);
    EndedWeaken(s.post, post.sessions, t2, t);
    var s2 := s.(pre := pre.sessions, shards := normal.sessions, post := post.sessions);
    assert AfterCommitNormal(w) == Done(None, World(s2, post.tablets, w.nonAtomicCommits));
  }

  /// A failure scripted for `c` is still scripted after calls that had
  /// none scripted were made.
  lemma FailureSurvives(t: Tablets, done: seq<Call>, c: Call, t2: Tablets)
    requires Unscripted(t, done) && c in t.failing
    requires t2.failing == t.failing - Elems(done)
    ensures c in t2.failing
  {
    assert c !in Elems(done);
  }

  /// The normal class up to and including the `i`-th shard session, when
  /// its Commit fails and nothing before it was scripted to fail.
  lemma NormalPrefixFails(ss: seq<ShardSession>, t: Tablets, i: nat)
    requires WellScripted(t)
    requires i < |ss| && ss[i].transactionId != 0
    requires Unscripted(t, CallsOf(CommitTx, ss[..i]))
    requires Call(Commit, ss[i].target) in t.failing
    ensures var r := CommitInOrder(ss[..i + 1], t);
      && r.err == Some(ShardError(Call(Commit, ss[i].target)))
      && r.failedAt == i
      && r.tablets.log == t.log + CallsOf(CommitTx, ss[..i + 1])
  {
    var c := Call(Commit, ss[i].target);
    var p := ss[..i];
    var q := ss[..i + 1];
    assert q[..|q| - 1] == p && q[|q| - 1] == ss[i];
    PrefixCommits(p, t, c);
    var f := FanOut(CommitTx, p, t);
    CommitFailsOnce(ss[i], f.tablets);
    CommitInOrderCommits(q, t);
    assert CallsOf(CommitTx, q) == CallsOf(CommitTx, p) + [c];
  }

  /// Shard sessions with no failure scripted all commit in order, and a
  /// failure scripted for a later call is still there afterwards.
  lemma PrefixCommits(p: seq<ShardSession>, t: Tablets, c: Call)
    requires WellScripted(t) && Unscripted(t, CallsOf(CommitTx, p)) && c in t.failing
    ensures var f := FanOut(CommitTx, p, t);
      && CommitInOrder(p, t) == InOrder(None, |p|, f.sessions, f.tablets)
      && f.tablets.log == t.log + CallsOf(CommitTx, p)
      && c in f.tablets.failing && WellScripted(f.tablets)
  {
    InOrderUnscripted(p, t);
    FanOutTrace(CommitTx, p, t);
    FanOutFaults(CommitTx, p, t);
    FailureSurvives(t, CallsOf(CommitTx, p), c, FanOut(CommitTx, p, t).tablets);
  }

  /// The normal class when the `i`-th shard session's Commit fails and
  /// nothing before it was scripted to fail: the commits up to and
  /// including it are sent, in order, and its error is the result.
  lemma NormalClassFailsAt(ss: seq<ShardSession>, t: Tablets, i: nat)
    requires WellScripted(t)
    requires i < |ss| && ss[i].transactionId != 0
    requires Unscripted(t, CallsOf(CommitTx, ss[..i]))
    requires Call(Commit, ss[i].target) in t.failing
    ensures var r := CommitInOrder(ss, t);
      && r.err == Some(ShardError(Call(Commit, ss[i].target)))
      && r.failedAt == i
      && r.tablets.log == t.log + CallsOf(CommitTx, ss[..i + 1])
  {
    NormalPrefixFails(ss, t, i);
    CommitInOrderStops(ss, t, i + 1);
  }

  /// A shard session whose Commit is scripted to fail: the call is sent and
  /// its error returned.
  lemma CommitFailsOnce(s: ShardSession, t: Tablets)
    requires s.transactionId != 0 && WellScripted(t) && Call(Commit, s.target) in t.failing
    ensures var r := EndTransaction(Commit, s, t);
      r.err == Some(ShardError(Call(Commit, s.target))) && r.tablets.log == t.log + [Call(Commit, s.target)]
  {
  }

  /// How `commitNormal` ends after a failure in the normal class.
  lemma CommitNormalAfterNormalFailure(w: World)
    requires FanOut(CommitTx, w.session.pre, w.tablets).errs == []
    requires CommitInOrder(w.session.shards, FanOut(CommitTx, w.session.pre, w.tablets).tablets).err.Some?
    ensures var s := w.session;
      var pre := FanOut(CommitTx, s.pre, w.tablets);
      var normal := CommitInOrder(s.shards, pre.tablets);
      var s1 := s.(pre := pre.sessions, shards := normal.sessions);
      var i := normal.failedAt;
      var w1 :=
        if i > 0 then
          World(s1.(warnings := s1.warnings + [NonAtomicCommit(NonAtomicMessage(s.shards, i))]), normal.tablets, w.nonAtomicCommits + 1)
        else World(s1, normal.tablets, w.nonAtomicCommits);
      AfterCommitNormal(w) == Done(normal.err, AfterRelease(w1).world)
  {
  }

  /// The first failure in the normal class: the shard sessions before it
  /// were committed, in order, and nothing after it is committed; the
  /// failing shard's error is returned; everything left is released; the
  /// session is emptied except for its warnings, which gain one
  /// NonAtomicCommit warning (naming the committed shards) exactly when
  /// some shard had already committed, and that is counted.
  lemma NormalCommitFails(w: World, txMode: TransactionMode, i: nat)
    requires w.session.inTransaction && !UsesTwoPC(w.session, txMode)
    requires WellScripted(w.tablets)
    requires Unscripted(w.tablets, CallsOf(CommitTx, w.session.pre))
    requires i < |w.session.shards| && w.session.shards[i].transactionId != 0
    requires Unscripted(w.tablets, CallsOf(CommitTx, w.session.shards[..i]))
    requires Call(Commit, w.session.shards[i].target) in w.tablets.failing
    ensures var s := w.session; var r := AfterCommit(w, txMode); var s' := r.world.session;
      && r.err == Some(ShardError(Call(Commit, s.shards[i].target)))
      && ThenOnly(r.world.tablets.log, w.tablets.log + CallsOf(CommitTx, s.pre) + CallsOf(CommitTx, s.shards[..i + 1]), Release)
      && s'.pre == [] && s'.shards == [] && s'.post == []
      && s'.warnings == s.warnings + (if i > 0 then [NonAtomicCommit(NonAtomicMessage(s.shards, i))] else [])
      && r.world.nonAtomicCommits == w.nonAtomicCommits + (if i > 0 then 1 else 0)
  {
    var s := w.session;
    var t := w.tablets;
    var c := Call(Commit, s.shards[i].target);
    FanOutTrace(CommitTx, s.pre, t);
    FanOutFaults(CommitTx, s.pre, t);
    var pre := FanOut(CommitTx, s.pre, t);
    var t1 := pre.tablets;
    assert Unscripted(t1, CallsOf(CommitTx, s.shards[..i]));
    FailureSurvives(t, CallsOf(CommitTx, s.pre), c, t1);
    NormalClassFailsAt(s.shards, t1, i);
    var normal := CommitInOrder(s.shards, t1);
    var s1 := s.(pre := pre.sessions, shards := normal.sessions);
    var w1 :=
      if i > 0 then
        World(s1.(warnings := s1.warnings + [NonAtomicCommit(NonAtomicMessage(s.shards, i))]), normal.tablets, w.nonAtomicCommits + 1)
      else World(s1, normal.tablets, w.nonAtomicCommits);
    ReleaseOnlyReleases(w1);
    CommitNormalAfterNormalFailure(w);
  }

  /// A failure in the pre class: nothing of the normal or post class is
  /// committed, only releases follow, and the session is emptied.
  lemma PreCommitFails(w: World, txMode: TransactionMode)
    requires w.session.inTransaction && !UsesTwoPC(w.session, txMode)
    requires WellScripted(w.tablets) && !Unscripted(w.tablets, CallsOf(CommitTx, w.session.pre))
    ensures var s := w.session; var r := AfterCommit(w, txMode); var s' := r.world.session;
      && r.err.Some?
      && ThenOnly(r.world.tablets.log, w.tablets.log + CallsOf(CommitTx, s.pre), Release)
      && s'.pre == [] && s'.shards == [] && s'.post == []
      && s'.warnings == s.warnings && r.world.nonAtomicCommits == w.nonAtomicCommits
  {
    var s := w.session;
    FanOutTrace(CommitTx, s.pre, w.tablets);
    FanOutFaults(CommitTx, s.pre, w.tablets);
    var pre := FanOut(CommitTx, s.pre, w.tablets);
    var w1 := World(s.(pre := pre.sessions), pre.tablets, w.nonAtomicCommits);
    ReleaseOnlyReleases(w1);
    assert AfterCommitNormal(w) == Done(Joined(pre.errs), AfterRelease(w1).world);
  }

  /// A failure in the post class: every class was committed, the commit
  /// still succeeds, and the session gains one post-operation warning.
  lemma PostCommitFails(w: World, txMode: TransactionMode)
    requires w.session.inTransaction && !UsesTwoPC(w.session, txMode)
    requires WellScripted(w.tablets)
    requires Unscripted(w.tablets, CallsOf(CommitTx, w.session.pre))
    requires Unscripted(w.tablets, CallsOf(CommitTx, w.session.shards))
    requires !Unscripted(w.tablets, CallsOf(CommitTx, w.session.post))
    ensures var s := w.session; var r := AfterCommit(w, txMode); var s' := r.world.session;
      && r.err.None?
      && ThenOnly(r.world.tablets.log,
                  w.tablets.log + CallsOf(CommitTx, s.pre) + CallsOf(CommitTx, s.shards) + CallsOf(CommitTx, s.post), Release)
      && |s'.warnings| == |s.warnings| + 1 && s'.warnings[..|s.warnings|] == s.warnings
      && s'.warnings[|s.warnings|].PostCommitFailed?
      && r.world.nonAtomicCommits == w.nonAtomicCommits
      && s'.pre == [] && s'.shards == [] && s'.post == []
  {
    var s := w.session;
    var t := w.tablets;
    NormalReachesPost(w);
    var pre := FanOut(CommitTx, s.pre, t);
    var normal := FanOut(CommitTx, s.shards, pre.tablets);
    var w2 := World(s.(pre := pre.sessions, shards := normal.sessions), normal.tablets, w.nonAtomicCommits);
    ScriptedSurvives(t, CallsOf(CommitTx, s.pre), CallsOf(CommitTx, s.shards), CallsOf(CommitTx, s.post), w2.tablets);
    PostClassFails(w2);
    var r2 := AfterCommitPost(w2);
    assert AfterCommit(w, txMode) == Done(None, r2.(session := ResetTxState(r2.session)));
  }

  /// A failure scripted for one of `cs` is still scripted after calls that
  /// had none scripted were made.
  lemma ScriptedSurvives(t: Tablets, done1: seq<Call>, done2: seq<Call>, cs: seq<Call>, t2: Tablets)
    requires Unscripted(t, done1) && Unscripted(t, done2) && !Unscripted(t, cs)
    requires t2.failing == t.failing - (Elems(done1) + Elems(done2))
    requires t2.uncertain == t.uncertain - (Elems(done1) + Elems(done2))
    ensures !Unscripted(t2, cs)
  {
    var c :| c in cs && (c in t.failing || c in t.uncertain);
    assert c !in Elems(done1) && c !in Elems(done2);
  }

  /// With nothing scripted to fail in the pre and normal classes, both
  /// commit every shard session holding a transaction and `commitNormal`
  /// goes on to the post class.
  lemma NormalReachesPost(w: World)
    requires WellScripted(w.tablets)
    requires Unscripted(w.tablets, CallsOf(CommitTx, w.session.pre))
    requires Unscripted(w.tablets, CallsOf(CommitTx, w.session.shards))
    ensures var s := w.session; var t := w.tablets;
      var pre := FanOut(CommitTx, s.pre, t);
      var normal := FanOut(CommitTx, s.shards, pre.tablets);
      var done := Elems(CallsOf(CommitTx, s.pre)) + Elems(CallsOf(CommitTx, s.shards));
      && AfterCommitNormal(w) == Done(None, AfterCommitPost(World(s.(pre := pre.sessions, shards := normal.sessions), normal.tablets, w.nonAtomicCommits)))
      && normal.tablets.log == t.log + CallsOf(CommitTx, s.pre) + CallsOf(CommitTx, s.shards)
      && normal.tablets.failing == t.failing - done && normal.tablets.uncertain == t.uncertain - done
  {
    var s := w.session;
    var t := w.tablets;
    FanOutTrace(CommitTx, s.pre, t);
    FanOutFaults(CommitTx, s.pre, t);
    var pre := FanOut(CommitTx, s.pre, t);
    var t1 := pre.tablets;
    assert Unscripted(t1, CallsOf(CommitTx, s.shards));
    FanOutTrace(CommitTx, s.shards, t1);
    FanOutFaults(CommitTx, s.shards, t1);
    InOrderUnscripted(s.shards, t1);
  }

  /// The post class with a failure scripted for one of its calls: only
  /// Release calls follow the commits, a PostCommitFailed warning is
  /// recorded, and a session on reserved connections is released.
  lemma PostClassFails(w: World)
    requires WellScripted(w.tablets)
    requires !Unscripted(w.tablets, CallsOf(CommitTx, w.session.post))
    ensures var s := w.session; var r := AfterCommitPost(w); var s' := r.session;
      && ThenOnly(r.tablets.log, w.tablets.log + CallsOf(CommitTx, s.post), Release)
      && |s'.warnings| == |s.warnings| + 1 && s'.warnings[..|s.warnings|] == s.warnings
      && s'.warnings[|s.warnings|].PostCommitFailed?
      && r.nonAtomicCommits == w.nonAtomicCommits
      && s'.inReservedConn == s.inReservedConn
      && (s.inReservedConn ==> s'.pre == [] && s'.shards == [] && s'.post == [])
  {
    var s := w.session;
    FanOutTrace(CommitTx, s.post, w.tablets);
    FanOutFaults(CommitTx, s.post, w.tablets);
    var p := FanOut(CommitTx, s.post, w.tablets);
    var s2 := s.(post := p.sessions);
    var w3 := World(s2.(warnings := s2.warnings + [PostCommitFailed(Joined(p.errs).value)]), p.tablets, w.nonAtomicCommits);
    ReleaseOnlyReleases(w3);
  }

  /// `Begin` on a session with an open transaction commits it first: one
  /// Commit per shard session holding a transaction, and the session is
  /// left in a new transaction with no shard sessions.
  lemma BeginCommitsOpen(w: World, modes: seq<AccessMode>, txMode: TransactionMode)
    requires w.session.inTransaction && !w.session.inReservedConn
    requires !UsesTwoPC(w.session, txMode) || |w.session.shards| <= 1
    requires WellScripted(w.tablets)
    requires Unscripted(w.tablets, CallsOf(CommitTx, w.session.pre))
    requires Unscripted(w.tablets, CallsOf(CommitTx, w.session.shards))
    requires Unscripted(w.tablets, CallsOf(CommitTx, w.session.post))
    ensures var s := w.session; var r := AfterBegin(w, modes, txMode); var s' := r.world.session;
      && r.err.None? && s'.inTransaction
      && s'.pre == [] && s'.shards == [] && s'.post == []
      && r.world.tablets.log == w.tablets.log + CallsOf(CommitTx, s.pre) + CallsOf(CommitTx, s.shards) + CallsOf(CommitTx, s.post)
  {
    CommitSucceeds(w, txMode);
  }

  // ---------------------------------------------------------------------
  // Two-phase commit

  /// The rollback of a prepared two-phase commit with nothing scripted to
  /// fail: the decision on the metadata manager, RollbackPrepared on every
  /// resource manager, then the conclusion.
  lemma RollbackPreparedClean(mm: ShardSession, rms: seq<ShardSession>, t: Tablets)
    requires Clean(t)
    ensures RollbackPrepared2PC(mm, rms, t).log ==
      t.log + [Call(SetRollback, mm.target)] + CallsOf(RollbackPreparedTx, rms) + [Call(ConcludeTransaction, mm.target)]
  {
    var decide := Invoke(t, Call(SetRollback, mm.target));
    NotifyUnscripted(RollbackPreparedTx, rms, decide.tablets);
  }

  /// Faults scripted for one call of another verb leave a fan-out
  /// unscripted.
  lemma UnscriptedOtherVerb(t: Tablets, a: Action, ss: seq<ShardSession>, c: Call)
    requires t.failing + t.uncertain <= {c} && c.verb != VerbOf(a)
    ensures Unscripted(t, CallsOf(a, ss))
  {
  }

  /// `Commit` under two-phase commit: the protocol, then `ResetTx`.
  lemma CommitUsesTwoPC(w: World, txMode: TransactionMode)
    requires w.session.inTransaction && UsesTwoPC(w.session, txMode)
    ensures var d := AfterCommit2PC(w);
      AfterCommit(w, txMode) == Done(d.err, d.world.(session := ResetTxState(d.world.session)))
  {
  }

  /// With CreateTransaction not scripted to fail, the protocol goes on to
  /// the Prepare phase.
  lemma TwoPCCreated(w: World)
    requires |w.session.shards| >= 2
    requires Call(CreateTransaction, w.session.shards[0].target) !in w.tablets.failing + w.tablets.uncertain
    ensures var create := Invoke(w.tablets, Call(CreateTransaction, w.session.shards[0].target));
      && create.tablets == w.tablets.(log := w.tablets.log + [Call(CreateTransaction, w.session.shards[0].target)])
      && AfterCommit2PC(w) == TwoPCPrepare(w, create.tablets)
  {
  }

  /// With neither CreateTransaction nor any Prepare scripted to fail, the
  /// protocol goes on to the decision, with every participant prepared.
  lemma TwoPCPrepared(w: World)
    requires |w.session.shards| >= 2 && WellScripted(w.tablets)
    requires Call(CreateTransaction, w.session.shards[0].target) !in w.tablets.failing + w.tablets.uncertain
    requires Unscripted(w.tablets, CallsOf(PrepareTx, w.session.shards[1..]))
    ensures var mm := w.session.shards[0].target; var rms := w.session.shards[1..];
      var prepare := FanOut(PrepareTx, rms, w.tablets.(log := w.tablets.log + [Call(CreateTransaction, mm)]));
      && prepare.errs == []
      && prepare.tablets.failing == w.tablets.failing && prepare.tablets.uncertain == w.tablets.uncertain
      && prepare.tablets.log == w.tablets.log + [Call(CreateTransaction, mm)] + CallsOf(PrepareTx, rms)
      && AfterCommit2PC(w) == TwoPCDecide(w, prepare.tablets)
  {
    var mm := w.session.shards[0].target;
    var rms := w.session.shards[1..];
    var t1 := w.tablets.(log := w.tablets.log + [Call(CreateTransaction, mm)]);
    TwoPCCreated(w);
    NotifyUnscripted(PrepareTx, rms, t1);
  }

  /// The decided commit with nothing scripted to fail but the conclusion.
  lemma TwoPCCommitPreparedClean(w: World, t: Tablets)
    requires |w.session.shards| >= 2 && WellScripted(t)
    requires t.failing + t.uncertain <= {Call(ConcludeTransaction, w.session.shards[0].target)}
    ensures var mm := w.session.shards[0].target; var rms := w.session.shards[1..]; var r := TwoPCCommitPrepared(w, t);
      && r.err.None? && r.world.session == w.session
      && r.world.tablets.log == t.log + CallsOf(CommitPreparedTx, rms) + [Call(ConcludeTransaction, mm)]
  {
    var mm := w.session.shards[0].target;
    var rms := w.session.shards[1..];
    UnscriptedOtherVerb(t, CommitPreparedTx, rms, Call(ConcludeTransaction, mm));
    NotifyUnscripted(CommitPreparedTx, rms, t);
  }

  /// The two-phase protocol with nothing scripted to fail but the
  /// conclusion, leaving the session as it was.
  lemma TwoPCProtocol(w: World)
    requires |w.session.shards| >= 2 && WellScripted(w.tablets)
    requires w.tablets.failing + w.tablets.uncertain <= {Call(ConcludeTransaction, w.session.shards[0].target)}
    ensures var s := w.session; var mm := s.shards[0].target; var rms := s.shards[1..]; var r := AfterCommit2PC(w);
      && r.err.None? && r.world.session == s
      && r.world.tablets.log == w.tablets.log + [Call(CreateTransaction, mm)] + CallsOf(PrepareTx, rms)
           + [Call(StartCommit, mm)] + CallsOf(CommitPreparedTx, rms) + [Call(ConcludeTransaction, mm)]
  {
    var mm := w.session.shards[0].target;
    var rms := w.session.shards[1..];
    UnscriptedOtherVerb(w.tablets, PrepareTx, rms, Call(ConcludeTransaction, mm));
    TwoPCPrepared(w);
    var prepare := FanOut(PrepareTx, rms, w.tablets.(log := w.tablets.log + [Call(CreateTransaction, mm)]));
    var start := Invoke(prepare.tablets, Call(StartCommit, mm));
    assert start.outcome == Succeeded;
    assert TwoPCDecide(w, prepare.tablets) == TwoPCCommitPrepared(w, start.tablets);
    TwoPCCommitPreparedClean(w, start.tablets);
  }

  /// Two-phase commit with nothing scripted to fail, except possibly the
  /// conclusion: CreateTransaction on the metadata manager, Prepare on every
  /// resource manager, StartCommit, CommitPrepared on every resource
  /// manager, then ConcludeTransaction, and the commit succeeds even when
  /// the conclusion fails.
  lemma TwoPCCommits(w: World, txMode: TransactionMode)
    requires w.session.inTransaction && UsesTwoPC(w.session, txMode) && |w.session.shards| >= 2
    requires WellScripted(w.tablets)
    requires w.tablets.failing + w.tablets.uncertain <= {Call(ConcludeTransaction, w.session.shards[0].target)}
    ensures var s := w.session; var mm := s.shards[0].target; var rms := s.shards[1..]; var r := AfterCommit(w, txMode);
      && r.err.None?
      && r.world.tablets.log == w.tablets.log + [Call(CreateTransaction, mm)] + CallsOf(PrepareTx, rms)
           + [Call(StartCommit, mm)] + CallsOf(CommitPreparedTx, rms) + [Call(ConcludeTransaction, mm)]
      && r.world.session == ResetTxState(s)
  {
    TwoPCProtocol(w);
    CommitUsesTwoPC(w, txMode);
  }

  /// CreateTransaction fails: nothing is prepared, every shard session's
  /// transaction is rolled back, and the error is returned.
  lemma TwoPCCreateFails(w: World, txMode: TransactionMode)
    requires w.session.inTransaction && UsesTwoPC(w.session, txMode) && |w.session.shards| >= 2
    requires w.tablets.failing == {Call(CreateTransaction, w.session.shards[0].target)} && w.tablets.uncertain == {}
    ensures var s := w.session; var create := Call(CreateTransaction, s.shards[0].target); var r := AfterCommit(w, txMode);
      && r.err == Some(ShardError(create))
      && r.world.tablets.log == w.tablets.log + [create] + CallsOf(RollbackTx, s.pre + s.shards + s.post)
      && r.world.session.warnings == s.warnings && r.world.nonAtomicCommits == w.nonAtomicCommits
  {
    var s := w.session;
    var c := Call(CreateTransaction, s.shards[0].target);
    var t1 := w.tablets.(log := w.tablets.log + [c], failing := {});
    assert Invoke(w.tablets, c) == Answer(Failed, t1);
    assert Unscripted(t1, CallsOf(RollbackTx, s.pre + s.shards + s.post));
    RollbackSucceeds(w.(tablets := t1));
    assert AfterCommit2PC(w) == Done(Some(ShardError(c)), AfterRollback(w.(tablets := t1)).world);
  }

  /// The protocol when a Prepare fails, leaving the session as it was.
  lemma TwoPCPrepareProtocol(w: World, j: nat)
    requires 1 <= j < |w.session.shards|
    requires w.tablets.failing == {Call(Prepare, w.session.shards[j].target)} && w.tablets.uncertain == {}
    ensures var s := w.session; var mm := s.shards[0].target; var rms := s.shards[1..]; var r := AfterCommit2PC(w);
      && r.err.Some?
      && r.world.tablets.log == w.tablets.log + [Call(CreateTransaction, mm)] + CallsOf(PrepareTx, rms)
           + [Call(SetRollback, mm)] + CallsOf(RollbackPreparedTx, rms) + [Call(ConcludeTransaction, mm)]
      && r.world.session == s
  {
    var s := w.session;
    var mm := s.shards[0].target;
    var rms := s.shards[1..];
    TwoPCCreated(w);
    var t1 := w.tablets.(log := w.tablets.log + [Call(CreateTransaction, mm)]);
    assert rms[j - 1] == s.shards[j];
    assert CallsOf(PrepareTx, rms)[j - 1] == Call(Prepare, s.shards[j].target);
    assert !Unscripted(t1, CallsOf(PrepareTx, rms));
    FanOutTrace(PrepareTx, rms, t1);
    FanOutFaults(PrepareTx, rms, t1);
    var prepare := FanOut(PrepareTx, rms, t1);
    assert prepare.errs != [] && Clean(prepare.tablets);
    RollbackPreparedClean(s.shards[0], rms, prepare.tablets);
  }

  /// A Prepare fails: the transaction is decided for rollback, every
  /// resource manager rolls back its prepared transaction, the decision is
  /// concluded, nothing is committed, and the error is returned.
  lemma TwoPCPrepareFails(w: World, txMode: TransactionMode, j: nat)
    requires w.session.inTransaction && UsesTwoPC(w.session, txMode) && 1 <= j < |w.session.shards|
    requires w.tablets.failing == {Call(Prepare, w.session.shards[j].target)} && w.tablets.uncertain == {}
    ensures var s := w.session; var mm := s.shards[0].target; var rms := s.shards[1..]; var r := AfterCommit(w, txMode);
      && r.err.Some?
      && r.world.tablets.log == w.tablets.log + [Call(CreateTransaction, mm)] + CallsOf(PrepareTx, rms)
           + [Call(SetRollback, mm)] + CallsOf(RollbackPreparedTx, rms) + [Call(ConcludeTransaction, mm)]
      && r.world.session == ResetTxState(s)
  {
    TwoPCPrepareProtocol(w, j);
    CommitUsesTwoPC(w, txMode);
  }

  /// The protocol when StartCommit fails for certain, leaving the session as
  /// it was.
  lemma TwoPCStartCommitProtocol(w: World)
    requires |w.session.shards| >= 2
    requires w.tablets.failing == {Call(StartCommit, w.session.shards[0].target)} && w.tablets.uncertain == {}
    ensures var s := w.session; var mm := s.shards[0].target; var rms := s.shards[1..]; var r := AfterCommit2PC(w);
      && r.err == Some(ShardError(Call(StartCommit, mm)))
      && r.world.tablets.log == w.tablets.log + [Call(CreateTransaction, mm)] + CallsOf(PrepareTx, rms)
           + [Call(StartCommit, mm)] + [Call(SetRollback, mm)] + CallsOf(RollbackPreparedTx, rms) + [Call(ConcludeTransaction, mm)]
      && r.world.session == s
  {
    var s := w.session;
    var mm := s.shards[0].target;
    var rms := s.shards[1..];
    UnscriptedOtherVerb(w.tablets, PrepareTx, rms, Call(StartCommit, mm));
    TwoPCPrepared(w);
    var prepare := FanOut(PrepareTx, rms, w.tablets.(log := w.tablets.log + [Call(CreateTransaction, mm)]));
    var start := Invoke(prepare.tablets, Call(StartCommit, mm));
    assert start.outcome == Failed && Clean(start.tablets);
    RollbackPreparedClean(s.shards[0], rms, start.tablets);
  }

  /// StartCommit fails for certain: the prepared transaction is rolled back
  /// and concluded as after a Prepare failure, and nothing is committed.
  lemma TwoPCStartCommitFails(w: World, txMode: TransactionMode)
    requires w.session.inTransaction && UsesTwoPC(w.session, txMode) && |w.session.shards| >= 2
    requires w.tablets.failing == {Call(StartCommit, w.session.shards[0].target)} && w.tablets.uncertain == {}
    ensures var s := w.session; var mm := s.shards[0].target; var rms := s.shards[1..]; var r := AfterCommit(w, txMode);
      && r.err == Some(ShardError(Call(StartCommit, mm)))
      && r.world.tablets.log == w.tablets.log + [Call(CreateTransaction, mm)] + CallsOf(PrepareTx, rms)
           + [Call(StartCommit, mm)] + [Call(SetRollback, mm)] + CallsOf(RollbackPreparedTx, rms) + [Call(ConcludeTransaction, mm)]
      && r.world.session == ResetTxState(s)
  {
    TwoPCStartCommitProtocol(w);
    CommitUsesTwoPC(w, txMode);
  }

  /// The protocol when StartCommit fails without an answer, leaving the
  /// session as it was.
  lemma TwoPCStartCommitUncertainProtocol(w: World)
    requires |w.session.shards| >= 2
    requires w.tablets.failing == {} && w.tablets.uncertain == {Call(StartCommit, w.session.shards[0].target)}
    ensures var s := w.session; var mm := s.shards[0].target; var rms := s.shards[1..]; var r := AfterCommit2PC(w);
      && r.err == Some(UncertainError(Call(StartCommit, mm)))
      && r.world.tablets.log == w.tablets.log + [Call(CreateTransaction, mm)] + CallsOf(PrepareTx, rms) + [Call(StartCommit, mm)]
      && r.world.session == w.session
  {
    var mm := w.session.shards[0].target;
    var rms := w.session.shards[1..];
    UnscriptedOtherVerb(w.tablets, PrepareTx, rms, Call(StartCommit, mm));
    TwoPCPrepared(w);
  }

  /// StartCommit fails without telling whether the decision was stored:
  /// nothing is undone and nothing more is sent, but the error is returned.
  lemma TwoPCStartCommitUncertain(w: World, txMode: TransactionMode)
    requires w.session.inTransaction && UsesTwoPC(w.session, txMode) && |w.session.shards| >= 2
    requires w.tablets.failing == {} && w.tablets.uncertain == {Call(StartCommit, w.session.shards[0].target)}
    ensures var s := w.session; var mm := s.shards[0].target; var rms := s.shards[1..]; var r := AfterCommit(w, txMode);
      && r.err == Some(UncertainError(Call(StartCommit, mm)))
      && r.world.tablets.log == w.tablets.log + [Call(CreateTransaction, mm)] + CallsOf(PrepareTx, rms) + [Call(StartCommit, mm)]
      && r.world.session == ResetTxState(s)
  {
    TwoPCStartCommitUncertainProtocol(w);
    CommitUsesTwoPC(w, txMode);
  }

  /// The decided commit when a CommitPrepared fails: the error is returned
  /// and nothing is concluded.
  lemma TwoPCCommitPreparedFailsAt(w: World, t: Tablets, j: nat)
    requires 1 <= j < |w.session.shards|
    requires t.failing == {Call(CommitPrepared, w.session.shards[j].target)} && t.uncertain == {}
    ensures var rms := w.session.shards[1..]; var r := TwoPCCommitPrepared(w, t);
      && r.err.Some? && r.world.session == w.session
      && r.world.tablets.log == t.log + CallsOf(CommitPreparedTx, rms)
  {
    var rms := w.session.shards[1..];
    var c := Call(CommitPrepared, w.session.shards[j].target);
    assert rms[j - 1] == w.session.shards[j];
    assert CallsOf(CommitPreparedTx, rms)[j - 1] == c;
    assert !Unscripted(t, CallsOf(CommitPreparedTx, rms));
    FanOutTrace(CommitPreparedTx, rms, t);
    FanOutFaults(CommitPreparedTx, rms, t);
  }

  /// The protocol when a CommitPrepared fails, leaving the session as it was.
  lemma TwoPCCommitPreparedProtocol(w: World, j: nat)
    requires 1 <= j < |w.session.shards|
    requires w.tablets.failing == {Call(CommitPrepared, w.session.shards[j].target)} && w.tablets.uncertain == {}
    ensures var s := w.session; var mm := s.shards[0].target; var rms := s.shards[1..]; var r := AfterCommit2PC(w);
      && r.err.Some?
      && r.world.tablets.log == w.tablets.log + [Call(CreateTransaction, mm)] + CallsOf(PrepareTx, rms)
           + [Call(StartCommit, mm)] + CallsOf(CommitPreparedTx, rms)
      && r.world.session == s
  {
    var mm := w.session.shards[0].target;
    var rms := w.session.shards[1..];
    UnscriptedOtherVerb(w.tablets, PrepareTx, rms, Call(CommitPrepared, w.session.shards[j].target));
    TwoPCPrepared(w);
    var prepare := FanOut(PrepareTx, rms, w.tablets.(log := w.tablets.log + [Call(CreateTransaction, mm)]));
    var start := Invoke(prepare.tablets, Call(StartCommit, mm));
    assert start.outcome == Succeeded;
    assert TwoPCDecide(w, prepare.tablets) == TwoPCCommitPrepared(w, start.tablets);
    TwoPCCommitPreparedFailsAt(w, start.tablets, j);
  }

  /// A CommitPrepared fails: the error is returned and the transaction is
  /// not concluded.
  lemma TwoPCCommitPreparedFails(w: World, txMode: TransactionMode, j: nat)
    requires w.session.inTransaction && UsesTwoPC(w.session, txMode) && 1 <= j < |w.session.shards|
    requires w.tablets.failing == {Call(CommitPrepared, w.session.shards[j].target)} && w.tablets.uncertain == {}
    ensures var s := w.session; var mm := s.shards[0].target; var rms := s.shards[1..]; var r := AfterCommit(w, txMode);
      && r.err.Some?
      && r.world.tablets.log == w.tablets.log + [Call(CreateTransaction, mm)] + CallsOf(PrepareTx, rms)
           + [Call(StartCommit, mm)] + CallsOf(CommitPreparedTx, rms)
      && r.world.session == ResetTxState(s)
  {
    TwoPCCommitPreparedProtocol(w, j);
    CommitUsesTwoPC(w, txMode);
  }

  // ---------------------------------------------------------------------
  // Rollback

  /// The three classes `Regroup` makes join back into the fan-out's list.
  lemma RegroupRejoins(s: SessionState, all: seq<ShardSession>)
    requires |all| == |s.pre| + |s.shards| + |s.post|
    ensures var r := Regroup(s, all); r.pre + r.shards + r.post == all
  {
    var a := |s.pre|;
    var b := a + |s.shards|;
    assert all[..a] + all[a..b] + all[b..] == all;
  }

  /// A rollback with no failure scripted: Rollback goes to every shard
  /// session holding a transaction; the session leaves its transaction and
  /// keeps its reserved connections, under new ids, or is emptied.
  lemma RollbackSucceeds(w: World)
    requires w.session.inTransaction && WellScripted(w.tablets)
    requires Unscripted(w.tablets, CallsOf(RollbackTx, w.session.pre + w.session.shards + w.session.post))
    ensures var s := w.session; var all := s.pre + s.shards + s.post; var r := AfterRollback(w); var s' := r.world.session;
      && r.err.None?
      && r.world.tablets.log == w.tablets.log + CallsOf(RollbackTx, all)
      && s'.warnings == s.warnings && s'.inReservedConn == s.inReservedConn
      && (!s.inReservedConn ==> s'.pre == [] && s'.shards == [] && s'.post == [])
      && (s.inReservedConn ==> Ended(all, s'.pre + s'.shards + s'.post, w.tablets))
  {
    var s := w.session;
    var all := s.pre + s.shards + s.post;
    FanOutTrace(RollbackTx, all, w.tablets);
    FanOutFaults(RollbackTx, all, w.tablets);
    FanOutEnds(RollbackTx, all, w.tablets);
    var run := FanOut(RollbackTx, all, w.tablets);
    RegroupRejoins(s, run.sessions);
    assert AfterRollback(w) == Done(None, World(ResetTxState(Regroup(s, run.sessions)), run.tablets, w.nonAtomicCommits));
  }

  /// A rollback that fails: the error is returned, every connection of the
  /// session is released, its shard sessions are dropped and it gains one
  /// rollback warning.
  lemma RollbackFails(w: World)
    requires w.session.inTransaction && WellScripted(w.tablets)
    requires !Unscripted(w.tablets, CallsOf(RollbackTx, w.session.pre + w.session.shards + w.session.post))
    ensures var s := w.session; var all := s.pre + s.shards + s.post; var r := AfterRollback(w); var s' := r.world.session;
      && r.err.Some?
      && s'.warnings == s.warnings + [RollbackFailed(r.err.value)]
      && s'.pre == [] && s'.shards == [] && s'.post == []
      && ThenOnly(r.world.tablets.log, w.tablets.log + CallsOf(RollbackTx, all), Release)
  {
    var s := w.session;
    var all := s.pre + s.shards + s.post;
    FanOutTrace(RollbackTx, all, w.tablets);
    FanOutFaults(RollbackTx, all, w.tablets);
    var run := FanOut(RollbackTx, all, w.tablets);
    var s1 := Regroup(s, run.sessions);
    var e := Joined(run.errs).value;
    ReleaseOnlyReleases(World(s1.(warnings := s1.warnings + [RollbackFailed(e)]), run.tablets, w.nonAtomicCommits));
  }

  // ---------------------------------------------------------------------
  // Resolving distributed transactions

  lemma ConcludeAfter(v: Verb, target: Target, md: TransactionMetadata, t: Tablets)
    requires v != ConcludeTransaction && WellScripted(t)
    ensures var run := CallEach(v, md.participants, t); var c := Call(ConcludeTransaction, target);
      (c in run.tablets.failing <==> c in t.failing) && (c in run.tablets.uncertain <==> c in t.uncertain)
  {
    CallEachAccounting(v, md.participants, t);
    var c := Call(ConcludeTransaction, target);
    assert c !in Elems(TargetCalls(v, md.participants));
  }

  /// A transaction found in COMMIT: CommitPrepared on every participant,
  /// then the conclusion; a failing CommitPrepared skips the conclusion.
  lemma ResolveCommitted(target: Target, md: TransactionMetadata, t: Tablets)
    requires ParseDtid(md.dtid).Ok? && md.state == StateCommit && WellScripted(t)
    ensures var r := AfterResolveTx(target, md, t);
      var calls := TargetCalls(CommitPrepared, md.participants);
      var conclude := Call(ConcludeTransaction, target);
      && (Unscripted(t, calls) ==>
            r.tablets.log == t.log + calls + [conclude]
            && (r.err.None? <==> conclude !in t.failing && conclude !in t.uncertain))
      && (!Unscripted(t, calls) ==> r.err.Some? && r.tablets.log == t.log + calls)
  {
    CallEachAccounting(CommitPrepared, md.participants, t);
    ConcludeAfter(CommitPrepared, target, md, t);
  }

  /// A transaction found in ROLLBACK: RollbackPrepared on every
  /// participant, then the conclusion; a failing RollbackPrepared skips the
  /// conclusion.
  lemma ResolveRolledBack(target: Target, md: TransactionMetadata, t: Tablets)
    requires ParseDtid(md.dtid).Ok? && md.state == StateRollback && WellScripted(t)
    ensures var r := AfterResolveTx(target, md, t);
      var calls := TargetCalls(RollbackPrepared, md.participants);
      var conclude := Call(ConcludeTransaction, target);
      && (Unscripted(t, calls) ==>
            r.tablets.log == t.log + calls + [conclude]
            && (r.err.None? <==> conclude !in t.failing && conclude !in t.uncertain))
      && (!Unscripted(t, calls) ==> r.err.Some? && r.tablets.log == t.log + calls)
  {
    CallEachAccounting(RollbackPrepared, md.participants, t);
    ConcludeAfter(RollbackPrepared, target, md, t);
  }

  /// A transaction found in PREPARE: first decided for rollback on the
  /// metadata manager, then resolved as one found in ROLLBACK; a failing
  /// decision skips everything after it.
  lemma ResolvePrepared(target: Target, md: TransactionMetadata, t: Tablets)
    requires ParseDtid(md.dtid).Ok? && md.state == StatePrepare && WellScripted(t)
    ensures var r := AfterResolveTx(target, md, t);
      var decide := Call(SetRollback, target);
      var calls := TargetCalls(RollbackPrepared, md.participants);
      var conclude := Call(ConcludeTransaction, target);
      && (decide in t.failing || decide in t.uncertain ==> r.err.Some? && r.tablets.log == t.log + [decide])
      && (decide !in t.failing && decide !in t.uncertain && Unscripted(t, calls) ==>
            r.tablets.log == t.log + [decide] + calls + [conclude]
            && (r.err.None? <==> conclude !in t.failing && conclude !in t.uncertain))
      && (decide !in t.failing && decide !in t.uncertain && !Unscripted(t, calls) ==>
            r.err.Some? && r.tablets.log == t.log + [decide] + calls)
  {
    var decide := Call(SetRollback, target);
    if decide !in t.failing && decide !in t.uncertain {
      var t1 := Invoke(t, decide).tablets;
      CallEachAccounting(RollbackPrepared, md.participants, t1);
      ConcludeAfter(RollbackPrepared, target, md, t1);
    }
  }

  /// One unresolved transaction: "failed to resolve 1 out of 1" exactly when
  /// resolving it failed.
  lemma ResolveOne(target: Target, md: TransactionMetadata, t: Tablets)
    requires UnresolvedOf(t, target) == [md]
    requires Call(UnresolvedTransactions, target) !in t.failing && Call(UnresolvedTransactions, target) !in t.uncertain
    ensures var one := AfterResolveTx(target, md, Invoke(t, Call(UnresolvedTransactions, target)).tablets);
      var r := AfterResolve(target, t);
      && (r.err.Some? <==> one.err.Some?)
      && (r.err.Some? ==> r.err.value == ResolveFailed(1, 1))
      && r.tablets == one.tablets
  {
    var t1 := Invoke(t, Call(UnresolvedTransactions, target)).tablets;
    var one := AfterResolveTx(target, md, t1);
    assert [md][..0] == [];
    assert ResolveEach(target, [md], t1) == Tally(if one.err.Some? then 1 else 0, one.tablets);
    var tally := ResolveEach(target, [md], t1);
    assert AfterResolve(target, t) == Resolution(if tally.failed == 0 then None else Some(ResolveFailed(tally.failed, 1)), tally.tablets);
  }

  // ---------------------------------------------------------------------
  // Distributed transaction ids

  lemma {:induction false} SplitWhole(s: string, sep: char)
    requires sep !in s
    ensures Split(s, sep) == [s]
    decreases |s|
  {
    if s != [] {
      SplitWhole(s[1..], sep);
      assert [s[0]] + s[1..] == s;
    }
  }

  lemma {:induction false} SplitAt(a: string, b: string, sep: char)
    requires sep !in a
    ensures Split(a + [sep] + b, sep) == [a] + Split(b, sep)
    decreases |a|
  {
    var s := a + [sep] + b;
    if a == [] {
      assert s[1..] == b;
    } else {
      SplitAt(a[1..], b, sep);
      assert s[1..] == a[1..] + [sep] + b;
      assert [a[0]] + a[1..] == a;
    }
  }

  /// Three colon-free names joined by colons split back into the three.
  lemma SplitThree(x: string, y: string, z: string)
    requires ':' !in x && ':' !in y && ':' !in z
    ensures Split(x + ":" + y + ":" + z, ':') == [x, y, z]
  {
    SplitWhole(z, ':');
    SplitAt(y, z, ':');
    SplitAt(x, y + [':'] + z, ':');
    assert x + ":" + y + ":" + z == x + [':'] + (y + [':'] + z);
  }

  /// A distributed transaction id reads back as the metadata manager and
  /// transaction id it was made from, when neither name holds a colon.
  lemma DtidRoundTrip(mm: Target, id: nat)
    requires ':' !in mm.keyspace && ':' !in mm.shard && id <= MaxInt64
    ensures ParseDtid(NewDtid(mm, id)) == Ok(DtidParts(mm, id))
  {
    var digits := IntToDecimal(id);
    assert digits == Digits(id);
    assert ':' !in digits;
    SplitThree(mm.keyspace, mm.shard, digits);
    DecimalRoundTrip(id);
    assert digits[0] != '+';
  }

  /// An id without three colon-separated parts is rejected.
  lemma DtidWithoutParts(dtid: string)
    requires ':' !in dtid
    ensures ParseDtid(dtid) == Err(InvalidDtid(dtid))
  {
    SplitWhole(dtid, ':');
  }

  // ---------------------------------------------------------------------
  // The NonAtomicCommit warning

  lemma TwoDigitDecimals()
    ensures IntToDecimal(10) == "10"
    ensures IntToDecimal(11) == "11"
    ensures IntToDecimal(12) == "12"
    ensures IntToDecimal(13) == "13"
    ensures IntToDecimal(14) == "14"
    ensures IntToDecimal(15) == "15"
    ensures IntToDecimal(16) == "16"
    ensures IntToDecimal(17) == "17"
  {
  }

  /// The first sixteen shard names, joined as the warning joins them.
  lemma JoinSixteen()
    ensures JoinWith(["0", "1", "2", "3", "4", "5", "6", "7", "8", "9", "10", "11", "12", "13", "14", "15"], ", ") == "0, 1, 2, 3, 4, 5, 6, 7, 8, 9, 10, 11, 12, 13, 14, 15"
  {
    var names := ["0", "1", "2", "3", "4", "5", "6", "7", "8", "9", "10", "11", "12", "13", "14", "15"];
    assert JoinWith(names[..1], ", ") == "0";
    assert JoinWith(names[..2], ", ") == "0, 1" by {
      assert names[..2][..1] == names[..1];
    }
    assert JoinWith(names[..3], ", ") == "0, 1, 2" by {
      assert names[..3][..2] == names[..2];
    }
    assert JoinWith(names[..4], ", ") == "0, 1, 2, 3" by {
      assert names[..4][..3] == names[..3];
    }
    assert JoinWith(names[..5], ", ") == "0, 1, 2, 3, 4" by {
      assert names[..5][..4] == names[..4];
    }
    assert JoinWith(names[..6], ", ") == "0, 1, 2, 3, 4, 5" by {
      assert names[..6][..5] == names[..5];
    }
    assert JoinWith(names[..7], ", ") == "0, 1, 2, 3, 4, 5, 6" by {
      assert names[..7][..6] == names[..6];
    }
    assert JoinWith(names[..8], ", ") == "0, 1, 2, 3, 4, 5, 6, 7" by {
      assert names[..8][..7] == names[..7];
    }
    assert JoinWith(names[..9], ", ") == "0, 1, 2, 3, 4, 5, 6, 7, 8" by {
      assert names[..9][..8] == names[..8];
    }
    assert JoinWith(names[..10], ", ") == "0, 1, 2, 3, 4, 5, 6, 7, 8, 9" by {
      assert names[..10][..9] == names[..9];
    }
    assert JoinWith(names[..11], ", ") == "0, 1, 2, 3, 4, 5, 6, 7, 8, 9, 10" by {
      assert names[..11][..10] == names[..10];
    }
    assert JoinWith(names[..12], ", ") == "0, 1, 2, 3, 4, 5, 6, 7, 8, 9, 10, 11" by {
      assert names[..12][..11] == names[..11];
    }
    assert JoinWith(names[..13], ", ") == "0, 1, 2, 3, 4, 5, 6, 7, 8, 9, 10, 11, 12" by {
      assert names[..13][..12] == names[..12];
    }
    assert JoinWith(names[..14], ", ") == "0, 1, 2, 3, 4, 5, 6, 7, 8, 9, 10, 11, 12, 13" by {
      assert names[..14][..13] == names[..13];
    }
    assert JoinWith(names[..15], ", ") == "0, 1, 2, 3, 4, 5, 6, 7, 8, 9, 10, 11, 12, 13, 14" by {
      assert names[..15][..14] == names[..14];
    }
    assert JoinWith(names[..16], ", ") == "0, 1, 2, 3, 4, 5, 6, 7, 8, 9, 10, 11, 12, 13, 14, 15" by {
      assert names[..16][..15] == names[..15];
    }
    assert names[..16] == names;
  }

  /// The shards the warning names when they are named by their position.
  lemma ShownByPosition(ss: seq<ShardSession>)
    requires |ss| >= 17 && forall k :: 0 <= k < |ss| ==> ss[k].target.shard == IntToDecimal(k)
    ensures ShownShards(ss, 16) == ["0", "1", "2", "3", "4", "5", "6", "7", "8", "9", "10", "11", "12", "13", "14", "15"]
    ensures ShownShards(ss, 17) == ["0", "1", "2", "3", "4", "5", "6", "7", "8", "9", "10", "11", "12", "13", "14", "15", "..."]
  {
    TwoDigitDecimals();
  }

  /// The warning text when the shards are named by their position: sixteen
  /// committed shards are all named, seventeen are cut to the first sixteen
  /// and "...".
  lemma NonAtomicMessageCut(ss: seq<ShardSession>)
    requires |ss| >= 17 && forall k :: 0 <= k < |ss| ==> ss[k].target.shard == IntToDecimal(k)
    ensures NonAtomicMessage(ss, 16) ==
      "multi-db commit failed after committing to " + "16" + " shards: " + "0, 1, 2, 3, 4, 5, 6, 7, 8, 9, 10, 11, 12, 13, 14, 15"
    ensures NonAtomicMessage(ss, 17) ==
      "multi-db commit failed after committing to " + "17" + " shards: " + "0, 1, 2, 3, 4, 5, 6, 7, 8, 9, 10, 11, 12, 13, 14, 15" + ", " + "..."
  {
    var names := ["0", "1", "2", "3", "4", "5", "6", "7", "8", "9", "10", "11", "12", "13", "14", "15"];
    var joined := "0, 1, 2, 3, 4, 5, 6, 7, 8, 9, 10, 11, 12, 13, 14, 15";
    ShownByPosition(ss);
    JoinSixteen();
    assert (names + ["..."])[..16] == names;
    assert JoinWith(ShownShards(ss, 17), ", ") == joined + ", " + "...";
    assert IntToDecimal(16) == "16" && IntToDecimal(17) == "17" by {
      TwoDigitDecimals();
    }
  }
}
