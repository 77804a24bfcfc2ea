/// The vtgate transaction coordinator `TxConn` as its tests fix it: which
/// backend verbs it calls on which shard, in which order, and what the
/// session holds afterwards.
///
/// The first half states each operation as a function of a `World`: the
/// session, the tablets (every call they received, the failures scripted on
/// them, the ids they hand out) and the NonAtomicCommit counter. The second
/// half is the coordinator as classes whose methods change a `Session`, a
/// `Sandbox` and the counter in place, each proved to end in the state its
/// function describes. Fan-out to several shards (`runSessions`,
/// `runTargets`) is sequential here: every shard is called, in list order,
/// and the errors are joined.
module TxConn {
  import opened Wrappers
  import opened Decimal

  // ---------------------------------------------------------------------
  // Sessions

  datatype Target = Target(keyspace: string, shard: string)

  /// The transaction and the reserved connection a session holds on one
  /// shard; 0 is none.
  datatype ShardSession = ShardSession(target: Target, transactionId: nat, reservedId: nat)

  datatype TransactionMode = Unspecified | Single | Multi | TwoPC

  datatype AccessMode = ReadOnly | ReadWrite | ConsistentSnapshot

  datatype Warning =
    | NonAtomicCommit(message: string)   // code ERNonAtomicCommit
    | PostCommitFailed(cause: Error)     // "post-operation transaction had an error: ..."
    | RollbackFailed(cause: Error)       // "rollback encountered an error and connection to all shard ..."

  /// The session fields the coordinator reads and writes. `pre`, `shards`
  /// and `post` are the shard sessions of the three commit classes.
  datatype SessionState = SessionState(
    pre: seq<ShardSession>,
    shards: seq<ShardSession>,
    post: seq<ShardSession>,
    warnings: seq<Warning>,
    inTransaction: bool,
    inReservedConn: bool,
    accessModes: seq<AccessMode>,
    mode: TransactionMode)

  /// `ResetTx` without the part that depends on reserved connections.
  function ResetCommonState(s: SessionState): (r: SessionState)
    ensures !r.inTransaction && r.accessModes == []
    ensures r.(inTransaction := s.inTransaction, accessModes := s.accessModes) == s
  {
    s.(inTransaction := false, accessModes := [])
  }

  /// `Reset`: the transaction ends and every shard session is dropped.
  function ResetState(s: SessionState): (r: SessionState)
    ensures !r.inTransaction && r.accessModes == [] && r.pre == r.shards == r.post == []
    ensures r.warnings == s.warnings && r.inReservedConn == s.inReservedConn && r.mode == s.mode
  {
    ResetCommonState(s).(pre := [], shards := [], post := [])
  }

  /// `ResetTx`: as `Reset`, except that a session holding reserved
  /// connections keeps its shard sessions.
  function ResetTxState(s: SessionState): (r: SessionState)
    ensures !r.inTransaction && r.accessModes == [] && r.warnings == s.warnings
    ensures s.inReservedConn ==> r.pre == s.pre && r.shards == s.shards && r.post == s.post
    ensures !s.inReservedConn ==> r.pre == r.shards == r.post == []
  {
    if s.inReservedConn then ResetCommonState(s) else ResetState(s)
  }

  /// `ResetAll`: `Reset`, and the session leaves reserved-connection mode.
  function ResetAllState(s: SessionState): (r: SessionState)
    ensures r == ResetState(s).(inReservedConn := false)
  {
    ResetState(s).(inReservedConn := false)
  }

  // ---------------------------------------------------------------------
  // Tablets

  datatype Verb =
    | Commit | Rollback | Release
    | CreateTransaction | Prepare | StartCommit | SetRollback
    | CommitPrepared | RollbackPrepared | ConcludeTransaction
    | UnresolvedTransactions

  datatype Call = Call(verb: Verb, target: Target)

  /// A definite failure, or (for StartCommit) one whose outcome is unknown.
  datatype Outcome = Succeeded | Failed | FailedUncertain

  datatype TransactionState = StateUnknown | StatePrepare | StateCommit | StateRollback

  /// What `UnresolvedTransactions` reports for one distributed transaction.
  datatype TransactionMetadata = TransactionMetadata(dtid: string, state: TransactionState, participants: seq<Target>)

  datatype Error =
    | ShardError(call: Call)
    | UncertainError(call: Call)
    | Errors(errs: seq<Error>)
    | InvalidDtid(dtid: string)
    | InvalidState(state: TransactionState)
    | ResolveFailed(failed: nat, total: nat)

  /// The tablets as the coordinator sees them: every call made so far, the
  /// calls scripted to fail once (`MustFail…` of the test sandbox), the last
  /// id each tablet handed out, and the unresolved transactions each
  /// reports.
  datatype Tablets = Tablets(
    log: seq<Call>,
    failing: set<Call>,
    uncertain: set<Call>,
    ids: map<Target, nat>,
    unresolved: map<Target, seq<TransactionMetadata>>)

  datatype Answer = Answer(outcome: Outcome, tablets: Tablets)

  /// One call: it is logged; a scripted failure fires once and is used up.
  function Invoke(t: Tablets, c: Call): (r: Answer)
    ensures r.tablets.log == t.log + [c]
    ensures r.tablets.ids == t.ids && r.tablets.unresolved == t.unresolved
    ensures r.outcome == Succeeded <==> c !in t.uncertain && c !in t.failing
    ensures r.tablets.failing <= t.failing && r.tablets.uncertain <= t.uncertain
    ensures r.outcome == Succeeded ==> r.tablets.failing == t.failing && r.tablets.uncertain == t.uncertain
  {
    if c in t.uncertain then Answer(FailedUncertain, t.(log := t.log + [c], uncertain := t.uncertain - {c}))
    else if c in t.failing then Answer(Failed, t.(log := t.log + [c], failing := t.failing - {c}))
    else Answer(Succeeded, t.(log := t.log + [c]))
  }

  function LastId(t: Tablets, target: Target): nat
  {
    if target in t.ids then t.ids[target] else 0
  }

  datatype Issued = Issued(id: nat, tablets: Tablets)

  /// A tablet hands out ids from one counter: the new one is above every
  /// id it gave before.
  function NewId(t: Tablets, target: Target): (r: Issued)
    ensures r.id > LastId(t, target) && LastId(r.tablets, target) == r.id
    ensures forall other :: other != target ==> LastId(r.tablets, other) == LastId(t, other)
    ensures r.tablets.log == t.log && r.tablets.failing == t.failing && r.tablets.uncertain == t.uncertain
    ensures r.tablets.unresolved == t.unresolved
  {
    var id := LastId(t, target) + 1;
    Issued(id, t.(ids := t.ids[target := id]))
  }

  function ErrorOf(o: Outcome, c: Call): Error
  {
    if o == FailedUncertain then UncertainError(c) else ShardError(c)
  }

  /// The errors of a fan-out as one: none, the only one, or all joined.
  function Joined(errs: seq<Error>): (r: Option<Error>)
    ensures r.None? <==> errs == []
    ensures |errs| == 1 ==> r == Some(errs[0])
  {
    if errs == [] then None else if |errs| == 1 then Some(errs[0]) else Some(Errors(errs))
  }

  // ---------------------------------------------------------------------
  // Per-shard actions and fan-out

  datatype Action = CommitTx | RollbackTx | ReleaseConn | PrepareTx | CommitPreparedTx | RollbackPreparedTx

  datatype Step = Step(err: Option<Error>, session: ShardSession, tablets: Tablets)

  /// `commitShard` and the rollback action: nothing without a transaction;
  /// on success the transaction is gone and a reserved connection comes
  /// back under a new id.
  function EndTransaction(verb: Verb, s: ShardSession, t: Tablets): (r: Step)
    ensures r.session.target == s.target
    ensures s.transactionId == 0 ==> r == Step(None, s, t)
    ensures r.err.None? ==> r.session.transactionId == 0 && (r.session.reservedId == 0 <==> s.reservedId == 0)
    ensures r.err.Some? ==> r.session == s
  {
    if s.transactionId == 0 then Step(None, s, t)
    else
      var c := Call(verb, s.target);
      var a := Invoke(t, c);
      if a.outcome != Succeeded then Step(Some(ErrorOf(a.outcome, c)), s, a.tablets)
      else if s.reservedId == 0 then Step(None, s.(transactionId := 0), a.tablets)
      else
        var n := NewId(a.tablets, s.target);
        Step(None, ShardSession(s.target, 0, n.id), n.tablets)
  }

  /// The action `runSessions` applies to one shard session.
  function Apply(a: Action, s: ShardSession, t: Tablets): (r: Step)
    ensures r.session.target == s.target
  {
    match a
    case CommitTx => EndTransaction(Commit, s, t)
    case RollbackTx => EndTransaction(Rollback, s, t)
    case ReleaseConn =>
      if s.transactionId == 0 && s.reservedId == 0 then Step(None, s, t)
      else
        var c := Call(Release, s.target);
        var ans := Invoke(t, c);
        if ans.outcome != Succeeded then Step(Some(ErrorOf(ans.outcome, c)), s, ans.tablets)
        else Step(None, s.(transactionId := 0, reservedId := 0), ans.tablets)
    case PrepareTx => Notify(Prepare, s, t)
    case CommitPreparedTx => Notify(CommitPrepared, s, t)
    case RollbackPreparedTx => Notify(RollbackPrepared, s, t)
  }

  /// A two-phase-commit message to a participant: always sent, and it
  /// leaves the shard session as it was.
  function Notify(verb: Verb, s: ShardSession, t: Tablets): (r: Step)
    ensures r.session == s && r.tablets.log == t.log + [Call(verb, s.target)]
  {
    var c := Call(verb, s.target);
    var ans := Invoke(t, c);
    Step(if ans.outcome == Succeeded then None else Some(ErrorOf(ans.outcome, c)), s, ans.tablets)
  }

  datatype Run = Run(errs: seq<Error>, sessions: seq<ShardSession>, tablets: Tablets)

  function ErrorList(e: Option<Error>): seq<Error>
  {
    if e.Some? then [e.value] else []
  }

  /// `runSessions`: the action on every shard session in order, whatever
  /// the earlier ones returned.
  function FanOut(a: Action, ss: seq<ShardSession>, t: Tablets): (r: Run)
    ensures |r.sessions| == |ss|
    ensures forall k :: 0 <= k < |ss| ==> r.sessions[k].target == ss[k].target
    decreases |ss|
  {
    if ss == [] then Run([], [], t)
    else
      var r := FanOut(a, ss[..|ss| - 1], t);
      var step := Apply(a, ss[|ss| - 1], r.tablets);
      Run(r.errs + ErrorList(step.err), r.sessions + [step.session], step.tablets)
  }

  datatype InOrder = InOrder(err: Option<Error>, failedAt: nat, sessions: seq<ShardSession>, tablets: Tablets)

  /// The normal commit class: `commitShard` on each shard session in order,
  /// stopping at the first failure, after which the rest are left
  /// untouched; `failedAt` is how many committed before it.
  function CommitInOrder(ss: seq<ShardSession>, t: Tablets): (r: InOrder)
    ensures |r.sessions| == |ss|
    ensures r.err.Some? ==> r.failedAt < |ss|
    ensures r.err.None? ==> r.failedAt == |ss|
    ensures forall k :: 0 <= k < |ss| ==> r.sessions[k].target == ss[k].target
    decreases |ss|
  {
    if ss == [] then InOrder(None, 0, [], t)
    else
      var r := CommitInOrder(ss[..|ss| - 1], t);
      if r.err.Some? then r.(sessions := r.sessions + [ss[|ss| - 1]])
      else
        var step := EndTransaction(Commit, ss[|ss| - 1], r.tablets);
        InOrder(step.err, if step.err.Some? then |ss| - 1 else |ss|, r.sessions + [step.session], step.tablets)
  }

  datatype FanOutTargets = FanOutTargets(errs: seq<Error>, tablets: Tablets)

  /// `runTargets`: one call per target, in order, whatever the earlier ones
  /// returned.
  function CallEach(verb: Verb, targets: seq<Target>, t: Tablets): (r: FanOutTargets)
    decreases |targets|
  {
    if targets == [] then FanOutTargets([], t)
    else
      var r := CallEach(verb, targets[..|targets| - 1], t);
      var c := Call(verb, targets[|targets| - 1]);
      var ans := Invoke(r.tablets, c);
      FanOutTargets(r.errs + (if ans.outcome == Succeeded then [] else [ErrorOf(ans.outcome, c)]), ans.tablets)
  }

  // ---------------------------------------------------------------------
  // The NonAtomicCommit warning

  /// At most this many committed shards are named in the warning.
  const MaxNonAtomicCommitShards: nat := 16

  function ShardNames(ss: seq<ShardSession>): (names: seq<string>)
    ensures |names| == |ss| && forall k :: 0 <= k < |ss| ==> names[k] == ss[k].target.shard
  {
    if ss == [] then [] else ShardNames(ss[..|ss| - 1]) + [ss[|ss| - 1].target.shard]
  }

  /// `strings.Join`.
  function JoinWith(parts: seq<string>, sep: string): string
  {
    if parts == [] then ""
    else if |parts| == 1 then parts[0]
    else JoinWith(parts[..|parts| - 1], sep) + sep + parts[|parts| - 1]
  }

  /// The shards named after `committed` of them went through: the first
  /// sixteen and "..." when there were more.
  function ShownShards(ss: seq<ShardSession>, committed: nat): (shown: seq<string>)
    requires committed <= |ss|
    ensures committed <= MaxNonAtomicCommitShards ==>
      |shown| == committed && forall k :: 0 <= k < committed ==> shown[k] == ss[k].target.shard
    ensures committed > MaxNonAtomicCommitShards ==>
      |shown| == MaxNonAtomicCommitShards + 1 && shown[MaxNonAtomicCommitShards] == "..."
      && forall k :: 0 <= k < MaxNonAtomicCommitShards ==> shown[k] == ss[k].target.shard
  {
    if committed > MaxNonAtomicCommitShards then ShardNames(ss[..MaxNonAtomicCommitShards]) + ["..."]
    else ShardNames(ss[..committed])
  }

  function NonAtomicMessage(ss: seq<ShardSession>, committed: nat): string
    requires committed <= |ss|
  {
    "multi-db commit failed after committing to " + IntToDecimal(committed) + " shards: "
      + JoinWith(ShownShards(ss, committed), ", ")
  }

  // ---------------------------------------------------------------------
  // The coordinator's operations

  /// Everything an operation may change: the session, the tablets and the
  /// NonAtomicCommit counter.
  datatype World = World(session: SessionState, tablets: Tablets, nonAtomicCommits: nat)

  datatype Done = Done(err: Option<Error>, world: World)

  /// `Release`: release every transaction and reserved connection of the
  /// session, then `Reset` it.
  function AfterRelease(w: World): (r: Done)
    ensures r.world.nonAtomicCommits == w.nonAtomicCommits
    ensures r.world.session.warnings == w.session.warnings
    ensures r.world.session.inReservedConn == w.session.inReservedConn
    ensures !w.session.inTransaction && !w.session.inReservedConn ==> r == Done(None, w)
    ensures w.session.inTransaction || w.session.inReservedConn ==>
      var s := r.world.session;
      !s.inTransaction && s.accessModes == [] && s.pre == [] && s.shards == [] && s.post == []
  {
    var s := w.session;
    if !s.inTransaction && !s.inReservedConn then Done(None, w)
    else
      var run := FanOut(ReleaseConn, s.pre + s.shards + s.post, w.tablets);
      Done(Joined(run.errs), World(ResetState(s), run.tablets, w.nonAtomicCommits))
  }

  /// `ReleaseAll`: as `Release`, and the session leaves reserved mode.
  function AfterReleaseAll(w: World): (r: Done)
    ensures r.world.nonAtomicCommits == w.nonAtomicCommits
    ensures r.world.session.warnings == w.session.warnings
    ensures !w.session.inTransaction && !w.session.inReservedConn ==> r == Done(None, w)
    ensures w.session.inTransaction || w.session.inReservedConn ==>
      var s := r.world.session;
      !s.inTransaction && !s.inReservedConn && s.accessModes == [] && s.pre == [] && s.shards == [] && s.post == []
  {
    var s := w.session;
    if !s.inTransaction && !s.inReservedConn then Done(None, w)
    else
      var run := FanOut(ReleaseConn, s.pre + s.shards + s.post, w.tablets);
      Done(Joined(run.errs), World(ResetAllState(s), run.tablets, w.nonAtomicCommits))
  }

  /// Puts the shard sessions of a fan-out over `pre + shards + post` back in
  /// their three classes.
  function Regroup(s: SessionState, all: seq<ShardSession>): SessionState
    requires |all| == |s.pre| + |s.shards| + |s.post|
  {
    var a := |s.pre|;
    var b := a + |s.shards|;
    s.(pre := all[..a], shards := all[a..b], post := all[b..])
  }

  /// `Rollback`: roll back every shard transaction; on a failure record a
  /// warning and release every connection of the session.
  function AfterRollback(w: World): (r: Done)
    ensures r.world.nonAtomicCommits == w.nonAtomicCommits
    ensures !w.session.inTransaction ==> r == Done(None, w)
    ensures w.session.inTransaction ==> !r.world.session.inTransaction && r.world.session.accessModes == []
  {
    var s := w.session;
    if !s.inTransaction then Done(None, w)
    else
      var run := FanOut(RollbackTx, s.pre + s.shards + s.post, w.tablets);
      var s1 := Regroup(s, run.sessions);
      match Joined(run.errs)
      case None => Done(None, World(ResetTxState(s1), run.tablets, w.nonAtomicCommits))
      case Some(e) =>
        var rel := AfterRelease(World(s1.(warnings := s1.warnings + [RollbackFailed(e)]), run.tablets, w.nonAtomicCommits));
        Done(Some(e), rel.world.(session := ResetTxState(rel.world.session)))
  }

  /// `commitNormal`: the pre class (fan-out), the normal class (in order,
  /// stopping at the first failure) and the post class (fan-out). A failure
  /// before the post class releases the session; one in the normal class
  /// after some shards committed also records the NonAtomicCommit warning
  /// and counts it. A failure in the post class is only a warning.
  function AfterCommitNormal(w: World): (r: Done)
  {
    var s := w.session;
    var pre := FanOut(CommitTx, s.pre, w.tablets);
    if pre.errs != [] then
      var rel := AfterRelease(World(s.(pre := pre.sessions), pre.tablets, w.nonAtomicCommits));
      Done(Joined(pre.errs), rel.world)
    else
      var normal := CommitInOrder(s.shards, pre.tablets);
      var s1 := s.(pre := pre.sessions, shards := normal.sessions);
      if normal.err.Some? then
        var i := normal.failedAt;
        var w1 :=
          if i > 0 then
            World(s1.(warnings := s1.warnings + [NonAtomicCommit(NonAtomicMessage(s.shards, i))]),
                  normal.tablets, w.nonAtomicCommits + 1)
          else World(s1, normal.tablets, w.nonAtomicCommits);
        Done(normal.err, AfterRelease(w1).world)
      else Done(None, AfterCommitPost(World(s1, normal.tablets, w.nonAtomicCommits)))
  }

  /// The post class of `commitNormal`: a failure there is only a warning,
  /// after which a session on reserved connections is released.
  function AfterCommitPost(w: World): World
  {
    var s := w.session;
    var post := FanOut(CommitTx, s.post, w.tablets);
    var s2 := s.(post := post.sessions);
    match Joined(post.errs)
    case None => World(s2, post.tablets, w.nonAtomicCommits)
    case Some(e) =>
      var w3 := World(s2.(warnings := s2.warnings + [PostCommitFailed(e)]), post.tablets, w.nonAtomicCommits);
      if s2.inReservedConn then AfterRelease(w3).world else w3
  }

  /// `rollbackTx` of two-phase commit: the rollback decision on the
  /// metadata manager, rollback of the prepared participants, then the
  /// conclusion; each step only when the one before succeeded.
  function RollbackPrepared2PC(mm: ShardSession, rms: seq<ShardSession>, t: Tablets): Tablets
  {
    var decide := Invoke(t, Call(SetRollback, mm.target));
    if decide.outcome != Succeeded then decide.tablets
    else
      var run := FanOut(RollbackPreparedTx, rms, decide.tablets);
      if run.errs != [] then run.tablets
      else Invoke(run.tablets, Call(ConcludeTransaction, mm.target)).tablets
  }

  /// `commit2PC`: the first shard session is the metadata manager (MM),
  /// the others the resource managers (RMs). With one shard session or none
  /// it is a normal commit.
  function AfterCommit2PC(w: World): (r: Done)
    ensures r.world.nonAtomicCommits == w.nonAtomicCommits || |w.session.shards| <= 1
  {
    var s := w.session;
    if |s.shards| <= 1 then AfterCommitNormal(w)
    else
      var mm := s.shards[0];
      var create := Invoke(w.tablets, Call(CreateTransaction, mm.target));
      if create.outcome != Succeeded then
        // nothing is prepared yet: a plain rollback
        var rb := AfterRollback(w.(tablets := create.tablets));
        Done(Some(ErrorOf(create.outcome, Call(CreateTransaction, mm.target))), rb.world)
      else TwoPCPrepare(w, create.tablets)
  }

  /// `commit2PC` once the transaction record exists: Prepare on every
  /// resource manager; any failure decides for rollback.
  function TwoPCPrepare(w: World, t: Tablets): Done
    requires |w.session.shards| >= 2
  {
    var mm := w.session.shards[0];
    var rms := w.session.shards[1..];
    var prepare := FanOut(PrepareTx, rms, t);
    if prepare.errs != [] then
      Done(Joined(prepare.errs), w.(tablets := RollbackPrepared2PC(mm, rms, prepare.tablets)))
    else TwoPCDecide(w, prepare.tablets)
  }

  /// `commit2PC` once every participant is prepared: StartCommit stores the
  /// commit decision on the metadata manager.
  function TwoPCDecide(w: World, t: Tablets): Done
    requires |w.session.shards| >= 2
  {
    var mm := w.session.shards[0];
    var rms := w.session.shards[1..];
    var start := Invoke(t, Call(StartCommit, mm.target));
    if start.outcome == Failed then
      Done(Some(ShardError(Call(StartCommit, mm.target))), w.(tablets := RollbackPrepared2PC(mm, rms, start.tablets)))
    else if start.outcome == FailedUncertain then
      // the decision may be stored: nothing is undone
      Done(Some(UncertainError(Call(StartCommit, mm.target))), w.(tablets := start.tablets))
    else TwoPCCommitPrepared(w, start.tablets)
  }

  /// `commit2PC` once the commit is decided: CommitPrepared on every
  /// resource manager, then the conclusion, which is best effort.
  function TwoPCCommitPrepared(w: World, t: Tablets): Done
    requires |w.session.shards| >= 2
  {
    var mm := w.session.shards[0];
    var rms := w.session.shards[1..];
    var commit := FanOut(CommitPreparedTx, rms, t);
    if commit.errs != [] then Done(Joined(commit.errs), w.(tablets := commit.tablets))
    else Done(None, w.(tablets := Invoke(commit.tablets, Call(ConcludeTransaction, mm.target)).tablets))
  }

  /// Whether a commit uses two-phase commit: the session's mode, or the
  /// coordinator's when the session leaves it unspecified.
  predicate UsesTwoPC(s: SessionState, txMode: TransactionMode)
  {
    s.mode == TwoPC || (s.mode == Unspecified && txMode == TwoPC)
  }

  /// `Commit`: nothing outside a transaction; otherwise a normal or a
  /// two-phase commit, then `ResetTx`.
  function AfterCommit(w: World, txMode: TransactionMode): (r: Done)
    ensures !w.session.inTransaction ==> r == Done(None, w)
    ensures w.session.inTransaction ==> !r.world.session.inTransaction && r.world.session.accessModes == []
  {
    var s := w.session;
    if !s.inTransaction then Done(None, w)
    else
      var d := if UsesTwoPC(s, txMode) then AfterCommit2PC(w) else AfterCommitNormal(w);
      Done(d.err, d.world.(session := ResetTxState(d.world.session)))
  }

  /// `Begin`: an open transaction is committed first; then the session is
  /// in a transaction, with the given access modes if there are any.
  function AfterBegin(w: World, modes: seq<AccessMode>, txMode: TransactionMode): (r: Done)
    ensures r.err.None? ==> r.world.session.inTransaction && (modes != [] ==> r.world.session.accessModes == modes)
    ensures !w.session.inTransaction ==> r.err.None? && r.world.tablets == w.tablets
    ensures r.err.Some? ==> r == AfterCommit(w, txMode)
  {
    var c := if w.session.inTransaction then AfterCommit(w, txMode) else Done(None, w);
    if c.err.Some? then c
    else
      var s := c.world.session;
      Done(None, c.world.(session := s.(inTransaction := true, accessModes := if modes != [] then modes else s.accessModes)))
  }

  // ---------------------------------------------------------------------
  // Resolving distributed transactions

  /// `strings.Split`: the pieces between the separators.
  function Split(s: string, sep: char): (parts: seq<string>)
    ensures |parts| >= 1
  {
    if s == [] then [""]
    else
      var rest := Split(s[1..], sep);
      if s[0] == sep then [""] + rest else [[s[0]] + rest[0]] + rest[1..]
  }

  const MinInt64: int := -0x8000_0000_0000_0000
  const MaxInt64: int := 0x7FFF_FFFF_FFFF_FFFF

  /// `strconv.ParseInt(s, 10, 64)`: an optional sign, decimal digits, and a
  /// value that fits in 64 bits.
  function ParseInt64(s: string): (r: Option<int>)
    ensures r.Some? ==> MinInt64 <= r.value <= MaxInt64
  {
    var v := if |s| > 0 && s[0] == '+' then
               match DigitsValue(s[1..])
               case None => None
               case Some(n) => Some(n as int)
             else DecimalValue(s);
    if v.Some? && MinInt64 <= v.value <= MaxInt64 then v else None
  }

  /// The distributed transaction id of a metadata-manager session:
  /// keyspace, shard and transaction id, separated by colons.
  function NewDtid(mm: Target, transactionId: nat): string
  {
    mm.keyspace + ":" + mm.shard + ":" + IntToDecimal(transactionId)
  }

  datatype DtidParts = DtidParts(mm: Target, transactionId: int)

  /// Reading a distributed transaction id back: exactly three parts and a
  /// 64-bit transaction id.
  function ParseDtid(dtid: string): (r: Result<DtidParts, Error>)
    ensures r.Err? ==> r.error == InvalidDtid(dtid)
  {
    var parts := Split(dtid, ':');
    if |parts| != 3 then Err(InvalidDtid(dtid))
    else
      match ParseInt64(parts[2])
      case None => Err(InvalidDtid(dtid))
      case Some(id) => Ok(DtidParts(Target(parts[0], parts[1]), id))
  }

  datatype Resolution = Resolution(err: Option<Error>, tablets: Tablets)

  /// Rolling back the prepared participants, then concluding.
  function RollbackParticipants(target: Target, md: TransactionMetadata, t: Tablets): Resolution
  {
    var run := CallEach(RollbackPrepared, md.participants, t);
    if run.errs != [] then Resolution(Joined(run.errs), run.tablets)
    else Conclude(target, md, run.tablets)
  }

  function Conclude(target: Target, md: TransactionMetadata, t: Tablets): Resolution
  {
    var c := Call(ConcludeTransaction, target);
    var ans := Invoke(t, c);
    Resolution(if ans.outcome == Succeeded then None else Some(ErrorOf(ans.outcome, c)), ans.tablets)
  }

  /// `resolveTx`: a transaction left in PREPARE is decided for rollback and
  /// rolled back, one in ROLLBACK rolled back, one in COMMIT committed; each
  /// is then concluded. A step that fails skips the rest.
  function AfterResolveTx(target: Target, md: TransactionMetadata, t: Tablets): (r: Resolution)
    ensures ParseDtid(md.dtid).Err? ==> r == Resolution(Some(InvalidDtid(md.dtid)), t)
    ensures ParseDtid(md.dtid).Ok? && md.state == StateUnknown ==> r == Resolution(Some(InvalidState(StateUnknown)), t)
  {
    match ParseDtid(md.dtid)
    case Err(e) => Resolution(Some(e), t)
    case Ok(_) =>
      match md.state
      case StatePrepare =>
        var c := Call(SetRollback, target);
        var decide := Invoke(t, c);
        if decide.outcome != Succeeded then Resolution(Some(ErrorOf(decide.outcome, c)), decide.tablets)
        else RollbackParticipants(target, md, decide.tablets)
      case StateRollback => RollbackParticipants(target, md, t)
      case StateCommit =>
        var run := CallEach(CommitPrepared, md.participants, t);
        if run.errs != [] then Resolution(Joined(run.errs), run.tablets)
        else Conclude(target, md, run.tablets)
      case StateUnknown => Resolution(Some(InvalidState(md.state)), t)
  }

  datatype Tally = Tally(failed: nat, tablets: Tablets)

  /// Every transaction in turn, counting those that could not be resolved.
  function ResolveEach(target: Target, txs: seq<TransactionMetadata>, t: Tablets): (r: Tally)
    ensures r.failed <= |txs|
    decreases |txs|
  {
    if txs == [] then Tally(0, t)
    else
      var r := ResolveEach(target, txs[..|txs| - 1], t);
      var one := AfterResolveTx(target, txs[|txs| - 1], r.tablets);
      Tally(r.failed + (if one.err.Some? then 1 else 0), one.tablets)
  }

  function UnresolvedOf(t: Tablets, target: Target): seq<TransactionMetadata>
  {
    if target in t.unresolved then t.unresolved[target] else []
  }

  /// `ResolveTransactions`: ask the metadata manager for its unresolved
  /// transactions and resolve each; report how many could not be.
  function AfterResolve(target: Target, t: Tablets): (r: Resolution)
    ensures var c := Call(UnresolvedTransactions, target);
      c in t.failing || c in t.uncertain ==> r.err.Some? && !r.err.value.ResolveFailed? && r.tablets.log == t.log + [c]
    ensures r.err.Some? && r.err.value.ResolveFailed? ==>
      0 < r.err.value.failed <= r.err.value.total == |UnresolvedOf(t, target)|
  {
    var c := Call(UnresolvedTransactions, target);
    var ans := Invoke(t, c);
    if ans.outcome != Succeeded then Resolution(Some(ErrorOf(ans.outcome, c)), ans.tablets)
    else
      var txs := UnresolvedOf(t, target);
      var tally := ResolveEach(target, txs, ans.tablets);
      Resolution(if tally.failed == 0 then None else Some(ResolveFailed(tally.failed, |txs|)), tally.tablets)
  }

  // ---------------------------------------------------------------------
  // The coordinator, changing the session and the tablets in place

  /// The session a client's transaction lives in (`SafeSession`).
  class Session {
    var pre: seq<ShardSession>
    var shards: seq<ShardSession>
    var post: seq<ShardSession>
    var warnings: seq<Warning>
    var inTransaction: bool
    var inReservedConn: bool
    var accessModes: seq<AccessMode>
    var mode: TransactionMode

    function State(): SessionState
      reads this
    {
      SessionState(pre, shards, post, warnings, inTransaction, inReservedConn, accessModes, mode)
    }

    constructor (s: SessionState)
      ensures State() == s
    {
      pre, shards, post := s.pre, s.shards, s.post;
      warnings := s.warnings;
      inTransaction, inReservedConn := s.inTransaction, s.inReservedConn;
      accessModes, mode := s.accessModes, s.mode;
    }

    method Reset()
      modifies this
      ensures State() == ResetState(old(State()))
    {
      inTransaction, accessModes := false, [];
      pre, shards, post := [], [], [];
    }

    method ResetTx()
      modifies this
      ensures State() == ResetTxState(old(State()))
    {
      inTransaction, accessModes := false, [];
      if !inReservedConn {
        pre, shards, post := [], [], [];
      }
    }

    method ResetAll()
      modifies this
      ensures State() == ResetAllState(old(State()))
    {
      Reset();
      inReservedConn := false;
    }

    method RecordWarning(w: Warning)
      modifies this
      ensures State() == old(State()).(warnings := old(warnings) + [w])
    {
      warnings := warnings + [w];
    }
  }

  /// The tablets behind the coordinator, as the test sandbox records them.
  class Sandbox {
    var log: seq<Call>
    var failing: set<Call>
    var uncertain: set<Call>
    var ids: map<Target, nat>
    var unresolved: map<Target, seq<TransactionMetadata>>

    function State(): Tablets
      reads this
    {
      Tablets(log, failing, uncertain, ids, unresolved)
    }

    constructor (t: Tablets)
      ensures State() == t
    {
      log, failing, uncertain := t.log, t.failing, t.uncertain;
      ids, unresolved := t.ids, t.unresolved;
    }

    /// One call to a tablet.
    method Receive(c: Call) returns (o: Outcome)
      modifies this
      ensures Answer(o, State()) == Invoke(old(State()), c)
    {
      log := log + [c];
      if c in uncertain {
        uncertain := uncertain - {c};
        o := FailedUncertain;
      } else if c in failing {
        failing := failing - {c};
        o := Failed;
      } else {
        o := Succeeded;
      }
    }

    /// The new reserved id a tablet returns when it ends a transaction on
    /// a reserved connection.
    method NewReservedId(target: Target) returns (id: nat)
      modifies this
      ensures Issued(id, State()) == NewId(old(State()), target)
    {
      id := (if target in ids then ids[target] else 0) + 1;
      ids := ids[target := id];
    }

    /// `UnresolvedTransactions`: the call, and the transactions the tablet
    /// reports.
    method UnresolvedTransactions(target: Target) returns (o: Outcome, txs: seq<TransactionMetadata>)
      modifies this
      ensures Answer(o, State()) == Invoke(old(State()), Call(Verb.UnresolvedTransactions, target))
      ensures txs == UnresolvedOf(old(State()), target)
    {
      txs := if target in unresolved then unresolved[target] else [];
      o := Receive(Call(Verb.UnresolvedTransactions, target));
    }
  }

  class TxConn {
    const sandbox: Sandbox
    /// The transaction mode of the deployment.
    const txMode: TransactionMode
    /// The `NonAtomicCommit` warnings counter.
    var nonAtomicCommits: nat

    constructor (sandbox: Sandbox, txMode: TransactionMode)
      ensures this.sandbox == sandbox && this.txMode == txMode && nonAtomicCommits == 0
    {
      this.sandbox := sandbox;
      this.txMode := txMode;
      nonAtomicCommits := 0;
    }

    function Snapshot(session: Session): World
      reads this, sandbox, session
    {
      World(session.State(), sandbox.State(), nonAtomicCommits)
    }

    /// `commitShard` (`Verb.Commit`) and the rollback action
    /// (`Verb.Rollback`) on one shard session.
    method EndTx(verb: Verb, s: ShardSession) returns (err: Option<Error>, next: ShardSession)
      modifies sandbox
      ensures Step(err, next, sandbox.State()) == EndTransaction(verb, s, old(sandbox.State()))
    {
      if s.transactionId == 0 {
        return None, s;
      }
      var c := Call(verb, s.target);
      var o := sandbox.Receive(c);
      if o != Succeeded {
        return Some(ErrorOf(o, c)), s;
      }
      if s.reservedId == 0 {
        return None, s.(transactionId := 0);
      }
      var id := sandbox.NewReservedId(s.target);
      return None, ShardSession(s.target, 0, id);
    }

    /// One per-shard action of a fan-out.
    method ApplyAction(a: Action, s: ShardSession) returns (err: Option<Error>, next: ShardSession)
      modifies sandbox
      ensures Step(err, next, sandbox.State()) == Apply(a, s, old(sandbox.State()))
    {
      match a
      case CommitTx =>
        err, next := EndTx(Verb.Commit, s);
      case RollbackTx =>
        err, next := EndTx(Verb.Rollback, s);
      case ReleaseConn =>
        next := s;
        err := None;
        if s.transactionId != 0 || s.reservedId != 0 {
          var c := Call(Verb.Release, s.target);
          var o := sandbox.Receive(c);
          if o != Succeeded {
            err := Some(ErrorOf(o, c));
          } else {
            next := s.(transactionId := 0, reservedId := 0);
          }
        }
      case PrepareTx =>
        err := NotifyShard(Verb.Prepare, s);
        next := s;
      case CommitPreparedTx =>
        err := NotifyShard(Verb.CommitPrepared, s);
        next := s;
      case RollbackPreparedTx =>
        err := NotifyShard(Verb.RollbackPrepared, s);
        next := s;
    }

    /// A two-phase-commit message to the participant of a shard session.
    method NotifyShard(verb: Verb, s: ShardSession) returns (err: Option<Error>)
      modifies sandbox
      ensures Step(err, s, sandbox.State()) == Notify(verb, s, old(sandbox.State()))
    {
      var c := Call(verb, s.target);
      var o := sandbox.Receive(c);
      err := if o == Succeeded then None else Some(ErrorOf(o, c));
    }

    /// `runSessions`.
    method RunSessions(a: Action, ss: seq<ShardSession>) returns (errs: seq<Error>, out: seq<ShardSession>)
      modifies sandbox
      ensures Run(errs, out, sandbox.State()) == FanOut(a, ss, old(sandbox.State()))
    {
      errs, out := [], [];
      for i := 0 to |ss|
        invariant Run(errs, out, sandbox.State()) == FanOut(a, ss[..i], old(sandbox.State()))
      {
        assert ss[..i + 1][..i] == ss[..i];
        var err, next := ApplyAction(a, ss[i]);
        errs, out := errs + ErrorList(err), out + [next];
      }
      assert ss[..|ss|] == ss;
    }

    /// `runTargets`.
    method RunTargets(verb: Verb, targets: seq<Target>) returns (errs: seq<Error>)
      modifies sandbox
      ensures FanOutTargets(errs, sandbox.State()) == CallEach(verb, targets, old(sandbox.State()))
    {
      errs := [];
      for i := 0 to |targets|
        invariant FanOutTargets(errs, sandbox.State()) == CallEach(verb, targets[..i], old(sandbox.State()))
      {
        assert targets[..i + 1][..i] == targets[..i];
        var c := Call(verb, targets[i]);
        var o := sandbox.Receive(c);
        errs := errs + (if o == Succeeded then [] else [ErrorOf(o, c)]);
      }
      assert targets[..|targets|] == targets;
    }

    /// The normal commit class: `commitShard` in order, leaving the loop at
    /// the first failure.
    method CommitShardsInOrder(ss: seq<ShardSession>) returns (err: Option<Error>, failedAt: nat, out: seq<ShardSession>)
      modifies sandbox
      ensures InOrder(err, failedAt, out, sandbox.State()) == CommitInOrder(ss, old(sandbox.State()))
    {
      err, failedAt, out := None, 0, [];
      var i := 0;
      while i < |ss| && err.None?
        invariant 0 <= i <= |ss|
        invariant InOrder(err, failedAt, out, sandbox.State()) == CommitInOrder(ss[..i], old(sandbox.State()))
      {
        assert ss[..i + 1][..i] == ss[..i];
        var e, next := EndTx(Verb.Commit, ss[i]);
        err, failedAt, out := e, if e.Some? then i else i + 1, out + [next];
        i := i + 1;
      }
      if err.Some? {
        CommitInOrderStops(ss, old(sandbox.State()), i);
        out := out + ss[i..];
      } else {
        assert ss[..i] == ss;
      }
    }

    /// `Release`.
    method Release(session: Session) returns (err: Option<Error>)
      modifies sandbox, session
      ensures Done(err, Snapshot(session)) == AfterRelease(old(Snapshot(session)))
    {
      if !session.inTransaction && !session.inReservedConn {
        return None;
      }
      var errs, out := RunSessions(ReleaseConn, session.pre + session.shards + session.post);
      session.Reset();
      err := Joined(errs);
    }

    /// `ReleaseAll`.
    method ReleaseAll(session: Session) returns (err: Option<Error>)
      modifies sandbox, session
      ensures Done(err, Snapshot(session)) == AfterReleaseAll(old(Snapshot(session)))
    {
      if !session.inTransaction && !session.inReservedConn {
        return None;
      }
      var errs, out := RunSessions(ReleaseConn, session.pre + session.shards + session.post);
      session.ResetAll();
      err := Joined(errs);
    }

    /// The fan-out of `a` over every shard session of `session`, each
    /// shard session put back in its class.
    method RunRegrouped(a: Action, session: Session) returns (errs: seq<Error>)
      modifies sandbox, session
      ensures var run := FanOut(a, old(session.pre + session.shards + session.post), old(sandbox.State()));
        && errs == run.errs && sandbox.State() == run.tablets
        && session.State() == Regroup(old(session.State()), run.sessions)
    {
      ghost var s0 := session.State();
      var all;
      errs, all := RunSessions(a, session.pre + session.shards + session.post);
      assert session.State() == s0;
      var i := |session.pre|;
      var j := i + |session.shards|;
      session.pre, session.shards, session.post := all[..i], all[i..j], all[j..];
    }

    /// `Rollback`.
    method Rollback(session: Session) returns (err: Option<Error>)
      modifies sandbox, session
      ensures Done(err, Snapshot(session)) == AfterRollback(old(Snapshot(session)))
    {
      if !session.inTransaction {
        return None;
      }
      var errs := RunRegrouped(RollbackTx, session);
      err := Joined(errs);
      if err.Some? {
        session.RecordWarning(RollbackFailed(err.value));
        var ignored := Release(session);
      }
      session.ResetTx();
    }

    /// `commitNormal`.
    method CommitNormal(session: Session) returns (err: Option<Error>)
      modifies this, sandbox, session
      ensures Done(err, Snapshot(session)) == AfterCommitNormal(old(Snapshot(session)))
    {
      ghost var w0 := Snapshot(session);
      var shards := session.shards;
      var preErrs, pre := RunSessions(CommitTx, session.pre);
      session.pre := pre;
      if preErrs != [] {
        assert Snapshot(session) == World(w0.session.(pre := pre), sandbox.State(), nonAtomicCommits);
        var ignored := Release(session);
        return Joined(preErrs);
      }
      var e, i, normal := CommitShardsInOrder(shards);
      session.shards := normal;
      ghost var s1 := w0.session.(pre := pre, shards := normal);
      assert session.State() == s1;
      if e.Some? {
        CommitNormalFailed(session, shards, i);
        return e;
      }
      CommitPost(session);
      return None;
    }

    /// The post class of `commitNormal`.
    method CommitPost(session: Session)
      modifies sandbox, session
      ensures Snapshot(session) == AfterCommitPost(old(Snapshot(session)))
    {
      var postErrs, post := RunSessions(CommitTx, session.post);
      session.post := post;
      var pe := Joined(postErrs);
      if pe.Some? {
        session.RecordWarning(PostCommitFailed(pe.value));
        if session.inReservedConn {
          var ignored := Release(session);
        }
      }
    }

    /// The end of `commitNormal` after a failure in the normal class: the
    /// NonAtomicCommit warning when some shards committed, then `Release`.
    method CommitNormalFailed(session: Session, shards: seq<ShardSession>, i: nat)
      requires i < |shards|
      modifies this, sandbox, session
      ensures Snapshot(session) == AfterRelease(
                if i > 0 then
                  old(Snapshot(session)).(session := old(session.State()).(warnings := old(session.warnings) + [NonAtomicCommit(NonAtomicMessage(shards, i))]),
                                          nonAtomicCommits := old(nonAtomicCommits) + 1)
                else old(Snapshot(session))).world
    {
      if i > 0 {
        session.RecordWarning(NonAtomicCommit(NonAtomicMessage(shards, i)));
        nonAtomicCommits := nonAtomicCommits + 1;
      }
      var ignored := Release(session);
    }

    /// `rollbackTx` of two-phase commit.
    method RollbackDecided(mm: ShardSession, rms: seq<ShardSession>)
      modifies sandbox
      ensures sandbox.State() == RollbackPrepared2PC(mm, rms, old(sandbox.State()))
    {
      var o := sandbox.Receive(Call(SetRollback, mm.target));
      if o != Succeeded {
        return;
      }
      var errs, out := RunSessions(RollbackPreparedTx, rms);
      if errs != [] {
        return;
      }
      o := sandbox.Receive(Call(ConcludeTransaction, mm.target));
    }

    /// `commit2PC`.
    method Commit2PC(session: Session) returns (err: Option<Error>)
      modifies this, sandbox, session
      ensures Done(err, Snapshot(session)) == AfterCommit2PC(old(Snapshot(session)))
    {
      if |session.shards| <= 1 {
        err := CommitNormal(session);
        return;
      }
      var mm := session.shards[0];
      var rms := session.shards[1..];
      var create := Call(CreateTransaction, mm.target);
      var o := sandbox.Receive(create);
      if o != Succeeded {
        var ignored := Rollback(session);
        return Some(ErrorOf(o, create));
      }
      var errs, out := RunSessions(PrepareTx, rms);
      if errs != [] {
        RollbackDecided(mm, rms);
        return Joined(errs);
      }
      var start := Call(StartCommit, mm.target);
      o := sandbox.Receive(start);
      if o == Failed {
        RollbackDecided(mm, rms);
        return Some(ShardError(start));
      } else if o == FailedUncertain {
        return Some(UncertainError(start));
      }
      errs, out := RunSessions(CommitPreparedTx, rms);
      if errs != [] {
        return Joined(errs);
      }
      o := sandbox.Receive(Call(ConcludeTransaction, mm.target));
      return None;
    }

    /// `Commit`.
    method Commit(session: Session) returns (err: Option<Error>)
      modifies this, sandbox, session
      ensures Done(err, Snapshot(session)) == AfterCommit(old(Snapshot(session)), txMode)
    {
      if !session.inTransaction {
        return None;
      }
      if UsesTwoPC(session.State(), txMode) {
        err := Commit2PC(session);
      } else {
        err := CommitNormal(session);
      }
      session.ResetTx();
    }

    /// `Begin`.
    method Begin(session: Session, modes: seq<AccessMode>) returns (err: Option<Error>)
      modifies this, sandbox, session
      ensures Done(err, Snapshot(session)) == AfterBegin(old(Snapshot(session)), modes, txMode)
    {
      if session.inTransaction {
        err := Commit(session);
        if err.Some? {
          return;
        }
      }
      session.inTransaction := true;
      if modes != [] {
        session.accessModes := modes;
      }
      err := None;
    }

    method ConcludeTx(target: Target, md: TransactionMetadata) returns (err: Option<Error>)
      modifies sandbox
      ensures Resolution(err, sandbox.State()) == Conclude(target, md, old(sandbox.State()))
    {
      var c := Call(ConcludeTransaction, target);
      var o := sandbox.Receive(c);
      err := if o == Succeeded then None else Some(ErrorOf(o, c));
    }

    method RollbackAndConclude(target: Target, md: TransactionMetadata) returns (err: Option<Error>)
      modifies sandbox
      ensures Resolution(err, sandbox.State()) == RollbackParticipants(target, md, old(sandbox.State()))
    {
      var errs := RunTargets(Verb.RollbackPrepared, md.participants);
      if errs != [] {
        return Joined(errs);
      }
      err := ConcludeTx(target, md);
    }

    /// `resolveTx`.
    method ResolveTx(target: Target, md: TransactionMetadata) returns (err: Option<Error>)
      modifies sandbox
      ensures Resolution(err, sandbox.State()) == AfterResolveTx(target, md, old(sandbox.State()))
    {
      var parsed := ParseDtid(md.dtid);
      if parsed.Err? {
        return Some(parsed.error);
      }
      match md.state
      case StatePrepare =>
        var c := Call(SetRollback, target);
        var o := sandbox.Receive(c);
        if o != Succeeded {
          return Some(ErrorOf(o, c));
        }
        err := RollbackAndConclude(target, md);
      case StateRollback =>
        err := RollbackAndConclude(target, md);
      case StateCommit =>
        var errs := RunTargets(Verb.CommitPrepared, md.participants);
        if errs != [] {
          return Joined(errs);
        }
        err := ConcludeTx(target, md);
      case StateUnknown =>
        err := Some(InvalidState(md.state));
    }

    /// `ResolveTransactions`.
    method ResolveTransactions(target: Target) returns (err: Option<Error>)
      modifies sandbox
      ensures Resolution(err, sandbox.State()) == AfterResolve(target, old(sandbox.State()))
    {
      ghost var start := sandbox.State();
      var c := Call(Verb.UnresolvedTransactions, target);
      var o, txs := sandbox.UnresolvedTransactions(target);
      assert Invoke(start, c) == Answer(o, sandbox.State());
      if o != Succeeded {
        return Some(ErrorOf(o, c));
      }
      ghost var t0 := sandbox.State();
      var failed: nat := 0;
      for i := 0 to |txs|
        invariant Tally(failed, sandbox.State()) == ResolveEach(target, txs[..i], t0)
      {
        assert txs[..i + 1][..i] == txs[..i];
        var e := ResolveTx(target, txs[i]);
        if e.Some? {
          failed := failed + 1;
        }
      }
      assert txs[..|txs|] == txs;
      assert Tally(failed, sandbox.State()) == ResolveEach(target, UnresolvedOf(start, target), Invoke(start, c).tablets);
      err := if failed == 0 then None else Some(ResolveFailed(failed, |txs|));
    }
  }

  /// One step of `CommitInOrder` with no earlier failure: the last shard
  /// session is committed.
  lemma CommitInOrderCommits(ss: seq<ShardSession>, t: Tablets)
    requires ss != [] && CommitInOrder(ss[..|ss| - 1], t).err.None?
    ensures var r := CommitInOrder(ss[..|ss| - 1], t);
      var step := EndTransaction(Commit, ss[|ss| - 1], r.tablets);
      CommitInOrder(ss, t) == InOrder(step.err, if step.err.Some? then |ss| - 1 else |ss|, r.sessions + [step.session], step.tablets)
  {
  }

  /// One step of `CommitInOrder` after an earlier failure: the last shard
  /// session is passed through untouched.
  lemma CommitInOrderSkips(ss: seq<ShardSession>, t: Tablets)
    requires ss != [] && CommitInOrder(ss[..|ss| - 1], t).err.Some?
    ensures var r := CommitInOrder(ss[..|ss| - 1], t);
      CommitInOrder(ss, t) == r.(sessions := r.sessions + [ss[|ss| - 1]])
  {
  }

  /// Once the normal class has failed, the shard sessions after the failure
  /// are left as they were.
  lemma {:induction false} CommitInOrderStops(ss: seq<ShardSession>, t: Tablets, n: nat)
    requires n <= |ss| && CommitInOrder(ss[..n], t).err.Some?
    ensures CommitInOrder(ss, t) == CommitInOrder(ss[..n], t).(sessions := CommitInOrder(ss[..n], t).sessions + ss[n..])
    decreases |ss|
  {
    if n == |ss| {
      assert ss[..n] == ss;
      assert ss[n..] == [];
    } else {
      var p := ss[..|ss| - 1];
      var base := CommitInOrder(ss[..n], t);
      assert p[..n] == ss[..n];
      CommitInOrderStops(p, t, n);
      CommitInOrderSkips(ss, t);
      AppendRest(base.sessions, ss, n);
    }
  }

  /// Appending the sessions after `n` of all but the last, then the last, is
  /// appending the sessions after `n`.
  lemma AppendRest(done: seq<ShardSession>, ss: seq<ShardSession>, n: nat)
    requires n < |ss|
    ensures done + ss[..|ss| - 1][n..] + [ss[|ss| - 1]] == done + ss[n..]
  {
    assert ss[n..] == ss[..|ss| - 1][n..] + [ss[|ss| - 1]];
  }
}
