/**
 * Council rounds: the persistent attempt budget of `run_round`, operator grants, reconciliations and
 * the round ceiling (tools/clearwright_review_council.py), over reinvocations that may crash anywhere.
 */
module CouncilRuns {
  import opened Wrappers
  import opened Councils

  const MAX_ATTEMPTS := 2

  datatype Key = Key(round: nat, who: Reviewer)
  datatype Attempts = Attempts(calls: nat, extra: nat)
  datatype Cached = Cached(fingerprint: string, result: Result)

  datatype Council = Council(rounds: seq<Round>, attempts: map<Key, Attempts>, pending: map<Key, Cached>,
                             minRounds: nat, maxRounds: nat, scoped: bool)

  /** The council on disk, and what has really happened: adapter calls made and attempts granted. */
  datatype World = World(council: Council, made: map<Key, nat>, granted: map<Key, nat>)

  function AttemptsAt(c: Council, key: Key): Attempts {
    GetOr(c.attempts, key, Attempts(0, 0))
  }

  function CurrentRound(c: Council): nat {
    |c.rounds| + 1
  }

  /** `_validated`. */
  predicate Validated(result: Option<Result>) {
    result.Some? && result.value.ok && result.value.posted && result.value.validated && result.value.verdict.Some?
  }

  // ---- One reviewer ---------------------------------------------------------------------------------

  /** What an adapter call returns, and whether the residue scan rejects its verdict. */
  datatype Response = Response(result: Option<Result>, residue: bool)

  datatype Dispatch = Dispatch(fingerprint: string, cachedResidue: bool, responses: seq<Response>)

  datatype Status = Reviewed | ResidueBlocked | HardGated | Exhausted

  /** `left` is the number of durable steps until a crash; `status` is None after one. */
  datatype Turn = Turn(world: World, status: Option<Status>, result: Option<Result>, left: Option<nat>)

  predicate Dead(left: Option<nat>) {
    left == Some(0)
  }

  function Tick(left: Option<nat>): Option<nat>
    requires !Dead(left)
  {
    match left case None => None case Some(n) => Some(n - 1)
  }

  function Counted(w: World, key: Key): World {
    var a := AttemptsAt(w.council, key);
    w.(council := w.council.(attempts := w.council.attempts[key := a.(calls := a.calls + 1)]))
  }

  function Called(w: World, key: Key): World {
    w.(made := w.made[key := GetOr(w.made, key, 0) + 1])
  }

  function Remembered(w: World, key: Key, fingerprint: string, result: Result): World {
    w.(council := w.council.(pending := w.council.pending[key := Cached(fingerprint, result)]))
  }

  function NextResponse(responses: seq<Response>): Response {
    if responses == [] then Response(None, false) else responses[0]
  }

  function Rest(responses: seq<Response>): seq<Response> {
    if responses == [] then [] else responses[1..]
  }

  function CallsLeft(w: World, key: Key): nat {
    var a := AttemptsAt(w.council, key);
    if a.calls < MAX_ATTEMPTS + a.extra then MAX_ATTEMPTS + a.extra - a.calls else 0
  }

  /** The attempt loop: the count is persisted, then the adapter is called, then a review is cached. */
  function CallLoop(w: World, key: Key, fingerprint: string, responses: seq<Response>, last: Option<Result>,
                    left: Option<nat>): Turn
    decreases CallsLeft(w, key)
  {
    if CallsLeft(w, key) == 0 then Turn(w, Some(Exhausted), last, left)
    else if Dead(left) then Turn(w, None, None, None)
    else
      var w1, left1 := Counted(w, key), Tick(left);
      if Dead(left1) then Turn(w1, None, None, None)
      else
        var w2, left2, response := Called(w1, key), Tick(left1), NextResponse(responses);
        if Dead(left2) then Turn(w2, None, None, None)
        else if response.result.Some? && response.result.value.hardGate
            then Turn(w2, Some(HardGated), response.result, left2)
        else if !Validated(response.result) then
          CallLoop(w2, key, fingerprint, Rest(responses), response.result, left2)
        else if response.residue then Turn(w2, Some(ResidueBlocked), None, left2)
        else Turn(Remembered(w2, key, fingerprint, response.result.value), Some(Reviewed), response.result, Tick(left2))
  }

  /** A cached review of the very same dispatch is reused without a call. */
  function Reuse(w: World, key: Key, fingerprint: string): Option<Result> {
    if key in w.council.pending && w.council.pending[key].fingerprint == fingerprint
       && Validated(Some(w.council.pending[key].result))
    then Some(w.council.pending[key].result) else None
  }

  function ReviewTurn(w: World, who: Reviewer, d: Dispatch, left: Option<nat>): Turn {
    var key := Key(CurrentRound(w.council), who);
    var reuse := Reuse(w, key, d.fingerprint);
    if reuse.Some? then
      if d.cachedResidue then Turn(w, Some(ResidueBlocked), None, left) else Turn(w, Some(Reviewed), reuse, left)
    else CallLoop(w, key, d.fingerprint, d.responses, None, left)
  }

  // ---- run_round -----------------------------------------------------------------------------------------

  /** `refused` stands for the early returns that write nothing, `secret` for a hit of the secret scan. */
  datatype Script = Script(refused: bool, secret: bool, gpt: Dispatch, codex: Dispatch)

  function AddRound(w: World, r: Round): World {
    w.(council := w.council.(rounds := w.council.rounds + [r]))
  }

  /** The budget and cache entries of a committed round are dropped. */
  function Dropped(w: World, round: nat): World {
    var keys := {Key(round, Gpt), Key(round, Codex)};
    w.(council := w.council.(attempts := w.council.attempts - keys, pending := w.council.pending - keys))
  }

  function CommitRound(w: World, gpt: Turn, codex: Turn, left: Option<nat>): World {
    if Dead(left) then w
    else if gpt.status == Some(HardGated) || codex.status == Some(HardGated) then
      AddRound(w, Round(false, gpt.result, codex.result, None, true))
    else if gpt.status == Some(Reviewed) && codex.status == Some(Reviewed) then
      var saved := AddRound(w, Round(true, gpt.result, codex.result, None, false));
      if Dead(Tick(left)) then saved else Dropped(saved, CurrentRound(w.council))
    else w
  }

  function RunRound(w: World, s: Script, left: Option<nat>): World {
    if s.refused then w
    else if s.secret then (if Dead(left) then w else AddRound(w, Round(false, None, None, None, true)))
    else
      var gpt := ReviewTurn(w, Gpt, s.gpt, left);
      if gpt.status.None? then gpt.world
      else
        var codex := ReviewTurn(gpt.world, Codex, s.codex, gpt.left);
        if codex.status.None? then codex.world else CommitRound(codex.world, gpt, codex, codex.left)
  }

  /** `_phase_command`: no further round at the ceiling. */
  function ReviewStage(w: World, s: Script, left: Option<nat>): World {
    if |Substantive(w.council.rounds)| >= w.council.maxRounds then w else RunRound(w, s, left)
  }

  // ---- Grants, reconciliations, scope ----------------------------------------------------------------------

  /** `grant_attempts`; `authority` stands for the checks on the operator's message. */
  predicate GrantAccepted(c: Council, who: Reviewer, extra: nat, authority: bool) {
    var a := AttemptsAt(c, Key(CurrentRound(c), who));
    authority && 1 <= extra <= MAX_ATTEMPTS && a.calls + a.extra >= MAX_ATTEMPTS
  }

  function Grant(w: World, who: Reviewer, extra: nat, authority: bool): World {
    var key := Key(CurrentRound(w.council), who);
    var a := AttemptsAt(w.council, key);
    if !GrantAccepted(w.council, who, extra, authority) then w
    else World(w.council.(attempts := w.council.attempts[key := a.(extra := a.extra + extra)]),
               w.made, w.granted[key := GetOr(w.granted, key, 0) + extra])
  }

  function LastSubstantive(rounds: seq<Round>): (r: Option<nat>)
    ensures r.Some? ==> r.value < |rounds| && rounds[r.value].substantive
                        && forall i :: r.value < i < |rounds| ==> !rounds[i].substantive
    ensures r.None? ==> forall i :: 0 <= i < |rounds| ==> !rounds[i].substantive
  {
    if rounds == [] then None
    else if rounds[|rounds| - 1].substantive then Some(|rounds| - 1)
    else LastSubstantive(rounds[..|rounds| - 1])
  }

  /** `attach_reconciliation`; `residue` is the verdict of the persistence scan. */
  function Reconcile(w: World, rec: Reconciliation, residue: bool): World {
    var at := LastSubstantive(w.council.rounds);
    if at.None? || !ValidReconciliation(rec) || residue then w
    else
      var rounds := w.council.rounds;
      w.(council := w.council.(rounds := rounds[at.value := rounds[at.value].(reconciliation := Some(rec))]))
  }

  datatype Op =
    | Stage(script: Script, left: Option<nat>)
    | GrantAttempts(who: Reviewer, extra: nat, authority: bool)
    | Attach(rec: Reconciliation, residue: bool)
    | SetScope

  function AfterOp(w: World, op: Op): World {
    match op
    case Stage(s, left) => ReviewStage(w, s, left)
    case GrantAttempts(who, extra, authority) => Grant(w, who, extra, authority)
    case Attach(rec, residue) => Reconcile(w, rec, residue)
    case SetScope => w.(council := w.council.(scoped := true))
  }

  function AfterOps(w: World, ops: seq<Op>): World
    decreases |ops|
  {
    if ops == [] then w else AfterOps(AfterOp(w, ops[0]), ops[1..])
  }

  /** `create_council`: bounds outside 2 <= min <= max <= 5 are refused. */
  function Create(minRounds: nat, maxRounds: nat, scoped: bool): Option<World> {
    if 2 <= minRounds <= maxRounds <= 5
    then Some(World(Council([], map[], map[], minRounds, maxRounds, scoped), map[], map[])) else None
  }

  // ---- The invariant -----------------------------------------------------------------------------------------

  function Made(w: World, key: Key): nat { GetOr(w.made, key, 0) }

  function Granted(w: World, key: Key): nat { GetOr(w.granted, key, 0) }

  /** The budget of one key: calls made are counted before they are made, and counted calls are bounded. */
  predicate BudgetOk(w: World, key: Key) {
    var a := AttemptsAt(w.council, key);
    && Made(w, key) <= MAX_ATTEMPTS + Granted(w, key)
    && (key.round == CurrentRound(w.council) ==>
          Made(w, key) <= a.calls <= MAX_ATTEMPTS + a.extra && a.extra == Granted(w, key)
              && (a.extra > 0 ==> a.calls >= MAX_ATTEMPTS))
    && (key.round > CurrentRound(w.council) ==>
          key !in w.council.attempts && Made(w, key) == 0 && Granted(w, key) == 0)
  }

  predicate RoundOk(r: Round) {
    if r.substantive then !r.hardGate && Validated(r.gpt) && Validated(r.codex) else r.hardGate
  }

  ghost predicate Inv(w: World) {
    && (forall key :: BudgetOk(w, key))
    && (forall i :: 0 <= i < |w.council.rounds| ==> RoundOk(w.council.rounds[i]))
    && |Substantive(w.council.rounds)| <= w.council.maxRounds
    && 2 <= w.council.minRounds <= w.council.maxRounds <= 5
  }

  // ---- Calls ---------------------------------------------------------------------------------------------------

  /** What a reviewer's turn leaves alone. */
  predicate SameRounds(w: World, w': World) {
    && w'.council == w.council.(attempts := w'.council.attempts, pending := w'.council.pending)
    && w'.granted == w.granted
  }

  ghost predicate AllBudgets(w: World) {
    forall key :: BudgetOk(w, key)
  }

  lemma CountKeeps(w: World, key: Key)
    requires AllBudgets(w) && key.round == CurrentRound(w.council) && CallsLeft(w, key) > 0
    ensures AllBudgets(Counted(w, key)) && AllBudgets(Called(Counted(w, key), key))
  {
    forall k ensures BudgetOk(Counted(w, key), k) && BudgetOk(Called(Counted(w, key), key), k) {
      assert BudgetOk(w, k);
    }
  }

  lemma RememberKeeps(w: World, key: Key, fingerprint: string, result: Result)
    requires AllBudgets(w)
    ensures AllBudgets(Remembered(w, key, fingerprint, result))
  {
    forall k ensures BudgetOk(Remembered(w, key, fingerprint, result), k) {
      assert BudgetOk(w, k);
    }
  }

  predicate TurnOk(t: Turn) {
    (t.status == Some(Reviewed) ==> Validated(t.result))
  }

  lemma {:induction false} CallLoopKeeps(w: World, key: Key, fingerprint: string, responses: seq<Response>,
                                         last: Option<Result>, left: Option<nat>)
    requires AllBudgets(w) && key.round == CurrentRound(w.council)
    ensures var t := CallLoop(w, key, fingerprint, responses, last, left);
            AllBudgets(t.world) && SameRounds(w, t.world) && TurnOk(t)
    decreases CallsLeft(w, key)
  {
    if CallsLeft(w, key) > 0 && !Dead(left) {
      CountKeeps(w, key);
      var w2 := Called(Counted(w, key), key);
      if !Dead(Tick(left)) && !Dead(Tick(Tick(left))) {
        var response := NextResponse(responses);
        if response.result.Some? && response.result.value.hardGate {
        } else if !Validated(response.result) {
          CallLoopKeeps(w2, key, fingerprint, Rest(responses), response.result, Tick(Tick(left)));
        } else {
          RememberKeeps(w2, key, fingerprint, response.result.value);
        }
      }
    }
  }

  lemma ReviewTurnKeeps(w: World, who: Reviewer, d: Dispatch, left: Option<nat>)
    requires AllBudgets(w)
    ensures var t := ReviewTurn(w, who, d, left);
            AllBudgets(t.world) && SameRounds(w, t.world) && TurnOk(t)
  {
    var key := Key(CurrentRound(w.council), who);
    if Reuse(w, key, d.fingerprint).None? {
      CallLoopKeeps(w, key, d.fingerprint, d.responses, None, left);
    }
  }

  // ---- Rounds ---------------------------------------------------------------------------------------------------

  lemma AddRoundKeeps(w: World, r: Round)
    requires Inv(w) && RoundOk(r) && |Substantive(w.council.rounds)| < w.council.maxRounds
    ensures Inv(AddRound(w, r))
  {
    forall key ensures BudgetOk(AddRound(w, r), key) {
      assert BudgetOk(w, key);
    }
  }

  lemma DropKeeps(w: World, round: nat)
    requires Inv(w) && round < CurrentRound(w.council)
    ensures Inv(Dropped(w, round))
  {
    forall key ensures BudgetOk(Dropped(w, round), key) {
      assert BudgetOk(w, key);
    }
  }

  lemma RunRoundKeeps(w: World, s: Script, left: Option<nat>)
    requires Inv(w) && |Substantive(w.council.rounds)| < w.council.maxRounds
    ensures Inv(RunRound(w, s, left))
  {
    if s.refused {
    } else if s.secret {
      AddRoundKeeps(w, Round(false, None, None, None, true));
    } else {
      var gpt := ReviewTurn(w, Gpt, s.gpt, left);
      ReviewTurnKeeps(w, Gpt, s.gpt, left);
      if gpt.status.Some? {
        var codex := ReviewTurn(gpt.world, Codex, s.codex, gpt.left);
        ReviewTurnKeeps(gpt.world, Codex, s.codex, gpt.left);
        if codex.status.Some? {
          CommitKeeps(codex.world, gpt, codex, codex.left);
        }
      }
    }
  }

  lemma CommitKeeps(w: World, gpt: Turn, codex: Turn, left: Option<nat>)
    requires Inv(w) && |Substantive(w.council.rounds)| < w.council.maxRounds && TurnOk(gpt) && TurnOk(codex)
    ensures Inv(CommitRound(w, gpt, codex, left))
  {
    if gpt.status == Some(HardGated) || codex.status == Some(HardGated) {
      AddRoundKeeps(w, Round(false, gpt.result, codex.result, None, true));
    } else if gpt.status == Some(Reviewed) && codex.status == Some(Reviewed) {
      var r := Round(true, gpt.result, codex.result, None, false);
      AddRoundKeeps(w, r);
      DropKeeps(AddRound(w, r), CurrentRound(w.council));
    }
  }

  lemma GrantKeeps(w: World, who: Reviewer, extra: nat, authority: bool)
    requires Inv(w)
    ensures Inv(Grant(w, who, extra, authority))
  {
    assert BudgetOk(w, Key(CurrentRound(w.council), who));
    forall key ensures BudgetOk(Grant(w, who, extra, authority), key) {
      assert BudgetOk(w, key);
    }
  }

  lemma {:induction false} SubstantiveUpdate(rounds: seq<Round>, at: nat, r: Round)
    requires at < |rounds| && r.substantive == rounds[at].substantive
    ensures |Substantive(rounds[at := r])| == |Substantive(rounds)|
    decreases |rounds|
  {
    var after := rounds[at := r];
    var n := |rounds| - 1;
    if at < n {
      assert after[..n] == rounds[..n][at := r];
      SubstantiveUpdate(rounds[..n], at, r);
    } else {
      assert after[..n] == rounds[..n];
    }
  }

  lemma ReconcileKeeps(w: World, rec: Reconciliation, residue: bool)
    requires Inv(w)
    ensures Inv(Reconcile(w, rec, residue))
  {
    var w' := Reconcile(w, rec, residue);
    var at := LastSubstantive(w.council.rounds);
    if at.Some? && w' != w {
      SubstantiveUpdate(w.council.rounds, at.value, w.council.rounds[at.value].(reconciliation := Some(rec)));
    }
    forall key ensures BudgetOk(w', key) {
      assert BudgetOk(w, key);
    }
  }

  lemma ScopeKeeps(w: World)
    requires Inv(w)
    ensures Inv(w.(council := w.council.(scoped := true)))
  {
    forall key ensures BudgetOk(w.(council := w.council.(scoped := true)), key) {
      assert BudgetOk(w, key);
    }
  }

  lemma OpKeeps(w: World, op: Op)
    requires Inv(w)
    ensures Inv(AfterOp(w, op))
  {
    match op
    case Stage(s, left) =>
      if |Substantive(w.council.rounds)| < w.council.maxRounds {
        RunRoundKeeps(w, s, left);
      }
    case GrantAttempts(who, extra, authority) => GrantKeeps(w, who, extra, authority);
    case Attach(rec, residue) => ReconcileKeeps(w, rec, residue);
    case SetScope => ScopeKeeps(w);
  }

  lemma {:induction false} OpsKeep(w: World, ops: seq<Op>)
    requires Inv(w)
    ensures Inv(AfterOps(w, ops))
    decreases |ops|
  {
    if ops != [] {
      OpKeeps(w, ops[0]);
      OpsKeep(AfterOp(w, ops[0]), ops[1..]);
    }
  }

  /** A successful run that was posted and validated, with a verdict. */
  predicate PostedReview(result: Option<Result>) {
    result.Some? && result.value.ok && result.value.posted && result.value.validated && result.value.verdict.Some?
  }

  /**
   * Council runs.  Over any reinvocations, crashes, grants and reconciliations: the adapter calls
   * really made for one round and reviewer never exceed two plus the attempts granted for it, the
   * substantive rounds never exceed the ceiling of at most five, and each of them holds two validated
   * reviews.
   */
  lemma RunsAreBounded(minRounds: nat, maxRounds: nat, scoped: bool, ops: seq<Op>)
    requires 2 <= minRounds <= maxRounds <= 5
    ensures Create(minRounds, maxRounds, scoped).Some?
    ensures var w := AfterOps(Create(minRounds, maxRounds, scoped).value, ops);
            && (forall key :: Made(w, key) <= 2 + Granted(w, key))
            && |Counting(w.council.rounds)| <= w.council.maxRounds <= 5
            && (forall i :: 0 <= i < |w.council.rounds| && w.council.rounds[i].substantive ==>
                  PostedReview(w.council.rounds[i].gpt) && PostedReview(w.council.rounds[i].codex))
  {
    var w0 := Create(minRounds, maxRounds, scoped).value;
    assert forall key :: BudgetOk(w0, key);
    OpsKeep(w0, ops);
    var w := AfterOps(w0, ops);
    forall key ensures Made(w, key) <= 2 + Granted(w, key) {
      assert BudgetOk(w, key);
    }
    SubstantiveMeans(w.council.rounds);
    assert forall i :: 0 <= i < |w.council.rounds| ==> RoundOk(w.council.rounds[i]);
  }

  // ---- Agreement over runs -----------------------------------------------------------------------------------------

  function OutcomeOf(c: Council): Outcome {
    Evaluate(c.rounds, c.minRounds, c.maxRounds, c.scoped)
  }

  lemma StageAddsUnreconciled(w: World, s: Script, left: Option<nat>)
    requires AllBudgets(w)
    ensures var rounds, rounds' := w.council.rounds, RunRound(w, s, left).council.rounds;
            rounds' == rounds
            || (exists r: Round :: rounds' == rounds + [r] && r.reconciliation.None? && (r.substantive || r.hardGate))
  {
    if !s.refused && s.secret {
      var r := Round(false, None, None, None, true);
      assert AddRound(w, r).council.rounds == w.council.rounds + [r];
    } else if !s.refused {
      var gpt := ReviewTurn(w, Gpt, s.gpt, left);
      ReviewTurnKeeps(w, Gpt, s.gpt, left);
      if gpt.status.Some? {
        var codex := ReviewTurn(gpt.world, Codex, s.codex, gpt.left);
        ReviewTurnKeeps(gpt.world, Codex, s.codex, gpt.left);
      }
    }
  }

  /** A round that is recorded, substantive or not, always withdraws an earlier agreement. */
  lemma NewRoundWithdrawsAgreement(w: World, s: Script, left: Option<nat>)
    requires Inv(w) && RunRound(w, s, left).council.rounds != w.council.rounds
    ensures !OutcomeOf(RunRound(w, s, left).council).AgreementThresholdMet?
  {
    StageAddsUnreconciled(w, s, left);
    var after := RunRound(w, s, left).council;
    var r: Round :| after.rounds == w.council.rounds + [r] && r.reconciliation.None? && (r.substantive || r.hardGate);
    AgreementIff(after.rounds, after.minRounds, after.maxRounds, after.scoped);
  }

  /** In any reachable council, agreement rests on the very last recorded round. */
  lemma AgreementIsAboutLastRound(c: Council)
    requires forall i :: 0 <= i < |c.rounds| ==> RoundOk(c.rounds[i])
    requires OutcomeOf(c).AgreementThresholdMet?
    ensures c.rounds != []
    ensures var last := c.rounds[|c.rounds| - 1];
            last.substantive && Agreement(last, |Substantive(c.rounds)|, c.minRounds, c.scoped)
  {
    AgreementIff(c.rounds, c.minRounds, c.maxRounds, c.scoped);
    assert RoundOk(c.rounds[|c.rounds| - 1]);
  }

  // ---- Reconciliations over runs ----------------------------------------------------------------------

  /** Nothing impossible is declared ready, and whoever rejects or gives up says why. */
  predicate Honest(rec: Reconciliation) {
    && |rec.summary| >= 8
    && forall i :: 0 <= i < |rec.resolutions| ==>
         var r := rec.resolutions[i];
         && (r.disposition == Rejected ==> r.evidence)
         && (r.disposition == BlockedByCapability ==> r.evidence && r.limitation && !rec.ready)
  }

  predicate AllHonest(rounds: seq<Round>) {
    forall i :: 0 <= i < |rounds| && rounds[i].reconciliation.Some? ==> Honest(rounds[i].reconciliation.value)
  }

  lemma OpKeepsHonest(w: World, op: Op)
    requires Inv(w) && AllHonest(w.council.rounds)
    ensures AllHonest(AfterOp(w, op).council.rounds)
  {
    if op.Stage? && |Substantive(w.council.rounds)| < w.council.maxRounds {
      StageAddsUnreconciled(w, op.script, op.left);
    }
  }

  /** Over any run, every reconciliation on record is honest. */
  lemma {:induction false} ReconciliationsAreHonest(w: World, ops: seq<Op>)
    requires Inv(w) && AllHonest(w.council.rounds)
    ensures AllHonest(AfterOps(w, ops).council.rounds)
    decreases |ops|
  {
    if ops != [] {
      OpKeeps(w, ops[0]);
      OpKeepsHonest(w, ops[0]);
      ReconciliationsAreHonest(AfterOp(w, ops[0]), ops[1..]);
    }
  }

  /** Without a call a review is only taken from the cache of the very same dispatch. */
  lemma {:induction false} OnlyTheSameIsReused(w: World, who: Reviewer, d: Dispatch, left: Option<nat>)
    requires ReviewTurn(w, who, d, left).status == Some(Reviewed)
    ensures var key := Key(CurrentRound(w.council), who);
            var t := ReviewTurn(w, who, d, left);
            || Made(t.world, key) > Made(w, key)
            || (&& key in w.council.pending && w.council.pending[key].fingerprint == d.fingerprint && !d.cachedResidue
                && t.result == Some(w.council.pending[key].result) && PostedReview(t.result) && t.world == w)
  {
    var key := Key(CurrentRound(w.council), who);
    if Reuse(w, key, d.fingerprint).None? {
      LoopCalls(w, key, d.fingerprint, d.responses, None, left);
    }
  }

  lemma {:induction false} LoopCalls(w: World, key: Key, fingerprint: string, responses: seq<Response>,
                                     last: Option<Result>, left: Option<nat>)
    ensures var t := CallLoop(w, key, fingerprint, responses, last, left);
            Made(t.world, key) >= Made(w, key) && (t.status == Some(Reviewed) ==> Made(t.world, key) > Made(w, key))
    decreases CallsLeft(w, key)
  {
    if CallsLeft(w, key) > 0 && !Dead(left) && !Dead(Tick(left)) && !Dead(Tick(Tick(left))) {
      var w2, response := Called(Counted(w, key), key), NextResponse(responses);
      if !(response.result.Some? && response.result.value.hardGate) && !Validated(response.result) {
        LoopCalls(w2, key, fingerprint, Rest(responses), response.result, Tick(Tick(left)));
      }
    }
  }

  // ---- The ceiling ------------------------------------------------------------------------------------

  /** Every round that the ceiling allows has been held. */
  ghost predicate AtCeiling(c: Council) {
    |Counting(c.rounds)| == c.maxRounds
  }

  lemma CeilingStep(w: World, op: Op)
    requires Inv(w) && AtCeiling(w.council)
    ensures Inv(AfterOp(w, op)) && AtCeiling(AfterOp(w, op).council)
    ensures |AfterOp(w, op).council.rounds| == |w.council.rounds|
  {
    var rounds, rounds' := w.council.rounds, AfterOp(w, op).council.rounds;
    OpKeeps(w, op);
    SubstantiveMeans(rounds);
    assert Counting(rounds') == Counting(rounds);
  }

  /**
   * The ceiling is final.  Whatever is run, granted, attached or scoped after it has been reached, no
   * round is added, and the outcome is never another request for revision: what is not agreed, gated or
   * without a real review is escalated to the operator.
   */
  lemma {:induction false} CeilingIsFinal(w: World, ops: seq<Op>)
    requires Inv(w) && AtCeiling(w.council)
    ensures var c := AfterOps(w, ops).council;
            && AtCeiling(c) && |c.rounds| == |w.council.rounds|
            && !OutcomeOf(c).NeedsRevision?
    decreases |ops|
  {
    if ops == [] {
      SubstantiveMeans(w.council.rounds);
      var at := LastSubstantive(w.council.rounds).value;
      EvaluatesExactly(w.council.rounds, at, w.council.minRounds, w.council.maxRounds, w.council.scoped);
    } else {
      CeilingStep(w, ops[0]);
      CeilingIsFinal(AfterOp(w, ops[0]), ops[1..]);
    }
  }

  /**
   * So, from its creation on, a council that has held all its rounds answers one of four ways, and it
   * calls the operator exactly when both latest reviews are real, no gate is last and there is no
   * agreement.
   */
  lemma CeilingEscalates(minRounds: nat, maxRounds: nat, scoped: bool, ops: seq<Op>, at: nat)
    requires Create(minRounds, maxRounds, scoped).Some?
    requires var c := AfterOps(Create(minRounds, maxRounds, scoped).value, ops).council;
             AtCeiling(c) && IsLatest(c.rounds, at)
    ensures var c := AfterOps(Create(minRounds, maxRounds, scoped).value, ops).council;
            && !OutcomeOf(c).NeedsRevision?
            && (OutcomeOf(c).OperatorRequired?
                <==> !EndsGated(c.rounds) && BothReviewed(c.rounds[at])
                     && !Agreement(c.rounds[at], c.maxRounds, c.minRounds, c.scoped))
  {
    var w0 := Create(minRounds, maxRounds, scoped).value;
    assert forall key :: BudgetOk(w0, key);
    OpsKeep(w0, ops);
    var c := AfterOps(w0, ops).council;
    EvaluatesExactly(c.rounds, at, c.minRounds, c.maxRounds, c.scoped);
  }

  // ---- Grants ----------------------------------------------------------------------------------------

  /** The budget of the current round is used up. */
  predicate UsedUp(c: Council, who: Reviewer) {
    AttemptsAt(c, Key(CurrentRound(c), who)).calls >= MAX_ATTEMPTS + AttemptsAt(c, Key(CurrentRound(c), who)).extra
  }

  /**
   * A first grant is accepted only after exhaustion.  Once there is a grant, later ones are accepted
   * whether or not the enlarged budget has been used: the check adds grants where it should compare
   * with them.
   */
  lemma GrantsNeedExhaustionIff(w: World, who: Reviewer, extra: nat, authority: bool)
    requires Inv(w)
    ensures GrantAccepted(w.council, who, extra, authority)
            <==> authority && (extra == 1 || extra == 2)
                 && (UsedUp(w.council, who) || AttemptsAt(w.council, Key(CurrentRound(w.council), who)).extra > 0)
  {
    assert BudgetOk(w, Key(CurrentRound(w.council), who));
  }

  /** Two grants in a row: the second comes before the first is used. */
  lemma SecondGrantBeforeUse(w: World, who: Reviewer)
    requires Inv(w) && UsedUp(w.council, who)
    ensures var once := Grant(w, who, 1, true);
            GrantAccepted(w.council, who, 1, true) && !UsedUp(once.council, who)
                && GrantAccepted(once.council, who, 1, true)
  {
    assert BudgetOk(w, Key(CurrentRound(w.council), who));
  }
}
