/** One council as mutable state, its rounds run by loops, against the functions of CouncilRuns. */
module CouncilStores {
  import opened Wrappers
  import opened Councils
  import opened CouncilRuns

  class CouncilStore {
    var council: Council
    var made: map<Key, nat>
    var granted: map<Key, nat>

    function State(): World
      reads this
    {
      World(council, made, granted)
    }

    constructor (minRounds: nat, maxRounds: nat, scoped: bool)
      requires 2 <= minRounds <= maxRounds <= 5
      ensures State() == Create(minRounds, maxRounds, scoped).value
    {
      council := Council([], map[], map[], minRounds, maxRounds, scoped);
      made, granted := map[], map[];
    }

    /** The cached review of the very same dispatch, if it is there and was posted and validated. */
    method LookUpReview(key: Key, fingerprint: string) returns (reuse: Option<Result>)
      ensures reuse == Reuse(State(), key, fingerprint)
    {
      if key in council.pending && council.pending[key].fingerprint == fingerprint {
        var cached := council.pending[key].result;
        if cached.ok && cached.posted && cached.validated && cached.verdict.Some? {
          return Some(cached);
        }
      }
      return None;
    }

    /** The attempt loop of `run_round` for one reviewer. */
    method DispatchReviewer(who: Reviewer, d: Dispatch, left: Option<nat>)
      returns (status: Option<Status>, result: Option<Result>, remaining: Option<nat>)
      modifies `council, `made
      ensures ReviewTurn(old(State()), who, d, left) == Turn(State(), status, result, remaining)
    {
      var key := Key(CurrentRound(council), who);
      var reuse := LookUpReview(key, d.fingerprint);
      if reuse.Some? {
        if d.cachedResidue {
          return Some(ResidueBlocked), None, left;
        }
        return Some(Reviewed), reuse, left;
      }
      var responses := d.responses;
      result, remaining := None, left;
      while AttemptsAt(council, key).calls < MAX_ATTEMPTS + AttemptsAt(council, key).extra
        invariant CallLoop(old(State()), key, d.fingerprint, d.responses, None, left)
                  == CallLoop(State(), key, d.fingerprint, responses, result, remaining)
        decreases CallsLeft(State(), key)
      {
        if Dead(remaining) {
          return None, None, None;
        }
        var a := AttemptsAt(council, key);
        council := council.(attempts := council.attempts[key := a.(calls := a.calls + 1)]);
        remaining := Tick(remaining);
        if Dead(remaining) {
          return None, None, None;
        }
        made := made[key := GetOr(made, key, 0) + 1];
        remaining := Tick(remaining);
        var response := NextResponse(responses);
        if Dead(remaining) {
          return None, None, None;
        }
        if response.result.Some? && response.result.value.hardGate {
          return Some(HardGated), response.result, remaining;
        }
        if Validated(response.result) {
          if response.residue {
            return Some(ResidueBlocked), None, remaining;
          }
          council := council.(pending := council.pending[key := Cached(d.fingerprint, response.result.value)]);
          return Some(Reviewed), response.result, Tick(remaining);
        }
        result, responses := response.result, Rest(responses);
      }
      status := Some(Exhausted);
    }

    /** `validate_reconciliation`, entry by entry. */
    method ValidateReconciliation(rec: Reconciliation) returns (valid: bool)
      ensures valid <==> ValidReconciliation(rec)
    {
      if |rec.summary| < 8 {
        return false;
      }
      var blocked := false;
      for i := 0 to |rec.resolutions|
        invariant forall k :: 0 <= k < i ==> ValidResolution(rec.resolutions[k])
        invariant blocked <==> exists k :: 0 <= k < i && rec.resolutions[k].disposition.BlockedByCapability?
      {
        var r := rec.resolutions[i];
        if r.disposition.Rejected? && !r.evidence {
          return false;
        }
        if r.disposition.BlockedByCapability? {
          if !r.limitation || !r.evidence {
            return false;
          }
          blocked := true;
        }
      }
      return !(rec.ready && blocked);
    }

    method Save(r: Round)
      modifies `council
      ensures council == old(council).(rounds := old(council.rounds) + [r])
    {
      council := council.(rounds := council.rounds + [r]);
    }

    /** `run_round`. */
    method RunOneRound(s: Script, left: Option<nat>)
      modifies `council, `made
      ensures State() == RunRound(old(State()), s, left)
    {
      if s.refused {
        return;
      }
      if s.secret {
        if !Dead(left) {
          Save(Round(false, None, None, None, true));
        }
        return;
      }
      var gpt, gptResult, left1 := DispatchReviewer(Gpt, s.gpt, left);
      if gpt.None? {
        return;
      }
      var codex, codexResult, left2 := DispatchReviewer(Codex, s.codex, left1);
      if codex.None? || Dead(left2) {
        return;
      }
      if gpt == Some(HardGated) || codex == Some(HardGated) {
        Save(Round(false, gptResult, codexResult, None, true));
      } else if gpt == Some(Reviewed) && codex == Some(Reviewed) {
        var round := CurrentRound(council);
        Save(Round(true, gptResult, codexResult, None, false));
        if !Dead(Tick(left2)) {
          var keys := {Key(round, Gpt), Key(round, Codex)};
          council := council.(attempts := council.attempts - keys, pending := council.pending - keys);
        }
      }
    }

    /** `_phase_command` and its operator commands. */
    method Apply(op: Op)
      modifies this
      ensures State() == AfterOp(old(State()), op)
    {
      match op
      case Stage(s, left) =>
        if |Substantive(council.rounds)| < council.maxRounds {
          RunOneRound(s, left);
        }
      case GrantAttempts(who, extra, authority) =>
        var key := Key(CurrentRound(council), who);
        var a := AttemptsAt(council, key);
        if authority && 1 <= extra <= MAX_ATTEMPTS && a.calls + a.extra >= MAX_ATTEMPTS {
          council := council.(attempts := council.attempts[key := a.(extra := a.extra + extra)]);
          granted := granted[key := GetOr(granted, key, 0) + extra];
        }
      case Attach(rec, residue) =>
        var at := LastSubstantive(council.rounds);
        var valid := ValidateReconciliation(rec);
        if at.Some? && valid && !residue {
          var round := council.rounds[at.value].(reconciliation := Some(rec));
          council := council.(rounds := council.rounds[at.value := round]);
        }
      case SetScope =>
        council := council.(scoped := true);
    }
  }
}
