/** src/components/AuthVerifier.jsx: the component that re-checks the login
    every five minutes and logs the user out after repeated failures. Each
    run of `performVerification` is one call of Verify; what the check and
    the token refresh answer are its parameters, as is the clock. The
    authentication context of src/context/AuthContext.jsx provides neither
    `verifyAuthState` nor `refreshToken`, so with it every check raises
    (ShippedContextLogsOutOnThird); the other outcomes are those of a
    context that provides them. The
    counter the run compares with is the one it saw when it started: the
    state updates it queues take effect after it. */
module AuthVerifier {

  /** Five minutes in milliseconds: the interval between runs. */
  const VerifyInterval := 5 * 60 * 1000

  /** What an awaited call does: answer true, answer false, or raise. */
  datatype Outcome = Yes | No | Raises

  class Verifier {
    var consecutiveFailures: nat
    var lastVerified: int
    /** Whether the run logged out and went to /login. */
    var loggedOut: bool

    constructor (now: int)
      ensures consecutiveFailures == 0 && lastVerified == now && !loggedOut
    {
      consecutiveFailures := 0;
      lastVerified := now;
      loggedOut := false;
    }

    /** One run of performVerification. `check` is verifyAuthState's
        answer and `refresh` refreshToken's, asked only after a failed
        check. */
    method Verify(hasUser: bool, check: Outcome, refresh: Outcome, now: int)
      modifies this
      ensures !hasUser ==> consecutiveFailures == old(consecutiveFailures)
                           && lastVerified == old(lastVerified) && loggedOut == old(loggedOut)
      ensures hasUser ==> consecutiveFailures == NextFailures(old(consecutiveFailures), check, refresh)
      ensures hasUser ==> lastVerified == (if check == Yes then now else old(lastVerified))
      ensures hasUser ==> loggedOut == (old(loggedOut) || LogsOut(old(consecutiveFailures), check, refresh))
    {
      if !hasUser {
        return;
      }
      var seen := consecutiveFailures;
      match check
      case Yes =>
        lastVerified := now;
        consecutiveFailures := 0;
      case No =>
        consecutiveFailures := consecutiveFailures + 1;
        match refresh {
          case Yes =>
            consecutiveFailures := 0;
          case No =>
            if seen >= 2 {
              loggedOut := true;
            }
          case Raises =>
            // The catch block queues a second increment.
            consecutiveFailures := consecutiveFailures + 1;
            if seen >= 2 {
              loggedOut := true;
            }
        }
      case Raises =>
        consecutiveFailures := consecutiveFailures + 1;
        if seen >= 2 {
          loggedOut := true;
        }
    }
  }

  /** The counter after a run with a user. */
  function NextFailures(seen: nat, check: Outcome, refresh: Outcome): (r: nat)
    ensures check == Yes ==> r == 0
    ensures check == No && refresh == Yes ==> r == 0
    ensures check == No && refresh == No ==> r == seen + 1
    ensures check == No && refresh == Raises ==> r == seen + 2
    ensures check == Raises ==> r == seen + 1
  {
    match check
    case Yes => 0
    case No => (match refresh case Yes => 0 case No => seen + 1 case Raises => seen + 2)
    case Raises => seen + 1
  }

  /** A run logs out when neither the check nor a refresh succeeded and
      the counter it saw was at 2 or more. */
  predicate LogsOut(seen: nat, check: Outcome, refresh: Outcome) {
    Failed(check, refresh) && seen >= 2
  }

  /** Neither the check nor the refresh succeeded. */
  predicate Failed(check: Outcome, refresh: Outcome) {
    check == Raises || (check == No && refresh != Yes)
  }

  /** The counter after a run that counts one failure however the run
      failed, as the comment "2 + current = 3 total" intends. */
  function NextFailuresOnce(seen: nat, check: Outcome, refresh: Outcome): (r: nat)
    ensures Failed(check, refresh) ==> r == seen + 1
    ensures !Failed(check, refresh) ==> r == 0
  {
    if Failed(check, refresh) then seen + 1 else 0
  }

  /** The counter after a sequence of runs with a user, and whether one of
      them logged out; `once` chooses the intended count over the one as
      written. */
  function Replay(seen: nat, runs: seq<(Outcome, Outcome)>, once: bool): (r: (nat, bool))
    decreases |runs|
  {
    if runs == [] then (seen, false)
    else
      var (check, refresh) := runs[0];
      var after := if once then NextFailuresOnce(seen, check, refresh) else NextFailures(seen, check, refresh);
      var next := Replay(after, runs[1..], once);
      (next.0, LogsOut(seen, check, refresh) || next.1)
  }

  /** A successful check or refresh resets the counter, whatever it was. */
  lemma SuccessResets(seen: nat, check: Outcome, refresh: Outcome)
    requires !Failed(check, refresh)
    ensures NextFailures(seen, check, refresh) == 0 && !LogsOut(seen, check, refresh)
  {
  }

  /** Each failed run raises the counter by one, or by two when the
      refresh raised. */
  lemma FailureCounts(seen: nat, check: Outcome, refresh: Outcome)
    requires Failed(check, refresh)
    ensures seen + 1 <= NextFailures(seen, check, refresh) <= seen + 2
    ensures NextFailures(seen, check, refresh) == seen + 2 <==> check == No && refresh == Raises
  {
  }

  /** As written, a refresh that raises is counted twice, so two failed
      runs in a row can log out: the second run here sees the counter at
      2. */
  lemma RaisingRefreshLogsOutOnSecond()
    ensures Replay(0, [(No, Raises), (No, No)], false).1
    ensures !Replay(0, [(No, Raises), (No, No)], true).1
  {
    assert [(No, Raises), (No, No)][1..] == [(No, No)];
    assert [(No, No)][1..] == [];
    assert Replay(2, [(No, No)], false).1;
    assert !Replay(1, [(No, No)], true).1;
  }

  /** As written, one or two failed runs from a reset counter never log
      out when no refresh raised in the first. */
  lemma {:induction false} TwoFailuresKeepUser(runs: seq<(Outcome, Outcome)>)
    requires |runs| <= 2
    requires forall i :: 0 <= i < |runs| ==> Failed(runs[i].0, runs[i].1)
    requires |runs| == 2 ==> runs[0] != (No, Raises)
    ensures !Replay(0, runs, false).1
  {
    if runs != [] {
      var seen := NextFailures(0, runs[0].0, runs[0].1);
      assert !LogsOut(0, runs[0].0, runs[0].1);
      if |runs| == 2 {
        assert seen == 1;
        assert runs[1..][1..] == [];
        assert Replay(seen, runs[1..], false) == (NextFailures(seen, runs[1].0, runs[1].1), false);
      } else {
        assert runs[1..] == [];
      }
    }
  }

  /** Counted once per run, one or two failed runs from a reset counter
      never log out, whatever failed. */
  lemma {:induction false} TwoFailuresKeepUserOnce(runs: seq<(Outcome, Outcome)>)
    requires |runs| <= 2
    requires forall i :: 0 <= i < |runs| ==> Failed(runs[i].0, runs[i].1)
    ensures !Replay(0, runs, true).1
  {
    if runs != [] {
      assert !LogsOut(0, runs[0].0, runs[0].1);
      if |runs| == 2 {
        assert runs[1..][1..] == [];
        assert Replay(1, runs[1..], true) == (NextFailuresOnce(1, runs[1].0, runs[1].1), false);
      } else {
        assert runs[1..] == [];
      }
    }
  }

  /** With the context as shipped, which provides neither verifyAuthState
      nor refreshToken, every run raises at the check whatever a refresh
      would answer: each run adds one, two runs keep the user and the
      third logs out. */
  lemma ShippedContextLogsOutOnThird(r0: Outcome, r1: Outcome, r2: Outcome)
    ensures !Replay(0, [(Raises, r0), (Raises, r1)], false).1
    ensures Replay(0, [(Raises, r0), (Raises, r1), (Raises, r2)], false) == (3, true)
  {
    assert [(Raises, r0), (Raises, r1)][1..] == [(Raises, r1)];
    assert [(Raises, r1)][1..] == [];
    assert [(Raises, r0), (Raises, r1), (Raises, r2)][1..] == [(Raises, r1), (Raises, r2)];
    assert [(Raises, r1), (Raises, r2)][1..] == [(Raises, r2)];
    assert [(Raises, r2)][1..] == [];
    assert Replay(1, [(Raises, r1)], false) == (2, false);
    assert Replay(2, [(Raises, r2)], false) == (3, true);
    assert Replay(1, [(Raises, r1), (Raises, r2)], false) == (3, true);
  }

  /** Either way, three failed runs in a row log out, on the third at the
      latest. */
  lemma ThreeFailuresLogOut(r0: (Outcome, Outcome), r1: (Outcome, Outcome), r2: (Outcome, Outcome), once: bool)
    requires Failed(r0.0, r0.1) && Failed(r1.0, r1.1) && Failed(r2.0, r2.1)
    ensures Replay(0, [r0, r1, r2], once).1
  {
    var s1 := if once then NextFailuresOnce(0, r0.0, r0.1) else NextFailures(0, r0.0, r0.1);
    var s2 := if once then NextFailuresOnce(s1, r1.0, r1.1) else NextFailures(s1, r1.0, r1.1);
    FailureCounts(0, r0.0, r0.1);
    FailureCounts(s1, r1.0, r1.1);
    assert [r0, r1, r2][1..] == [r1, r2];
    assert [r1, r2][1..] == [r2];
    assert s2 >= 2;
    assert LogsOut(s2, r2.0, r2.1);
    assert Replay(s2, [r2], once).1;
    assert Replay(s1, [r1, r2], once).1;
  }
}
