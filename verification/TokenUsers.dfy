/** Whose tokens are refreshed, when requests overlap: those of users found active by the very request. */
module TokenUsers {
  import opened TokenRaces

  /** `states[n]` is the state before step `n`. */
  ghost predicate IsTrace(steps: seq<Step>, states: seq<State>) {
    && |states| == |steps| + 1 && states[0] == Init
    && forall n: nat :: n < |steps| ==> Takes(steps, states, n)
  }

  ghost predicate Takes(steps: seq<Step>, states: seq<State>, n: nat)
    requires n < |steps| && |states| == |steps| + 1
  {
    Enabled(states[n], steps[n]) && states[n + 1] == Next(states[n], steps[n])
  }

  /** At step `i` the request, which had passed this test on the token, loaded its user and found it active. */
  ghost predicate FoundActive(steps: seq<Step>, states: seq<State>, i: nat, req: nat, jti: nat, c: Check)
    requires |states| == |steps| + 1
  {
    && i < |steps| && steps[i].LoadUser? && steps[i].active && steps[i].req == req
    && req in states[i].pending && states[i].pending[req] == Checked(jti, c)
  }

  ghost predicate Approved(steps: seq<Step>, states: seq<State>, n: nat, req: nat, jti: nat, c: Check)
    requires |states| == |steps| + 1
  {
    exists i: nat :: i < n && FoundActive(steps, states, i, req, jti, c)
  }

  /** A request that goes on to revoke and to issue has found its user active. */
  ghost predicate PendingApproved(steps: seq<Step>, states: seq<State>, n: nat, req: nat)
    requires |states| == |steps| + 1 && n <= |steps|
  {
    req in states[n].pending ==>
      match states[n].pending[req]
      case Setting(jti, _, refresh) => refresh.Some? ==> Approved(steps, states, n, req, jti, refresh.value)
      case Issuing(jti, c, _) => Approved(steps, states, n, req, jti, c)
      case _ => true
  }

  lemma ApprovedStays(steps: seq<Step>, states: seq<State>, n: nat, req: nat, jti: nat, c: Check)
    requires |states| == |steps| + 1 && Approved(steps, states, n, req, jti, c)
    ensures Approved(steps, states, n + 1, req, jti, c)
  {
  }

  lemma {:induction false} PendingAreApproved(steps: seq<Step>, states: seq<State>, n: nat, req: nat)
    requires IsTrace(steps, states) && n <= |steps|
    ensures PendingApproved(steps, states, n, req)
    decreases n
  {
    if n > 0 && req in states[n].pending {
      var m := n - 1;
      assert Takes(steps, states, m);
      PendingAreApproved(steps, states, m, req);
      if steps[m].LoadUser? && steps[m].req == req {
        var p := states[m].pending[req];
        assert FoundActive(steps, states, m, req, p.jti, p.check);
      }
    }
  }

  /**
   In every interleaving: each accepted refresh has loaded its user after its revocation test, and found
   it active.
   */
  lemma {:induction false} OnlyActiveUsersRefresh(steps: seq<Step>, states: seq<State>, n: nat, k: nat)
    requires IsTrace(steps, states) && n <= |steps|
    requires k < |states[n].log| && states[n].log[k].Refreshed?
    ensures var e := states[n].log[k]; Approved(steps, states, n, e.req, e.jti, e.check)
    decreases n
  {
    if n > 0 {
      var m := n - 1;
      var e := states[n].log[k];
      assert Takes(steps, states, m);
      if k < |states[m].log| {
        OnlyActiveUsersRefresh(steps, states, m, k);
        ApprovedStays(steps, states, m, e.req, e.jti, e.check);
      } else {
        PendingAreApproved(steps, states, m, e.req);
        ApprovedStays(steps, states, m, e.req, e.jti, e.check);
      }
    }
  }

  /** Every legal run is such a trace, ending in the state that the run reaches. */
  lemma {:induction false} RunHasTrace(steps: seq<Step>, n: nat) returns (states: seq<State>)
    requires Legal(Init, steps) && n <= |steps|
    ensures IsTrace(steps[..n], states)
    ensures Legal(states[n], steps[n..]) && Run(states[n], steps[n..]) == Run(Init, steps)
    decreases n
  {
    if n == 0 {
      states := [Init];
      assert steps[0..] == steps;
    } else {
      var before := RunHasTrace(steps, n - 1);
      var m := n - 1;
      assert steps[m..][0] == steps[m] && steps[m..][1..] == steps[n..];
      states := before + [Next(before[m], steps[m])];
      forall i: nat | i < n ensures Takes(steps[..n], states, i) {
        if i < m {
          assert Takes(steps[..m], before, i);
        }
      }
    }
  }
}
