/** How often a refresh token is used: once, but for requests that overlap. */
module TokenReuse {
  import opened Blacklist
  import opened TokenRaces

  // ----- every refresh revokes for itself -----

  /** Each refresh has an earlier revocation of its own, which no other refresh relies on. */
  ghost predicate Owned(s: State) {
    && (forall k :: 0 <= k < |s.log| && s.log[k].Refreshed? ==> s.log[k].revokedAt < k)
    && (forall k, l :: 0 <= k < l < |s.log| && s.log[k].Refreshed? && s.log[l].Refreshed? ==> s.log[k].revokedAt != s.log[l].revokedAt)
    && (forall req :: req in s.pending && s.pending[req].Issuing? ==> Unshared(s, req))
  }

  ghost predicate Unshared(s: State, req: nat)
    requires req in s.pending && s.pending[req].Issuing?
  {
    var revokedAt := s.pending[req].revokedAt;
    && revokedAt < |s.log|
    && (forall k :: 0 <= k < |s.log| && s.log[k].Refreshed? ==> s.log[k].revokedAt != revokedAt)
    && (forall other :: other in s.pending && other != req && s.pending[other].Issuing? ==> s.pending[other].revokedAt != revokedAt)
  }

  lemma RevokingKeepsOwned(s: State, s': State, req: nat, jti: nat)
    requires Owned(s) && s'.log == s.log + [Revoked(jti)]
    requires forall r :: r in s'.pending && s'.pending[r].Issuing? && r != req ==> r in s.pending && s.pending[r] == s'.pending[r]
    requires req in s'.pending && s'.pending[req].Issuing? ==> s'.pending[req].revokedAt == |s.log|
    ensures Owned(s')
  {
    forall r | r in s'.pending && s'.pending[r].Issuing? ensures Unshared(s', r) {
      assert r != req ==> Unshared(s, r);
      forall other | other in s'.pending && other != r && s'.pending[other].Issuing?
        ensures s'.pending[other].revokedAt != s'.pending[r].revokedAt
      {
        assert other != req ==> Unshared(s, other);
      }
    }
  }

  lemma IssuingKeepsOwned(s: State, step: Step)
    requires Owned(s) && Enabled(s, step) && step.Issue?
    ensures Owned(Next(s, step))
  {
    var s' := Next(s, step);
    assert Unshared(s, step.req);
    forall r | r in s'.pending && s'.pending[r].Issuing? ensures Unshared(s', r) {
      assert Unshared(s, r);
    }
  }

  lemma QuietKeepsOwned(s: State, s': State)
    requires Owned(s) && s'.log == s.log
    requires forall r :: r in s'.pending && s'.pending[r].Issuing? ==> r in s.pending && s.pending[r] == s'.pending[r]
    ensures Owned(s')
  {
    forall r | r in s'.pending && s'.pending[r].Issuing? ensures Unshared(s', r) {
      assert Unshared(s, r);
    }
  }

  lemma StepKeepsOwned(s: State, step: Step)
    requires Owned(s) && Enabled(s, step)
    ensures Owned(Next(s, step))
  {
    var s' := Next(s, step);
    if step.Issue? {
      IssuingKeepsOwned(s, step);
    } else if s'.log == s.log {
      QuietKeepsOwned(s, s');
    } else {
      RevokingKeepsOwned(s, s', step.req, s'.log[|s.log|].jti);
    }
  }

  lemma {:induction false} OwnedHolds(s: State, steps: seq<Step>)
    requires Owned(s) && Legal(s, steps)
    ensures Owned(Run(s, steps))
    decreases |steps|
  {
    if steps != [] {
      StepKeepsOwned(s, steps[0]);
      OwnedHolds(Next(s, steps[0]), steps[1..]);
    }
  }

  /** In every interleaving each accepted refresh has completed a revocation of its token, between its own test and its issue. */
  lemma EveryRefreshRevokes(steps: seq<Step>, k: nat)
    requires Legal(Init, steps)
    requires k < |Run(Init, steps).log| && Run(Init, steps).log[k].Refreshed?
    ensures var log := Run(Init, steps).log; var e := log[k];
            && e.check.seen <= e.revokedAt < k && log[e.revokedAt] == Revoked(e.jti)
  {
    InvHolds(Init, steps);
    OwnedHolds(Init, steps);
    var s := Run(Init, steps);
    assert EventOk(s, s.log[k]);
  }

  /**
   Single use, up to overlap: two accepted refreshes of one token, both tested before its last second,
   revoked it separately, and each made its test before the other's revocation had completed. So of
   refreshes that do not overlap at most one is accepted before that second.
   */
  lemma AcceptedTwiceOnlyByOverlapping(steps: seq<Step>, k: nat, l: nat)
    requires Legal(Init, steps)
    requires k < l < |Run(Init, steps).log|
    requires var log := Run(Init, steps).log; log[k].Refreshed? && log[l].Refreshed? && log[k].jti == log[l].jti
    requires var s := Run(Init, steps); var jti := s.log[k].jti; jti in s.tokens ==>
               && s.log[k].check.checkedAt <= s.tokens[jti].exp as real - 1.0
               && s.log[l].check.checkedAt <= s.tokens[jti].exp as real - 1.0
    ensures var log := Run(Init, steps).log;
            && log[k].revokedAt != log[l].revokedAt
            && log[k].check.seen <= log[l].revokedAt
            && log[l].check.seen <= log[k].revokedAt
  {
    InvHolds(Init, steps);
    OwnedHolds(Init, steps);
    var s := Run(Init, steps);
    assert EventOk(s, s.log[k]) && EventOk(s, s.log[l]);
    assert IsRevocation(s.log[s.log[k].revokedAt], s.log[k].jti);
    assert IsRevocation(s.log[s.log[l].revokedAt], s.log[k].jti);
  }

  // ----- the test and the write are apart -----

  predicate Unused(s: State, jti: nat) {
    jti !in s.tokens && jti !in s.entries
  }

  ghost predicate Follows(s: State, s': State, jti: nat, i: nat)
    requires i < |s'.log|
  {
    var e := s'.log[i];
    && e.Refreshed? && e.jti == jti
    && Unused(s, e.next) && e.next in s'.tokens && s'.tokens[e.next].kind.Refresh?
    && Decodes(s'.tokens, e.next, s'.now) && !IsRevoked(s'.entries, e.next, s'.now)
  }

  /** Two new, unexpired and unrevoked refresh tokens descend from the token. */
  ghost predicate TwoFollow(s: State, s': State, jti: nat) {
    exists i, j :: |s.log| <= i < j < |s'.log| && Follows(s, s', jti, i) && Follows(s, s', jti, j) && s'.log[i].next != s'.log[j].next
  }

  /** Some legal continuation uses the token twice. */
  ghost predicate MayRace(s: State, jti: nat) {
    exists steps :: Legal(s, steps) && TwoFollow(s, Run(s, steps), jti)
  }

  lemma StepOnlyAdds(s: State, step: Step)
    requires Enabled(s, step)
    ensures s.log <= Next(s, step).log
    ensures forall k :: Unused(Next(s, step), k) ==> Unused(s, k)
  {
  }

  lemma TwoFollowFromBefore(s: State, s': State, end: State, jti: nat)
    requires TwoFollow(s', end, jti)
    requires s.log <= s'.log && forall k :: Unused(s', k) ==> Unused(s, k)
    ensures TwoFollow(s, end, jti)
  {
    var i, j :| |s'.log| <= i < j < |end.log| && Follows(s', end, jti, i) && Follows(s', end, jti, j) && end.log[i].next != end.log[j].next;
    assert Follows(s, end, jti, i) && Follows(s, end, jti, j);
  }

  lemma RaceFromBefore(s: State, step: Step, jti: nat)
    requires Enabled(s, step) && MayRace(Next(s, step), jti)
    ensures MayRace(s, jti)
  {
    var s' := Next(s, step);
    var steps :| Legal(s', steps) && TwoFollow(s', Run(s', steps), jti);
    StepOnlyAdds(s, step);
    TwoFollowFromBefore(s, s', Run(s', steps), jti);
    assert ([step] + steps)[1..] == steps;
    assert Legal(s, [step] + steps) && Run(s, [step] + steps) == Run(s', steps);
  }

  /** Both requests have revoked the same token and go on to issue a pair each. */
  lemma BothIssue(s: State, jti: nat, base: nat)
    requires 0 in s.pending && s.pending[0].Issuing? && s.pending[0].jti == jti && jti in s.tokens
    requires 1 in s.pending && s.pending[1].Issuing? && s.pending[1].jti == jti
    requires Unused(s, base) && Unused(s, base + 1) && Unused(s, base + 2) && Unused(s, base + 3)
    ensures MayRace(s, jti)
  {
    var issue0, issue1 := Issue(s.now, 0, base, base + 1), Issue(s.now, 1, base + 2, base + 3);
    var s1 := Next(s, issue0);
    var s2 := Next(s1, issue1);
    var steps := [issue0, issue1];
    assert steps[1..] == [issue1] && [issue1][1..] == [];
    assert Legal(s2, []) && Run(s2, []) == s2;
    assert Legal(s1, [issue1]) && Run(s1, [issue1]) == s2;
    assert Legal(s, steps) && Run(s, steps) == s2;
    assert s2.log == s.log + [Refreshed(jti, base + 1, s.pending[0].check, s.pending[0].revokedAt, 0),
                             Refreshed(jti, base + 3, s.pending[1].check, s.pending[1].revokedAt, 1)];
    assert Follows(s, s2, jti, |s.log|) && Follows(s, s2, jti, |s.log| + 1);
    assert TwoFollow(s, s2, jti);
  }

  /** Both requests have passed their tests on the same token: neither is held up any more. */
  lemma BothPassed(s: State, jti: nat, base: nat)
    requires jti in s.tokens && s.now + 1.0 <= s.tokens[jti].exp as real
    requires 0 in s.pending && s.pending[0].Checked? && s.pending[0].jti == jti
    requires 1 in s.pending && s.pending[1].Checked? && s.pending[1].jti == jti
    requires Unused(s, base) && Unused(s, base + 1) && Unused(s, base + 2) && Unused(s, base + 3)
    ensures MayRace(s, jti)
  {
    var t := s.now;
    TruncationIsShort(s.tokens[jti].exp, t);
    var s1 := Next(s, LoadUser(t, 0, true));
    var s2 := Next(s1, LoadUser(t, 1, true));
    var s3 := Next(s2, WriteRedis(t, 0));
    var s4 := Next(s3, WriteRedis(t, 1));
    BothIssue(s4, jti, base);
    RaceFromBefore(s3, WriteRedis(t, 1), jti);
    RaceFromBefore(s2, WriteRedis(t, 0), jti);
    RaceFromBefore(s1, LoadUser(t, 1, true), jti);
    RaceFromBefore(s, LoadUser(t, 0, true), jti);
  }

  /**
   Two refreshes of one token that both ask Redis before either writes may both be accepted, each
   issuing a new token: rotation uses a token once only when its requests do not overlap.
   */
  lemma OverlappingRefreshesBothSucceed(s: State, jti: nat, base: nat)
    requires jti in s.tokens && s.tokens[jti].kind.Refresh? && s.now + 1.0 <= s.tokens[jti].exp as real
    requires !IsRevoked(s.entries, jti, s.now)
    requires 0 !in s.pending && 1 !in s.pending
    requires Unused(s, base) && Unused(s, base + 1) && Unused(s, base + 2) && Unused(s, base + 3)
    ensures MayRace(s, jti)
  {
    var t := s.now;
    var s1 := Next(s, Decode(t, 0, jti));
    var s2 := Next(s1, Decode(t, 1, jti));
    var s3 := Next(s2, AskRedis(t, 0));
    var s4 := Next(s3, AskRedis(t, 1));
    BothPassed(s4, jti, base);
    RaceFromBefore(s3, AskRedis(t, 1), jti);
    RaceFromBefore(s2, AskRedis(t, 0), jti);
    RaceFromBefore(s1, Decode(t, 1, jti), jti);
    RaceFromBefore(s, Decode(t, 0, jti), jti);
  }

  /** So a first login can be refreshed twice. */
  lemma FirstLoginMayRace()
    ensures Enabled(Init, Login(0.0, 7, 0, 1)) && MayRace(Next(Init, Login(0.0, 7, 0, 1)), 1)
  {
    OverlappingRefreshesBothSucceed(Next(Init, Login(0.0, 7, 0, 1)), 1, 2);
  }
}
