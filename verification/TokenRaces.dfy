/**
 Refreshing and logging out under concurrency. A refresh decodes its token, asks Redis whether it is
 revoked, loads the user, writes the blacklist and issues a new pair, and other requests run in
 between. A request may also stop for good after any step, as it does when Redis fails.
 */
module TokenRaces {
  import opened Wrappers
  import opened Blacklist

  const ACCESS_MINUTES := 15
  const REFRESH_DAYS := 7

  datatype Kind = Access | Refresh

  /** Expiry is in whole seconds (section 2 of RFC 7519). */
  datatype Token = Token(sub: nat, kind: Kind, exp: int)

  function NewToken(sub: nat, kind: Kind, now: real): Token {
    var seconds := if kind.Access? then ACCESS_MINUTES * 60 else REFRESH_DAYS * 24 * 60 * 60;
    Token(sub, kind, (now + seconds as real).Floor)
  }

  function WithPair(tokens: map<nat, Token>, sub: nat, access: nat, refresh: nat, now: real): map<nat, Token> {
    tokens[access := NewToken(sub, Access, now)][refresh := NewToken(sub, Refresh, now)]
  }

  predicate Decodes(tokens: map<nat, Token>, jti: nat, now: real) {
    jti in tokens && now < tokens[jti].exp as real
  }

  /** When a refresh passed its tests; `seen` counts the log entries that there were at the revocation test. */
  datatype Check = Check(decodedAt: real, checkedAt: real, seen: nat)

  datatype Pending =
    | Decoded(jti: nat, decodedAt: real)
    | Checked(jti: nat, check: Check)
    | Setting(jti: nat, ttl: int, refresh: Option<Check>)
    | Issuing(jti: nat, check: Check, revokedAt: nat)

  /** A refresh notes its request, and where in the log its own revocation of the old token is. */
  datatype Event =
    | Revoked(jti: nat)
    | Refreshed(jti: nat, next: nat, check: Check, revokedAt: nat, req: nat)

  datatype State = State(now: real, entries: Entries, tokens: map<nat, Token>, pending: map<nat, Pending>, log: seq<Event>)

  datatype Step =
    | Login(at: real, sub: nat, access: nat, refresh: nat)
    | Decode(at: real, req: nat, jti: nat)
    | AskRedis(at: real, req: nat)
    | LoadUser(at: real, req: nat, active: bool)
    | WriteRedis(at: real, req: nat)
    | Issue(at: real, req: nat, access: nat, refresh: nat)
    | Logout(at: real, req: nat, jti: nat)

  const Init := State(0.0, map[], map[], map[], [])

  predicate NewPair(tokens: map<nat, Token>, access: nat, refresh: nat) {
    access !in tokens && refresh !in tokens && access != refresh
  }

  predicate Enabled(s: State, step: Step) {
    && s.now <= step.at
    && match step
       case Login(_, _, access, refresh) => NewPair(s.tokens, access, refresh)
       case Decode(_, req, _) => req !in s.pending
       case AskRedis(_, req) => req in s.pending && s.pending[req].Decoded?
       case LoadUser(_, req, _) => req in s.pending && s.pending[req].Checked?
       case WriteRedis(_, req) => req in s.pending && s.pending[req].Setting?
       case Issue(_, req, access, refresh) => req in s.pending && s.pending[req].Issuing? && NewPair(s.tokens, access, refresh)
       case Logout(_, req, _) => req !in s.pending
  }

  /** A rejected request is dropped, and a token with no second left needs no blacklist entry. */
  function Next(s: State, step: Step): State
    requires Enabled(s, step)
  {
    match step
    case Login(at, sub, access, refresh) =>
      s.(now := at, tokens := WithPair(s.tokens, sub, access, refresh, at))
    case Decode(at, req, jti) =>
      if Decodes(s.tokens, jti, at) && s.tokens[jti].kind.Refresh? then s.(now := at, pending := s.pending[req := Decoded(jti, at)])
      else s.(now := at)
    case AskRedis(at, req) =>
      var p := s.pending[req];
      if IsRevoked(s.entries, p.jti, at) then s.(now := at, pending := s.pending - {req})
      else s.(now := at, pending := s.pending[req := Checked(p.jti, Check(p.decodedAt, at, |s.log|))])
    case LoadUser(at, req, active) =>
      var p := s.pending[req];
      if !active || p.jti !in s.tokens then s.(now := at, pending := s.pending - {req})
      else
        var ttl := SecondsLeft(s.tokens[p.jti].exp, at);
        if ttl > 0 then s.(now := at, pending := s.pending[req := Setting(p.jti, ttl, Some(p.check))])
        else s.(now := at, pending := s.pending[req := Issuing(p.jti, p.check, |s.log|)], log := s.log + [Revoked(p.jti)])
    case WriteRedis(at, req) =>
      var p := s.pending[req];
      s.(now := at,
         entries := SetKey(s.entries, p.jti, p.ttl, at),
         pending := if p.refresh.Some? then s.pending[req := Issuing(p.jti, p.refresh.value, |s.log|)] else s.pending - {req},
         log := s.log + [Revoked(p.jti)])
    case Issue(at, req, access, refresh) =>
      var p := s.pending[req];
      s.(now := at,
         tokens := if p.jti in s.tokens then WithPair(s.tokens, s.tokens[p.jti].sub, access, refresh, at) else s.tokens,
         pending := s.pending - {req},
         log := s.log + [Refreshed(p.jti, refresh, p.check, p.revokedAt, req)])
    case Logout(at, req, jti) =>
      if !(Decodes(s.tokens, jti, at) && s.tokens[jti].kind.Refresh?) then s.(now := at)
      else
        var ttl := SecondsLeft(s.tokens[jti].exp, at);
        if ttl > 0 then s.(now := at, pending := s.pending[req := Setting(jti, ttl, None)])
        else s.(now := at, log := s.log + [Revoked(jti)])
  }

  ghost predicate Legal(s: State, steps: seq<Step>)
    decreases |steps|
  {
    steps == [] || (Enabled(s, steps[0]) && Legal(Next(s, steps[0]), steps[1..]))
  }

  function Run(s: State, steps: seq<Step>): State
    requires Legal(s, steps)
    decreases |steps|
  {
    if steps == [] then s else Run(Next(s, steps[0]), steps[1..])
  }

  // ----- what every interleaving keeps -----

  predicate IsRevocation(e: Event, jti: nat) {
    e == Revoked(jti)
  }

  /** A test that came after a completed revocation fell into the token's last second. */
  ghost predicate CheckOk(log: seq<Event>, jti: nat, exp: int, c: Check) {
    && c.decodedAt < exp as real && c.decodedAt <= c.checkedAt
    && c.seen <= |log|
    && forall i :: 0 <= i < c.seen && IsRevocation(log[i], jti) ==> c.checkedAt > exp as real - 1.0
  }

  /** A refresh revokes its token after its own revocation test. */
  ghost predicate OwnOk(log: seq<Event>, jti: nat, c: Check, revokedAt: nat) {
    c.seen <= revokedAt < |log| && log[revokedAt] == Revoked(jti)
  }

  ghost predicate PendingOk(s: State, p: Pending) {
    && p.jti in s.tokens && s.tokens[p.jti].kind.Refresh?
    && var exp := s.tokens[p.jti].exp;
       match p
       case Decoded(_, decodedAt) => decodedAt < exp as real && decodedAt <= s.now
       case Checked(jti, c) => CheckOk(s.log, jti, exp, c)
       case Setting(jti, ttl, refresh) =>
         s.now + ttl as real > exp as real - 1.0 && (refresh.Some? ==> CheckOk(s.log, jti, exp, refresh.value))
       case Issuing(jti, c, revokedAt) => CheckOk(s.log, jti, exp, c) && OwnOk(s.log, jti, c, revokedAt)
  }

  ghost predicate EventOk(s: State, e: Event) {
    && e.jti in s.tokens && s.tokens[e.jti].kind.Refresh?
    && var exp := s.tokens[e.jti].exp;
       match e
       case Revoked(jti) => Covered(s.entries, jti, exp, s.now)
       case Refreshed(jti, next, c, revokedAt, _) =>
         && CheckOk(s.log, jti, exp, c) && OwnOk(s.log, jti, c, revokedAt)
         && next in s.tokens && s.tokens[next].kind.Refresh? && s.tokens[next].sub == s.tokens[jti].sub
  }

  ghost predicate Inv(s: State) {
    && (forall req :: req in s.pending ==> PendingOk(s, s.pending[req]))
    && (forall i :: 0 <= i < |s.log| ==> EventOk(s, s.log[i]))
  }

  /** What a step may do to the parts of the state that the invariant speaks of. */
  ghost predicate Moves(s: State, s': State) {
    && s.now <= s'.now
    && (forall jti :: jti in s.tokens ==> jti in s'.tokens && s'.tokens[jti] == s.tokens[jti])
    && s.log <= s'.log
    && (forall jti :: jti in s.tokens && Covered(s.entries, jti, s.tokens[jti].exp, s.now)
                      ==> Covered(s'.entries, jti, s.tokens[jti].exp, s'.now))
  }

  lemma PendingStays(s: State, s': State, p: Pending)
    requires PendingOk(s, p) && Moves(s, s')
    ensures PendingOk(s', p)
  {
  }

  lemma EventStays(s: State, s': State, e: Event)
    requires EventOk(s, e) && Moves(s, s')
    ensures EventOk(s', e)
  {
  }

  lemma AllStay(s: State, s': State)
    requires Inv(s) && Moves(s, s')
    ensures forall req :: req in s.pending ==> PendingOk(s', s.pending[req])
    ensures forall i :: 0 <= i < |s.log| ==> EventOk(s', s.log[i])
  {
    forall req | req in s.pending ensures PendingOk(s', s.pending[req]) {
      PendingStays(s, s', s.pending[req]);
    }
    forall i | 0 <= i < |s.log| ensures EventOk(s', s.log[i]) {
      EventStays(s, s', s.log[i]);
    }
  }

  /** The revocation test: a refresh passes after a completed revocation only in the last second. */
  lemma AskKeeps(s: State, step: Step)
    requires Inv(s) && Enabled(s, step) && step.AskRedis?
    ensures Inv(Next(s, step))
  {
    var s' := Next(s, step);
    AllStay(s, s');
    var jti := s.pending[step.req].jti;
    if step.req in s'.pending {
      forall i | 0 <= i < |s.log| && IsRevocation(s.log[i], jti) ensures step.at > s.tokens[jti].exp as real - 1.0 {
        assert EventOk(s, s.log[i]);
      }
      assert PendingOk(s', s'.pending[step.req]);
    }
  }

  lemma LoadKeeps(s: State, step: Step)
    requires Inv(s) && Enabled(s, step) && step.LoadUser?
    ensures Inv(Next(s, step))
  {
    var s' := Next(s, step);
    AllStay(s, s');
    var p := s.pending[step.req];
    if step.req in s'.pending {
      TruncationIsShort(s.tokens[p.jti].exp, step.at);
      PendingStays(s, s', p);
      assert PendingOk(s', s'.pending[step.req]);
    }
  }

  lemma WriteKeeps(s: State, step: Step)
    requires Inv(s) && Enabled(s, step) && step.WriteRedis?
    ensures Inv(Next(s, step))
  {
    var s' := Next(s, step);
    var p := s.pending[step.req];
    assert PendingOk(s, p);
    assert Moves(s, s');
    AllStay(s, s');
    assert EventOk(s', Revoked(p.jti));
    PendingStays(s, s', p);
    assert step.req in s'.pending ==> PendingOk(s', s'.pending[step.req]);
  }

  lemma IssueKeeps(s: State, step: Step)
    requires Inv(s) && Enabled(s, step) && step.Issue?
    ensures Inv(Next(s, step))
  {
    var s' := Next(s, step);
    var p := s.pending[step.req];
    AllStay(s, s');
    PendingStays(s, s', p);
    assert EventOk(s', Refreshed(p.jti, step.refresh, p.check, p.revokedAt, step.req));
  }

  lemma LogoutKeeps(s: State, step: Step)
    requires Inv(s) && Enabled(s, step) && step.Logout?
    ensures Inv(Next(s, step))
  {
    var s' := Next(s, step);
    AllStay(s, s');
    if step.jti in s.tokens {
      TruncationIsShort(s.tokens[step.jti].exp, step.at);
      assert step.req in s'.pending ==> PendingOk(s', s'.pending[step.req]);
      assert |s'.log| > |s.log| ==> EventOk(s', Revoked(step.jti));
    }
  }

  lemma StepKeeps(s: State, step: Step)
    requires Inv(s) && Enabled(s, step)
    ensures Inv(Next(s, step))
  {
    match step {
      case Login(_, _, _, _) => AllStay(s, Next(s, step));
      case Decode(_, _, _) => AllStay(s, Next(s, step));
      case AskRedis(_, _) => AskKeeps(s, step);
      case LoadUser(_, _, _) => LoadKeeps(s, step);
      case WriteRedis(_, _) => WriteKeeps(s, step);
      case Issue(_, _, _, _) => IssueKeeps(s, step);
      case Logout(_, _, _) => LogoutKeeps(s, step);
    }
  }

  lemma {:induction false} InvHolds(s: State, steps: seq<Step>)
    requires Inv(s) && Legal(s, steps)
    ensures Inv(Run(s, steps))
    decreases |steps|
  {
    if steps != [] {
      StepKeeps(s, steps[0]);
      InvHolds(Next(s, steps[0]), steps[1..]);
    }
  }

  /**
   In every interleaving: a refresh that was accepted although a revocation of its token had
   completed before its revocation test made that test in the last second before the token's expiry
   (or, having decoded the token in time, after it).
   */
  lemma RevokedTokensAreRefused(steps: seq<Step>, k: nat, i: nat)
    requires Legal(Init, steps)
    requires k < |Run(Init, steps).log| && Run(Init, steps).log[k].Refreshed?
    requires i < Run(Init, steps).log[k].check.seen
    requires i < |Run(Init, steps).log| && Run(Init, steps).log[i] == Revoked(Run(Init, steps).log[k].jti)
    ensures var s := Run(Init, steps); var e := s.log[k];
            && e.jti in s.tokens
            && e.check.checkedAt > s.tokens[e.jti].exp as real - 1.0
            && e.check.decodedAt < s.tokens[e.jti].exp as real
  {
    InvHolds(Init, steps);
    var s := Run(Init, steps);
    assert EventOk(s, s.log[k]);
    assert IsRevocation(s.log[i], s.log[k].jti);
  }

  /** And in every interleaving a completed revocation is found by every later test before that second. */
  lemma RevocationIsFound(steps: seq<Step>, i: nat, t: real)
    requires Legal(Init, steps)
    requires i < |Run(Init, steps).log| && Run(Init, steps).log[i].Revoked?
    ensures var s := Run(Init, steps); var jti := s.log[i].jti;
            && jti in s.tokens
            && (s.now <= t <= s.tokens[jti].exp as real - 1.0 ==> IsRevoked(s.entries, jti, t))
  {
    InvHolds(Init, steps);
    var s := Run(Init, steps);
    assert EventOk(s, s.log[i]);
  }

  /** In every interleaving only refresh tokens are refreshed, and the new one is the same user's. */
  lemma RefreshStaysWithTheUser(steps: seq<Step>, k: nat)
    requires Legal(Init, steps)
    requires k < |Run(Init, steps).log| && Run(Init, steps).log[k].Refreshed?
    ensures var s := Run(Init, steps); var e := s.log[k];
            && e.jti in s.tokens && s.tokens[e.jti].kind.Refresh?
            && e.next in s.tokens && s.tokens[e.next].kind.Refresh? && s.tokens[e.next].sub == s.tokens[e.jti].sub
  {
    InvHolds(Init, steps);
    assert EventOk(Run(Init, steps), Run(Init, steps).log[k]);
  }
}
