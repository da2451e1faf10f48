/**
 Login chains: a login's refresh token and all the refresh tokens rotated from it. Requests run one
 after another here; each method of `AuthService` is one operation.
 */
module TokenChains {
  import opened Blacklist
  import opened TokenRaces
  import opened AuthServices
  import FiniteSets

  datatype Op =
    | SignIn(at: real, sub: nat, access: nat, refresh: nat)
    | Rotate(clock: Clock, active: set<nat>, jti: nat, access: nat, refresh: nat)
    | SignOut(now: real, at: real, jti: nat)

  /** What a revocation was: a token's first one, by rotation or by logging out, or a repeated one. */
  datatype Turn =
    | Rotation(chain: nat, jti: nat)
    | Replay(chain: nat, jti: nat, decodedAt: real, askedAt: real)
    | Departure(chain: nat, jti: nat)
    | Repetition(chain: nat, jti: nat)

  /** `chain` says which login each refresh token descends from, `revoked` which were ever revoked. */
  datatype Chains = Chains(now: real, entries: Entries, tokens: map<nat, Token>, chain: map<nat, nat>, revoked: set<nat>, turns: seq<Turn>)

  const Init := Chains(0.0, map[], map[], map[], {}, [])

  predicate Enabled(s: Chains, op: Op) {
    match op
    case SignIn(at, _, access, refresh) => s.now <= at && NewPair(s.tokens, access, refresh)
    case Rotate(clock, _, _, access, refresh) => s.now <= clock.decoded && Ticks(clock) && NewPair(s.tokens, access, refresh)
    case SignOut(now, at, _) => s.now <= now <= at
  }

  function ChainOf(s: Chains, jti: nat): nat {
    if jti in s.chain then s.chain[jti] else jti
  }

  function Exec(s: Chains, op: Op): Chains
    requires Enabled(s, op)
  {
    match op
    case SignIn(at, sub, access, refresh) =>
      s.(now := at, tokens := WithPair(s.tokens, sub, access, refresh, at), chain := s.chain[refresh := refresh])
    case Rotate(c, active, jti, access, refresh) =>
      if !Accepts(s.entries, s.tokens, active, jti, c) then s.(now := c.issued)
      else
        var login := ChainOf(s, jti);
        Chains(c.issued,
               Revoke(s.entries, jti, s.tokens[jti].exp, c.loaded, c.written),
               WithPair(s.tokens, s.tokens[jti].sub, access, refresh, c.issued),
               s.chain[refresh := login],
               s.revoked + {jti},
               s.turns + [if jti in s.revoked then Replay(login, jti, c.decoded, c.asked) else Rotation(login, jti)])
    case SignOut(now, at, jti) =>
      if !DecodesRefresh(s.tokens, jti, now) then s.(now := at)
      else
        var login := ChainOf(s, jti);
        s.(now := at,
           entries := Revoke(s.entries, jti, s.tokens[jti].exp, now, at),
           revoked := s.revoked + {jti},
           turns := s.turns + [if jti in s.revoked then Repetition(login, jti) else Departure(login, jti)])
  }

  ghost predicate Legal(s: Chains, ops: seq<Op>)
    decreases |ops|
  {
    ops == [] || (Enabled(s, ops[0]) && Legal(Exec(s, ops[0]), ops[1..]))
  }

  function Run(s: Chains, ops: seq<Op>): Chains
    requires Legal(s, ops)
    decreases |ops|
  {
    if ops == [] then s else Run(Exec(s, ops[0]), ops[1..])
  }

  // ----- the balance of a chain -----

  function Replays(turns: seq<Turn>, chain: nat): nat {
    if turns == [] then 0
    else
      var last := turns[|turns| - 1];
      Replays(turns[..|turns| - 1], chain) + (if last.Replay? && last.chain == chain then 1 else 0)
  }

  function Departures(turns: seq<Turn>, chain: nat): nat {
    if turns == [] then 0
    else
      var last := turns[|turns| - 1];
      Departures(turns[..|turns| - 1], chain) + (if last.Departure? && last.chain == chain then 1 else 0)
  }

  /** The chain's refresh tokens that nobody has revoked. */
  function Unrevoked(s: Chains, chain: nat): set<nat> {
    set jti | jti in s.chain && s.chain[jti] == chain && jti !in s.revoked
  }

  ghost predicate TokenOk(s: Chains, jti: nat)
    requires jti in s.chain
  {
    var login := s.chain[jti];
    && jti in s.tokens && s.tokens[jti].kind.Refresh?
    && login in s.chain && s.chain[login] == login && login in s.tokens
    && s.tokens[login].exp <= s.tokens[jti].exp <= NewToken(0, Refresh, s.now).exp
  }

  ghost predicate TurnOk(s: Chains, turn: Turn) {
    && turn.jti in s.chain && s.chain[turn.jti] == turn.chain && turn.jti in s.tokens && turn.jti in s.revoked
    && (turn.Replay? ==>
          && s.tokens[turn.jti].exp as real - 1.0 < turn.askedAt <= s.now
          && turn.decodedAt < s.tokens[turn.jti].exp as real)
  }

  ghost predicate Balanced(s: Chains, chain: nat) {
    |Unrevoked(s, chain)| == 1 + Replays(s.turns, chain) - Departures(s.turns, chain)
  }

  predicate IsLogin(s: Chains, jti: nat) {
    jti in s.chain && s.chain[jti] == jti
  }

  ghost predicate Inv(s: Chains) {
    && (forall jti :: jti in s.tokens && s.tokens[jti].kind.Refresh? ==> jti in s.chain)
    && (forall jti :: jti in s.chain ==> TokenOk(s, jti))
    && (forall jti :: jti in s.revoked ==> jti in s.chain && jti in s.tokens && Covered(s.entries, jti, s.tokens[jti].exp, s.now))
    && (forall jti :: jti in s.entries ==> jti in s.revoked)
    && (forall i :: 0 <= i < |s.turns| ==> TurnOk(s, s.turns[i]))
    && (forall login: nat :: IsLogin(s, login) ==> Balanced(s, login))
  }

  lemma OneMore(turns: seq<Turn>, turn: Turn, chain: nat)
    ensures Replays(turns + [turn], chain) == Replays(turns, chain) + (if turn.Replay? && turn.chain == chain then 1 else 0)
    ensures Departures(turns + [turn], chain) == Departures(turns, chain) + (if turn.Departure? && turn.chain == chain then 1 else 0)
  {
    assert (turns + [turn])[..|turns|] == turns;
  }

  lemma {:induction false} NoTurns(turns: seq<Turn>, chain: nat)
    requires forall i :: 0 <= i < |turns| ==> turns[i].chain != chain
    ensures Replays(turns, chain) == 0 && Departures(turns, chain) == 0
    decreases |turns|
  {
    if turns != [] {
      NoTurns(turns[..|turns| - 1], chain);
    }
  }

  /** What an operation may do to tokens that exist already. */
  ghost predicate Moves(s: Chains, s': Chains) {
    && s.now <= s'.now
    && (forall jti :: jti in s.tokens ==> jti in s'.tokens && s'.tokens[jti] == s.tokens[jti])
    && (forall jti :: jti in s.chain ==> jti in s'.chain && s'.chain[jti] == s.chain[jti])
    && s.revoked <= s'.revoked
  }

  lemma AllStay(s: Chains, s': Chains)
    requires Inv(s) && Moves(s, s')
    ensures forall jti :: jti in s.chain ==> TokenOk(s', jti)
    ensures forall i :: 0 <= i < |s.turns| ==> TurnOk(s', s.turns[i])
  {
    forall jti | jti in s.chain ensures TokenOk(s', jti) {
      assert TokenOk(s, jti);
    }
    forall i | 0 <= i < |s.turns| ensures TurnOk(s', s.turns[i]) {
      assert TurnOk(s, s.turns[i]);
    }
  }

  lemma WaitingKeeps(s: Chains, s': Chains)
    requires Inv(s) && s.now <= s'.now && s' == s.(now := s'.now)
    ensures Inv(s')
  {
    AllStay(s, s');
    forall login: nat | IsLogin(s', login) ensures Balanced(s', login) {
      assert IsLogin(s, login) && Balanced(s, login) && Unrevoked(s', login) == Unrevoked(s, login);
    }
  }

  lemma SignInBalances(s: Chains, s': Chains, refresh: nat, login: nat)
    requires Inv(s) && refresh !in s.chain
    requires s'.chain == s.chain[refresh := refresh] && s'.revoked == s.revoked && s'.turns == s.turns
    requires IsLogin(s', login)
    ensures Balanced(s', login)
  {
    if login == refresh {
      assert forall i :: 0 <= i < |s.turns| ==> TurnOk(s, s.turns[i]);
      NoTurns(s.turns, login);
      assert forall jti :: jti in s.chain ==> TokenOk(s, jti);
      assert Unrevoked(s', login) == {login};
    } else {
      assert IsLogin(s, login) && Balanced(s, login);
      assert Unrevoked(s', login) == Unrevoked(s, login);
    }
  }

  lemma SignInKeeps(s: Chains, op: Op)
    requires Inv(s) && Enabled(s, op) && op.SignIn?
    ensures Inv(Exec(s, op))
  {
    var s' := Exec(s, op);
    assert forall jti :: jti in s.chain ==> TokenOk(s, jti);
    AllStay(s, s');
    assert TokenOk(s', op.refresh);
    forall login: nat | IsLogin(s', login) ensures Balanced(s', login) {
      SignInBalances(s, s', op.refresh, login);
    }
  }

  /** Revoking one token covers it and uncovers no other. */
  lemma RevokingCovers(s: Chains, jti: nat, now: real, at: real, end: real)
    requires Inv(s) && jti in s.chain && jti in s.tokens && s.now <= now <= at <= end
    ensures var entries := Revoke(s.entries, jti, s.tokens[jti].exp, now, at);
            forall k :: k in s.revoked + {jti} ==> k in s.chain && k in s.tokens && Covered(entries, k, s.tokens[k].exp, end)
  {
    TruncationIsShort(s.tokens[jti].exp, now);
  }

  /** A rotation moves the chain's balance from one token to the next; a replay adds to it. */
  lemma RotateBalances(s: Chains, s': Chains, jti: nat, refresh: nat, turn: Turn, login: nat)
    requires jti in s.chain && s.chain[jti] in s.chain && refresh !in s.chain && refresh !in s.revoked
    requires IsLogin(s, login) ==> Balanced(s, login)
    requires s'.chain == s.chain[refresh := s.chain[jti]] && s'.revoked == s.revoked + {jti} && s'.turns == s.turns + [turn]
    requires turn.chain == s.chain[jti] && (if jti in s.revoked then turn.Replay? else turn.Rotation?)
    requires IsLogin(s', login)
    ensures Balanced(s', login)
  {
    OneMore(s.turns, turn, login);
    assert refresh != login;
    var before := Unrevoked(s, login);
    if login != s.chain[jti] {
      assert Unrevoked(s', login) == before;
    } else if jti in s.revoked {
      assert jti !in before && Unrevoked(s', login) == before + {refresh};
    } else {
      assert jti in before && Unrevoked(s', login) == (before - {jti}) + {refresh};
    }
  }

  /** An accepted rotation of a token that was revoked before is a replay, in that token's last second. */
  lemma RotateKeeps(s: Chains, op: Op)
    requires Inv(s) && Enabled(s, op) && op.Rotate?
    requires Accepts(s.entries, s.tokens, op.active, op.jti, op.clock)
    ensures Inv(Exec(s, op))
  {
    var s' := Exec(s, op);
    assert TokenOk(s, op.jti) && TokenOk(s, s.chain[op.jti]);
    assert op.refresh in s.chain ==> TokenOk(s, op.refresh);
    AllStay(s, s');
    RevokingCovers(s, op.jti, op.clock.loaded, op.clock.written, op.clock.issued);
    assert TokenOk(s', op.refresh);
    var turn := s'.turns[|s.turns|];
    assert TurnOk(s', turn);
    forall login: nat | IsLogin(s', login) ensures Balanced(s', login) {
      RotateBalances(s, s', op.jti, op.refresh, turn, login);
    }
  }

  lemma SignOutBalances(s: Chains, s': Chains, jti: nat, turn: Turn, login: nat)
    requires IsLogin(s, login) ==> Balanced(s, login)
    requires jti in s.chain && s'.chain == s.chain && s'.revoked == s.revoked + {jti} && s'.turns == s.turns + [turn]
    requires turn.chain == s.chain[jti] && (if jti in s.revoked then turn.Repetition? else turn.Departure?)
    requires IsLogin(s', login)
    ensures Balanced(s', login)
  {
    OneMore(s.turns, turn, login);
    if login == s.chain[jti] {
      assert Unrevoked(s', login) == Unrevoked(s, login) - {jti};
    } else {
      assert Unrevoked(s', login) == Unrevoked(s, login);
    }
  }

  lemma SignOutKeeps(s: Chains, op: Op)
    requires Inv(s) && Enabled(s, op) && op.SignOut?
    requires DecodesRefresh(s.tokens, op.jti, op.now)
    ensures Inv(Exec(s, op))
  {
    var s' := Exec(s, op);
    AllStay(s, s');
    RevokingCovers(s, op.jti, op.now, op.at, op.at);
    var turn := s'.turns[|s.turns|];
    assert TurnOk(s', turn);
    forall login: nat | IsLogin(s', login) ensures Balanced(s', login) {
      SignOutBalances(s, s', op.jti, turn, login);
    }
  }

  lemma ExecKeeps(s: Chains, op: Op)
    requires Inv(s) && Enabled(s, op)
    ensures Inv(Exec(s, op))
  {
    if op.SignIn? {
      SignInKeeps(s, op);
    } else if op.Rotate? && Accepts(s.entries, s.tokens, op.active, op.jti, op.clock) {
      RotateKeeps(s, op);
    } else if op.SignOut? && DecodesRefresh(s.tokens, op.jti, op.now) {
      SignOutKeeps(s, op);
    } else {
      WaitingKeeps(s, Exec(s, op));
    }
  }

  lemma {:induction false} InvHolds(s: Chains, ops: seq<Op>)
    requires Inv(s) && Legal(s, ops)
    ensures Inv(Run(s, ops))
    decreases |ops|
  {
    if ops != [] {
      ExecKeeps(s, ops[0]);
      InvHolds(Exec(s, ops[0]), ops[1..]);
    }
  }

  // ----- what a chain can still use -----

  /** Tokens of the chain, not yet in their last second, that a refresh at time `t` would accept. */
  function Usable(s: Chains, chain: nat, t: real): set<nat> {
    set jti | jti in s.chain && s.chain[jti] == chain && jti in s.tokens
              && t <= s.tokens[jti].exp as real - 1.0 && !IsRevoked(s.entries, jti, t)
  }

  /** Those of the tokens that are not yet in their last second. */
  function Early(s: Chains, jtis: set<nat>, t: real): set<nat> {
    set jti | jti in jtis && jti in s.tokens && t <= s.tokens[jti].exp as real - 1.0
  }

  /**
   The balance of every login chain after any serial run: it has one unrevoked refresh token, plus
   one for each replay of a revoked token, less one for each token first revoked by logging out; and
   a replay happens only in the last second of the token that is replayed. What the chain can use
   outside such last seconds is exactly its unrevoked tokens.
   */
  lemma ChainBalance(ops: seq<Op>, login: nat, t: real)
    requires Legal(Init, ops) && IsLogin(Run(Init, ops), login)
    requires t >= Run(Init, ops).now
    ensures var s := Run(Init, ops);
            && |Unrevoked(s, login)| == 1 + Replays(s.turns, login) - Departures(s.turns, login)
            && Usable(s, login, t) == Early(s, Unrevoked(s, login), t)
            && (forall i :: 0 <= i < |s.turns| && s.turns[i].Replay? ==>
                  s.turns[i].jti in s.tokens && ReplayedLate(s.tokens[s.turns[i].jti].exp, s.turns[i]))
  {
    InvHolds(Init, ops);
    var s := Run(Init, ops);
    assert forall i :: 0 <= i < |s.turns| ==> TurnOk(s, s.turns[i]);
    assert Balanced(s, login);
  }

  predicate ReplayedLate(exp: int, turn: Turn)
    requires turn.Replay?
  {
    exp as real - 1.0 < turn.askedAt && turn.decodedAt < exp as real
  }

  lemma {:induction false} NoReplayYet(s: Chains, n: nat, login: nat)
    requires Inv(s) && IsLogin(s, login) && n <= |s.turns|
    requires login in s.tokens && s.now <= s.tokens[login].exp as real - 1.0
    ensures Replays(s.turns[..n], login) == 0
  {
    if n > 0 {
      NoReplayYet(s, n - 1, login);
      assert s.turns[..n][..n - 1] == s.turns[..n - 1];
      assert TurnOk(s, s.turns[n - 1]);
      assert TokenOk(s, s.turns[n - 1].jti);
    }
  }

  /** Until the last second of its login's own refresh token, a chain has at most one usable refresh token. */
  lemma OneUsableTokenPerChain(ops: seq<Op>, login: nat, t: real)
    requires Legal(Init, ops) && IsLogin(Run(Init, ops), login)
    requires var s := Run(Init, ops); login in s.tokens && s.now <= t && s.now <= s.tokens[login].exp as real - 1.0
    ensures |Usable(Run(Init, ops), login, t)| <= 1
  {
    InvHolds(Init, ops);
    var s := Run(Init, ops);
    NoReplayYet(s, |s.turns|, login);
    assert s.turns[..|s.turns|] == s.turns;
    ChainBalance(ops, login, t);
    FiniteSets.SubsetIsNoLarger(Usable(s, login, t), Unrevoked(s, login));
  }

  function AtOnce(t: real): Clock {
    Clock(t, t, t, t, t)
  }

  // ----- whose tokens are rotated -----

  /** `states[n]` is the state before operation `n`. */
  ghost predicate IsTrace(ops: seq<Op>, states: seq<Chains>) {
    && |states| == |ops| + 1 && states[0] == Init
    && forall n: nat :: n < |ops| ==> Executes(ops, states, n)
  }

  ghost predicate Executes(ops: seq<Op>, states: seq<Chains>, n: nat)
    requires n < |ops| && |states| == |ops| + 1
  {
    Enabled(states[n], ops[n]) && states[n + 1] == Exec(states[n], ops[n])
  }

  /** Operation `i` presents the token, which is a live refresh token of a user active at that time. */
  ghost predicate PresentedByActiveUser(ops: seq<Op>, states: seq<Chains>, i: nat, turn: Turn)
    requires |states| == |ops| + 1
  {
    && i < |ops| && ops[i].Rotate? && ops[i].jti == turn.jti
    && turn.jti in states[i].tokens && states[i].tokens[turn.jti].kind == Refresh
    && states[i].tokens[turn.jti].sub in ops[i].active
    && ops[i].clock.decoded < states[i].tokens[turn.jti].exp as real
  }

  /** In every serial run each rotation and each replay is of a token whose user was active when it was presented. */
  lemma {:induction false} OnlyActiveUsersRotate(ops: seq<Op>, states: seq<Chains>, n: nat, k: nat)
    requires IsTrace(ops, states) && n <= |ops|
    requires k < |states[n].turns| && (states[n].turns[k].Rotation? || states[n].turns[k].Replay?)
    ensures exists i: nat :: i < n && PresentedByActiveUser(ops, states, i, states[n].turns[k])
    decreases n
  {
    if n > 0 {
      assert Executes(ops, states, n - 1);
      if k < |states[n - 1].turns| {
        OnlyActiveUsersRotate(ops, states, n - 1, k);
      } else {
        assert PresentedByActiveUser(ops, states, n - 1, states[n].turns[k]);
      }
    }
  }

  // ----- the failing case -----

  function SignedIn(): Chains {
    Chains(0.0, map[], map[0 := Token(7, Access, 900), 1 := Token(7, Refresh, 604800)], map[1 := 1], {}, [])
  }

  /** The entry of the rotated token lasts 604699 seconds, half a second less than the token. */
  function Rotated(): Chains {
    Chains(100.5, map[1 := 604799.5], WithPair(SignedIn().tokens, 7, 2, 3, 100.5), map[1 := 1, 3 := 1], {1}, [Rotation(1, 1)])
  }

  function Replayed(): Chains {
    Chains(604799.75, map[1 := 604799.5], WithPair(Rotated().tokens, 7, 4, 5, 604799.75), map[1 := 1, 3 := 1, 5 := 1], {1},
           [Rotation(1, 1), Replay(1, 1, 604799.75, 604799.75)])
  }

  lemma SigningIn()
    ensures Exec(Init, SignIn(0.0, 7, 0, 1)) == SignedIn()
  {
  }

  lemma Rotating()
    ensures Enabled(SignedIn(), Rotate(AtOnce(100.5), {7}, 1, 2, 3))
    ensures Exec(SignedIn(), Rotate(AtOnce(100.5), {7}, 1, 2, 3)) == Rotated()
  {
    assert SecondsLeft(604800, 100.5) == 604699;
  }

  lemma Replaying()
    ensures Enabled(Rotated(), Rotate(AtOnce(604799.75), {7}, 1, 4, 5))
    ensures Exec(Rotated(), Rotate(AtOnce(604799.75), {7}, 1, 4, 5)) == Replayed()
  {
    assert SecondsLeft(604800, 604799.75) == 0;
  }

  lemma BothUsable()
    ensures Usable(Replayed(), 1, 604799.75) == {3, 5}
  {
    assert Rotated().tokens[3] == Token(7, Refresh, 604900);
    assert Replayed().tokens[5] == Token(7, Refresh, 1209599);
  }

  /**
   After that second has begun the bound fails. A token rotated at half past a second is dropped from
   the blacklist half a second before it expires; replayed in between, it yields a second line of
   descent, and both lines stay usable.
   */
  lemma ReplayedChainHasTwo()
    ensures var ops := [SignIn(0.0, 7, 0, 1), Rotate(AtOnce(100.5), {7}, 1, 2, 3), Rotate(AtOnce(604799.75), {7}, 1, 4, 5)];
            Legal(Init, ops) && Usable(Run(Init, ops), 1, 604799.75) == {3, 5}
  {
    var signIn, rotate, replay := SignIn(0.0, 7, 0, 1), Rotate(AtOnce(100.5), {7}, 1, 2, 3), Rotate(AtOnce(604799.75), {7}, 1, 4, 5);
    SigningIn();
    Rotating();
    Replaying();
    BothUsable();
    assert Legal(Replayed(), []) && Run(Replayed(), []) == Replayed();
    RunOn(Rotated(), replay, []);
    RunOn(SignedIn(), rotate, [replay] + []);
    RunOn(Init, signIn, [rotate] + ([replay] + []));
    assert [signIn] + ([rotate] + ([replay] + [])) == [signIn, rotate, replay];
  }

  lemma RunOn(s: Chains, op: Op, rest: seq<Op>)
    requires Enabled(s, op) && Legal(Exec(s, op), rest)
    ensures Legal(s, [op] + rest) && Run(s, [op] + rest) == Run(Exec(s, op), rest)
  {
    assert ([op] + rest)[1..] == rest;
  }
}
