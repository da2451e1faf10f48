/** The steps of one refresh or logout, taken without interruption, are the operations of the service. */
module TokenSerial {
  import opened Wrappers
  import opened Blacklist
  import opened TokenRaces
  import opened AuthServices

  /** A logout of a live refresh token revokes it, and any other logout does nothing. */
  lemma LogoutAlone(s: State, req: nat, jti: nat, now: real, at: real)
    requires req !in s.pending && s.now <= now <= at
    ensures var s1 := Next(s, Logout(now, req, jti));
            if !DecodesRefresh(s.tokens, jti, now) then s1 == s.(now := now)
            else if SecondsLeft(s.tokens[jti].exp, now) <= 0 then
              s1 == s.(now := now, log := s.log + [Revoked(jti)]) && s.entries == Revoke(s.entries, jti, s.tokens[jti].exp, now, at)
            else
              && Enabled(s1, WriteRedis(at, req))
              && Next(s1, WriteRedis(at, req))
                 == s.(now := at, entries := Revoke(s.entries, jti, s.tokens[jti].exp, now, at), log := s.log + [Revoked(jti)])
  {
    var s1 := Next(s, Logout(now, req, jti));
    if DecodesRefresh(s.tokens, jti, now) && SecondsLeft(s.tokens[jti].exp, now) > 0 {
      assert s1.pending - {req} == s.pending;
    }
  }

  /** A refresh that is refused ends at the step that refuses it, and nothing but time has passed. */
  lemma RefusedAlone(s: State, req: nat, jti: nat, c: Clock, active: set<nat>)
    requires req !in s.pending && s.now <= c.decoded && Ticks(c)
    requires !Accepts(s.entries, s.tokens, active, jti, c)
    ensures var s1 := Next(s, Decode(c.decoded, req, jti));
            if !DecodesRefresh(s.tokens, jti, c.decoded) then s1 == s.(now := c.decoded)
            else
              && Enabled(s1, AskRedis(c.asked, req))
              && var s2 := Next(s1, AskRedis(c.asked, req));
                 if IsRevoked(s.entries, jti, c.asked) then s2 == s.(now := c.asked)
                 else
                   && Enabled(s2, LoadUser(c.loaded, req, s.tokens[jti].sub in active))
                   && Next(s2, LoadUser(c.loaded, req, s.tokens[jti].sub in active)) == s.(now := c.loaded)
  {
    var s1 := Next(s, Decode(c.decoded, req, jti));
    if DecodesRefresh(s.tokens, jti, c.decoded) {
      assert s1.pending - {req} == s.pending;
    }
  }

  /** The state of an accepted refresh up to its user's loading. */
  function Loaded(s: State, req: nat, jti: nat, c: Clock): State {
    s.(now := c.asked, pending := s.pending[req := Checked(jti, Check(c.decoded, c.asked, |s.log|))])
  }

  lemma AcceptedUpToLoading(s: State, req: nat, jti: nat, c: Clock, active: set<nat>)
    requires req !in s.pending && s.now <= c.decoded && Ticks(c)
    requires Accepts(s.entries, s.tokens, active, jti, c)
    ensures Enabled(Next(s, Decode(c.decoded, req, jti)), AskRedis(c.asked, req))
    ensures Next(Next(s, Decode(c.decoded, req, jti)), AskRedis(c.asked, req)) == Loaded(s, req, jti, c)
    ensures Enabled(Loaded(s, req, jti, c), LoadUser(c.loaded, req, true))
  {
  }

  /** From there it revokes the token, if it has a second left, and issues the new pair: the service's rotation. */
  lemma AcceptedAlone(s: State, req: nat, jti: nat, c: Clock, active: set<nat>, access: nat, refresh: nat)
    requires req !in s.pending && s.now <= c.decoded && Ticks(c) && NewPair(s.tokens, access, refresh)
    requires Accepts(s.entries, s.tokens, active, jti, c)
    ensures var s3 := Next(Loaded(s, req, jti, c), LoadUser(c.loaded, req, true));
            var writes := SecondsLeft(s.tokens[jti].exp, c.loaded) > 0;
            && (writes ==> Enabled(s3, WriteRedis(c.written, req)))
            && var s4 := if writes then Next(s3, WriteRedis(c.written, req)) else s3;
               && Enabled(s4, Issue(c.issued, req, access, refresh))
               && var end := Next(s4, Issue(c.issued, req, access, refresh));
                  && end.entries == Revoke(s.entries, jti, s.tokens[jti].exp, c.loaded, c.written)
                  && end.tokens == WithPair(s.tokens, s.tokens[jti].sub, access, refresh, c.issued)
                  && end.pending == s.pending
                  && end.log == s.log + [Revoked(jti), Refreshed(jti, refresh, Check(c.decoded, c.asked, |s.log|), |s.log|, req)]
  {
    var s3 := Next(Loaded(s, req, jti, c), LoadUser(c.loaded, req, true));
    assert s3.pending - {req} == s.pending;
    if SecondsLeft(s.tokens[jti].exp, c.loaded) > 0 {
      assert Next(s3, WriteRedis(c.written, req)).pending - {req} == s.pending;
    }
  }
}
