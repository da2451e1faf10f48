/** The login, refresh and logout operations, each run to its end before the next one starts. */
module AuthServices {
  import opened Wrappers
  import opened Blacklist
  import opened TokenRaces

  datatype Failure = InvalidToken | NotARefreshToken | RevokedToken | InactiveUser

  datatype TokenPair = TokenPair(access: nat, refresh: nat, expiresIn: int)

  /** The times at which one refresh reads the clock or reaches Redis. */
  datatype Clock = Clock(decoded: real, asked: real, loaded: real, written: real, issued: real)

  predicate Ticks(c: Clock) {
    c.decoded <= c.asked <= c.loaded <= c.written <= c.issued
  }

  predicate DecodesRefresh(tokens: map<nat, Token>, jti: nat, now: real) {
    Decodes(tokens, jti, now) && tokens[jti].kind.Refresh?
  }

  predicate Accepts(entries: Entries, tokens: map<nat, Token>, active: set<nat>, jti: nat, c: Clock) {
    DecodesRefresh(tokens, jti, c.decoded) && !IsRevoked(entries, jti, c.asked) && tokens[jti].sub in active
  }

  class AuthService {
    const blacklist: TokenBlacklistService
    var tokens: map<nat, Token>
    var active: set<nat>

    constructor (blacklist: TokenBlacklistService, active: set<nat>)
      ensures this.blacklist == blacklist && this.tokens == map[] && this.active == active
    {
      this.blacklist := blacklist;
      this.tokens := map[];
      this.active := active;
    }

    method GenerateTokenPair(user: nat, now: real, access: nat, refresh: nat) returns (pair: TokenPair)
      requires NewPair(tokens, access, refresh)
      modifies this`tokens
      ensures pair == TokenPair(access, refresh, 900)
      ensures tokens.Keys == old(tokens).Keys + {access, refresh}
      ensures forall jti :: jti in old(tokens) ==> tokens[jti] == old(tokens)[jti]
      ensures tokens[access] == Token(user, Access, (now + 900.0).Floor)
      ensures tokens[refresh] == Token(user, Refresh, (now + 604800.0).Floor)
      ensures tokens == WithPair(old(tokens), user, access, refresh, now)
    {
      tokens := tokens[access := NewToken(user, Access, now)];
      tokens := tokens[refresh := NewToken(user, Refresh, now)];
      pair := TokenPair(access, refresh, ACCESS_MINUTES * 60);
    }

    /** Rotation: the presented token is revoked and a new pair takes its place; a refused one changes nothing. */
    method RefreshTokens(jti: nat, c: Clock, access: nat, refresh: nat) returns (r: Result<TokenPair, Failure>)
      requires Ticks(c) && NewPair(tokens, access, refresh)
      modifies this`tokens, blacklist
      ensures r == Err(InvalidToken) <==> !(jti in old(tokens) && c.decoded < old(tokens)[jti].exp as real)
      ensures r == Err(NotARefreshToken) <==>
                jti in old(tokens) && c.decoded < old(tokens)[jti].exp as real && old(tokens)[jti].kind == Access
      ensures r == Err(RevokedToken) <==>
                && jti in old(tokens) && c.decoded < old(tokens)[jti].exp as real && old(tokens)[jti].kind == Refresh
                && jti in old(blacklist.entries) && c.asked < old(blacklist.entries)[jti]
      ensures r == Err(InactiveUser) <==>
                && jti in old(tokens) && c.decoded < old(tokens)[jti].exp as real && old(tokens)[jti].kind == Refresh
                && !(jti in old(blacklist.entries) && c.asked < old(blacklist.entries)[jti])
                && old(tokens)[jti].sub !in active
      ensures r.Ok? ==> old(tokens)[jti].sub in active
      ensures r.Ok? <==> Accepts(old(blacklist.entries), old(tokens), active, jti, c)
      ensures r.Err? ==> tokens == old(tokens) && blacklist.entries == old(blacklist.entries)
      ensures r.Ok? ==>
                && r.value == TokenPair(access, refresh, 900)
                && tokens == WithPair(old(tokens), old(tokens)[jti].sub, access, refresh, c.issued)
                && blacklist.entries == Revoke(old(blacklist.entries), jti, old(tokens)[jti].exp, c.loaded, c.written)
                && Covered(blacklist.entries, jti, old(tokens)[jti].exp, c.written)
    {
      if !Decodes(tokens, jti, c.decoded) {
        return Err(InvalidToken);
      }
      var payload := tokens[jti];
      if payload.kind != Refresh {
        return Err(NotARefreshToken);
      }
      var revoked := blacklist.IsTokenRevoked(jti, c.asked);
      if revoked {
        return Err(RevokedToken);
      }
      if payload.sub !in active {
        return Err(InactiveUser);
      }
      blacklist.RevokeToken(jti, payload.exp, c.loaded, c.written);
      var pair := GenerateTokenPair(payload.sub, c.issued, access, refresh);
      r := Ok(pair);
    }

    /** Whatever it is given, logging out answers nothing; only a live refresh token is revoked. */
    method Logout(jti: nat, now: real, at: real)
      requires now <= at
      modifies blacklist
      ensures blacklist.entries == if DecodesRefresh(tokens, jti, now) then Revoke(old(blacklist.entries), jti, tokens[jti].exp, now, at)
                                   else old(blacklist.entries)
      ensures jti in tokens && now < tokens[jti].exp as real && tokens[jti].kind == Refresh
              ==> Covered(blacklist.entries, jti, tokens[jti].exp, at)
      ensures !(jti in tokens && now < tokens[jti].exp as real && tokens[jti].kind == Refresh)
              ==> blacklist.entries == old(blacklist.entries)
    {
      if Decodes(tokens, jti, now) && tokens[jti].kind == Refresh {
        blacklist.RevokeToken(jti, tokens[jti].exp, now, at);
      }
    }
  }
}
