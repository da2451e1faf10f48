/** Revoked token identifiers in Redis, each kept until about the time at which its token expires. */
module Blacklist {
  /** The blacklisted identifiers and when Redis drops each of them. */
  type Entries = map<nat, real>

  /** `int(x)` of a float: the part after the point is dropped, towards zero. */
  function Truncate(x: real): int {
    if x >= 0.0 then x.Floor else -((-x).Floor)
  }

  /** Whole seconds that a token with expiry `exp` has left at time `now`. */
  function SecondsLeft(exp: int, now: real): int {
    Truncate(exp as real - now)
  }

  function IsRevoked(entries: Entries, jti: nat, now: real): bool {
    jti in entries && now < entries[jti]
  }

  /** `SET key value EX ttl`, reaching Redis at time `at`. */
  function SetKey(entries: Entries, jti: nat, ttl: int, at: real): Entries {
    entries[jti := at + ttl as real]
  }

  /** A revocation reads the clock at `now` and reaches Redis at `at`. */
  function Revoke(entries: Entries, jti: nat, exp: int, now: real, at: real): Entries {
    var ttl := SecondsLeft(exp, now);
    if ttl > 0 then SetKey(entries, jti, ttl, at) else entries
  }

  /** The truncated time to live loses less than one second. */
  lemma TruncationIsShort(exp: int, now: real)
    ensures SecondsLeft(exp, now) as real + now > exp as real - 1.0
    ensures SecondsLeft(exp, now) <= 0 ==> now > exp as real - 1.0
    ensures now < exp as real ==> SecondsLeft(exp, now) as real + now <= exp as real
  {
  }

  /** The token's entry will outlast all but its last second, or that second has begun. */
  predicate Covered(entries: Entries, jti: nat, exp: int, now: real) {
    (jti in entries && entries[jti] > exp as real - 1.0) || now > exp as real - 1.0
  }

  datatype Revocation = Revocation(jti: nat, now: real, at: real)

  function RevokeAll(entries: Entries, expiry: map<nat, int>, calls: seq<Revocation>): Entries
    requires forall i :: 0 <= i < |calls| ==> calls[i].jti in expiry
  {
    if calls == [] then entries
    else
      var last := calls[|calls| - 1];
      Revoke(RevokeAll(entries, expiry, calls[..|calls| - 1]), last.jti, expiry[last.jti], last.now, last.at)
  }

  /** Clocks are read before Redis is reached, and Redis is reached in the order of the calls. */
  ghost predicate InOrder(calls: seq<Revocation>) {
    forall i :: 0 <= i < |calls| ==> calls[i].now <= calls[i].at && (i > 0 ==> calls[i - 1].at <= calls[i].at)
  }

  lemma {:induction false} EarlierCallsCameEarlier(calls: seq<Revocation>, i: nat, j: nat)
    requires InOrder(calls) && i <= j < |calls|
    ensures calls[i].at <= calls[j].at
    decreases j - i
  {
    if i < j {
      EarlierCallsCameEarlier(calls, i, j - 1);
    }
  }

  /**
   After any sequence of revocations, of this token and of others, a token that was revoked at least
   once is found revoked at every later time up to one second before its expiry: neither the
   truncation of the time to live nor any overwriting shortens that.
   */
  lemma {:induction false} RevocationLasts(entries: Entries, expiry: map<nat, int>, calls: seq<Revocation>, i: nat, t: real)
    requires forall k :: 0 <= k < |calls| ==> calls[k].jti in expiry
    requires InOrder(calls) && i < |calls|
    requires calls[|calls| - 1].at <= t <= expiry[calls[i].jti] as real - 1.0
    ensures IsRevoked(RevokeAll(entries, expiry, calls), calls[i].jti, t)
    decreases |calls|
  {
    var last := |calls| - 1;
    var jti := calls[i].jti;
    TruncationIsShort(expiry[jti], calls[last].now);
    if calls[last].jti != jti {
      assert calls[last - 1].at <= calls[last].at;
      RevocationLasts(entries, expiry, calls[..last], i, t);
    }
  }

  /** A revocation never outlives its token, except by the delay on its way to Redis. */
  lemma EntriesGoAway(entries: Entries, jti: nat, exp: int, now: real, at: real, t: real)
    requires now < exp as real && now <= at
    requires !IsRevoked(entries, jti, t) && t >= exp as real + (at - now)
    ensures !IsRevoked(Revoke(entries, jti, exp, now, at), jti, t)
  {
    TruncationIsShort(exp, now);
  }

  class TokenBlacklistService {
    var entries: Entries

    constructor ()
      ensures entries == map[]
    {
      entries := map[];
    }

    method RevokeToken(jti: nat, exp: int, now: real, at: real)
      requires now <= at
      modifies this
      ensures entries == Revoke(old(entries), jti, exp, now, at)
      ensures Covered(entries, jti, exp, at)
      ensures forall other :: other != jti ==> (other in entries <==> other in old(entries))
      ensures forall other :: other != jti && other in entries ==> entries[other] == old(entries)[other]
    {
      var ttl := SecondsLeft(exp, now);
      TruncationIsShort(exp, now);
      if ttl > 0 {
        entries := SetKey(entries, jti, ttl, at);
      }
    }

    method IsTokenRevoked(jti: nat, now: real) returns (r: bool)
      ensures r <==> jti in entries && now < entries[jti]
    {
      r := IsRevoked(entries, jti, now);
    }
  }
}
