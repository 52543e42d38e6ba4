/**
 * The signed session cookie (lib/auth.ts). A token is `userId.timestamp.signature`, the
 * signature being the server's HMAC of `userId.timestamp` in hex. The HMAC itself is not
 * modelled: the cookie jar holds it as an arbitrary function whose results, being hex
 * digests, contain no '.'.
 */
module Auth {
  import opened Wrappers
  import opened Text

  /** A hex digest: never contains a '.'. */
  type Digest = s: string | '.' !in s

  /**
   * The cookie value `setSession(userId)` writes at time `now` (milliseconds): it starts
   * with the user id and holds exactly two dots more than the user id does.
   */
  function SessionToken(hmac: string -> Digest, userId: string, now: nat): (token: string)
    ensures |userId| < |token| && token[..|userId|] == userId
    ensures Count(token, '.') == Count(userId, '.') + 2
  {
    var ts := DecimalString(now);
    var payload := userId + "." + ts;
    var sig := hmac(payload);
    assert '.' !in ts;
    CountZero(ts, '.');
    CountZero(sig, '.');
    CountOne('.');
    CountAppend(userId, ['.'], '.');
    CountAppend(userId + ['.'], ts, '.');
    CountAppend(payload, ['.'], '.');
    CountAppend(payload + ['.'], sig, '.');
    assert (payload + "." + sig)[..|userId|] == userId;
    payload + "." + sig
  }

  /**
   * The check in `getSessionUserId`: no identity for an absent or empty cookie, for a token
   * that does not split into exactly three parts on '.', or for one whose third part is not
   * the HMAC of the first two; otherwise the first part. The timestamp is never examined.
   */
  function VerifySessionToken(hmac: string -> Digest, cookie: Option<string>): (userId: Option<string>)
    ensures userId.Some? ==> cookie.Some? && cookie.value != "" && '.' !in userId.value
    ensures userId.Some? ==> Count(cookie.value, '.') == 2
  {
    if cookie.None? || cookie.value == "" then None
    else
      var parts := Split(cookie.value, '.');
      if |parts| != 3 then None
      else if hmac(parts[0] + "." + parts[1]) != parts[2] then None
      else Some(parts[0])
  }

  /**
   * For a token made of three dot-free parts, the answer depends on the signature alone:
   * the user id when it is the HMAC of `userId.ts`, nothing otherwise, whatever `ts` says.
   */
  lemma {:induction false} VerifyThreeParts(hmac: string -> Digest, userId: string, ts: string, sig: string)
    requires '.' !in userId && '.' !in ts && '.' !in sig
    ensures VerifySessionToken(hmac, Some(userId + "." + ts + "." + sig))
         == if hmac(userId + "." + ts) == sig then Some(userId) else None
  {
    var token := userId + "." + ts + "." + sig;
    assert token == userId + ['.'] + (ts + ['.'] + sig);
    SplitJoin(userId, ts + ['.'] + sig, '.');
    SplitJoin(ts, sig, '.');
    SplitWhole(sig, '.');
    assert Split(token, '.') == [userId, ts, sig];
  }

  /** Round trip: the token written for a dot-free user id yields that user id. */
  lemma RoundTrip(hmac: string -> Digest, userId: string, now: nat)
    requires '.' !in userId
    ensures VerifySessionToken(hmac, Some(SessionToken(hmac, userId, now))) == Some(userId)
  {
    var ts := DecimalString(now);
    assert '.' !in ts;
    VerifyThreeParts(hmac, userId, ts, hmac(userId + "." + ts));
  }

  /** A user id containing '.' splits into more than three parts, so its token never validates. */
  lemma {:induction false} DottedUserIdNeverValidates(hmac: string -> Digest, userId: string, now: nat)
    requires '.' in userId
    ensures VerifySessionToken(hmac, Some(SessionToken(hmac, userId, now))) == None
  {
    CountZero(userId, '.');
  }

  /** Timestamps are never checked: a correctly signed token is accepted with any timestamp. */
  lemma AnyTimestampAccepted(hmac: string -> Digest, userId: string, ts: string)
    requires '.' !in userId && '.' !in ts
    ensures VerifySessionToken(hmac, Some(userId + "." + ts + "." + hmac(userId + "." + ts))) == Some(userId)
  {
    VerifyThreeParts(hmac, userId, ts, hmac(userId + "." + ts));
  }

  /** The cookie jar holding `ipp_session`, and the server's HMAC. */
  class SessionCookie {
    const hmac: string -> Digest
    var cookie: Option<string>

    constructor(hmac: string -> Digest)
      ensures this.hmac == hmac && cookie == None
    {
      this.hmac := hmac;
      cookie := None;
    }

    /**
     * `getSessionUserId`: no user for an absent or emptied cookie; a user id read from
     * the cookie never contains a '.'.
     */
    function GetSessionUserId(): (userId: Option<string>)
      reads this
      ensures cookie.None? || cookie == Some("") ==> userId.None?
      ensures userId.Some? ==> cookie.Some? && '.' !in userId.value
    {
      VerifySessionToken(hmac, cookie)
    }

    /** `setSession`: replaces the cookie with a fresh token for `userId`. */
    method SetSession(userId: string, now: nat)
      modifies this
      ensures cookie == Some(SessionToken(hmac, userId, now))
      ensures '.' !in userId ==> GetSessionUserId() == Some(userId)
      ensures '.' in userId ==> GetSessionUserId() == None
    {
      var payload := userId + "." + DecimalString(now);
      var sig := hmac(payload);
      cookie := Some(payload + "." + sig);
      if '.' !in userId {
        RoundTrip(hmac, userId, now);
      } else {
        DottedUserIdNeverValidates(hmac, userId, now);
      }
    }

    /** `clearSession`: overwrites the cookie with "" (and a zero max-age). */
    method ClearSession()
      modifies this
      ensures cookie == Some("")
      ensures GetSessionUserId() == None
    {
      cookie := Some("");
    }
  }
}
