/** `TokenManager`: holds a bearer token and its expiry and renews both
    through a refresh callback. Time is a number of seconds since
    `DateTime.MinValue`, passed in as `now`; the callback is an oracle whose
    answer for the call at hand is passed in as `reply`. */
module Tokens {
  import opened Values

  /** `DateTime.MinValue`, the expiry of a manager that never refreshed. */
  const MinValue: nat := 0

  /** The one-minute margin of `GetTokenAndRefreshIfNeededAsync`. */
  const RefreshMargin: nat := 60

  /** What the refresh callback does when called: it returns a token with
      its expiry, or it throws. */
  datatype RefreshReply = Issued(token: string, expiresAt: nat) | Thrown

  /** The gate of `GetTokenAndRefreshIfNeededAsync`: an expiry of `MinValue`
      counts as expired; any other expiry has the margin subtracted first,
      which throws when the result would fall before `MinValue`. */
  function RefreshGate(expiresAt: nat, now: nat): (r: Outcome<bool>)
    ensures r.Fail? <==> MinValue < expiresAt < RefreshMargin
    ensures r.Fail? ==> r.error == ArgumentOutOfRange
    ensures r == Ok(true) <==> expiresAt == MinValue || (RefreshMargin <= expiresAt && expiresAt <= now + RefreshMargin)
  {
    if expiresAt == MinValue then Ok(true)
    else if expiresAt < RefreshMargin then Fail(ArgumentOutOfRange)
    else Ok(now >= expiresAt - RefreshMargin)
  }

  /** The token and expiry a manager holds. */
  datatype Held = Held(token: string, expiresAt: nat)

  /** The refresh callback is called exactly when the gate opens and the
      re-check inside the refresh finds the token expired. */
  predicate CallsBack(expiresAt: nat, now: nat)
  {
    RefreshGate(expiresAt, now) == Ok(true) && !(now < expiresAt)
  }

  /** The margin never causes an early refresh: the callback is called
      exactly when the token has expired (and the gate does not throw). */
  lemma {:induction false} RefreshOnlyWhenExpired(expiresAt: nat, now: nat)
    ensures CallsBack(expiresAt, now) <==> RefreshGate(expiresAt, now).Ok? && now >= expiresAt
  {
    if now >= expiresAt && expiresAt != MinValue && RefreshGate(expiresAt, now).Ok? {
      assert RefreshMargin <= expiresAt <= now + RefreshMargin;
    }
  }

  /** What a read of the token through `GetTokenAndRefreshIfNeededAsync`
      leaves held, or the exception it ends with. */
  function TokenRead(held: Held, now: nat, reply: RefreshReply): (r: Outcome<Held>)
    ensures r.Fail? <==> RefreshGate(held.expiresAt, now).Fail? || (CallsBack(held.expiresAt, now) && reply.Thrown?)
    ensures r.Fail? ==> r.error == ArgumentOutOfRange || r.error == Upstream
    ensures r.Ok? && !CallsBack(held.expiresAt, now) ==> r.value == held
    ensures r.Ok? && CallsBack(held.expiresAt, now) ==> r.value == Held(reply.token, reply.expiresAt)
  {
    var gate := RefreshGate(held.expiresAt, now);
    if gate.Fail? then Fail(gate.error)
    else if !gate.value || now < held.expiresAt then Ok(held)
    else match reply
      case Thrown => Fail(Upstream)
      case Issued(token, expiry) => Ok(Held(token, expiry))
  }

  /** A successful read either keeps a token that has not expired or
      returns the one the callback has just issued. */
  lemma {:induction false} TokenReadKeepsOrRenews(held: Held, now: nat, reply: RefreshReply)
    requires TokenRead(held, now, reply).Ok?
    ensures now < held.expiresAt ==> TokenRead(held, now, reply).value == held
    ensures now >= held.expiresAt ==> reply.Issued? && TokenRead(held, now, reply).value == Held(reply.token, reply.expiresAt)
  {
    RefreshOnlyWhenExpired(held.expiresAt, now);
  }

  class TokenManager {
    var accessToken: string
    var expiresAt: nat
    var disposed: bool
    /** Calls made to the refresh callback. */
    ghost var callbackCalls: nat
    /** Successful refreshes, the count the metrics collector is told of. */
    ghost var refreshes: nat

    /** A manager with an empty token that expired at `MinValue`. */
    constructor ()
      ensures accessToken == "" && expiresAt == MinValue && !disposed
      ensures callbackCalls == 0 && refreshes == 0
    {
      accessToken, expiresAt := "", MinValue;
      disposed := false;
      callbackCalls, refreshes := 0, 0;
    }

    /** `RefreshTokenAsync`: does nothing while the token has not expired;
        otherwise calls the callback once and stores both parts of its answer,
        or rethrows with token and expiry untouched. */
    method RefreshToken(now: nat, reply: RefreshReply) returns (r: Outcome<()>)
      modifies this
      ensures disposed == old(disposed)
      ensures now < old(expiresAt) ==>
        && r.Ok? && accessToken == old(accessToken) && expiresAt == old(expiresAt)
        && callbackCalls == old(callbackCalls) && refreshes == old(refreshes)
      ensures now >= old(expiresAt) ==> callbackCalls == old(callbackCalls) + 1
      ensures now >= old(expiresAt) && reply.Issued? ==>
        && r.Ok? && accessToken == reply.token && expiresAt == reply.expiresAt
        && refreshes == old(refreshes) + 1
      ensures now >= old(expiresAt) && reply.Thrown? ==>
        && r == Fail(Upstream) && accessToken == old(accessToken) && expiresAt == old(expiresAt)
        && refreshes == old(refreshes)
    {
      if now < expiresAt {
        return Ok(());
      }
      callbackCalls := callbackCalls + 1;
      match reply {
        case Thrown =>
          r := Fail(Upstream);
        case Issued(token, expiry) =>
          accessToken, expiresAt := token, expiry;
          refreshes := refreshes + 1;
          r := Ok(());
      }
    }

    /** `GetTokenAndRefreshIfNeededAsync`: refreshes when the gate opens and
        returns the token held afterwards; an exception leaves both fields as
        they were. */
    method GetTokenAndRefreshIfNeeded(now: nat, reply: RefreshReply) returns (r: Outcome<string>)
      modifies this
      ensures disposed == old(disposed)
      ensures var after := TokenRead(Held(old(accessToken), old(expiresAt)), now, reply);
        && (r.Ok? <==> after.Ok?)
        && (after.Ok? ==> r.value == after.value.token && Held(accessToken, expiresAt) == after.value)
        && (after.Fail? ==> r.error == after.error && accessToken == old(accessToken) && expiresAt == old(expiresAt))
      ensures callbackCalls == old(callbackCalls) + (if CallsBack(old(expiresAt), now) then 1 else 0)
      ensures refreshes == old(refreshes) + (if CallsBack(old(expiresAt), now) && reply.Issued? then 1 else 0)
    {
      var gate := RefreshGate(expiresAt, now);
      if gate.Fail? {
        return Fail(gate.error);
      }
      if gate.value {
        var refreshed := RefreshToken(now, reply);
        if refreshed.Fail? {
          return Fail(refreshed.error);
        }
      }
      r := Ok(accessToken);
    }

    /** `GetTokenAsync`: the same conservative refresh. */
    method GetToken(now: nat, reply: RefreshReply) returns (r: Outcome<string>)
      modifies this
      ensures disposed == old(disposed)
      ensures var after := TokenRead(Held(old(accessToken), old(expiresAt)), now, reply);
        && (r.Ok? <==> after.Ok?)
        && (after.Ok? ==> r.value == after.value.token && Held(accessToken, expiresAt) == after.value)
        && (after.Fail? ==> r.error == after.error && accessToken == old(accessToken) && expiresAt == old(expiresAt))
      ensures callbackCalls == old(callbackCalls) + (if CallsBack(old(expiresAt), now) then 1 else 0)
      ensures refreshes == old(refreshes) + (if CallsBack(old(expiresAt), now) && reply.Issued? then 1 else 0)
    {
      r := GetTokenAndRefreshIfNeeded(now, reply);
    }

    /** `ForceRefreshAsync`: the refresh without the gate, so it, too, does
        nothing while the token has not expired. */
    method ForceRefresh(now: nat, reply: RefreshReply) returns (r: Outcome<()>)
      modifies this
      ensures disposed == old(disposed)
      ensures now < old(expiresAt) ==>
        r.Ok? && accessToken == old(accessToken) && expiresAt == old(expiresAt) && callbackCalls == old(callbackCalls)
      ensures now >= old(expiresAt) ==> callbackCalls == old(callbackCalls) + 1
      ensures refreshes == old(refreshes) + (if now >= old(expiresAt) && reply.Issued? then 1 else 0)
      ensures now >= old(expiresAt) && reply.Issued? ==>
        r.Ok? && accessToken == reply.token && expiresAt == reply.expiresAt
      ensures now >= old(expiresAt) && reply.Thrown? ==>
        r == Fail(Upstream) && accessToken == old(accessToken) && expiresAt == old(expiresAt)
    {
      r := RefreshToken(now, reply);
    }

    method Dispose()
      modifies this
      ensures disposed
      ensures accessToken == old(accessToken) && expiresAt == old(expiresAt)
      ensures callbackCalls == old(callbackCalls) && refreshes == old(refreshes)
    {
      if !disposed {
        disposed := true;
      }
    }
  }
}
