/** The student's token request form of
    components/token-request/token-request-page.tsx: the checks `handleSubmit`
    makes before it calls the store, the form reset and list refresh after it,
    and the rule that disables the submit button. */
module TokenRequestForm {
  import opened Domain
  import opened Seqs
  import opened Text
  import opened StoreSpec
  import opened Store

  /** The most tokens one request may ask for. */
  const MaxTokensPerRequest := 5

  /** How `handleSubmit` ends; every refusal is a toast and nothing else, and
      `SubmitFailed` is the error toast of a store call that threw. (The
      success toast is never reached, see `HandleSubmit`.) */
  datatype SubmitOutcome = NotLoggedIn | InvalidAmount | ReasonRequired | SubmitFailed

  /** The amounts the form accepts: 1 to 5. */
  predicate ValidAmount(tokens: int) {
    !(tokens <= 0 || tokens > MaxTokensPerRequest)
  }

  /** `hasPendingRequest`: some request in the list still awaits a decision. */
  predicate HasPendingRequest(requests: seq<TokenRequest>) {
    exists i :: 0 <= i < |requests| && requests[i].status == RequestPending
  }

  /** The submit button is enabled only while no request is pending. */
  predicate SubmitEnabled(requests: seq<TokenRequest>) {
    !HasPendingRequest(requests)
  }

  /** Once a request has been stored, the refreshed list of its author holds a
      pending request, so the button is disabled until staff decide it. */
  lemma SubmittedRequestDisablesButton(requests: seq<TokenRequest>, r: TokenRequest)
    requires r.status == RequestPending
    ensures HasPendingRequest(RequestsOf(requests + [r], r.userId))
    ensures !SubmitEnabled(RequestsOf(requests + [r], r.userId))
  {
    var shown := RequestsOf(requests + [r], r.userId);
    RequestsOfMembership(requests + [r], r.userId, r);
    var i :| 0 <= i < |shown| && shown[i] == r;
    assert shown[i].status == RequestPending;
  }

  /** A list without pending requests, such as a fresh one, keeps the button
      enabled; a pending request anywhere in it disables the button. */
  lemma SubmitEnabledIff(requests: seq<TokenRequest>)
    ensures SubmitEnabled(requests) <==> forall r :: r in requests ==> r.status != RequestPending
  {
    if !SubmitEnabled(requests) {
      var i :| 0 <= i < |requests| && requests[i].status == RequestPending;
      assert requests[i] in requests;
    }
  }

  /** The store calls of a submission that passed the checks:
      `createTokenRequest(uid, email, reason, tokens, userName)`, then, only
      if it resolved, `getUserTokenRequests(uid)`, whose list then disables
      the button. A rejected call reads nothing (`refreshed` is empty). */
  method SubmitRequest(u: SessionUser, reason: string, tokens: int, userName: Option<string>, market: Market)
    returns (out: Outcome, requestId: nat, refreshed: seq<TokenRequest>)
    requires market.Valid()
    modifies market
    ensures market.Valid()
    ensures CreateTokenRequestEffect(old(market.State()), market.State(), u.uid, u.email, reason, tokens, userName,
                                     out, requestId)
    ensures out == Ok ==> refreshed == RequestsOf(market.requests, u.uid) && !SubmitEnabled(refreshed)
    ensures out.Err? ==> refreshed == []
  {
    out, requestId := market.CreateTokenRequest(u.uid, u.email, reason, tokens, userName);
    if out.Err? {
      return out, requestId, [];
    }
    SubmittedRequestDisablesButton(old(market.requests), market.requests[requestId]);
    refreshed := RequestsOf(market.requests, u.uid);
  }

  class TokenRequestPage {
    /** The amount field; 1 when the form is fresh. */
    var tokensRequested: int
    /** The reason field; empty when the form is fresh. */
    var reason: string
    /** The user's requests as last read from the store, newest first. */
    var requests: seq<TokenRequest>

    constructor (loaded: seq<TokenRequest>)
      ensures tokensRequested == 1 && reason == "" && requests == loaded
    {
      tokensRequested, reason, requests := 1, "", loaded;
    }

    /** The two form fields. */
    method EditForm(tokens: int, text: string)
      modifies this
      ensures tokensRequested == tokens && reason == text && requests == old(requests)
    {
      tokensRequested, reason := tokens, text;
    }

    /** `handleSubmit`. It refuses, in this order, when nobody is signed in,
        when the amount is not 1 to 5 and when the reason is only white space;
        a refusal changes nothing. Otherwise it calls `createTokenRequest`
        with four arguments, so `userName` is `undefined` and the store
        refuses the request: nothing is written, the form keeps its values
        and the error toast is shown. The reset and reload that would follow
        a stored request are never reached. */
    method HandleSubmit(user: Option<SessionUser>, market: Market) returns (out: SubmitOutcome)
      requires market.Valid()
      modifies this, market
      ensures market.Valid()
      ensures out == NotLoggedIn <==> user.None?
      ensures out == InvalidAmount <==> user.Some? && !ValidAmount(old(tokensRequested))
      ensures out == ReasonRequired <==> user.Some? && ValidAmount(old(tokensRequested)) && IsBlank(old(reason))
      ensures out == SubmitFailed <==> user.Some? && ValidAmount(old(tokensRequested)) && !IsBlank(old(reason))
      ensures market.State() == old(market.State())
      ensures tokensRequested == old(tokensRequested) && reason == old(reason) && requests == old(requests)
    {
      if user.None? {
        return NotLoggedIn;
      }
      if tokensRequested <= 0 || tokensRequested > MaxTokensPerRequest {
        return InvalidAmount;
      }
      if IsBlank(reason) {
        return ReasonRequired;
      }
      var created, _, _ := SubmitRequest(user.value, reason, tokensRequested, None, market);
      assert created == Err(UndefinedField);
      out := SubmitFailed;
    }
  }
}
