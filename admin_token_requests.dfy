/** The staff token request page of components/admin/token-requests-page.tsx:
    the status and search filters of the table, the Approve and Reject
    buttons, and the decision, which calls the store and then updates the
    page's own copy of the requests. */
module AdminTokenRequests {
  import opened Domain
  import opened Seqs
  import opened Text
  import opened Store

  /** The status select: "all" or one status. */
  datatype StatusView = AllRequests | OnlyRequestStatus(status: RequestStatus)

  predicate StatusMatches(r: TokenRequest, view: StatusView) {
    view.AllRequests? || r.status == view.status
  }

  /** The search predicate: the lower-cased query in the lower-cased email or
      reason. */
  predicate SearchMatches(r: TokenRequest, query: string) {
    Includes(Lower(r.userEmail), Lower(query)) || Includes(Lower(r.reason), Lower(query))
  }

  function StatusFilter(view: StatusView): TokenRequest -> bool {
    (r: TokenRequest) => StatusMatches(r, view)
  }

  function SearchFilter(query: string): TokenRequest -> bool {
    (r: TokenRequest) => SearchMatches(r, query)
  }

  /** `filteredRequests`: the status filter unless "all", then the search
      filter unless the query is empty. */
  function Visible(requests: seq<TokenRequest>, view: StatusView, query: string): seq<TokenRequest> {
    var byStatus := if view.AllRequests? then requests else Filter(StatusFilter(view), requests);
    if query == "" then byStatus else Filter(SearchFilter(query), byStatus)
  }

  /** A request is shown iff it is in the list, has the chosen status and
      matches the search; skipping a filter is the same as passing it. */
  lemma VisibleMembership(requests: seq<TokenRequest>, view: StatusView, query: string, r: TokenRequest)
    ensures r in Visible(requests, view, query) <==>
      r in requests && StatusMatches(r, view) && SearchMatches(r, query)
  {
    var byStatus := if view.AllRequests? then requests else Filter(StatusFilter(view), requests);
    if !view.AllRequests? {
      FilterMembership(StatusFilter(view), requests, r);
    }
    if query == "" {
      IncludesEmpty(Lower(r.userEmail));
      assert Lower(query) == "";
    } else {
      FilterMembership(SearchFilter(query), byStatus, r);
    }
  }

  /** With "all" and no query the table lists every request, in order. */
  lemma UnfilteredShowsAll(requests: seq<TokenRequest>)
    ensures Visible(requests, AllRequests, "") == requests
  {
  }

  /** Filtering twice by the same view and query changes nothing more. */
  lemma VisibleIdempotent(requests: seq<TokenRequest>, view: StatusView, query: string)
    ensures Visible(Visible(requests, view, query), view, query) == Visible(requests, view, query)
  {
    var shown := Visible(requests, view, query);
    forall i | 0 <= i < |shown| ensures StatusMatches(shown[i], view) && SearchMatches(shown[i], query) {
      assert shown[i] in shown;
      VisibleMembership(requests, view, query, shown[i]);
    }
    if !view.AllRequests? {
      FilterKeepsAll(StatusFilter(view), shown);
    }
    var byStatus := if view.AllRequests? then shown else Filter(StatusFilter(view), shown);
    if query != "" {
      FilterKeepsAll(SearchFilter(query), byStatus);
    }
  }

  /** The Approve and Reject buttons appear only on a pending request. */
  predicate CanDecide(r: TokenRequest) {
    r.status == RequestPending
  }

  /** `prev.map(request => request.id === requestId ? { ...request, status } : request)`. */
  function WithDecision(requests: seq<TokenRequest>, id: nat, d: Decision): (r: seq<TokenRequest>)
    ensures |r| == |requests|
    ensures forall i :: 0 <= i < |requests| ==>
      r[i] == if requests[i].id == id then requests[i].(status := d.Status()) else requests[i]
  {
    seq(|requests|, i requires 0 <= i < |requests| =>
      if requests[i].id == id then requests[i].(status := d.Status()) else requests[i])
  }

  /** After a decision the buttons of that request are gone, so the page
      cannot decide the same request twice, and every other row keeps its
      buttons. */
  lemma DecisionHidesButtons(requests: seq<TokenRequest>, id: nat, d: Decision)
    ensures forall i :: 0 <= i < |requests| && requests[i].id == id ==> !CanDecide(WithDecision(requests, id, d)[i])
    ensures forall i :: 0 <= i < |requests| && requests[i].id != id ==>
      CanDecide(WithDecision(requests, id, d)[i]) == CanDecide(requests[i])
  {
    forall i | 0 <= i < |requests| && requests[i].id == id
      ensures !CanDecide(WithDecision(requests, id, d)[i])
    {
      assert WithDecision(requests, id, d)[i].status == d.Status();
    }
  }

  class TokenRequestsPage {
    /** The page's copy of every request. */
    var requests: seq<TokenRequest>
    var view: StatusView
    var query: string

    constructor (loaded: seq<TokenRequest>)
      ensures requests == loaded && view == AllRequests && query == ""
    {
      requests, view, query := loaded, AllRequests, "";
    }

    /** The status select and the search box. */
    method SetFilters(v: StatusView, q: string)
      modifies this
      ensures view == v && query == q && requests == old(requests)
    {
      view, query := v, q;
    }

    /** `handleUpdateRequest(requestId, status)`: the store update, then, only
        if it succeeded, the same status on the local copy. */
    method HandleUpdateRequest(requestId: nat, decision: Decision, market: Market) returns (out: Outcome)
      requires market.Valid()
      modifies this, market
      ensures market.Valid()
      ensures UpdateTokenRequestEffect(old(market.State()), market.State(), requestId, decision, out)
      ensures out == Ok ==> requests == WithDecision(old(requests), requestId, decision)
      ensures out != Ok ==> requests == old(requests)
      ensures view == old(view) && query == old(query)
    {
      out := market.UpdateTokenRequest(requestId, decision);
      if out == Ok {
        requests := WithDecision(requests, requestId, decision);
      }
    }
  }
}
