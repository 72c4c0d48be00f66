/**
 * The rented-listings page slice
 * (src/containers/ManageRentedListingsPage/ManageRentedListingsPage.duck.js):
 * its state and the three reducer cases of the query thunk, the transaction
 * selector's guards, the query parameters and the page request of
 * `loadData`.  The SDK call and the thunk machinery are not modelled; the
 * entity denormaliser is a parameter.
 */
module RentedListingsDuck {
  import opened Wrappers
  import opened JsValues

  /** `RESULT_PAGE_SIZE` */
  const ResultPageSize: nat := 42

  /** A transaction as the query returns it; only the id is read. */
  datatype Transaction = Transaction(id: string)

  /** `action.payload` of a fulfilled query: `data.data` and `data.meta`. */
  datatype QueryResponse = QueryResponse(transactions: seq<Transaction>, meta: JsValue)

  /** `resultIds`: the transaction ids, in order. */
  function ResultIds(response: QueryResponse): (r: seq<string>)
    ensures |r| == |response.transactions|
    ensures forall i :: 0 <= i < |r| ==> r[i] == response.transactions[i].id
  {
    seq(|response.transactions|, i requires 0 <= i < |response.transactions| => response.transactions[i].id)
  }

  /** The slice's state; `null` is `Null`. */
  class RentedListingsPage {
    var pagination: JsValue
    var queryParams: JsValue
    var queryInProgress: bool
    var queryTransactionsError: JsValue
    var currentPageResultIds: seq<string>

    /** While a query runs, no result or error from an earlier one is shown. */
    predicate Valid()
      reads this
    {
      queryInProgress ==> currentPageResultIds == [] && queryTransactionsError == Null
    }

    /** `initialState` */
    constructor()
      ensures pagination == Null && queryParams == Null && !queryInProgress
      ensures queryTransactionsError == Null && currentPageResultIds == []
      ensures Valid()
    {
      pagination := Null;
      queryParams := Null;
      queryInProgress := false;
      queryTransactionsError := Null;
      currentPageResultIds := [];
    }

    /** The `pending` case: remembers the query and clears the previous results and error. */
    method Pending(arg: JsValue)
      modifies this
      ensures queryParams == arg && queryInProgress
      ensures queryTransactionsError == Null && currentPageResultIds == []
      ensures pagination == old(pagination)
      ensures Valid()
    {
      queryParams := arg;
      queryInProgress := true;
      queryTransactionsError := Null;
      currentPageResultIds := [];
    }

    /** The `fulfilled` case: the page's ids and pagination; the error is left as it was. */
    method Fulfilled(payload: QueryResponse)
      requires Valid()
      modifies this
      ensures currentPageResultIds == ResultIds(payload) && pagination == payload.meta && !queryInProgress
      ensures queryParams == old(queryParams) && queryTransactionsError == old(queryTransactionsError)
      ensures Valid()
    {
      currentPageResultIds := ResultIds(payload);
      pagination := payload.meta;
      queryInProgress := false;
    }

    /** The `rejected` case: the error; ids and pagination are left as they were. */
    method Rejected(payload: JsValue)
      requires Valid()
      modifies this
      ensures !queryInProgress && queryTransactionsError == payload
      ensures currentPageResultIds == old(currentPageResultIds) && pagination == old(pagination)
      ensures queryParams == old(queryParams)
      ensures Valid()
    {
      queryInProgress := false;
      queryTransactionsError := payload;
    }
  }

  /** A query that succeeds after starting leaves exactly its own results and no error. */
  method QueryThenSucceed(page: RentedListingsPage, arg: JsValue, payload: QueryResponse)
    modifies page
    ensures page.queryParams == arg && !page.queryInProgress
    ensures page.currentPageResultIds == ResultIds(payload) && page.pagination == payload.meta
    ensures page.queryTransactionsError == Null
    ensures page.Valid()
  {
    page.Pending(arg);
    page.Fulfilled(payload);
  }

  /** A query that fails after starting shows no ids, keeps the pagination and reports the error. */
  method QueryThenFail(page: RentedListingsPage, arg: JsValue, error: JsValue)
    modifies page
    ensures page.queryParams == arg && !page.queryInProgress
    ensures page.currentPageResultIds == [] && page.pagination == old(page.pagination)
    ensures page.queryTransactionsError == error
    ensures page.Valid()
  {
    page.Pending(arg);
    page.Rejected(error);
  }

  // ---------------------------------------------------------------------------
  // Selector
  // ---------------------------------------------------------------------------

  /** A `{ id, type: 'transaction' }` reference for the denormaliser. */
  datatype Resource = Resource(id: string, resourceType: string)

  function TransactionResources(ids: seq<string>): (r: seq<Resource>)
    ensures |r| == |ids|
    ensures forall i :: 0 <= i < |r| ==> r[i] == Resource(ids[i], "transaction")
  {
    seq(|ids|, i requires 0 <= i < |ids| => Resource(ids[i], "transaction"))
  }

  /**
   * `getTransactionsById`: nothing without ids or without stored entities;
   * otherwise what the denormaliser returns for the ids, or nothing when it
   * returns nothing.  `marketplaceData` is `state.marketplaceData`.
   */
  function TransactionsById(marketplaceData: JsValue, transactionIds: Option<seq<string>>,
                            denormalise: (JsValue, seq<Resource>) -> Option<seq<JsValue>>): (r: seq<JsValue>)
    ensures transactionIds.None? || transactionIds.value == [] ==> r == []
    ensures !Truthy(marketplaceData) || !Truthy(Get(marketplaceData, "entities")) ==> r == []
    ensures transactionIds.Some? && transactionIds.value != [] && Truthy(marketplaceData) && Truthy(Get(marketplaceData, "entities")) ==>
              r == denormalise(Get(marketplaceData, "entities"), TransactionResources(transactionIds.value)).GetOr([])
  {
    if transactionIds.None? || |transactionIds.value| == 0 then []
    else if !Truthy(marketplaceData) || !Truthy(Get(marketplaceData, "entities")) then []
    else
      var result := denormalise(Get(marketplaceData, "entities"), TransactionResources(transactionIds.value));
      if result.Some? then result.value else []
  }

  // ---------------------------------------------------------------------------
  // Query parameters
  // ---------------------------------------------------------------------------

  function Strs(items: seq<string>): (r: seq<JsValue>)
    ensures |r| == |items| && forall i :: 0 <= i < |r| ==> r[i] == Str(items[i])
  {
    seq(|items|, i requires 0 <= i < |items| => Str(items[i]))
  }

  /** The fixed part of the query: the customer's transactions with their listing and provider. */
  function FixedQueryParams(processNames: seq<string>): (r: seq<(string, JsValue)>)
    ensures Keys(r) == ["only", "processNames", "include", "fields.transaction", "fields.listing", "fields.user", "fields.image"]
  {
    [ ("only", Str("order")),
      ("processNames", Array(Strs(processNames))),
      ("include", Array(Strs(["listing", "listing.images", "provider", "provider.profileImage"]))),
      ("fields.transaction", Array(Strs(["processName", "lastTransition", "lastTransitionedAt", "lineItems"]))),
      ("fields.listing", Array(Strs(["title", "description", "price", "publicData", "deleted"]))),
      ("fields.user", Array(Strs(["profile.displayName", "profile.abbreviatedName"]))),
      ("fields.image", Array(Strs(["variants.listing-card", "variants.listing-card-2x"]))) ]
  }

  /**
   * The params of the transactions query: the caller's, with the fixed ones
   * written over them.  `processNames` are the names of the supported
   * processes.
   */
  function QueryParams(callerParams: seq<(string, JsValue)>, processNames: seq<string>): (r: seq<(string, JsValue)>)
    ensures forall k :: Lookup(r, k) == if k in Keys(FixedQueryParams(processNames)) then Lookup(FixedQueryParams(processNames), k)
                                       else Lookup(callerParams, k)
  {
    Spread(callerParams, FixedQueryParams(processNames))
  }

  /** Only the customer's own orders are queried, whatever the caller asks for. */
  lemma QueryIsAlwaysForOrders(callerParams: seq<(string, JsValue)>, processNames: seq<string>)
    ensures Lookup(QueryParams(callerParams, processNames), "only") == Str("order")
    ensures Lookup(QueryParams(callerParams, processNames), "processNames") == Array(Strs(processNames))
  {
    var fixed := FixedQueryParams(processNames);
    var r := QueryParams(callerParams, processNames);
    assert Keys(fixed)[0] == "only";
    assert Lookup(r, "only") == Lookup(fixed, "only");
    assert Keys(fixed)[1] == "processNames";
    assert Lookup(r, "processNames") == Lookup(fixed, "processNames");
    assert Lookup(fixed[1..], "processNames") == Array(Strs(processNames));
  }

  /** The caller's page request passes through untouched. */
  lemma QueryKeepsThePageRequest(callerParams: seq<(string, JsValue)>, processNames: seq<string>)
    ensures Lookup(QueryParams(callerParams, processNames), "page") == Lookup(callerParams, "page")
    ensures Lookup(QueryParams(callerParams, processNames), "perPage") == Lookup(callerParams, "perPage")
  {
    PageKeysAreNotFixed(processNames);
    CallerKeyPassesThrough(callerParams, processNames, "page");
    CallerKeyPassesThrough(callerParams, processNames, "perPage");
  }

  /** A key that is not fixed reads the caller's value. */
  lemma CallerKeyPassesThrough(callerParams: seq<(string, JsValue)>, processNames: seq<string>, key: string)
    requires key !in Keys(FixedQueryParams(processNames))
    ensures Lookup(QueryParams(callerParams, processNames), key) == Lookup(callerParams, key)
  {
  }

  /** No fixed key starts with `pa` or `pe`, so neither page key is among them. */
  lemma PageKeysAreNotFixed(processNames: seq<string>)
    ensures "page" !in Keys(FixedQueryParams(processNames))
    ensures "perPage" !in Keys(FixedQueryParams(processNames))
  {
    var keys := Keys(FixedQueryParams(processNames));
    forall i | 0 <= i < |keys| ensures keys[i][0] != 'p' || keys[i][1] == 'r' {
      assert i == 0 || i == 1 || i == 2 || i == 3 || i == 4 || i == 5 || i == 6;
    }
    assert "page"[1] == 'a' && "perPage"[1] == 'e';
  }

  // ---------------------------------------------------------------------------
  // Load data
  // ---------------------------------------------------------------------------

  /**
   * The query argument of `loadData`: the `page` parsed from the search
   * string, 1 when it is falsy, and the page size.
   */
  function LoadDataArg(searchPage: JsValue): (r: seq<(string, JsValue)>)
    ensures Keys(r) == ["page", "perPage"]
    ensures Lookup(r, "page") == (if Truthy(searchPage) then searchPage else Number(1.0))
    ensures Lookup(r, "perPage") == Number(ResultPageSize as real)
  {
    var r := [("page", if Truthy(searchPage) then searchPage else Number(1.0)), ("perPage", Number(ResultPageSize as real))];
    assert Lookup(r[1..], "perPage") == Number(ResultPageSize as real);
    r
  }

  /** `loadData` starts the query with its page request, which the query keeps. */
  method LoadData(page: RentedListingsPage, searchPage: JsValue, processNames: seq<string>) returns (sent: seq<(string, JsValue)>)
    modifies page
    ensures page.queryParams == Object(LoadDataArg(searchPage)) && page.queryInProgress && page.Valid()
    ensures Lookup(sent, "page") == (if Truthy(searchPage) then searchPage else Number(1.0))
    ensures Lookup(sent, "perPage") == Number(42.0)
    ensures Lookup(sent, "only") == Str("order")
  {
    var arg := LoadDataArg(searchPage);
    page.Pending(Object(arg));
    sent := QueryParams(arg, processNames);
    QueryIsAlwaysForOrders(arg, processNames);
    QueryKeepsThePageRequest(arg, processNames);
  }
}
