/**
 * The home page: one page of application cards fetched from the catalog
 * API, with next/previous paging and a search box. The HTTP call is a
 * parameter: `LoadApps` records the request it would send, and the two
 * callbacks of the subscription are the methods `OnResponse` and `OnError`.
 */
module Homepage {
  import opened Wrappers

  /** `ApplicationCard`, reduced to what identifies a card. */
  datatype Card = Card(id: string, name: string)

  /** The query parameters of `getApplications`. */
  datatype Params = Params(page: int, size: int, sort: string, q: Option<string>)

  /**
   * What the API may answer: nothing, a bare array of cards, or an object
   * with optional `content` and `totalPages` members.
   */
  datatype Response = NoBody | CardArray(cards: seq<Card>) | PageObject(content: Option<seq<Card>>, totalPages: Option<int>)

  /**
   * What `apps` holds after a response: cards, or (when an object without
   * `content` arrives) that object itself, as `resp?.content ?? resp` leaves it.
   */
  datatype Listing = Cards(cards: seq<Card>) | WholeObject(response: Response)

  /** An error as the subscription hands it over: perhaps with a message, always printable. */
  datatype HttpError = HttpError(message: Option<string>, asString: string)

  const PAGE_SIZE := 12

  /** The parameters `loadApps` sends: always sorted by name, `q` only when the query is non-empty. */
  function RequestParams(page: int, size: int, q: string): (r: Params)
    ensures r.page == page && r.size == size && r.sort == "name,asc"
    ensures r.q.Some? <==> q != ""
    ensures r.q.Some? ==> r.q.value == q
  {
    Params(page, size, "name,asc", if q != "" then Some(q) else None)
  }

  /** `resp?.content ?? resp ?? []`. */
  function Content(resp: Response): (r: Listing)
    ensures resp.NoBody? ==> r == Cards([])
    ensures resp.CardArray? ==> r == Cards(resp.cards)
    ensures resp.PageObject? && resp.content.Some? ==> r == Cards(resp.content.value)
    ensures resp.PageObject? && resp.content.None? ==> r == WholeObject(resp)
  {
    match resp
    case NoBody => Cards([])
    case CardArray(cards) => Cards(cards)
    case PageObject(content, _) => if content.Some? then Cards(content.value) else WholeObject(resp)
  }

  /** `resp?.totalPages ?? 1`. */
  function TotalPages(resp: Response): (r: int)
    ensures resp.PageObject? && resp.totalPages.Some? ==> r == resp.totalPages.value
    ensures !(resp.PageObject? && resp.totalPages.Some?) ==> r == 1
  {
    if resp.PageObject? && resp.totalPages.Some? then resp.totalPages.value else 1
  }

  /** `String(e?.message ?? e)`. */
  function ErrorText(e: HttpError): (r: string)
    ensures e.message.Some? ==> r == e.message.value
    ensures e.message.None? ==> r == e.asString
  {
    if e.message.Some? then e.message.value else e.asString
  }

  /** A page object that carries its cards is shown as those cards, whatever else it holds. */
  lemma ContentOfPage(cards: seq<Card>, total: Option<int>)
    ensures Content(PageObject(Some(cards), total)) == Content(CardArray(cards))
    ensures TotalPages(CardArray(cards)) == 1 && TotalPages(NoBody) == 1
  {
  }

  class HomeComponent {
    var apps: Listing
    var loading: bool
    var error: Option<string>
    var page: int
    var size: int
    var totalPages: int
    var q: string
    /** The requests sent to the API, oldest first. */
    var requests: seq<Params>

    constructor ()
      ensures apps == Cards([]) && !loading && error.None?
      ensures page == 0 && size == PAGE_SIZE && totalPages == 0 && q == "" && requests == []
      ensures Valid()
    {
      apps, loading, error := Cards([]), false, None;
      page, size, totalPages, q, requests := 0, PAGE_SIZE, 0, "", [];
    }

    /** Paging never goes below the first page. */
    predicate Valid()
      reads this
    {
      page >= 0
    }

    /** `loadApps`, up to the request it sends. */
    method LoadApps()
      modifies this`loading, this`error, this`requests
      ensures loading && error.None?
      ensures requests == old(requests) + [RequestParams(page, size, q)]
    {
      loading := true;
      error := None;
      var params := Params(page, size, "name,asc", None);
      if q != "" {
        params := params.(q := Some(q));
      }
      requests := requests + [params];
    }

    /** `ngOnInit`. */
    method NgOnInit()
      modifies this`loading, this`error, this`requests
      ensures loading && error.None?
      ensures requests == old(requests) + [RequestParams(page, size, q)]
    {
      LoadApps();
    }

    /** The `next` callback of the subscription. */
    method OnResponse(resp: Response)
      modifies this`apps, this`totalPages, this`loading
      ensures apps == Content(resp) && totalPages == TotalPages(resp) && !loading
    {
      var content := Content(resp);
      apps := content;
      totalPages := TotalPages(resp);
      loading := false;
    }

    /** The `error` callback of the subscription. */
    method OnError(e: HttpError)
      modifies this`error, this`loading
      ensures error == Some(ErrorText(e)) && !loading
    {
      error := Some(ErrorText(e));
      loading := false;
    }

    /** `search`: back to the first page, then reload. */
    method Search()
      modifies this`page, this`loading, this`error, this`requests
      ensures page == 0 && loading && error.None? && Valid()
      ensures requests == old(requests) + [RequestParams(0, size, q)]
    {
      page := 0;
      LoadApps();
    }

    /** `next`: one page on, and a reload, only while there is a further page. */
    method Next()
      requires Valid()
      modifies this`page, this`loading, this`error, this`requests
      ensures Valid()
      ensures old(page) + 1 < totalPages ==>
        page == old(page) + 1 && loading && error.None? && requests == old(requests) + [RequestParams(page, size, q)]
      ensures old(page) + 1 >= totalPages ==>
        page == old(page) && loading == old(loading) && error == old(error) && requests == old(requests)
    {
      if page + 1 < totalPages {
        page := page + 1;
        LoadApps();
      }
    }

    /** `prev`: one page back, and a reload, only when not on the first page. */
    method Prev()
      requires Valid()
      modifies this`page, this`loading, this`error, this`requests
      ensures Valid()
      ensures old(page) > 0 ==>
        page == old(page) - 1 && loading && error.None? && requests == old(requests) + [RequestParams(page, size, q)]
      ensures old(page) == 0 ==>
        page == 0 && loading == old(loading) && error == old(error) && requests == old(requests)
    {
      if page > 0 {
        page := page - 1;
        LoadApps();
      }
    }

    /** `onSearchInput`. */
    method OnSearchInput(value: string)
      modifies this`q
      ensures q == value
    {
      q := value;
    }
  }
}
