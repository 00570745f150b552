/**
  The two handlers of the links API: listing every link with its click count,
  and creating a link (validate the URL, allocate a slug, insert the row).
  The store is abstract: its answers are supplied as inputs.
*/
module LinksApi {
  import opened Wrappers
  import opened Records
  import opened SlugGenerator
  import opened SlugAllocator

  // ---------------------------------------------------------------- listing

  /**
    `count || 0` on a number-or-null count: a null count (the count query
    failed) reads as zero. This agrees with `GetOr(0)` because the default is 0:
    JavaScript's `||` also replaces a count of 0, by 0.
  */
  function ClickCount(count: Option<nat>): (n: nat)
    ensures count.Some? ==> n == count.value
    ensures count.None? ==> n == 0
  {
    count.GetOr(0)
  }

  /** Each link with every field kept and its `click_count` added, in order. */
  function Annotate(links: seq<Link>, countFor: string -> Option<nat>): (r: seq<LinkWithCount>)
    ensures |r| == |links|
    ensures forall i :: 0 <= i < |links| ==>
              r[i].link == links[i] && r[i].click_count == ClickCount(countFor(links[i].id))
  {
    if links == [] then []
    else Annotate(links[..|links| - 1], countFor)
         + [LinkWithCount(links[|links| - 1], ClickCount(countFor(links[|links| - 1].id)))]
  }

  /** The ids of the links, in order: one count query per listed link. */
  function Ids(links: seq<Link>): (ids: seq<string>)
    ensures |ids| == |links|
    ensures forall i :: 0 <= i < |links| ==> ids[i] == links[i].id
  {
    if links == [] then [] else Ids(links[..|links| - 1]) + [links[|links| - 1].id]
  }

  /** The listing handler's response and the link ids it ran count queries for. */
  datatype ListOutcome = ListOutcome(response: Response, countQueries: seq<string>)

  /**
    GET: `primary` is the result of the ordered link query (newest first, as
    the store orders it); `countFor` gives each link's click count, None
    where the count query failed.
  */
  function List(primary: Result<seq<Link>, string>, countFor: string -> Option<nat>): (out: ListOutcome)
    ensures primary.Failure? ==>
              out.response == Response(StatusServerError, ErrorBody(primary.error)) && out.countQueries == []
    ensures primary.Success? ==>
              && out.response.status == StatusOk
              && out.response.body.LinkListBody?
              && out.countQueries == Ids(primary.value)
    ensures primary.Success? ==>
              var links, listed := primary.value, out.response.body.links;
              && |listed| == |links|
              && forall i :: 0 <= i < |links| ==>
                   && listed[i].link == links[i]
                   && (countFor(links[i].id).Some? ==> listed[i].click_count == countFor(links[i].id).value)
                   && (countFor(links[i].id).None? ==> listed[i].click_count == 0)
  {
    match primary
    case Failure(message) => ListOutcome(Response(StatusServerError, ErrorBody(message)), [])
    case Success(links) =>
      ListOutcome(Response(StatusOk, LinkListBody(Annotate(links, countFor))), Ids(links))
  }

  // ---------------------------------------------------------------- creation

  /** JavaScript truthiness of the body's `url` field (absent or null is None). */
  predicate Truthy(url: Option<string>) {
    url.Some? && url.value != ""
  }

  /**
    The validation branches in their order: a falsy `url` is refused before it
    is parsed; `parses` is the URL constructor's verdict (true: no exception).
  */
  function Validate(url: Option<string>, parses: string -> bool): (r: Result<string, Response>)
    ensures r.Success? <==> Truthy(url) && parses(url.value)
    ensures r.Success? ==> url == Some(r.value)
    ensures !Truthy(url) ==> r == Failure(Response(StatusBadRequest, ErrorBody(UrlRequired)))
    ensures Truthy(url) && !parses(url.value) ==> r == Failure(Response(StatusBadRequest, ErrorBody(InvalidUrl)))
  {
    if !Truthy(url) then Failure(Response(StatusBadRequest, ErrorBody(UrlRequired)))
    else if !parses(url.value) then Failure(Response(StatusBadRequest, ErrorBody(InvalidUrl)))
    else Success(url.value)
  }

  /** The response to the insert: the store's row as-is, or 500 with the store's message. */
  function InsertResponse(result: InsertResult): (resp: Response)
    ensures result.InsertFailed? <==> resp.status == StatusServerError
    ensures result.InsertFailed? ==> resp.body == ErrorBody(result.message)
    ensures result.Inserted? ==> resp == Response(StatusOk, LinkBody(result.link))
  {
    match result
    case InsertFailed(message) => Response(StatusServerError, ErrorBody(message))
    case Inserted(link) => Response(StatusOk, LinkBody(link))
  }

  /**
    What the create handler did: its response, the slugs it looked up, how often
    it generated a slug, and the row it asked the store to insert.
  */
  datatype CreateOutcome = CreateOutcome(
    response: Response, checked: seq<string>, generations: nat, inserted: Option<NewLink>)

  /**
    POST: `existing` and `insert` stand for the store (the slugs a lookup finds,
    and the store's answer to inserting a row); `draws` is the random source.
  */
  method Create(url: Option<string>, parses: string -> bool, existing: set<string>,
                draws: seq<int>, insert: NewLink -> InsertResult)
    returns (out: CreateOutcome)
    requires |draws| >= DrawsNeeded
    ensures out.generations <= MaxAttempts + 1 && |out.checked| <= MaxAttempts
    // validation failures answer 400 and reach neither the allocator nor the store
    ensures !Truthy(url) ==>
              out == CreateOutcome(Response(StatusBadRequest, ErrorBody(UrlRequired)), [], 0, None)
    ensures Truthy(url) && !parses(url.value) ==>
              out == CreateOutcome(Response(StatusBadRequest, ErrorBody(InvalidUrl)), [], 0, None)
    // a valid URL is inserted with the allocated slug, and the insert's answer is returned
    ensures Truthy(url) && parses(url.value) ==>
              var slug := Candidate(draws, Accepted(existing, draws));
              && out.inserted == Some(NewLink(slug, url.value))
              && out.generations == Accepted(existing, draws) + 1
              && out.checked == Candidates(draws, |out.checked|)
              && |out.checked| == (if Accepted(existing, draws) < MaxAttempts then out.generations else MaxAttempts)
              && out.response == InsertResponse(insert(NewLink(slug, url.value)))
  {
    var valid := Validate(url, parses);
    if valid.Failure? {
      return CreateOutcome(valid.error, [], 0, None);
    }
    var slug, checked, generations := AllocateSlug(existing, draws);
    var row := NewLink(slug, valid.value);
    var result := insert(row);
    out := CreateOutcome(InsertResponse(result), checked, generations, Some(row));
  }

  /**
    A link created from a valid URL `u` and then listed first (the listing is
    newest first) shows up with the allocated slug, the URL `u` and a click
    count of zero while it has no clicks, whether the count query answers 0 or
    fails. The handler returns the store's row as-is, so that the row carries
    the slug and URL it was sent is an assumption about the store, stated here
    as a requires.
  */
  lemma CreatedLinkIsListed(u: string, parses: string -> bool, existing: set<string>, draws: seq<int>,
                            insert: NewLink -> InsertResult, older: seq<Link>,
                            countFor: string -> Option<nat>)
    requires |draws| >= DrawsNeeded
    requires Truthy(Some(u)) && parses(u)
    requires insert(NewLink(Candidate(draws, Accepted(existing, draws)), u)).Inserted?
    requires var stored := insert(NewLink(Candidate(draws, Accepted(existing, draws)), u)).link;
             stored.slug == Candidate(draws, Accepted(existing, draws)) && stored.original_url == u
    requires var stored := insert(NewLink(Candidate(draws, Accepted(existing, draws)), u)).link;
             countFor(stored.id) == Some(0) || countFor(stored.id) == None
    ensures var row := NewLink(Candidate(draws, Accepted(existing, draws)), u);
            var created := InsertResponse(insert(row));
            var listed := List(Success([created.body.link] + older), countFor).response.body.links;
            && created.status == StatusOk && created.body.LinkBody?
            && |listed| == 1 + |older|
            && listed[0] == LinkWithCount(created.body.link, 0)
            && listed[0].link.slug == row.slug && listed[0].link.original_url == u
  {
  }
}
