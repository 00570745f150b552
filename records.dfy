/** The rows of the `links` table and the JSON responses of the links API. */
module Records {

  /** A stored link row: `id` and `created_at` are assigned by the store on insert. */
  datatype Link = Link(id: string, slug: string, original_url: string, created_at: string)

  /** The row the create handler asks the store to insert. */
  datatype NewLink = NewLink(slug: string, original_url: string)

  /** A listed link: every field of the stored row plus its click count. */
  datatype LinkWithCount = LinkWithCount(link: Link, click_count: nat)

  /** What the store answers to an insert-and-select-single request: the stored row, or an error. */
  datatype InsertResult = Inserted(link: Link) | InsertFailed(message: string)

  /** The JSON bodies the handlers send. */
  datatype Body =
    | ErrorBody(error: string)
    | LinkBody(link: Link)
    | LinkListBody(links: seq<LinkWithCount>)

  /** An HTTP response: status code and JSON body. */
  datatype Response = Response(status: nat, body: Body)

  const StatusOk: nat := 200
  const StatusBadRequest: nat := 400
  const StatusServerError: nat := 500

  const UrlRequired: string := "URL is required"
  const InvalidUrl: string := "Invalid URL"
}
