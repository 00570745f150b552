# Links API of a URL shortener, modelled in Dafny

This project models the links API of a URL-shortening and click-analytics
service (`app/api/links/route.ts`): the slug generator, the bounded slug
allocator of the create handler, the create handler's validation and insert,
and the listing handler that annotates every stored link with its click count.
The store (Supabase) is abstract: its answers are inputs.

- `wrappers.dfy` — `Option` and `Result`.
- `records.dfy` — the `links` row (`Link`, shaped after `lib/supabase.ts`), the row
  to insert, the insert's answer, and the JSON responses (status plus body).
- `slug_generator.dfy` — the 36-character alphabet, `Slug` (the string a sequence of
  random indices produces, with JavaScript's `charAt` returning `""` out of range),
  the loop `GenerateSlug` proved against it, and the shape, content and
  injectivity lemmas, with the inverse `Indices`.
- `slug_allocator.dfy` — the retry loop `AllocateSlug`, proved against `Accepted`
  (the index of the first free candidate among the five looked up, else 5).
- `links_api.dfy` — `Validate`, `InsertResponse` and `Create` (POST), `Annotate` and
  `List` (GET).

The random source is a sequence of integer draws: draws 6k .. 6k+5 make candidate
k. The source computes each draw as `Math.floor(Math.random() * 36)`, always in
[0, 36). `Slug` and `GenerateSlug` accept any integers; `SlugAlphabet` and
`SlugLengthBound` hold for all of them and say what an out-of-range draw does (it
adds nothing); the content, decoding, injectivity and candidate-shape lemmas assume
every draw is in [0, 36).

Behaviour worth noting:
- a failed per-link count query yields `count === null`, and `count || 0` turns it
  into a zero count; the listing is not aborted;
- "five attempts" means five lookups and up to six generations: after five
  collisions a sixth candidate is generated and inserted without a lookup;
- a successful create answers 200 (the default of `NextResponse.json`).

## Model

| member | source | states |
|---|---|---|
| `SlugGenerator.GenerateSlug` | app/api/links/route.ts:6-13 | the loop builds `Slug(draws)`: at most 6 characters, every one from the alphabet; with in-range draws exactly 6, the k-th being the alphabet character the k-th draw names |
| `SlugGenerator.SlugAlphabet` | app/api/links/route.ts:7-10 | every character of a generated slug is one of `a-z0-9`, for any draws |
| `SlugGenerator.SlugLengthBound` | app/api/links/route.ts:8-12 | a slug is never longer than its draws, and exactly as long if and only if every draw is in [0, 36) |
| `SlugGenerator.SlugAt` | app/api/links/route.ts:10 | with in-range draws, character k of the slug is `Alphabet[draws[k]]` |
| `SlugGenerator.IndexOfAlphabet` | app/api/links/route.ts:7 | the alphabet has no repeated character: the position of `Alphabet[i]` is i |
| `SlugGenerator.AlphabetAtIndexOf` | app/api/links/route.ts:7 | every alphabet character sits at the position `IndexOfChar` gives |
| `SlugGenerator.IndicesOfSlug` | app/api/links/route.ts:8-12 | decoding a slug made from in-range draws gives back those draws |
| `SlugGenerator.SlugOfIndices` | app/api/links/route.ts:8-12 | every string over the alphabet is produced by in-range draws (its own indices) |
| `SlugGenerator.SlugInjective` | app/api/links/route.ts:8-12 | distinct in-range draws give distinct slugs; with `SlugOfIndices`, the generator is a one-to-one correspondence between in-range draw sequences and strings over the alphabet |
| `SlugAllocator.Candidates` | app/api/links/route.ts:53-65 | the first n looked-up candidates, in generation order |
| `SlugAllocator.AcceptedFrom` | app/api/links/route.ts:56-66 | from candidate k: the first candidate with no row before the bound, with every one skipped being taken, else the bound 5 |
| `SlugAllocator.Accepted` | app/api/links/route.ts:53-66 | the first free candidate among the five looked up, else 5: every candidate before it is taken, and it is free when below 5 |
| `SlugAllocator.AllocateSlug` | app/api/links/route.ts:53-66 | at most 5 lookups and 6 generations; the lookups are candidates 0, 1, … in order; every replaced candidate was taken; after a break the accepted slug is the one just looked up and it is free; all 5 lookups collide exactly when the 6th candidate is accepted, unlooked-up |
| `SlugAllocator.CandidateShape` | app/api/links/route.ts:53-66 | with in-range draws every candidate, hence the accepted slug, has 6 alphabet characters |
| `LinksApi.ClickCount` | app/api/links/route.ts:32 | `count \|\| 0`: the count when present, 0 when the count is null |
| `LinksApi.Annotate` | app/api/links/route.ts:25-34 | same length and order as the links; each entry keeps the whole row and gains its click count |
| `LinksApi.Ids` | app/api/links/route.ts:26-30 | one count query per link, by its id, in order |
| `LinksApi.List` | app/api/links/route.ts:15-37 | a failed primary query answers 500 with its message and makes no count query; otherwise 200 with one entry per link in order, the row unchanged, `click_count` the count or 0 when the count query failed |
| `LinksApi.Validate` | app/api/links/route.ts:43-51 | passes exactly the truthy URLs that parse; a falsy `url` gets 400 "URL is required" before parsing; an unparsable one 400 "Invalid URL" |
| `LinksApi.InsertResponse` | app/api/links/route.ts:68-78 | an insert error, and only an insert error, answers 500 with the store's message; otherwise 200 with the row the store returned, unchanged |
| `LinksApi.Create` | app/api/links/route.ts:39-79 | the validation failures answer 400 with no lookup, no generation and no insert; a valid URL is inserted as exactly `{slug, original_url: url}` with the allocated slug, and the insert's answer is the response |
| `LinksApi.CreatedLinkIsListed` | app/api/links/route.ts:15-36 | a link created from a valid URL with the allocated slug, listed first, shows that slug and URL and a click count of 0 while it has no clicks (given that the store returns the slug and URL it was sent) |

## Left out

- The statistics handler, the redirect handler with its user-agent classifier, the dashboard page and the store client in `lib/supabase.ts` are not part of this model.
- `Math.random` and `Math.floor` (floating point): replaced by the supplied draws.
- `new URL(url)` (the WHATWG URL parser): the supplied predicate `parses`.
- `request.json()` throwing on a malformed body, which the framework answers with its own error: not modelled.
- A body that is valid JSON but `null`, on which `const { url } = body` throws a TypeError that the framework answers with its own error rather than 400: not modelled; the model starts from the `url` field.
- A `url` field holding a non-string JSON value (a number, a boolean, an object): the model takes the field as an optional string.
- The store's queries: the existence lookup is the set `existing` of slugs for which `.single()` returns a row. `.single()` returns no row when the query errs and when the slug is already stored twice; both read as "free", so such a slug is simply not in `existing`. The ordering by `created_at` is the store's: the listing takes its order as given.
- Whether the store rejects a duplicate slug depends on a uniqueness constraint not shown in the source: the insert's answer is a supplied function of the row.
- What row the store returns for an insert is the store's: the handler passes it on unchanged, so the model promises nothing about its fields; `LinksApi.CreatedLinkIsListed` assumes, as a requires, that it carries the slug and URL it was sent.
- `async`/`await`, `Promise.all` and the race between the existence check and the insert: everything runs sequentially.
- The JSON serialisation of `NextResponse.json`: responses are a status and a body datatype.
