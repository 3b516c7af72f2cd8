/** The public short-link endpoints (backend/src/controller/shortUrl.controller.js):
    creation, which dispatches on whether a user is attached to the request, and
    the redirect, which resolves an identifier with one atomic click. */
module ShortUrlController {
  import opened Common
  import opened ShortUrlDao
  import opened ShortUrlService

  /** The parts of a creation request the handler reads: `url` and `slug` from the
      body, and the user attached to the request, if any. */
  datatype CreateRequest = CreateRequest(url: Option<string>, slug: Option<string>, user: Option<UserId>)

  /** The 201 response body's `shortUrl` and `slug`. */
  datatype Created = Created(shortUrl: string, slug: string)

  const SHORT_URL_NOT_FOUND := "Short URL not found"

  /** The identifier-level outcome behind a creation response: the prefix
      composition undone. */
  function IdentifierOf(r: Reply<Store, Created>): Reply<Store, string> {
    match r.result
    case Ok(c) => Reply(r.state, Ok(c.slug))
    case Err(e) => Reply(r.state, Err(e))
  }

  /** `createShortUrl`: the owned path (with the slug) exactly when a user is
      attached, the anonymous path otherwise; the response pairs the public link
      `appUrl + identifier` with the identifier itself. */
  function CreateShortUrl(st: Store, appUrl: string, req: CreateRequest,
                          isValidUrl: string -> bool, generated: GeneratedId): (r: Reply<Store, Created>)
    requires Valid(st)
    ensures Valid(r.state)
    ensures r.result.Ok? ==> r.result.value.shortUrl == appUrl + r.result.value.slug
    ensures req.user.Some? ==>
              IdentifierOf(r) == CreateShortUrlWithUser(st, req.url, req.user.value, req.slug, isValidUrl, generated)
    ensures req.user.None? ==>
              IdentifierOf(r) == CreateShortUrlWithoutUser(st, req.url, isValidUrl, generated)
  {
    var issued :=
      if req.user.Some? then CreateShortUrlWithUser(st, req.url, req.user.value, req.slug, isValidUrl, generated)
      else CreateShortUrlWithoutUser(st, req.url, isValidUrl, generated);
    match issued.result
    case Ok(id) => Reply(issued.state, Ok(Created(appUrl + id, id)))
    case Err(e) => Reply(issued.state, Err(e))
  }

  /** For an anonymous request the slug in the body plays no part. */
  lemma AnonymousCreationIgnoresSlug(st: Store, appUrl: string, req: CreateRequest, slug: Option<string>,
                                     isValidUrl: string -> bool, generated: GeneratedId)
    requires Valid(st)
    requires req.user.None?
    ensures CreateShortUrl(st, appUrl, req, isValidUrl, generated)
         == CreateShortUrl(st, appUrl, req.(slug := slug), isValidUrl, generated)
  {
  }

  /** `redirectFromShortUrl`: one increment-and-fetch; the redirect target is the
      stored `full_url`, and an unknown identifier is NotFoundError. */
  function RedirectFromShortUrl(st: Store, id: string): (r: Reply<Store, string>)
    requires Valid(st)
    ensures Valid(r.state)
    ensures r.result.Err? <==> !HasShortUrl(st, id)
    ensures r.result.Err? ==> r.state == st && r.result.error == NotFoundError(SHORT_URL_NOT_FOUND)
    ensures forall k :: k in st.links && st.links[k].shortUrl == id ==>
              r.result == Ok(st.links[k].fullUrl) && ClickedOnce(st, r.state, k)
  {
    var fetched := GetShortUrl(st, id);
    match fetched.doc
    case None => Reply(fetched.store, Err(NotFoundError(SHORT_URL_NOT_FOUND)))
    case Some(l) => Reply(fetched.store, Ok(l.fullUrl))
  }

  /** Round trip: after a successful creation, redirecting on the returned slug
      yields the submitted URL, and the new record's clicks go from 0 to 1. */
  lemma CreateThenRedirect(st: Store, appUrl: string, req: CreateRequest,
                           isValidUrl: string -> bool, generated: GeneratedId)
    requires Valid(st)
    requires CreateShortUrl(st, appUrl, req, isValidUrl, generated).result.Ok?
    ensures var c := CreateShortUrl(st, appUrl, req, isValidUrl, generated);
            var v := RedirectFromShortUrl(c.state, c.result.value.slug);
            && req.url.Some?
            && c.state.links[st.next].clicks == 0
            && v.result == Ok(req.url.value)
            && v.state.links[st.next].clicks == 1
  {
  }

  /** A custom slug can be claimed once: a second claim, by any owner, is
      ConflictError and leaves the first record as it was. */
  lemma SlugClaimedOnce(st: Store, url1: string, url2: string, owner1: UserId, owner2: UserId, slug: string,
                        isValidUrl: string -> bool, generated: GeneratedId)
    requires Valid(st)
    requires url1 != "" && url2 != "" && isValidUrl(url1) && isValidUrl(url2)
    requires ValidSlug(slug) && !HasShortUrl(st, slug)
    ensures var first := CreateShortUrlWithUser(st, Some(url1), owner1, Some(slug), isValidUrl, generated);
            var second := CreateShortUrlWithUser(first.state, Some(url2), owner2, Some(slug), isValidUrl, generated);
            && first.result == Ok(slug)
            && second.result == Err(ConflictError(SLUG_TAKEN))
            && second.state == first.state
            && first.state.links[st.next].fullUrl == url1
            && first.state.links[st.next].clicks == 0
  {
  }
}
