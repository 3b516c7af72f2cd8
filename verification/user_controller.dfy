/** The signed-in user's link endpoints (backend/src/controller/user.controller.js):
    the listing with public links attached, and the owner-only delete. */
module UserController {
  import opened Common
  import opened ShortUrlDao
  import ShortUrlController

  /** A listed record: the stored document plus its `fullShortUrl`. */
  datatype ListedLink = ListedLink(link: Link, fullShortUrl: string)

  const DELETE_NOT_FOUND := "URL not found or you don't have permission to delete it"

  /** `urls.map(url => ({ ...url, fullShortUrl: APP_URL + url.short_url }))`. */
  function WithFullPath(appUrl: string, urls: seq<Link>): (r: seq<ListedLink>)
    ensures |r| == |urls|
    ensures forall i :: 0 <= i < |r| ==> r[i].link == urls[i] && r[i].fullShortUrl == appUrl + urls[i].shortUrl
    decreases |urls|
  {
    if urls == [] then []
    else [ListedLink(urls[0], appUrl + urls[0].shortUrl)] + WithFullPath(appUrl, urls[1..])
  }

  /** The stored documents behind a listing. */
  function Documents(items: seq<ListedLink>): (r: seq<Link>)
    ensures |r| == |items|
    ensures forall i :: 0 <= i < |r| ==> r[i] == items[i].link
  {
    seq(|items|, i requires 0 <= i < |items| => items[i].link)
  }

  /** Attaching the public links loses and reorders nothing. */
  lemma DocumentsOfListing(appUrl: string, urls: seq<Link>)
    ensures Documents(WithFullPath(appUrl, urls)) == urls
  {
  }

  /** `getUserShortUrls`: exactly the caller's records, newest first, each with its
      public link. */
  function GetUserShortUrls(st: Store, appUrl: string, userId: UserId): (r: seq<ListedLink>)
    requires Valid(st)
    ensures forall l :: l in Documents(r) <==> l in st.links.Values && l.user == Some(userId)
    ensures forall i, j :: 0 <= i < j < |r| ==> r[i].link.createdAt > r[j].link.createdAt
    ensures forall i :: 0 <= i < |r| ==> r[i].fullShortUrl == appUrl + r[i].link.shortUrl
  {
    var urls := GetUserUrls(st, userId);
    DocumentsOfListing(appUrl, urls);
    WithFullPath(appUrl, urls)
  }

  /** `deleteUserShortUrl`: delete record `id` when the caller owns it; a missing
      record and someone else's record both give the same NotFoundError. */
  function DeleteUserShortUrl(st: Store, id: RecordId, userId: UserId): (r: Reply<Store, ()>)
    requires Valid(st)
    ensures Valid(r.state)
    ensures r.result.Ok? <==> id in st.links && st.links[id].user == Some(userId)
    ensures r.result.Err? ==> r.state == st && r.result.error == NotFoundError(DELETE_NOT_FOUND)
    ensures r.result.Ok? ==> r.state.links == st.links - {id} && r.state.next == st.next
  {
    var deleted := DeleteShortUrl(st, id, userId);
    if deleted.doc.None? then Reply(deleted.store, Err(NotFoundError(DELETE_NOT_FOUND)))
    else Reply(deleted.store, Ok(()))
  }

  /** Ownership isolation: another account's delete of a record is refused exactly
      like the delete of a record that does not exist, and the record survives. */
  lemma DeleteByOtherOwnerLooksAbsent(st: Store, id: RecordId, absent: RecordId, owner: UserId, other: UserId)
    requires Valid(st)
    requires id in st.links && st.links[id].user == Some(owner) && other != owner
    requires absent !in st.links
    ensures DeleteUserShortUrl(st, id, other) == DeleteUserShortUrl(st, absent, other)
    ensures DeleteUserShortUrl(st, id, other).state.links[id] == st.links[id]
  {
  }

  /** After the owner deletes a record, its identifier no longer resolves, and
      every other record is untouched. */
  lemma DeleteThenRedirect(st: Store, id: RecordId, owner: UserId)
    requires Valid(st)
    requires id in st.links && st.links[id].user == Some(owner)
    ensures var d := DeleteUserShortUrl(st, id, owner);
            && ShortUrlController.RedirectFromShortUrl(d.state, st.links[id].shortUrl).result
               == Err(NotFoundError(ShortUrlController.SHORT_URL_NOT_FOUND))
            && (forall k :: k in st.links && k != id ==> k in d.state.links && d.state.links[k] == st.links[k])
  {
  }
}
