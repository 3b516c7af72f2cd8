/** The short-link collection and the five data-access operations over it
    (backend/src/dao/shortUrl.dao.js). Each operation is one atomic step. */
module ShortUrlDao {
  import opened Common
  import Search

  /** A record's `_id`. */
  type RecordId = nat

  /** One stored short link. `createdAt` is stamped by the store. */
  datatype Link = Link(
    id: RecordId,
    shortUrl: string,
    fullUrl: string,
    user: Option<UserId>,
    clicks: nat,
    createdAt: nat)

  /** The collection: records by `_id`, and the counter that stamps both the
      `_id` and the `createdAt` of the next insert. */
  datatype Store = Store(links: map<RecordId, Link>, next: nat)

  /** What `findOneAndUpdate` / `findOneAndDelete` hand back: the new store and
      the affected document, or null. */
  datatype Update = Update(store: Store, doc: Option<Link>)

  const DUPLICATE_SHORT_URL := "Short URL already exists"

  const EmptyStore := Store(map[], 0)

  /** Every record sits under its own `_id`, was stamped at insertion, and lies
      below the counter. */
  ghost predicate WellKeyed(links: map<RecordId, Link>) {
    forall k :: k in links ==> links[k].id == k && links[k].createdAt == k
  }

  /** The unique index on `short_url`. */
  ghost predicate ShortUrlsUnique(links: map<RecordId, Link>) {
    forall j, k :: j in links && k in links && links[j].shortUrl == links[k].shortUrl ==> j == k
  }

  ghost predicate Valid(st: Store) {
    && WellKeyed(st.links)
    && (forall k :: k in st.links ==> k < st.next)
    && ShortUrlsUnique(st.links)
  }

  /** The empty collection satisfies the invariant. */
  lemma EmptyStoreValid()
    ensures Valid(EmptyStore)
  {
  }

  ghost predicate HasShortUrl(st: Store, s: string) {
    exists k :: k in st.links && st.links[k].shortUrl == s
  }

  /** The record the store creates on a successful insert: a fresh `_id` and
      `createdAt`, no clicks yet. */
  function NewLink(st: Store, shortUrl: string, fullUrl: string, user: Option<UserId>): Link {
    Link(st.next, shortUrl, fullUrl, user, 0, st.next)
  }

  /** `st'` is `st` with exactly the record `l` added under a free key. */
  ghost predicate AddsOnly(st: Store, st': Store, l: Link) {
    && l.id !in st.links
    && st'.links.Keys == st.links.Keys + {l.id}
    && st'.links[l.id] == l
    && (forall k :: k in st.links ==> st'.links[k] == st.links[k])
  }

  /** `st'` is `st` with the click count of record `id` raised by one and
      nothing else changed. */
  ghost predicate ClickedOnce(st: Store, st': Store, id: RecordId) {
    && id in st.links
    && st'.next == st.next
    && st'.links.Keys == st.links.Keys
    && st'.links[id] == st.links[id].(clicks := st.links[id].clicks + 1)
    && (forall k :: k in st.links && k != id ==> st'.links[k] == st.links[k])
  }

  /** The query `{ short_url: s }`: the one record holding `s`, if any. */
  function Find(st: Store, s: string): (r: Option<RecordId>)
    requires Valid(st)
    ensures r.None? <==> !HasShortUrl(st, s)
    ensures forall k :: k in st.links && st.links[k].shortUrl == s ==> r == Some(k)
  {
    Search.FirstBelow(st.links, (l: Link) => l.shortUrl == s, st.next)
  }

  /** `saveShortUrl`: insert `shortUrl -> fullUrl`, owned by `userId` when one is
      given; a duplicate key becomes ConflictError and nothing is written. */
  function SaveShortUrl(st: Store, shortUrl: string, fullUrl: string, userId: Option<UserId>): (r: Reply<Store, Link>)
    requires Valid(st)
    ensures Valid(r.state)
    ensures r.result.Err? <==> HasShortUrl(st, shortUrl)
    ensures r.result.Err? ==> r.state == st && r.result.error == ConflictError(DUPLICATE_SHORT_URL)
    ensures r.result.Ok? ==> r.result.value == NewLink(st, shortUrl, fullUrl, userId)
    ensures r.result.Ok? ==> AddsOnly(st, r.state, r.result.value)
  {
    if Find(st, shortUrl).Some? then
      Reply(st, Err(ConflictError(DUPLICATE_SHORT_URL)))
    else
      var l := NewLink(st, shortUrl, fullUrl, userId);
      Reply(Store(st.links[st.next := l], st.next + 1), Ok(l))
  }

  /** `getShortUrl`: atomically increment the clicks of the record holding
      `shortUrl` and return it after the increment (`{ new: true }`); null and
      no change when there is none. */
  function GetShortUrl(st: Store, shortUrl: string): (r: Update)
    requires Valid(st)
    ensures Valid(r.store)
    ensures r.doc.None? <==> !HasShortUrl(st, shortUrl)
    ensures r.doc.None? ==> r.store == st
    ensures forall k :: k in st.links && st.links[k].shortUrl == shortUrl ==>
              ClickedOnce(st, r.store, k) && r.doc == Some(r.store.links[k])
  {
    match Find(st, shortUrl)
    case None => Update(st, None)
    case Some(k) =>
      var l := st.links[k].(clicks := st.links[k].clicks + 1);
      Update(st.(links := st.links[k := l]), Some(l))
  }

  /** `getCustomShortUrl`: plain lookup by short_url, no effect on the store. */
  function GetCustomShortUrl(st: Store, slug: string): (r: Option<Link>)
    requires Valid(st)
    ensures r.None? <==> !HasShortUrl(st, slug)
    ensures forall k :: k in st.links && st.links[k].shortUrl == slug ==> r == Some(st.links[k])
  {
    match Find(st, slug)
    case None => None
    case Some(k) => Some(st.links[k])
  }

  /** The records with `_id` below `n` owned by `userId`, highest `_id` first. */
  function OwnedBelow(links: map<RecordId, Link>, userId: UserId, n: nat): (r: seq<Link>)
    requires WellKeyed(links)
    ensures forall i :: 0 <= i < |r| ==>
              r[i].id < n && r[i].id in links && links[r[i].id] == r[i] && r[i].user == Some(userId)
    ensures forall k :: k < n && k in links && links[k].user == Some(userId) ==> links[k] in r
    ensures forall i, j :: 0 <= i < j < |r| ==> r[i].createdAt > r[j].createdAt
    decreases n
  {
    if n == 0 then []
    else
      var older := OwnedBelow(links, userId, n - 1);
      if n - 1 in links && links[n - 1].user == Some(userId) then [links[n - 1]] + older else older
  }

  /** `getUserUrls`: `find({ user: userId }).sort({ createdAt: -1 })`. */
  function GetUserUrls(st: Store, userId: UserId): (r: seq<Link>)
    requires Valid(st)
    ensures forall l :: l in r <==> l in st.links.Values && l.user == Some(userId)
    ensures forall i, j :: 0 <= i < j < |r| ==> r[i].createdAt > r[j].createdAt
  {
    OwnedBelow(st.links, userId, st.next)
  }

  /** `deleteShortUrl`: `findOneAndDelete({ _id: id, user: userId })`. */
  function DeleteShortUrl(st: Store, id: RecordId, userId: UserId): (r: Update)
    requires Valid(st)
    ensures Valid(r.store)
    ensures r.doc.Some? <==> id in st.links && st.links[id].user == Some(userId)
    ensures r.doc.None? ==> r.store == st
    ensures r.doc.Some? ==>
              r.doc.value == st.links[id] && r.store.next == st.next && r.store.links == st.links - {id}
  {
    if id in st.links && st.links[id].user == Some(userId) then
      Update(st.(links := st.links - {id}), Some(st.links[id]))
    else
      Update(st, None)
  }

  /** The store after `m` resolutions of `shortUrl` in a row. */
  function ResolveTimes(st: Store, shortUrl: string, m: nat): (r: Store)
    requires Valid(st)
    ensures Valid(r)
    decreases m
  {
    if m == 0 then st else ResolveTimes(GetShortUrl(st, shortUrl).store, shortUrl, m - 1)
  }

  /** Counter correctness: `m` resolutions raise the record's clicks by exactly
      `m` and change no other record and no other field. */
  lemma {:induction false} ResolveTimesCountsEach(st: Store, shortUrl: string, m: nat, id: RecordId)
    requires Valid(st)
    requires id in st.links && st.links[id].shortUrl == shortUrl
    ensures var st' := ResolveTimes(st, shortUrl, m);
            && st'.links.Keys == st.links.Keys
            && st'.links[id] == st.links[id].(clicks := st.links[id].clicks + m)
            && (forall k :: k in st.links && k != id ==> st'.links[k] == st.links[k])
    decreases m
  {
    if m > 0 {
      var st1 := GetShortUrl(st, shortUrl).store;
      assert ClickedOnce(st, st1, id);
      ResolveTimesCountsEach(st1, shortUrl, m - 1, id);
    }
  }
}
