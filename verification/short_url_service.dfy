/** Issuing short links (backend/src/services/shortUrl.service.js): the ordered
    URL checks, the custom-slug rules and the choice between a custom and a
    generated identifier. */
module ShortUrlService {
  import opened Common
  import opened ShortUrlDao

  /** An identifier from `generateNanoId(7)`. The generator is an oracle: the model
      knows only the length of what it returns. */
  type GeneratedId = s: string | |s| == 7 witness "0000000"

  const URL_REQUIRED := "URL is required"
  const URL_INVALID := "Please provide a valid URL"
  const SLUG_TOO_SHORT := "Custom slug must be at least 3 characters long"
  const SLUG_BAD_CHARACTERS := "Custom slug can only contain letters, numbers, hyphens, and underscores"
  const SLUG_TAKEN := "This custom URL already exists"
  const MIN_SLUG_LENGTH := 3

  /** One character of the class `[a-zA-Z0-9-_]`. */
  predicate IsSlugChar(c: char) {
    || ('a' <= c <= 'z')
    || ('A' <= c <= 'Z')
    || ('0' <= c <= '9')
    || c == '-'
    || c == '_'
  }

  /** The slug rules stated over the whole string: long enough (in JavaScript
      `.length` units), and every character in the class. */
  predicate ValidSlug(s: string) {
    Utf16Length(s) >= MIN_SLUG_LENGTH && forall i :: 0 <= i < |s| ==> IsSlugChar(s[i])
  }

  /** The regular expression `^[a-zA-Z0-9-_]+$` read as a matcher: one class
      character, then either the end or a further match. */
  predicate MatchesSlugPattern(s: string)
    decreases |s|
  {
    |s| > 0 && IsSlugChar(s[0]) && (|s| == 1 || MatchesSlugPattern(s[1..]))
  }

  /** The matcher accepts exactly the non-empty strings made of class characters. */
  lemma {:induction false} SlugPatternAcceptsClassStrings(s: string)
    ensures MatchesSlugPattern(s) <==> |s| > 0 && forall i :: 0 <= i < |s| ==> IsSlugChar(s[i])
    decreases |s|
  {
    if |s| > 1 {
      SlugPatternAcceptsClassStrings(s[1..]);
      assert forall i :: 1 <= i < |s| ==> s[i] == s[1..][i - 1];
    }
  }

  /** The two slug checks in source order; None means the slug may be used. */
  function CheckSlug(slug: string): (r: Option<Error>)
    ensures r.None? <==> ValidSlug(slug)
    ensures Utf16Length(slug) < MIN_SLUG_LENGTH ==> r == Some(ValidationError(SLUG_TOO_SHORT))
    ensures Utf16Length(slug) >= MIN_SLUG_LENGTH && !ValidSlug(slug) ==> r == Some(ValidationError(SLUG_BAD_CHARACTERS))
  {
    SlugPatternAcceptsClassStrings(slug);
    if Utf16Length(slug) < MIN_SLUG_LENGTH then Some(ValidationError(SLUG_TOO_SHORT))
    else if !MatchesSlugPattern(slug) then Some(ValidationError(SLUG_BAD_CHARACTERS))
    else None
  }

  /** The boundary cases the slug rules accept. */
  lemma SlugExamplesAccepted()
    ensures CheckSlug("abc") == None
    ensures CheckSlug("my-slug_1") == None
  {
    assert ValidSlug("abc") by {
      assert forall i :: 0 <= i < 3 ==> "abc"[i] as int <= 0xFFFF;
    }
    assert ValidSlug("my-slug_1") by {
      assert forall i :: 0 <= i < 9 ==> "my-slug_1"[i] as int <= 0xFFFF;
    }
  }

  /** The boundary cases the slug rules reject, each with its own message. */
  lemma SlugExamplesRejected()
    ensures CheckSlug("ab") == Some(ValidationError(SLUG_TOO_SHORT))
    ensures CheckSlug("my slug!") == Some(ValidationError(SLUG_BAD_CHARACTERS))
  {
    assert Utf16Length("ab") == 2 by {
      assert forall i :: 0 <= i < 2 ==> "ab"[i] as int <= 0xFFFF;
    }
    assert Utf16Length("my slug!") == 8 by {
      assert forall i :: 0 <= i < 8 ==> "my slug!"[i] as int <= 0xFFFF;
    }
    assert !IsSlugChar("my slug!"[2]);
  }

  /** The URL passes both checks: present (truthy) and accepted by `isValidUrl`. */
  predicate UrlAccepted(url: Option<string>, isValidUrl: string -> bool) {
    Truthy(url) && isValidUrl(url.value)
  }

  /** The two URL checks shared by both entry points, in source order. */
  function CheckUrl(url: Option<string>, isValidUrl: string -> bool): (r: Option<Error>)
    ensures r.None? <==> UrlAccepted(url, isValidUrl)
    ensures !Truthy(url) ==> r == Some(ValidationError(URL_REQUIRED))
    ensures Truthy(url) && !isValidUrl(url.value) ==> r == Some(ValidationError(URL_INVALID))
  {
    if !Truthy(url) then Some(ValidationError(URL_REQUIRED))
    else if !isValidUrl(url.value) then Some(ValidationError(URL_INVALID))
    else None
  }

  /** `createShortUrlWithoutUser`: validate the URL, then save it under a freshly
      generated identifier with no owner; a collision is not retried. */
  function CreateShortUrlWithoutUser(st: Store, url: Option<string>, isValidUrl: string -> bool, generated: GeneratedId): (r: Reply<Store, string>)
    requires Valid(st)
    ensures Valid(r.state)
    ensures r.result.Err? ==> r.state == st
    ensures !Truthy(url) ==> r.result == Err(ValidationError(URL_REQUIRED))
    ensures Truthy(url) && !isValidUrl(url.value) ==> r.result == Err(ValidationError(URL_INVALID))
    ensures UrlAccepted(url, isValidUrl) && HasShortUrl(st, generated) ==>
              r.result == Err(ConflictError(DUPLICATE_SHORT_URL))
    ensures r.result.Ok? <==> UrlAccepted(url, isValidUrl) && !HasShortUrl(st, generated)
    ensures r.result.Ok? ==>
              && r.result.value == generated
              && |r.result.value| == 7
              && AddsOnly(st, r.state, NewLink(st, generated, url.value, None))
  {
    match CheckUrl(url, isValidUrl)
    case Some(e) => Reply(st, Err(e))
    case None =>
      var saved := SaveShortUrl(st, generated, url.value, None);
      if saved.result.Err? then Reply(st, Err(saved.result.error))
      else Reply(saved.state, Ok(generated))
  }

  /** `createShortUrlWithUser`: validate the URL; a truthy slug must pass the slug
      rules and be unused, a falsy one is replaced by a generated identifier;
      the record is saved with the caller as owner. */
  function CreateShortUrlWithUser(st: Store, url: Option<string>, userId: UserId, slug: Option<string>,
                                  isValidUrl: string -> bool, generated: GeneratedId): (r: Reply<Store, string>)
    requires Valid(st)
    ensures Valid(r.state)
    ensures r.result.Err? ==> r.state == st
    ensures !Truthy(url) ==> r.result == Err(ValidationError(URL_REQUIRED))
    ensures Truthy(url) && !isValidUrl(url.value) ==> r.result == Err(ValidationError(URL_INVALID))
    ensures UrlAccepted(url, isValidUrl) && Truthy(slug) && Utf16Length(slug.value) < MIN_SLUG_LENGTH ==>
              r.result == Err(ValidationError(SLUG_TOO_SHORT))
    ensures UrlAccepted(url, isValidUrl) && Truthy(slug) && Utf16Length(slug.value) >= MIN_SLUG_LENGTH && !ValidSlug(slug.value) ==>
              r.result == Err(ValidationError(SLUG_BAD_CHARACTERS))
    ensures UrlAccepted(url, isValidUrl) && Truthy(slug) && ValidSlug(slug.value) && HasShortUrl(st, slug.value) ==>
              r.result == Err(ConflictError(SLUG_TAKEN))
    ensures UrlAccepted(url, isValidUrl) && Truthy(slug) && ValidSlug(slug.value) && !HasShortUrl(st, slug.value) ==>
              && r.result == Ok(slug.value)
              && AddsOnly(st, r.state, NewLink(st, slug.value, url.value, Some(userId)))
    ensures UrlAccepted(url, isValidUrl) && !Truthy(slug) && HasShortUrl(st, generated) ==>
              r.result == Err(ConflictError(DUPLICATE_SHORT_URL))
    ensures UrlAccepted(url, isValidUrl) && !Truthy(slug) && !HasShortUrl(st, generated) ==>
              && r.result == Ok(generated)
              && AddsOnly(st, r.state, NewLink(st, generated, url.value, Some(userId)))
  {
    match CheckUrl(url, isValidUrl)
    case Some(e) => Reply(st, Err(e))
    case None =>
      if Truthy(slug) then
        match CheckSlug(slug.value)
        case Some(e) => Reply(st, Err(e))
        case None =>
          if GetCustomShortUrl(st, slug.value).Some? then Reply(st, Err(ConflictError(SLUG_TAKEN)))
          else Save(st, slug.value, url.value, userId)
      else
        Save(st, generated, url.value, userId)
  }

  /** The final `saveShortUrl` call of the owned path, returning the identifier. */
  function Save(st: Store, shortUrl: string, fullUrl: string, userId: UserId): (r: Reply<Store, string>)
    requires Valid(st)
    ensures Valid(r.state)
    ensures r.result.Err? <==> HasShortUrl(st, shortUrl)
    ensures r.result.Err? ==> r.state == st && r.result.error == ConflictError(DUPLICATE_SHORT_URL)
    ensures r.result.Ok? ==> r.result.value == shortUrl && AddsOnly(st, r.state, NewLink(st, shortUrl, fullUrl, Some(userId)))
  {
    var saved := SaveShortUrl(st, shortUrl, fullUrl, Some(userId));
    if saved.result.Err? then Reply(st, Err(saved.result.error))
    else Reply(saved.state, Ok(shortUrl))
  }
}
