/** `profiles/api/api.py`: the read API. `_list` validates the pagination parameters and
    fetches one page; `_get` turns a missing profile into 404. The repository's `list(limit,
    offset)` is the parameter `fetch`, and `len(profiles)` is the store's `Count()`. */
module Api {
  import opened Wrappers
  import opened Pairs
  import opened Decimal
  import opened Http
  import opened Exceptions
  import opened Profiles
  import opened Stores

  const DefaultPage := 1
  const DefaultPerPage := 20
  const MaxPerPage := 100

  /** `request.args.get(key, default, type=int)`: the first value converted by `int`, and the
      default when the key is absent or `int` raises ValueError. */
  function IntArg(args: seq<(string, string)>, key: string, default: int): (n: int)
    ensures Get(args, key).None? ==> n == default
    ensures Get(args, key).Some? && ParseInt(Get(args, key).value).Some? ==> n == ParseInt(Get(args, key).value).value
    ensures Get(args, key).Some? && ParseInt(Get(args, key).value).None? ==> n == default
  {
    match Get(args, key)
    case None => default
    case Some(text) => ParseInt(text).GetOr(default)
  }

  /** `str(request.args.get(key, default))`: the raw text, or the default's text. */
  function RawArg(args: seq<(string, string)>, key: string, default: int): (text: string)
    ensures Get(args, key).Some? ==> text == Get(args, key).value
    ensures Get(args, key).None? ==> text == Str(default)
  {
    Get(args, key).GetOr(Str(default))
  }

  datatype ListOutcome<P> =
    | ListRejected(error: HttpError)
    | ListPage(total: nat, items: seq<P>)

  /** The page window `_list` asks the repository for: `(limit, offset)`. */
  function Window(page: int, perPage: int): (w: (int, int))
    ensures w.0 == perPage && w.1 == (page - 1) * perPage
  {
    (perPage, page * perPage - perPage)
  }

  /** `_list()`: the page checks, then the per-page checks, then the fetch of one page; a page
      after the first with nothing on it is 404. */
  function List(args: seq<(string, string)>, profiles: ProfileStore, fetch: (int, int) -> seq<Profile>): (r: ListOutcome<Profile>)
    reads profiles
    ensures var page, perPage := IntArg(args, "page", DefaultPage), IntArg(args, "per-page", DefaultPerPage);
            r.ListPage? ==> && r.total == profiles.Count() && page >= 1 && 1 <= perPage <= MaxPerPage
                            && r.items == fetch(perPage, (page - 1) * perPage)
    ensures var page, perPage := IntArg(args, "page", DefaultPage), IntArg(args, "per-page", DefaultPerPage);
            r.ListRejected? ==> r.error.BadRequest? ||
                                (r.error.NotFound? && page > 1 && fetch(perPage, (page - 1) * perPage) == [])
  {
    var page := IntArg(args, "page", DefaultPage);
    var perPage := IntArg(args, "per-page", DefaultPerPage);
    if page < 1 then ListRejected(BadRequest("Page less than 1"))
    else if Str(page) != RawArg(args, "page", DefaultPage) then ListRejected(BadRequest("Invalid page"))
    else if perPage < 1 || perPage > MaxPerPage then ListRejected(BadRequest("Per page out of range"))
    else if Str(perPage) != RawArg(args, "per-page", DefaultPerPage) then ListRejected(BadRequest("Invalid per page"))
    else
      var items := fetch(Window(page, perPage).0, Window(page, perPage).1);
      if page > 1 && items == [] then ListRejected(NotFound("No page " + Str(page)))
      else ListPage(profiles.Count(), items)
  }

  /** A parameter passes its canonical-text check exactly when it is absent or is the canonical
      decimal text of a number: `01`, `+1`, ` 1` and non-numbers are turned away. */
  ghost predicate Canonical(args: seq<(string, string)>, key: string) {
    Get(args, key).None? || exists n: int :: Get(args, key).value == Str(n)
  }

  lemma CanonicalArg(args: seq<(string, string)>, key: string, default: int)
    ensures Str(IntArg(args, key, default)) == RawArg(args, key, default) <==> Canonical(args, key)
  {
    if Get(args, key).Some? {
      var text := Get(args, key).value;
      if n: int :| text == Str(n) {
        ParseStr(n);
      }
    }
  }

  /** The page checks come first: a page that parses below 1 is refused as such, then any page
      text that is not canonical; a missing page is page 1. */
  lemma ListPageChecks(args: seq<(string, string)>, profiles: ProfileStore, fetch: (int, int) -> seq<Profile>)
    ensures IntArg(args, "page", DefaultPage) < 1 <==> List(args, profiles, fetch) == ListRejected(BadRequest("Page less than 1"))
    ensures List(args, profiles, fetch) == ListRejected(BadRequest("Invalid page")) <==>
              IntArg(args, "page", DefaultPage) >= 1 && !Canonical(args, "page")
  {
    CanonicalArg(args, "page", DefaultPage);
  }

  /** With the page accepted, the per-page must lie in 1..100 and be canonical. */
  lemma ListPerPageChecks(args: seq<(string, string)>, profiles: ProfileStore, fetch: (int, int) -> seq<Profile>)
    requires IntArg(args, "page", DefaultPage) >= 1 && Canonical(args, "page")
    ensures var perPage := IntArg(args, "per-page", DefaultPerPage);
            && (perPage < 1 || perPage > MaxPerPage <==> List(args, profiles, fetch) == ListRejected(BadRequest("Per page out of range")))
            && (List(args, profiles, fetch) == ListRejected(BadRequest("Invalid per page")) <==>
                  1 <= perPage <= MaxPerPage && !Canonical(args, "per-page"))
  {
    CanonicalArg(args, "page", DefaultPage);
    CanonicalArg(args, "per-page", DefaultPerPage);
  }

  /** Every check passed: the page shown is what the repository returns for the limit `perPage`
      and the offset `(page - 1) * perPage`, and only a later page may be empty (404). */
  lemma ListAccepted(args: seq<(string, string)>, profiles: ProfileStore, fetch: (int, int) -> seq<Profile>)
    requires Canonical(args, "page") && Canonical(args, "per-page")
    requires IntArg(args, "page", DefaultPage) >= 1
    requires 1 <= IntArg(args, "per-page", DefaultPerPage) <= MaxPerPage
    ensures var page, perPage := IntArg(args, "page", DefaultPage), IntArg(args, "per-page", DefaultPerPage);
            var items := fetch(perPage, (page - 1) * perPage);
            && (page > 1 && items == [] <==> List(args, profiles, fetch) == ListRejected(NotFound("No page " + Str(page))))
            && (!(page > 1 && items == []) <==> List(args, profiles, fetch) == ListPage(profiles.Count(), items))
  {
    CanonicalArg(args, "page", DefaultPage);
    CanonicalArg(args, "per-page", DefaultPerPage);
  }

  /** Without parameters the first twenty are listed with the store's count as the total, and
      an empty store is an empty first page with total 0, not 404. */
  lemma ListDefaults(profiles: ProfileStore, fetch: (int, int) -> seq<Profile>)
    ensures List([], profiles, fetch) == ListPage(profiles.Count(), fetch(20, 0))
    ensures profiles.items == [] && fetch(20, 0) == [] ==> List([], profiles, fetch) == ListPage(0, [])
  {
    assert Str(1) == "1" && Str(20) == "20";
  }

  /** `_get(profile_id)`: the profile, or 404 with the repository's message. */
  function GetProfile(profiles: ProfileStore, profileId: string): (r: Result<Profile, HttpError>)
    reads profiles
    ensures r.Ok? ==> r.value in profiles.items && r.value.id == profileId
    ensures r.Err? <==> forall i :: 0 <= i < |profiles.items| ==> profiles.items[i].id != profileId
    ensures r.Err? ==> r.error == NotFound("Profile with the ID " + profileId + " not found")
  {
    match profiles.Get(profileId)
    case Ok(p) => Ok(p)
    case Err(e) => Err(NotFound(e.message))
  }
}
