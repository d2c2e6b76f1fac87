# eLife profiles: a verified model of its core

`profiles` is the eLife service that keeps the profiles of people who sign in through ORCID. It
proxies the OAuth2 authorization-code flow between eLife's registered clients and ORCID:

- `/authorize` checks the client and sends the browser to ORCID, with a state that names the
  client;
- `/check` reads that state back and returns the browser to the client;
- `/token` exchanges the code, then finds or creates the person's profile and stores their ORCID
  access token.

The service also serves profiles through a paginated read API. It updates a profile when ORCID
calls its webhook, and publishes a bus event for every changed profile.

This Dafny project models that core, module by module:

- **Value objects** (`Dates`, `Models`): `Date`, `Name`, `Address`, `Affiliation` and
  `EmailAddress`.
- **Profile** (`Profiles`): a class whose methods update its affiliation list and address list
  in place.
- **Token object** (`Profiles`): a class holding the stored ORCID token.
- **Repositories** (`Stores`): classes over sequences of objects.
- **Clients** (`Clients`): the registered client set.
- **Errors** (`Exceptions`, `ApiErrors`): the OAuth2 error classes and their messages.
- **Helpers** (`Utilities`): `remove_none_values` and `chain_exception`.
- **HTTP endpoints**: `OAuth2`, `Api` and `Webhook`.
- **Event handler** (`Events`): sends one event per changed profile.

Supporting modules:

- `Wrappers`: Option and Result.
- `Seqs`: Python list indexing, `insert` and `remove`.
- `Pairs`: ordered key/value lists. These stand for `MultiDict`, `OrderedDict` and insertion-ordered
  `dict`.
- `Decimal`: `str(int)`, `int(str)` and `'{:0Nd}'`.
- `Json`: JSON values.
- `Http`: werkzeug HTTP errors.

Each endpoint's outcome is a datatype: a werkzeug error, an OAuth2 error, an exception that
escapes, or the response. Code that loops over mutable state is written as a method, and each
method is proved against a specification function. The properties the service relies on are
lemmas about those functions.

## Model

| member | source | states |
|---|---|---|
| Seqs.FirstIndex | profiles/models.py:217-218 | The index of the first element equal to the key. Every element before it differs. None exactly when the key is absent. |
| Seqs.InsertIndex | profiles/models.py:231 | Where Python's `list.insert(position, x)` puts `x`: `position` when it is within bounds; the end when it is too large; counted from the end when negative, clamped at 0. |
| Seqs.InsertAt | profiles/models.py:227 | The list grows by one, with `x` at index k. The elements before k are kept, and the rest shift right by one. |
| Seqs.RemoveAt | profiles/models.py:226 | The list shrinks by one. The elements before k are kept, and the rest shift left by one. |
| Seqs.DistinctCard | profiles/clients.py:35-36 | A list without repeats has as many elements as it has distinct values. |
| Seqs.Filter | profiles/models.py:251 | The comprehension `[x for x in s if keep(x)]` is a subsequence of `s`. It holds every kept element as often as `s` does, and no other element. So it is `s` in its own order with the other elements dropped. |
| Seqs.FilterMembers | profiles/models.py:251 | An element is in the filtered list exactly when it is in the input and is kept. |
| Seqs.SwapIsNotSubsequence | profiles/models.py:288 | Order counts: `[b, a]` is not a subsequence of `[a, b]`, so a filter never reverses its input. |
| Pairs.Get | profiles/api/oauth2.py:30 | `args.get(key)` on a multi-valued query: defined exactly when the key occurs, and it is the value of the key's first occurrence. |
| Pairs.GetAt | profiles/api/oauth2.py:51-58 | In a list with unique keys, looking up the key at index i gives the value at index i. |
| Pairs.ToMap | profiles/utilities.py:11 | `dict(items)`: its keys are exactly the list's keys. With unique keys, each key maps to its own value. |
| Decimal.ParseStr | profiles/api/api.py:20-26 | `int(str(n)) == n` for every integer, negatives included. |
| Decimal.UnparsableIsNotStr | profiles/api/api.py:20-26 | Text that `int()` refuses is never the decimal text of any number. |
| Decimal.Str | profiles/api/api.py:25 | `str(n)` is non-empty. It starts with a minus sign exactly when `n` is negative, and the rest is digits, without a leading zero after the sign. |
| Decimal.ParseInt | profiles/api/api.py:20 | `int(text)`: blank text does not parse, and a plain string of digits parses to its decimal value. |
| Decimal.ZeroPaddedFixed | profiles/models.py:60-64 | `'{:0Nd}'` of a number below 10^N is exactly N digits, and those digits read back as the number. |
| Utilities.RemoveNoneValues | profiles/utilities.py:10-11 | Every pair kept has a value, and every pair kept was in the input. Every input pair with a value is kept. |
| Utilities.RemoveNothing | profiles/utilities.py:10-11 | A dictionary with no `None` values is returned unchanged. |
| Utilities.RemoveNoneValuesIdempotent | profiles/utilities.py:10-11 | Removing `None` values a second time changes nothing. |
| Utilities.RemoveNoneValuesUnique | profiles/utilities.py:10-11 | Filtering keeps the keys unique. |
| Utilities.RemoveNoneValuesGet | profiles/utilities.py:10-11 | Looking up a key after filtering gives the original value when it was not `None`, and nothing otherwise. |
| Utilities.RemoveNoneValuesKeysCons | profiles/utilities.py:10-11 | The keys kept from an item followed by more items are the item's key, when its value is not `None`, followed by the keys kept from the rest. |
| Utilities.Unwrap | profiles/utilities.py:10-11 | After filtering, the values can be read without their Option wrapper, with the keys in the same order. |
| Utilities.UnwrapGet | profiles/utilities.py:10-11 | Lookup after unwrapping agrees with lookup before. |
| Utilities.ChainException | profiles/utilities.py:4-7 | The new exception has the requested class and the previous exception as its cause. Its message is the given one when that is truthy, and otherwise the previous exception's message. |
| Utilities.ChainExceptionCauses | profiles/utilities.py:4-7 | The cause chain grows by exactly the previous exception. The message is empty only when both candidates are. |
| Clients.Client.constructor | profiles/clients.py:6-10 | A client holds its name, id, secret and redirect URI. |
| Clients.Dedup | profiles/clients.py:17-21 | The element list has no repeats and holds exactly the arguments. |
| Clients.DedupOrder | profiles/clients.py:17-21 | Elements keep the order in which each first occurred among the arguments. |
| Clients.DedupLength | profiles/clients.py:17-21 | The element count is the number of distinct arguments. |
| Clients.Clients.constructor | profiles/clients.py:17-21 | The loop builds exactly the de-duplicated argument list. |
| Clients.Clients.Find | profiles/clients.py:23-27 | `find(id)` returns an element with that id, and it is the first one. It is None (KeyError) exactly when no element has that id. |
| Clients.Clients.Length | profiles/clients.py:35-36 | Under the class invariant, `len(clients)` is the number of distinct constructor arguments. |
| Clients.Clients.Contains | profiles/clients.py:32-33 | Under the class invariant, `client in clients` holds exactly when the client was one of the constructor's arguments. |
| Exceptions.ErrorClass.Code | profiles/exceptions.py:19-55 | Every error code is non-empty and contains no `)`, so the message can be parsed back. |
| Exceptions.ErrorClass.Status | profiles/exceptions.py:4-38 | 401 exactly for `invalid_client`. 302 exactly for the client-redirect errors. 400 for all the others. |
| Exceptions.CodesAreStandard | profiles/exceptions.py:19-55 | Redirect errors use authorization-endpoint codes (section 4.1.2.1 of RFC 6749). Direct errors use token-endpoint codes (section 5.2 of RFC 6749). |
| Exceptions.Message | profiles/exceptions.py:9-16 | The message is `(code)`, followed by a space and the description only when the description is truthy. |
| Exceptions.MessageRoundTrip | profiles/exceptions.py:9-16 | Parsing a message gives back the code, and the description exactly when it was truthy. |
| Exceptions.NewError | profiles/exceptions.py:4-16 | A direct OAuth2 error has its class, no redirect URI, and its description only when truthy. Its message parses back to the code and that description. |
| Exceptions.NewClientError | profiles/exceptions.py:36-43 | A client error carries the client's redirect URI and status 302. Its message parses back to the code and the description. |
| ApiErrors.ErrorClass.Status | profiles/api/errors.py:1-30 | 401 exactly for `invalid_client`, otherwise 400. |
| ApiErrors.NewError | profiles/api/errors.py:1-13 | The same construction as the service-level errors: the class, the truthy description, and a message that parses back. |
| ApiErrors.SameAsExceptions | profiles/api/errors.py:1-30 | Each API error class has the same code, status and message as its counterpart among the service-level exceptions. |
| Dates.DaysInMonth | profiles/models.py:54 | `monthrange(...)[1]` lies between 28 and 31, and is 29 exactly for February of a leap year. |
| Dates.LeapDay | profiles/models.py:26-27 | February 29 is a valid date exactly in leap years. |
| Dates.NewDate | profiles/models.py:20-31 | `Date(year, month, day)` is refused with "Month is missing" exactly when a day is given without a month. It is refused as an invalid month exactly when the month is outside 1-12, and as invalid for a day that is not in the calendar. Otherwise it keeps the three fields. |
| Dates.RejectedExamples | profiles/models.py:20-31 | Concrete cases: months 0 and 13 are refused, a day without a month is refused, December 32 and February 29 of 2017 are refused, and February 29 of 2016 is accepted. |
| Dates.ToString | profiles/models.py:59-66 | `str(date)` has length 4, 7 or 10, depending on which parts are set. |
| Dates.ToStringRoundTrip | profiles/models.py:59-66 | Parsing `YYYY[-MM[-DD]]` gives back the date, for every well-formed date with a year below 10000. |
| Dates.ToStringInjective | profiles/models.py:59-66 | Two well-formed dates print the same exactly when they are equal. |
| Dates.LowestPossible | profiles/models.py:49-50 | Defined exactly when year/month-or-1/day-or-1 is a calendar date. It is at midnight of that year. |
| Dates.HighestPossible | profiles/models.py:52-54 | When defined, it is a calendar date of that year at midnight. |
| Dates.PossibleBounds | profiles/models.py:49-54 | Both bounds exist exactly for years 1-9999. Both denote the date, and lowest <= highest. Every instant the date denotes lies between them, with the upper bound taken at the start of the last day. |
| Models.NewName | profiles/models.py:95-101 | The preferred name is kept. The index is the given one, or the guessed one when it is omitted. |
| Models.NameOfNewName | profiles/models.py:106-107 | `str(Name(preferred, ...))` is the preferred name, whatever the index. |
| Models.ValueEquality | profiles/models.py:112-137 | Names are equal exactly when preferred and index agree. Addresses are equal when city, region and country agree. |
| Models.Ends | profiles/models.py:175-179 | `ends` is present exactly when the stored composite exists and its year is truthy. It is then the stored date. |
| Models.SetEnds | profiles/models.py:181-182 | The stored end composite becomes `ends`. The id, department, organisation, address, start, restricted flag and position are unchanged. |
| Models.SetEndsReadsBack | profiles/models.py:223 | Copying `ends` with `set_ends` makes `ends` read back the same. |
| Models.IsCurrent | profiles/models.py:184-188 | It raises exactly when a bound cannot be computed. Otherwise it is true exactly when the start is before `now` and the end, if any, is after `now`. |
| Models.ReorderedAffiliations | profiles/models.py:228 | `reorder()` sets every position to its index and changes nothing else. |
| Models.Overwritten | profiles/models.py:219-224 | Department, organisation, address, start, end and the restricted flag are copied. The id and the position are kept. |
| Models.AffiliationAdded | profiles/models.py:216-232 | `add_affiliation` adds one entry for an unseen id and none for a seen one. Afterwards the id is in the list. |
| Models.AffiliationAddedValid | profiles/models.py:216-232 | Adding keeps each position equal to its index, and keeps the ids unique. |
| Models.AddNewAffiliation | profiles/models.py:231-232 | An unseen id is inserted, with the new fields, where `list.insert(position, ...)` puts it. Every other entry keeps its fields and its order, and its position becomes its new index. The list grows by one, and unique ids stay unique. |
| Models.MoveKeeps | profiles/models.py:226-227 | Removing an element and re-inserting it keeps the multiset and keeps the elements distinct. |
| Models.AddExistingAffiliationInPlace | profiles/models.py:217-225 | A seen id at the requested position is overwritten where it stands, and the ids and positions are unchanged. |
| Models.AddExistingAffiliationMoved | profiles/models.py:225-228 | A seen id at another position is overwritten and moved to the index where `list.insert` puts it in the shortened list. Every other entry keeps its fields and its relative order, and its position becomes its new index. |
| Models.MovedTo | profiles/models.py:226-228 | `remove`, `insert` and `reorder` in turn: the moved entry lands at index k. Every other entry keeps its fields and its relative order, with its new index as its position. |
| Models.AddExistingAffiliation | profiles/models.py:216-229 | A seen id never adds an entry. The ids, counted with their multiplicities, are kept, as are their uniqueness and the renumbered positions. |
| Models.AffiliationRemoved | profiles/models.py:258-263 | `remove_affiliation` removes one entry for a present id and none for an absent one. Once ids are unique, the id is gone afterwards. |
| Models.RemovedAt | profiles/models.py:261-262 | Removing index i and renumbering: every other entry keeps its fields and its order, with its new index as its position. Exactly the id at i leaves the id list, and unique ids stay unique. |
| Models.RemoveAffiliationFacts | profiles/models.py:258-263 | An absent id leaves the list alone. Otherwise exactly the first entry with the id goes. The others keep their fields and their order, with their new indices as positions, and unique ids stay unique. |
| Models.NotFoundMessageAsWritten | profiles/models.py:243 | As written, the message formats Python's builtin `id`, not the requested id. |
| Models.NotFoundMessageAsWrittenLosesId | profiles/models.py:243 | As written, two different missing ids give the same message. |
| Models.NotFoundMessage | profiles/models.py:243 | The intended message contains the requested id at its fixed offset. |
| Models.NotFoundMessageNamesId | profiles/models.py:243 | Intended messages are equal exactly when the ids are equal. |
| Models.FoundAffiliation | profiles/models.py:238-243 | The result is the first affiliation of the profile with that id, and it exists exactly when the id occurs. Otherwise AffiliationNotFound is raised with the message as written, which formats the builtin `id`. |
| Models.FoundAffiliationIntended | profiles/models.py:238-243 | The corrected lookup finds exactly what `FoundAffiliation` finds. Its not-found message names the requested id. |
| Models.UnrestrictedAffiliations | profiles/models.py:250-251 | The result is a subsequence of the affiliations. It holds every unrestricted one as often as the profile does, and no restricted one. So it is the stored list, in stored order, without the restricted ones. |
| Models.CurrentAffiliations | profiles/models.py:253-254 | It succeeds exactly when `is_current` can be computed for every affiliation. Otherwise its error is that of the first affiliation whose `is_current` raises. |
| Models.FirstDateError | profiles/models.py:253-254 | It is None exactly when no affiliation's `is_current` raises. Otherwise it is the error of the first one that raises. |
| Models.CurrentAffiliationsKept | profiles/models.py:254 | On success the result is a subsequence of the input. It holds each current affiliation as often as the input does, and no other. |
| Models.CurrentStep | profiles/models.py:254 | The comprehension grows one affiliation at a time: the last one is appended exactly when it is current. |
| Models.InsertByPosition | profiles/models.py:256 | Inserting into a position-sorted list keeps it sorted and adds exactly that element. |
| Models.SortByPosition | profiles/models.py:256 | `sorted(..., key=position)` is sorted by position and is a permutation of its input. |
| Models.SortSorted | profiles/models.py:256 | A list that is already sorted is returned unchanged, because the sort is stable. |
| Models.ListedAffiliations | profiles/models.py:245-256 | It fails only under `current_only`, exactly when the `is_current` of an affiliation that passes the restriction filter raises, and it then fails with that error. On success the listing is sorted by position. It holds every affiliation that is unrestricted (or `include_restricted`) and current (or not `current_only`), as often as the profile does, and no other. |
| Models.CandidateMembers | profiles/models.py:250-251 | After the restriction step the candidates are the profile's affiliations with their multiplicities, minus the restricted ones unless those are included. |
| Models.ListedError | profiles/models.py:253-254 | An `is_current` error among the candidates is the error of one of the profile's affiliations that passes the restriction filter. |
| Models.ListedCurrent | profiles/models.py:253-254 | When no candidate raises, the current candidates are exactly the listed affiliations, with their multiplicities. |
| Models.UnrestrictedSorted | profiles/models.py:250-256 | Filtering a sorted list keeps it sorted. |
| Models.ListedInStoredOrder | profiles/models.py:245-256 | For a renumbered profile, the listing with everything included is the stored list. The listing without restricted affiliations is the unrestricted filter, in stored order. |
| Models.PositionedIsSorted | profiles/models.py:200-202 | A list whose positions are its indices is sorted by position. |
| Models.ReorderedEmails | profiles/models.py:265-282 | `reorder()` sets each address's position to its index and changes nothing else. |
| Models.EmailsConcat | profiles/models.py:280 | The email list of a concatenation is the concatenation of the email lists. |
| Models.EmailAdded | profiles/models.py:265-282 | `add_email_address` adds one address for a new email and none for a known one. The email is present afterwards. A primary one comes first, with the given flag. |
| Models.EmailAddedValid | profiles/models.py:265-282 | Adding keeps each position equal to its index, and keeps the emails unique. |
| Models.AddExistingEmail | profiles/models.py:267-274 | A known email only gets its restricted flag updated. It moves to the front exactly when it is primary. The other addresses then keep their fields and their order, with their new indices as positions. Otherwise nothing else changes. The emails, counted with their multiplicities, are kept, as are their uniqueness. |
| Models.ExistingEmailMadePrimary | profiles/models.py:269-273 | A known email made primary moves to the front with the new flag. Every other address keeps its fields and its order, with its new index as its position. |
| Models.ExistingEmailUpdated | profiles/models.py:269 | A known email that is not made primary only has its restricted flag changed, where it stands. |
| Models.EmailMovedFirst | profiles/models.py:271-273 | Moving an address to the front moves its email to the front of the email list. |
| Models.AddNewEmail | profiles/models.py:276-282 | A new email goes first when primary and last otherwise, with the given flag. Every other address keeps its fields and its order, with its new index as its position. The list grows by one, and unique emails stay unique. |
| Models.EmailRemoved | profiles/models.py:290-295 | `remove_email_address` removes one address for a known email and none for an unknown one. Once emails are unique, the email is gone afterwards. |
| Models.EmailRemovedAt | profiles/models.py:293-294 | Removing index i and renumbering: every other address keeps its fields and its order, with its new index as its position. Exactly the email at i leaves the email list, and unique emails stay unique. |
| Models.RemoveEmailFacts | profiles/models.py:290-295 | An unknown email leaves the list alone. Otherwise exactly the first address with it goes. The others keep their fields and their order, with their new indices as positions. |
| Models.UnrestrictedEmails | profiles/models.py:288 | The result is a subsequence of the addresses. It holds every unrestricted one as often as the profile does, and no restricted one. So it is the stored list, in stored order, without the restricted ones. |
| Profiles.Profile.constructor | profiles/models.py:207-210 | A new profile has its id, name and orcid, and no affiliations or email addresses. |
| Profiles.Profile.AddAffiliation | profiles/models.py:216-232 | The loop leaves the affiliation list as the specification function says. Name and emails are untouched, and unique ids and renumbered positions are kept. |
| Profiles.Profile.GetAffiliation | profiles/models.py:238-243 | The loop returns the first match, or raises AffiliationNotFound with the message as written, as `FoundAffiliation` says. |
| Profiles.Profile.GetAffiliations | profiles/models.py:245-256 | The loops (filter, filter, stable sort) return exactly `ListedAffiliations`: its error, or the sorted listed affiliations. |
| Profiles.Profile.RemoveAffiliation | profiles/models.py:258-263 | The loop removes the entry with the id and leaves the rest of the profile alone. |
| Profiles.Profile.AddEmailAddress | profiles/models.py:265-282 | The loop updates or adds the address as `EmailAdded` says, and keeps unique, renumbered addresses. |
| Profiles.Profile.GetEmailAddresses | profiles/models.py:284-288 | It returns all addresses with `include_restricted`, and otherwise the unrestricted ones. |
| Profiles.Profile.RemoveEmailAddress | profiles/models.py:290-295 | The loop removes the address and leaves the rest of the profile alone. |
| Profiles.PrefixError | profiles/models.py:253-254 | The first affiliation whose `is_current` raises decides the error of the whole listing. |
| Profiles.ErrorExtends | profiles/models.py:253-254 | Once a prefix has raised, the affiliations after it do not matter. |
| Profiles.CopyFields | profiles/models.py:219-224 | The field-by-field copy onto the existing affiliation yields `Overwritten`. |
| Profiles.KeepUnrestricted | profiles/models.py:250-251 | The loop computes `UnrestrictedAffiliations`. |
| Profiles.KeepCurrent | profiles/models.py:253-254 | The loop computes `CurrentAffiliations`: the current candidates in order, or the first `is_current` error. |
| Profiles.OrcidToken.constructor | profiles/models.py:86-89 | A token holds the orcid, the access token and the expiry instant. |
| Stores.ProfileStore.Add | profiles/repositories.py:29-30 | Adding a profile that is already in the session changes nothing. Otherwise the profile is appended. |
| Stores.ProfileStore.Count | profiles/repositories.py:46-47 | Under the store invariant (no profile object stored twice), `len(profiles)` is the number of distinct stored profiles. |
| Stores.ProfileStore.GetByOrcid | profiles/repositories.py:39-44 | `get_by_orcid` returns a stored profile with that orcid, and no other stored profile has that orcid under the store invariant. It raises ProfileNotFound "Profile with the ORCID … not found" exactly when none has it. |
| Stores.ProfileStore.Get | profiles/repositories.py:32-37 | `get` returns a stored profile with that id. It raises ProfileNotFound "Profile with the ID … not found" exactly when none has it. |
| Stores.ProfileWithOrcid | profiles/repositories.py:39-44 | `get_by_orcid` returns a stored profile with that orcid. It raises ProfileNotFound "Profile with the ORCID … not found" exactly when none has it. |
| Stores.ProfileWithId | profiles/repositories.py:32-37 | `get` returns a stored profile with that id. It raises ProfileNotFound "Profile with the ID … not found" exactly when none has it. |
| Stores.ProfileWithOrcidAppend | profiles/api/oauth2.py:135-137 | For an orcid that no stored profile has, after a profile is appended the lookup finds the new profile exactly when it carries that orcid. Otherwise the lookup is unchanged. |
| Stores.ProfileAppendValid | profiles/api/oauth2.py:136-137 | Appending a new profile object, for an orcid that no stored profile has, keeps the store invariant. |
| Stores.TokenWithOrcid | profiles/api/oauth2.py:141-145 | The token lookup returns a stored token for the orcid. It raises OrcidTokenNotFound(orcid) exactly when none has it. |
| Stores.TokenStore.Get | profiles/api/oauth2.py:141-145 | `orcid_tokens.get(orcid)` returns a stored token with that orcid, and the only one under the store invariant. It raises OrcidTokenNotFound(orcid) exactly when none has it. |
| Stores.TokenWithOrcidAppend | profiles/api/oauth2.py:145-148 | For an orcid that no stored token has, after a token is appended the lookup finds the new token exactly when it carries that orcid. Otherwise the lookup is unchanged. |
| Stores.TokenStore.Add | profiles/api/oauth2.py:148 | Adding a token already in the session changes nothing. Otherwise the token is appended. |
| OAuth2.StateBlob | profiles/api/oauth2.py:45-49 | The state is an object whose keys are exactly `redirect_uri` and `client_id`, plus `original` exactly when the client sent a state. `redirect_uri` and `client_id` hold the client's values, and `original` holds the client's own state. |
| OAuth2.StateItemsKept | profiles/api/oauth2.py:45-49 | Dropping the `None` from the three items leaves the two client members, and `original` exactly when it was sent. |
| OAuth2.Authorize | profiles/api/oauth2.py:25-59 | "Invalid client_id" exactly when `client_id` is absent or names no client. |
| OAuth2.AuthorizeRedirectUri | profiles/api/oauth2.py:34-35 | Once the client is known, a `redirect_uri` other than the client's is rejected. One that is absent or matches is let through. |
| OAuth2.AuthorizeClientErrors | profiles/api/oauth2.py:37-43 | Once the client and the redirect URI are accepted, the checks run in order: a missing `response_type` is `invalid_request`, a type other than `code` is `unsupported_response_type`, and any scope is `invalid_scope`. Each is sent to the client's redirect URI as a 302. |
| OAuth2.AuthorizeAccepted | profiles/api/oauth2.py:25-59 | A redirect to the provider happens exactly when every check passes. |
| OAuth2.AuthorizeSuccess | profiles/api/oauth2.py:51-59 | The provider receives its own client id, `response_type=code`, the scope `/authenticate`, the callback and the encoded state, in that order. |
| OAuth2.ProviderQuery | profiles/api/oauth2.py:52-58 | Looking up each of the five keys of the provider query gives its value, and the keys come in that order. |
| OAuth2.AuthorizeRedirect | profiles/api/oauth2.py:51-59 | The redirect is exactly this query. |
| OAuth2.Check | profiles/api/oauth2.py:62-86 | "Invalid code" exactly when neither `code` nor `error` is present. A redirect requires a state that decodes. |
| OAuth2.CheckRejections | profiles/api/oauth2.py:63-77 | With `code` or `error` present, the checks run in order. "Invalid state" exactly when the state is absent or does not decode. Then an uncaught failure exactly when it is not an object. Then "Invalid state (client_id)" exactly when its client_id is missing, not a string, or names no client. Then a KeyError exactly when `redirect_uri` is missing. "Invalid state (redirect_uri)" exactly when it differs from the client's. A redirect exactly when it matches. |
| OAuth2.StateClient | profiles/api/oauth2.py:71-74 | A client is found exactly when the state's client_id is a string that names one. The client found has that id, and `find` returns it again. |
| OAuth2.CheckQuery | profiles/api/oauth2.py:79-84 | The four keys `code`, `error`, `error_description` and `state`, in that order. Each has a value exactly when the argument is present, or for `state` when `original` is present and not null. |
| OAuth2.CheckForwards | profiles/api/oauth2.py:79-86 | The redirect goes to the client named in the state. It forwards `code`, `error` and `error_description` exactly when present, and the original state exactly when it is present and not null. The keys come in that order, no other key appears, and no value is `None`. |
| OAuth2.CheckRedirected | profiles/api/oauth2.py:66-86 | A redirect means the state was given and decodes to an object naming a client. The redirect goes to that client's URI, with the filtered query. |
| OAuth2.ForwardedQuery | profiles/api/oauth2.py:79-84 | After `remove_none_values` the query has no `None`. Each of `code`, `error` and `error_description` is the argument when present and absent otherwise. `state` is the original when present and not null, and absent otherwise. |
| OAuth2.ForwardedKeys | profiles/api/oauth2.py:79-84 | The filtered query's keys are those present, in the order `code`, `error`, `error_description`, `state`. |
| OAuth2.CheckRedirects | profiles/api/oauth2.py:71-86 | When the state names a client and its redirect URI matches, the result is that redirect. |
| OAuth2.CheckReturnsState | profiles/api/oauth2.py:62-86 | For any decoded state object that holds the client's redirect URI and id and the original state, `/check` with a code returns the code and the original state to that client. |
| OAuth2.AuthorizeThenCheck | profiles/api/oauth2.py:25-86 | The two legs compose: whenever decoding undoes encoding, the browser returns to the very client that started the flow, with the code and the client's own state. |
| OAuth2.FindFirst | profiles/clients.py:23-25 | The client `find` returned is found again by its own id. |
| OAuth2.TokenRequest | profiles/api/oauth2.py:89-113 | The code is exchanged with the provider exactly when every guard passes. |
| OAuth2.TokenGuardOrder | profiles/api/oauth2.py:90-105 | The guards run in order. An unknown client or a wrong secret is `invalid_client` (401). Then a wrong redirect URI is `invalid_request`, a wrong grant type is `unsupported_grant_type`, and a missing code is `invalid_grant`, all 400. Every code is a token-endpoint code. |
| OAuth2.TokenExchangeData | profiles/api/oauth2.py:107-113 | The posted form carries the provider's id and secret, the callback, `authorization_code` and the client's code. |
| OAuth2.ExchangeFormFields | profiles/api/oauth2.py:107-113 | The five form keys in order, each looked up to its value. |
| OAuth2.BearerAnyCase | profiles/api/oauth2.py:125 | The token type passes `lower() != 'bearer'` exactly when it has six characters, each the small or the capital letter of `bearer` at that place: the check ignores case. |
| OAuth2.GrantFields | profiles/api/oauth2.py:129-130 | The kept fields are exactly the five keys, in order. |
| OAuth2.ValidateProviderResponse | profiles/api/oauth2.py:119-130 | It succeeds exactly when the body is an object with all five keys and a token type that lowers to `bearer`. The kept fields are the provider's values. A missing `access_token` and a missing `expires_in` raise their own messages, in that order. |
| OAuth2.GrantFromMembers | profiles/api/oauth2.py:129-130 | A grant built from an object's five members has exactly those members as its fields. |
| OAuth2.StoreProfile | profiles/api/oauth2.py:132-139 | Exactly one profile then has the orcid, and it has the provider's name. An existing profile is renamed in place. Otherwise a new profile with the next id is appended. No other profile changes. |
| OAuth2.StoreToken | profiles/api/oauth2.py:141-148 | Exactly one token then has the orcid, with the new access token and expiry. An existing token is updated in place, otherwise a new one is appended. No other token changes. |
| OAuth2.StoreGrant | profiles/api/oauth2.py:132-150 | The profile is renamed, or one fresh `freshId` profile with the grant's orcid and name is appended. The token is updated in place, or one is appended. No other profile and no other token changes. The answer is the five provider fields and the profile's id. |
| OAuth2.Token | profiles/api/oauth2.py:89-150 | A refused request answers its OAuth2 error, and a provider answer that fails the checks escapes; neither stores anything. A token is granted exactly when the guards and the checks pass. It carries the provider's status and the five fields plus the profile's id. The stores change as `StoreGrant` states: the name, the access token and the expiry are stored, with the same find-or-create frames. |
| Api.IntArg | profiles/api/api.py:20-21 | `args.get(key, default, type=int)` is the parsed first value, or the default when the key is absent or does not parse. |
| Api.RawArg | profiles/api/api.py:25-30 | `str(args.get(key, default))` is the raw text, or the default's text. |
| Api.Window | profiles/api/api.py:34 | The fetched window is limit `per_page` and offset `(page - 1) * per_page`. |
| Api.CanonicalArg | profiles/api/api.py:25-30 | The text check passes exactly when the parameter is absent or is the canonical decimal text of a number. |
| Api.ListPageChecks | profiles/api/api.py:23-26 | "Page less than 1" exactly when the parsed page is below 1. "Invalid page" exactly when it is at least 1 and not canonical. |
| Api.ListPerPageChecks | profiles/api/api.py:28-31 | With the page accepted: "Per page out of range" exactly outside 1-100, then "Invalid per page" exactly when it is not canonical. |
| Api.ListAccepted | profiles/api/api.py:33-43 | With every check passed, the page is the repository's window, together with the store's count as the total. Only a page after the first may be empty, which gives 404 "No page N". |
| Api.ListDefaults | profiles/api/api.py:11-37 | Without parameters, the first 20 profiles are listed, with the store's count as the total. An empty store gives an empty first page with total 0, not 404. |
| Api.List | profiles/api/api.py:18-43 | An accepted page has `len(profiles)`, the store's count, as its total, and is the fetched window of `per_page` items at offset `(page - 1) * per_page`, for a page of at least 1 and a per-page of 1-100. A rejection is a 400, or a 404 for an empty page after the first. |
| Api.GetProfile | profiles/api/api.py:46-50 | It returns the stored profile with the id, and gives 404 with the repository's message exactly when none has it. |
| Normalizer.NormalizeProfileSnippet | profiles/serializer/normalizer.py:26-38 | The snippet holds `id` and `name`, plus `orcid` exactly when the orcid is truthy. Both name fields are `str(profile.name)`. |
| Normalizer.NormalizeSnippet | profiles/serializer/normalizer.py:13-15 | Anything that is not a profile normalises to its text. |
| Normalizer.Normalize | profiles/serializer/normalizer.py:8-22 | Full normalisation of a profile is its snippet, and of anything else its text. |
| Normalizer.NormalizeIgnoresIndex | profiles/serializer/normalizer.py:29-32 | Profiles that differ only in their index name normalise to the same value. |
| Events.Publisher.Publish | profiles/events.py:17 | An accepted event is appended to the publisher's record, and a raising one is not. |
| Events.Send | profiles/events.py:11-20 | The record of published events only grows, by at most one event per change. |
| Events.SendUpdateEvents | profiles/events.py:11-20 | The loop leaves the record and the outcome that `Send` specifies. |
| Events.SendPublishesInOrder | profiles/events.py:13-17 | What is published is always a prefix of one event per changed profile, in change order. When handling ends normally, it is all of them. |
| Events.SendAllAccepted | profiles/events.py:13-17 | With a publisher that accepts everything, exactly one event per profile change is published. |
| Events.SendNeverFails | profiles/events.py:13-20 | With a publisher that accepts everything, handling ends normally. |
| Events.SendIgnoresOthers | profiles/events.py:14 | Changes to rows other than profiles publish nothing and never fail. |
| Events.SendConcat | profiles/events.py:13-20 | A failure stops everything after it. Otherwise a second batch continues from the record the first batch left. |
| Events.SendOneChange | profiles/events.py:15-20 | An accepted event is published. AttributeError or RuntimeError become UpdateEventFailure, with the message built from the profile and the operation. |
| Webhook.RecordSource.GetRecord | profiles/api/webhook.py:26 | Each request to the provider is recorded with the orcid and token it used. |
| Webhook.Update | profiles/api/webhook.py:17-32 | An unknown orcid gives 404, and a missing token lets OrcidTokenNotFound escape; neither asks the provider anything. Otherwise the record is fetched once with the stored token: a failure gives 403 with its text, and success gives 204. Only a fetched record changes the profile, and only that profile. |

## Left out

- Clock: `pendulum.now`, `is_past` and `is_future` are modelled by an instant `now` passed as a parameter. `Date.yesterday`, `today` and `tomorrow` are not part of this model.
- Time zones: `pendulum.timezone('utc').convert(expires_at)` and `expires_at(expires_in)` are not modelled. The expiry is the result of a function parameter `expiresAt`, because that helper is missing from `profiles/utilities.py`.
- `guess_index_name` is not part of this model. It is the function parameter `guess`.
- `Profiles.list(limit, offset)` is not defined in this snapshot of the source. It is the function parameter `fetch` of `Api.List`, and the model does not relate what it returns to the stored profiles.
- `next_id` is not part of this model. It is the parameter `freshId`, and the model does not require it to be unused.
- `json.dumps`, `json.loads`, `urlencode` and `url_for`: encoding is the parameter `encode`, decoding the parameter `decode`, and the callback URI is a configuration value. A query is kept as its ordered list of pairs rather than as the encoded text.
- `requests.post` and `OrcidClient.get_record`: these are network calls. The provider's parsed body and status are inputs to `Token`. The record API is the `answer` function of `RecordSource`.
- `update_profile_from_orcid_record` (`profiles/commands.py`) is not part of this model. It is the function parameter `reconcile`.
- The database: SQLAlchemy sessions, commits, queries and the ordering-list extension are modelled by sequences of objects and by the explicit `reorder` renumbering.
- Affiliation and email-address rows are values inside the profile's lists. The identity and aliasing of ORM row objects are not modelled.
- `Country` (ISO 3166, via pycountry) is opaque.
- `__repr__` methods are not modelled, except for the `<Profile 'id'>` text that the events message uses.
- `str.lower()` is modelled for ASCII letters only.
- `int()` is modelled on ASCII digits, ASCII whitespace, signs and single underscores between digits. Unicode digits and spaces are not modelled.
- Floating-point JSON numbers are not modelled. `expires_in` is carried as an uninterpreted JSON value.
- OAuth2.ValidateProviderResponse: a decoded body that is not an object (a list, a string, a number) is refused as "response is not a JSON object". Python applies `in` to it instead: a list without the string `access_token` fails with "No access_token", a list holding both `access_token` and `expires_in` passes those tests and then raises AttributeError on `json_data.get`, a number raises TypeError, and a string is searched as text, which ends in "No access_token" or in an AttributeError further on. Also, non-string `name`, `orcid` or `access_token` values are refused, whereas Python would carry them on. `token_type` values that are not strings are treated as raising. Both are stated only as failures, without the exact Python exception.
- OAuth2.Check: a state that decodes to something other than an object, or that lacks `redirect_uri`, ends in an uncaught exception. It is modelled as `CheckFailed` with a reason, without the exact Python exception.
- Events.SendOneChange: the failure message uses `<Profile 'id'>`, Python's `repr` quoting of a plain id. Ids that need escaping are not modelled.
- Events: publishing is a function of the events accepted so far. The bus SDK, its retries and its threads are not modelled. The model assumes that a publish that raises leaves no event behind.
- Normalizer.NormalizeProfileSnippet follows the code: both `name.preferred` and `name.index` are `str(profile.name)`, which is the preferred name. The repository's tests expect the index name for `index`. The model keeps the code's behaviour, and no corrected definition is given.
- OAuth2.AuthorizeSuccess: the scope sent is `/authenticate`, as in the code. The repository's tests expect `/read-limited`.
- The `ProfileNotFound`, `OrcidTokenNotFound` and `AffiliationNotFound` classes, and the `OrcidTokens` repository, are not defined in this snapshot of the source. They are modelled from their use: a message or orcid, and a lookup that raises.
- Flask routing, response headers and content types, and the JSON rendering of the list and get responses are not modelled.
- `Clients.__iter__` is modelled as the `elements` sequence itself.

## Findings

| source | as written | input that shows it | evidently intended | confidence | as-written member | corrected member |
|---|---|---|---|---|---|---|
| profiles/models.py:243 | `'Affiliation with the ID {} not found'.format(id)` formats Python's builtin `id` function, not the parameter `affiliation_id` | `get_affiliation('1')` and `get_affiliation('2')` on a profile without affiliations both raise "Affiliation with the ID <built-in function id> not found" | the message names the missing `affiliation_id` | not executed; high (the parameter is `affiliation_id` and no local `id` exists) | Models.NotFoundMessageAsWritten, Models.NotFoundMessageAsWrittenLosesId, Models.FoundAffiliation | Models.NotFoundMessage, Models.NotFoundMessageNamesId, Models.FoundAffiliationIntended |
