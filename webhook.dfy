/** `profiles/api/webhook.py`: the provider calls back when a person's record changed. The
    profile is looked up, then its token, then the record is fetched with that token and applied
    to the profile. The provider's record API is a class that records each request it receives;
    `update_profile_from_orcid_record` is not part of this model and is the parameter `reconcile`. */
module Webhook {
  import opened Wrappers
  import opened Json
  import opened Http
  import opened Exceptions
  import opened Models
  import opened Profiles
  import opened Stores

  /** How `orcid_client.get_record(orcid, access_token)` ends: a record, or a RequestException. */
  datatype FetchResult =
    | Fetched(record: Json)
    | RequestFailed(message: string)

  class RecordSource {
    var requests: seq<(string, string)>
    const answer: (string, string) -> FetchResult

    constructor (answer: (string, string) -> FetchResult)
      ensures requests == [] && this.answer == answer
    {
      requests := [];
      this.answer := answer;
    }

    method GetRecord(orcid: string, accessToken: string) returns (r: FetchResult)
      modifies this
      ensures requests == old(requests) + [(orcid, accessToken)]
      ensures r == answer(orcid, accessToken)
    {
      requests := requests + [(orcid, accessToken)];
      r := answer(orcid, accessToken);
    }
  }

  /** How `_update` ends: a werkzeug error, the uncaught OrcidTokenNotFound, or 204. */
  datatype UpdateOutcome =
    | UpdateRejected(error: HttpError)
    | TokenMissing(missing: NotFoundError)
    | Updated(status: int)

  /** The profile's parts the reconciliation may rewrite. */
  datatype ProfileParts = ProfileParts(name: Name, affiliations: seq<Affiliation>, emailAddresses: seq<EmailAddress>)

  /** `_update(orcid)`. */
  method Update(orcid: string, profiles: ProfileStore, tokens: TokenStore, source: RecordSource,
                reconcile: (ProfileParts, Json) -> ProfileParts)
    returns (r: UpdateOutcome)
    modifies source, profiles.items
    // an unknown orcid: 404 with the repository's message, and nothing asked of the provider
    ensures ProfileWithOrcid(profiles.items, orcid).Err? ==>
              && r == UpdateRejected(NotFound("Profile with the ORCID " + orcid + " not found"))
              && source.requests == old(source.requests)
    // a profile without a token: the lookup's exception escapes, and nothing asked of the provider
    ensures ProfileWithOrcid(profiles.items, orcid).Ok? && TokenWithOrcid(tokens.items, orcid).Err? ==>
              && r == TokenMissing(OrcidTokenNotFound(orcid))
              && source.requests == old(source.requests)
    // otherwise the record is fetched once, with the profile's token
    ensures ProfileWithOrcid(profiles.items, orcid).Ok? && TokenWithOrcid(tokens.items, orcid).Ok? ==>
              var token := TokenWithOrcid(tokens.items, orcid).value;
              var answer := source.answer(orcid, token.accessToken);
              && source.requests == old(source.requests) + [(orcid, token.accessToken)]
              && (answer.RequestFailed? ==> r == UpdateRejected(Forbidden(answer.message)))
              && (answer.Fetched? ==> r == Updated(204))
    // only a fetched record changes the profile, and only through `reconcile`
    ensures forall p :: p in profiles.items ==>
              var found := ProfileWithOrcid(profiles.items, orcid);
              var parts := ProfileParts(p.name, p.affiliations, p.emailAddresses);
              var oldParts := ProfileParts(old(p.name), old(p.affiliations), old(p.emailAddresses));
              parts == if r.Updated? && found == Ok(p) then reconcile(oldParts, source.answer(orcid, TokenWithOrcid(tokens.items, orcid).value.accessToken).record)
                       else oldParts
  {
    var found := profiles.GetByOrcid(orcid);
    if found.Err? {
      return UpdateRejected(NotFound(found.error.message));
    }
    var profile := found.value;
    var token := tokens.Get(profile.orcid.value);
    if token.Err? {
      return TokenMissing(token.error);
    }
    var fetched := source.GetRecord(orcid, token.value.accessToken);
    if fetched.RequestFailed? {
      return UpdateRejected(Forbidden(fetched.message));
    }
    var parts := reconcile(ProfileParts(profile.name, profile.affiliations, profile.emailAddresses), fetched.record);
    profile.name := parts.name;
    profile.affiliations := parts.affiliations;
    profile.emailAddresses := parts.emailAddresses;
    r := Updated(204);
  }
}
