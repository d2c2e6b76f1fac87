/** The profile and token repositories the endpoints use (`profiles/repositories.py`), as
    in-memory collections of the stored objects rather than a database session. */
module Stores {
  import opened Wrappers
  import opened Exceptions
  import opened Seqs
  import opened Profiles

  /** No orcid is stored twice: the `unique` constraint of the orcid column. */
  predicate UniqueProfileOrcids(s: seq<Profile>) {
    forall i, j :: 0 <= i < j < |s| && s[i].orcid.Some? ==> s[i].orcid != s[j].orcid
  }

  class ProfileStore {
    var items: seq<Profile>

    ghost predicate Valid()
      reads this
    {
      Distinct(items) && UniqueProfileOrcids(items)
    }

    constructor ()
      ensures items == [] && Valid()
    {
      items := [];
    }

    /** `profiles.get_by_orcid(orcid)`. */
    function GetByOrcid(orcid: string): (r: Result<Profile, NotFoundError>)
      reads this
      ensures r.Ok? ==> r.value in items && r.value.orcid == Some(orcid)
      ensures r.Ok? && Valid() ==> forall i :: 0 <= i < |items| && items[i].orcid == Some(orcid) ==> items[i] == r.value
      ensures r.Err? <==> forall i :: 0 <= i < |items| ==> items[i].orcid != Some(orcid)
      ensures r.Err? ==> r.error == ProfileNotFound("Profile with the ORCID " + orcid + " not found")
    {
      ProfileWithOrcid(items, orcid)
    }

    /** `profiles.get(profile_id)`. */
    function Get(profileId: string): (r: Result<Profile, NotFoundError>)
      reads this
      ensures r.Ok? ==> r.value in items && r.value.id == profileId
      ensures r.Err? <==> forall i :: 0 <= i < |items| ==> items[i].id != profileId
      ensures r.Err? ==> r.error == ProfileNotFound("Profile with the ID " + profileId + " not found")
    {
      ProfileWithId(items, profileId)
    }

    /** `profiles.add(profile)`: adding an object already in the session changes nothing. */
    method Add(profile: Profile)
      modifies this
      ensures items == if profile in old(items) then old(items) else old(items) + [profile]
    {
      if profile !in items {
        items := items + [profile];
      }
    }

    /** `len(profiles)`. */
    function Count(): (n: nat)
      reads this
      ensures Valid() ==> n == |set p | p in items|
    {
      if Distinct(items) then DistinctCard(items); |items| else |items|
    }
  }

  function ProfileWithOrcid(s: seq<Profile>, orcid: string): (r: Result<Profile, NotFoundError>)
    ensures r.Ok? ==> r.value in s && r.value.orcid == Some(orcid)
    ensures r.Err? <==> forall i :: 0 <= i < |s| ==> s[i].orcid != Some(orcid)
    ensures r.Err? ==> r.error == ProfileNotFound("Profile with the ORCID " + orcid + " not found")
  {
    if s == [] then Err(ProfileNotFound("Profile with the ORCID " + orcid + " not found"))
    else if s[0].orcid == Some(orcid) then Ok(s[0])
    else ProfileWithOrcid(s[1..], orcid)
  }

  function ProfileWithId(s: seq<Profile>, id: string): (r: Result<Profile, NotFoundError>)
    ensures r.Ok? ==> r.value in s && r.value.id == id
    ensures r.Err? <==> forall i :: 0 <= i < |s| ==> s[i].id != id
    ensures r.Err? ==> r.error == ProfileNotFound("Profile with the ID " + id + " not found")
  {
    if s == [] then Err(ProfileNotFound("Profile with the ID " + id + " not found"))
    else if s[0].id == id then Ok(s[0])
    else ProfileWithId(s[1..], id)
  }

  /** Adding a profile to a store without the orcid: the new profile is the one found for it. */
  lemma {:induction false} ProfileWithOrcidAppend(s: seq<Profile>, p: Profile, orcid: string)
    requires ProfileWithOrcid(s, orcid).Err?
    ensures ProfileWithOrcid(s + [p], orcid) == if p.orcid == Some(orcid) then Ok(p) else ProfileWithOrcid(s, orcid)
  {
    if s != [] {
      assert (s + [p])[1..] == s[1..] + [p];
      ProfileWithOrcidAppend(s[1..], p, orcid);
    }
  }

  /** Appending a profile that is not stored yet, for an orcid no stored profile has, keeps
      the store's invariant. */
  lemma ProfileAppendValid(s: seq<Profile>, p: Profile, orcid: string)
    requires Distinct(s) && UniqueProfileOrcids(s)
    requires p !in s && p.orcid == Some(orcid) && ProfileWithOrcid(s, orcid).Err?
    ensures Distinct(s + [p]) && UniqueProfileOrcids(s + [p])
  {
  }

  predicate UniqueTokenOrcids(s: seq<OrcidToken>) {
    forall i, j :: 0 <= i < j < |s| ==> s[i].orcid != s[j].orcid
  }

  class TokenStore {
    var items: seq<OrcidToken>

    ghost predicate Valid()
      reads this
    {
      UniqueTokenOrcids(items)
    }

    constructor ()
      ensures items == [] && Valid()
    {
      items := [];
    }

    /** `orcid_tokens.get(orcid)`. */
    function Get(orcid: string): (r: Result<OrcidToken, NotFoundError>)
      reads this
      ensures r.Ok? ==> r.value in items && r.value.orcid == orcid
      ensures r.Ok? && Valid() ==> forall i :: 0 <= i < |items| && items[i].orcid == orcid ==> items[i] == r.value
      ensures r.Err? <==> forall i :: 0 <= i < |items| ==> items[i].orcid != orcid
      ensures r.Err? ==> r.error == OrcidTokenNotFound(orcid)
    {
      TokenWithOrcid(items, orcid)
    }

    /** `orcid_tokens.add(token)`. */
    method Add(token: OrcidToken)
      modifies this
      ensures items == if token in old(items) then old(items) else old(items) + [token]
    {
      if token !in items {
        items := items + [token];
      }
    }
  }

  function TokenWithOrcid(s: seq<OrcidToken>, orcid: string): (r: Result<OrcidToken, NotFoundError>)
    ensures r.Ok? ==> r.value in s && r.value.orcid == orcid
    ensures r.Err? <==> forall i :: 0 <= i < |s| ==> s[i].orcid != orcid
    ensures r.Err? ==> r.error == OrcidTokenNotFound(orcid)
  {
    if s == [] then Err(OrcidTokenNotFound(orcid))
    else if s[0].orcid == orcid then Ok(s[0])
    else TokenWithOrcid(s[1..], orcid)
  }

  /** Adding a token to a store without the orcid: the new token is the one found for it. */
  lemma {:induction false} TokenWithOrcidAppend(s: seq<OrcidToken>, t: OrcidToken, orcid: string)
    requires TokenWithOrcid(s, orcid).Err?
    ensures TokenWithOrcid(s + [t], orcid) == if t.orcid == orcid then Ok(t) else TokenWithOrcid(s, orcid)
  {
    if s != [] {
      assert (s + [t])[1..] == s[1..] + [t];
      TokenWithOrcidAppend(s[1..], t, orcid);
    }
  }
}
