/** `profiles/serializer/normalizer.py`: the JSON shape of values `json.dumps` cannot encode
    itself. A profile becomes its snippet; anything else becomes `str(value)`. */
module Normalizer {
  import opened Wrappers
  import opened Pairs
  import opened Models
  import opened Profiles

  /** What a normalizer returns: a string, or an ordered dict of normalized values. */
  datatype Normalized =
    | NString(s: string)
    | NObject(members: seq<(string, Normalized)>)

  /** A value handed to the normalizer: a profile, or some other object together with its `str()`. */
  datatype Value =
    | ProfileValue(profile: Profile)
    | OtherValue(text: string)

  /** `normalize_profile_snippet(profile)`: `id`, `name` and, when the orcid is truthy, `orcid`.
      Both parts of `name` are `profile.name` itself, which `json.dumps` renders through
      `normalize`, that is as `str(name)`: the preferred name. */
  function NormalizeProfileSnippet(profile: Profile): (r: Normalized)
    reads profile
    ensures r.NObject?
    ensures Keys(r.members) == if Truthy(profile.orcid) then ["id", "name", "orcid"] else ["id", "name"]
    ensures Get(r.members, "id") == Some(NString(profile.id))
    ensures Get(r.members, "orcid") == if Truthy(profile.orcid) then Some(NString(profile.orcid.value)) else None
    ensures Get(r.members, "name") ==
              Some(NObject([("preferred", NString(NameString(profile.name))), ("index", NString(NameString(profile.name)))]))
  {
    var name := NString(NameString(profile.name));
    var data := [("id", NString(profile.id)), ("name", NObject([("preferred", name), ("index", name)]))];
    var members := if Truthy(profile.orcid) then data + [("orcid", NString(profile.orcid.value))] else data;
    assert Keys(members) == if Truthy(profile.orcid) then ["id", "name", "orcid"] else ["id", "name"];
    GetAt(members, 0);
    GetAt(members, 1);
    if Truthy(profile.orcid) then (GetAt(members, 2); NObject(members)) else NObject(members)
  }

  /** `normalize_snippet(value)`. */
  function NormalizeSnippet(v: Value): (r: Normalized)
    reads if v.ProfileValue? then {v.profile} else {}
    ensures v.OtherValue? ==> r == NString(v.text)
  {
    match v
    case ProfileValue(p) => NormalizeProfileSnippet(p)
    case OtherValue(text) => NString(text)
  }

  /** `normalize(value)`: a full profile is normalized to its snippet. */
  function Normalize(v: Value): (r: Normalized)
    reads if v.ProfileValue? then {v.profile} else {}
    ensures r == NormalizeSnippet(v)
  {
    match v
    case ProfileValue(p) => NormalizeProfileSnippet(p)
    case OtherValue(text) => NString(text)
  }

  /** The index a profile's name carries is not part of what is serialized: two profiles that
      differ only in it normalize alike. */
  lemma NormalizeIgnoresIndex(a: Profile, b: Profile)
    requires a.id == b.id && a.orcid == b.orcid && a.name.preferred == b.name.preferred
    ensures Normalize(ProfileValue(a)) == Normalize(ProfileValue(b))
  {
  }
}
