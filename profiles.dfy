/** `profiles/models.py` `Profile`: a profile and its two ordered collections, updated in
    place. Each method is proved to leave the lists its specification function in `Models`
    describes, and to keep every position equal to its index and every key unique. */
module Profiles {
  import opened Wrappers
  import opened Seqs
  import opened Dates
  import opened Exceptions
  import opened Models

  class Profile {
    const id: string
    var name: Name
    const orcid: Option<string>
    var affiliations: seq<Affiliation>
    var emailAddresses: seq<EmailAddress>

    /** Positions are indices and keys are unique in both collections. */
    ghost predicate Valid()
      reads this
    {
      && AffiliationsPositioned(affiliations) && UniqueAffiliationIds(affiliations)
      && EmailsPositioned(emailAddresses) && UniqueEmails(emailAddresses)
    }

    /** `Profile(profile_id, name, orcid=None)`. */
    constructor (id: string, name: Name, orcid: Option<string>)
      ensures this.id == id && this.name == name && this.orcid == orcid
      ensures affiliations == [] && emailAddresses == [] && Valid()
    {
      this.id := id;
      this.name := name;
      this.orcid := orcid;
      affiliations := [];
      emailAddresses := [];
    }

    /** `add_affiliation(affiliation, position=0)`. */
    method AddAffiliation(affiliation: Affiliation, position: int)
      modifies this
      ensures affiliations == AffiliationAdded(old(affiliations), affiliation, position)
      ensures name == old(name) && emailAddresses == old(emailAddresses)
      ensures old(Valid()) ==> Valid()
    {
      var n := 0;
      while n < |affiliations|
        invariant 0 <= n <= |affiliations|
        invariant affiliations == old(affiliations)
        invariant forall j :: 0 <= j < n ==> affiliations[j].id != affiliation.id
      {
        if affiliations[n].id == affiliation.id {
          assert FirstIndex(AffiliationIds(affiliations), affiliation.id) == Some(n);
          var existing := CopyFields(affiliations[n], affiliation);
          AffiliationAddedAt(affiliations, affiliation, position, n);
          AffiliationAddedValid(affiliations, affiliation, position);
          if position != existing.position {
            var rest := RemoveAt(affiliations, n);
            affiliations := ReorderedAffiliations(InsertAt(rest, InsertIndex(|rest|, position), existing));
          } else {
            affiliations := affiliations[n := existing];
          }
          return;
        }
        n := n + 1;
      }
      assert affiliation.id !in AffiliationIds(affiliations);
      AffiliationAddedNew(affiliations, affiliation, position);
      AffiliationAddedValid(affiliations, affiliation, position);
      affiliations := ReorderedAffiliations(InsertAt(affiliations, InsertIndex(|affiliations|, position), affiliation));
    }

    /** `get_affiliation(affiliation_id)`. */
    method GetAffiliation(affiliationId: string) returns (r: Result<Affiliation, NotFoundError>)
      ensures r == FoundAffiliation(affiliations, affiliationId)
    {
      var n := 0;
      while n < |affiliations|
        invariant 0 <= n <= |affiliations|
        invariant forall j :: 0 <= j < n ==> affiliations[j].id != affiliationId
      {
        if affiliations[n].id == affiliationId {
          assert FirstIndex(AffiliationIds(affiliations), affiliationId) == Some(n);
          return Ok(affiliations[n]);
        }
        n := n + 1;
      }
      assert affiliationId !in AffiliationIds(affiliations);
      return Err(AffiliationNotFound(NotFoundMessageAsWritten(affiliationId)));
    }

    /** `get_affiliations(current_only, include_restricted)` at the instant `now`. */
    method GetAffiliations(currentOnly: bool, includeRestricted: bool, now: DateTime)
      returns (r: Result<seq<Affiliation>, DateError>)
      ensures r == ListedAffiliations(affiliations, currentOnly, includeRestricted, now)
    {
      var candidates := affiliations;
      if !includeRestricted {
        candidates := KeepUnrestricted(affiliations);
      }
      if currentOnly {
        var current := KeepCurrent(candidates, now);
        if current.Err? {
          return Err(current.error);
        }
        candidates := current.value;
      }
      r := Ok(SortByPosition(candidates));
    }

    /** `remove_affiliation(affiliation_id)`. */
    method RemoveAffiliation(affiliationId: string)
      modifies this
      ensures affiliations == AffiliationRemoved(old(affiliations), affiliationId)
      ensures name == old(name) && emailAddresses == old(emailAddresses)
      ensures old(Valid()) ==> Valid()
    {
      var n := 0;
      while n < |affiliations|
        invariant 0 <= n <= |affiliations|
        invariant affiliations == old(affiliations)
        invariant forall j :: 0 <= j < n ==> affiliations[j].id != affiliationId
      {
        if affiliations[n].id == affiliationId {
          assert FirstIndex(AffiliationIds(affiliations), affiliationId) == Some(n);
          assert AffiliationRemoved(affiliations, affiliationId) == ReorderedAffiliations(RemoveAt(affiliations, n));
          RemovedAt(affiliations, n);
          affiliations := ReorderedAffiliations(RemoveAt(affiliations, n));
          return;
        }
        n := n + 1;
      }
      assert FirstIndex(AffiliationIds(affiliations), affiliationId).None?;
    }

    /** `add_email_address(email, primary=False, restricted=False)`. */
    method AddEmailAddress(email: string, primary: bool, restricted: bool)
      modifies this
      ensures emailAddresses == EmailAdded(old(emailAddresses), email, primary, restricted)
      ensures name == old(name) && affiliations == old(affiliations)
      ensures old(Valid()) ==> Valid()
    {
      var n := 0;
      while n < |emailAddresses|
        invariant 0 <= n <= |emailAddresses|
        invariant emailAddresses == old(emailAddresses)
        invariant forall j :: 0 <= j < n ==> emailAddresses[j].email != email
      {
        if emailAddresses[n].email == email {
          assert FirstIndex(Emails(emailAddresses), email) == Some(n);
          EmailAddedAt(emailAddresses, email, primary, restricted, n);
          EmailAddedValid(emailAddresses, email, primary, restricted);
          var existing := emailAddresses[n].(restricted := restricted);
          if primary {
            emailAddresses := ReorderedEmails(InsertAt(RemoveAt(emailAddresses, n), 0, existing));
          } else {
            emailAddresses := emailAddresses[n := existing];
          }
          return;
        }
        n := n + 1;
      }
      assert email !in Emails(emailAddresses);
      EmailAddedNew(emailAddresses, email, primary, restricted);
      EmailAddedValid(emailAddresses, email, primary, restricted);
      var created := EmailAddress(email, restricted, 0);
      if primary {
        emailAddresses := [created] + emailAddresses;
      } else {
        emailAddresses := emailAddresses + [created];
      }
      emailAddresses := ReorderedEmails(emailAddresses);
    }

    /** `get_email_addresses(include_restricted=False)`. */
    method GetEmailAddresses(includeRestricted: bool) returns (r: seq<EmailAddress>)
      ensures includeRestricted ==> r == emailAddresses
      ensures !includeRestricted ==> r == UnrestrictedEmails(emailAddresses)
    {
      if includeRestricted {
        return emailAddresses;
      }
      r := [];
      var n := 0;
      while n < |emailAddresses|
        invariant 0 <= n <= |emailAddresses|
        invariant r == UnrestrictedEmails(emailAddresses[..n])
      {
        assert emailAddresses[..n + 1][..n] == emailAddresses[..n];
        if !emailAddresses[n].restricted {
          r := r + [emailAddresses[n]];
        }
        n := n + 1;
      }
      assert emailAddresses[..n] == emailAddresses;
    }

    /** `remove_email_address(email)`. */
    method RemoveEmailAddress(email: string)
      modifies this
      ensures emailAddresses == EmailRemoved(old(emailAddresses), email)
      ensures name == old(name) && affiliations == old(affiliations)
      ensures old(Valid()) ==> Valid()
    {
      var n := 0;
      while n < |emailAddresses|
        invariant 0 <= n <= |emailAddresses|
        invariant emailAddresses == old(emailAddresses)
        invariant forall j :: 0 <= j < n ==> emailAddresses[j].email != email
      {
        if emailAddresses[n].email == email {
          assert FirstIndex(Emails(emailAddresses), email) == Some(n);
          assert EmailRemoved(emailAddresses, email) == ReorderedEmails(RemoveAt(emailAddresses, n));
          EmailRemovedAt(emailAddresses, n);
          emailAddresses := ReorderedEmails(RemoveAt(emailAddresses, n));
          return;
        }
        n := n + 1;
      }
      assert FirstIndex(Emails(emailAddresses), email).None?;
    }
  }

  /** The fields `add_affiliation` copies onto the stored affiliation with the same id, one
      assignment at a time. */
  method CopyFields(existing: Affiliation, affiliation: Affiliation) returns (u: Affiliation)
    ensures u == Overwritten(existing, affiliation)
  {
    u := existing;
    u := u.(department := affiliation.department);
    u := u.(organisation := affiliation.organisation);
    u := u.(address := affiliation.address);
    u := u.(starts := affiliation.starts);
    u := SetEnds(u, Ends(affiliation));
    u := u.(restricted := affiliation.restricted);
  }

  /** `[aff for aff in affiliations if not aff.restricted]`. */
  method KeepUnrestricted(s: seq<Affiliation>) returns (r: seq<Affiliation>)
    ensures r == UnrestrictedAffiliations(s)
  {
    r := [];
    var n := 0;
    while n < |s|
      invariant 0 <= n <= |s|
      invariant r == UnrestrictedAffiliations(s[..n])
    {
      UnrestrictedPrefix(s, n);
      if !s[n].restricted {
        r := r + [s[n]];
      }
      n := n + 1;
    }
    assert s[..n] == s;
  }

  lemma UnrestrictedPrefix(s: seq<Affiliation>, n: nat)
    requires n < |s|
    ensures !s[n].restricted ==> UnrestrictedAffiliations(s[..n + 1]) == UnrestrictedAffiliations(s[..n]) + [s[n]]
    ensures s[n].restricted ==> UnrestrictedAffiliations(s[..n + 1]) == UnrestrictedAffiliations(s[..n])
  {
    assert s[..n + 1][..n] == s[..n];
    assert UnrestrictedAffiliations(s[..n]) + [] == UnrestrictedAffiliations(s[..n]);
  }

  /** `[aff for aff in affiliations if aff.is_current()]`, stopping at the first affiliation
      whose dates cannot be expanded. */
  method KeepCurrent(candidates: seq<Affiliation>, now: DateTime) returns (r: Result<seq<Affiliation>, DateError>)
    ensures r == CurrentAffiliations(candidates, now)
  {
    var current: seq<Affiliation> := [];
    var n := 0;
    assert candidates[..0] == [] && CurrentAffiliations([], now) == Ok([]);
    while n < |candidates|
      invariant 0 <= n <= |candidates|
      invariant CurrentAffiliations(candidates[..n], now) == Ok(current)
    {
      var c := IsCurrent(candidates[n], now);
      if c.Err? {
        PrefixError(candidates, n + 1, now);
        return Err(c.error);
      }
      CurrentPrefix(candidates, n, now);
      if c.value {
        current := current + [candidates[n]];
      }
      n := n + 1;
    }
    assert candidates[..n] == candidates;
    return Ok(current);
  }

  lemma CurrentPrefix(s: seq<Affiliation>, n: nat, now: DateTime)
    requires n < |s| && CurrentAffiliations(s[..n], now).Ok? && IsCurrent(s[n], now).Ok?
    ensures IsCurrent(s[n], now).value ==>
              CurrentAffiliations(s[..n + 1], now) == Ok(CurrentAffiliations(s[..n], now).value + [s[n]])
    ensures !IsCurrent(s[n], now).value ==> CurrentAffiliations(s[..n + 1], now) == CurrentAffiliations(s[..n], now)
  {
    var prefix := s[..n + 1];
    assert prefix[..|prefix| - 1] == s[..n] && prefix[|prefix| - 1] == s[n];
    CurrentStep(prefix, now);
    assert CurrentAffiliations(s[..n], now).value + [] == CurrentAffiliations(s[..n], now).value;
  }

  /** Once a prefix fails to expand, the whole list does, with the same error. */
  lemma PrefixError(s: seq<Affiliation>, n: nat, now: DateTime)
    requires 0 < n <= |s| && CurrentAffiliations(s[..n - 1], now).Ok? && IsCurrent(s[n - 1], now).Err?
    ensures CurrentAffiliations(s, now) == Err(IsCurrent(s[n - 1], now).error)
  {
    var prefix := s[..n];
    assert prefix[..|prefix| - 1] == s[..n - 1] && prefix[|prefix| - 1] == s[n - 1];
    assert FirstDateError(s[..n - 1], now).None?;
    assert FirstDateError(prefix, now) == Some(IsCurrent(s[n - 1], now).error);
    ErrorExtends(s, n, now);
  }

  lemma {:induction false} ErrorExtends(s: seq<Affiliation>, m: nat, now: DateTime)
    requires m <= |s| && CurrentAffiliations(s[..m], now).Err?
    ensures CurrentAffiliations(s, now) == CurrentAffiliations(s[..m], now)
    decreases |s| - m
  {
    if m == |s| {
      assert s[..m] == s;
    } else {
      var init := s[..|s| - 1];
      assert init[..m] == s[..m];
      ErrorExtends(init, m, now);
    }
  }

  /** `OrcidToken(orcid, access_token, expires_at)`: the provider token stored for an orcid.
      The expiry instant is an abstract number here. */
  class OrcidToken {
    const orcid: string
    var accessToken: string
    var expiresAt: int

    constructor (orcid: string, accessToken: string, expiresAt: int)
      ensures this.orcid == orcid && this.accessToken == accessToken && this.expiresAt == expiresAt
    {
      this.orcid := orcid;
      this.accessToken := accessToken;
      this.expiresAt := expiresAt;
    }
  }
}
