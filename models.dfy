/** `profiles/models.py`: the value objects of a profile, and the list updates that the
    `Profile` methods perform on its affiliations and email addresses, stated as functions
    on sequences. The position column of a listed item is its index once `reorder()` has run. */
module Models {
  import opened Wrappers
  import opened Seqs
  import opened Dates
  import opened Exceptions

  /** `Name(preferred, index)`. */
  datatype Name = Name(preferred: string, index: string)

  /** `Name(preferred, index=None)`: an omitted index is guessed from the preferred name by
      `guess`, which stands for `guess_index_name`. An empty index is kept as given. */
  function NewName(preferred: string, index: Option<string>, guess: string -> string): (n: Name)
    ensures n.preferred == preferred
    ensures index.Some? ==> n.index == index.value
    ensures index.None? ==> n.index == guess(preferred)
  {
    Name(preferred, if index.Some? then index.value else guess(preferred))
  }

  /** `str(name)`. */
  function NameString(n: Name): string {
    n.preferred
  }

  /** `str(Name(preferred, index))` is the preferred name, whatever the index. */
  lemma NameOfNewName(preferred: string, index: Option<string>, guess: string -> string)
    ensures NameString(NewName(preferred, index, guess)) == preferred
  {
  }

  /** An ISO 3166 country, opaque here. */
  datatype Country = Country(alpha2: string)

  datatype Address = Address(country: Country, city: string, region: Option<string>)

  /** `Name.__eq__` and `Address.__eq__`: field by field. */
  lemma ValueEquality(m: Name, n: Name, a: Address, b: Address)
    ensures m == n <==> m.preferred == n.preferred && m.index == n.index
    ensures a == b <==> a.city == b.city && a.region == b.region && a.country == b.country
  {
  }

  /** An affiliation row. `endsRaw` is the stored `_ends` composite. */
  datatype Affiliation = Affiliation(
    id: string,
    department: Option<string>,
    organisation: string,
    address: Address,
    starts: Date,
    endsRaw: Option<Date>,
    restricted: bool,
    position: int)

  /** `affiliation.ends`: the stored end date, unless it is absent or its year is falsy. */
  function Ends(a: Affiliation): (r: Option<Date>)
    ensures r.Some? <==> a.endsRaw.Some? && a.endsRaw.value.year != 0
    ensures r.Some? ==> r == a.endsRaw
  {
    if a.endsRaw.Some? && a.endsRaw.value.year != 0 then a.endsRaw else None
  }

  /** `affiliation.set_ends(ends)`. */
  function SetEnds(a: Affiliation, ends: Option<Date>): (r: Affiliation)
    ensures r.endsRaw == ends
    ensures r.id == a.id && r.department == a.department && r.organisation == a.organisation
    ensures r.address == a.address && r.starts == a.starts && r.restricted == a.restricted
    ensures r.position == a.position
  {
    a.(endsRaw := ends)
  }

  /** Copying one affiliation's `ends` to another with `set_ends`, as `add_affiliation` does,
      makes `ends` read back the same. */
  lemma SetEndsReadsBack(a: Affiliation, b: Affiliation)
    ensures Ends(SetEnds(a, Ends(b))) == Ends(b)
  {
  }

  /** `affiliation.is_current()` at the instant `now`: it started before `now` and has not
      ended, or ends after `now`. Expanding a date that is off the calendar raises. */
  function IsCurrent(a: Affiliation, now: DateTime): (r: Result<bool, DateError>)
    ensures r.Ok? <==> LowestPossible(a.starts).Ok? && (Ends(a).Some? ==> HighestPossible(Ends(a).value).Ok?)
    ensures r == Ok(true) <==> && LowestPossible(a.starts).Ok? && Before(LowestPossible(a.starts).value, now)
                               && (Ends(a).Some? ==> HighestPossible(Ends(a).value).Ok? && Before(now, HighestPossible(Ends(a).value).value))
  {
    match LowestPossible(a.starts)
    case Err(e) => Err(e)
    case Ok(starts) =>
      if Ends(a).None? then Ok(Before(starts, now))
      else
        match HighestPossible(Ends(a).value)
        case Err(e) => Err(e)
        case Ok(ends) => Ok(Before(starts, now) && Before(now, ends))
  }

  datatype EmailAddress = EmailAddress(email: string, restricted: bool, position: int)

  // ---------------------------------------------------------------------------------------
  // Affiliations

  function AffiliationIds(s: seq<Affiliation>): (ids: seq<string>)
    ensures |ids| == |s| && forall i :: 0 <= i < |s| ==> ids[i] == s[i].id
  {
    seq(|s|, i requires 0 <= i < |s| => s[i].id)
  }

  /** Every affiliation's position is its index. */
  predicate AffiliationsPositioned(s: seq<Affiliation>) {
    forall i :: 0 <= i < |s| ==> s[i].position == i
  }

  predicate UniqueAffiliationIds(s: seq<Affiliation>) {
    Distinct(AffiliationIds(s))
  }

  /** `affiliations.reorder()`. */
  function ReorderedAffiliations(s: seq<Affiliation>): (r: seq<Affiliation>)
    ensures |r| == |s| && AffiliationsPositioned(r)
    ensures forall i {:trigger r[i]} :: 0 <= i < |s| ==> r[i] == s[i].(position := i)
    ensures AffiliationIds(r) == AffiliationIds(s)
  {
    seq(|s|, i requires 0 <= i < |s| => s[i].(position := i))
  }

  /** The fields `add_affiliation` copies onto an existing affiliation with the same id. */
  function Overwritten(e: Affiliation, a: Affiliation): (u: Affiliation)
    ensures u.id == e.id && u.position == e.position
    ensures u.department == a.department && u.organisation == a.organisation && u.address == a.address
    ensures u.starts == a.starts && Ends(u) == Ends(a) && u.restricted == a.restricted
  {
    SetEnds(e.(department := a.department, organisation := a.organisation, address := a.address,
               starts := a.starts, restricted := a.restricted), Ends(a))
  }

  /** The list after `profile.add_affiliation(a, position)`. */
  function AffiliationAdded(s: seq<Affiliation>, a: Affiliation, position: int): (r: seq<Affiliation>)
    ensures |r| == if a.id in AffiliationIds(s) then |s| else |s| + 1
    ensures a.id in AffiliationIds(r)
  {
    match FirstIndex(AffiliationIds(s), a.id)
    case None =>
      var k := InsertIndex(|s|, position);
      var r := ReorderedAffiliations(InsertAt(s, k, a));
      assert AffiliationIds(r)[k] == a.id;
      r
    case Some(i) =>
      var u := Overwritten(s[i], a);
      if position != s[i].position then
        var k := InsertIndex(|s| - 1, position);
        var r := ReorderedAffiliations(InsertAt(RemoveAt(s, i), k, u));
        assert AffiliationIds(r)[k] == a.id;
        r
      else
        assert AffiliationIds(s[i := u])[i] == a.id;
        s[i := u]
  }

  lemma InsertAtIds(s: seq<Affiliation>, k: nat, a: Affiliation)
    requires k <= |s|
    ensures AffiliationIds(InsertAt(s, k, a)) == InsertAt(AffiliationIds(s), k, a.id)
  {
  }

  lemma RemoveAtIds(s: seq<Affiliation>, k: nat)
    requires k < |s|
    ensures AffiliationIds(RemoveAt(s, k)) == RemoveAt(AffiliationIds(s), k)
  {
  }

  lemma InsertAtDistinct<T>(s: seq<T>, k: nat, x: T)
    requires k <= |s| && Distinct(s) && x !in s
    ensures Distinct(InsertAt(s, k, x))
  {
    var r := InsertAt(s, k, x);
    forall i, j | 0 <= i < j < |r| ensures r[i] != r[j] {
      if i == k { assert r[j] == s[j - 1]; }
      else if j == k { assert r[i] == s[i]; }
    }
  }

  lemma RemoveAtDistinct<T>(s: seq<T>, k: nat)
    requires k < |s|
    ensures Distinct(s) ==> Distinct(RemoveAt(s, k)) && s[k] !in RemoveAt(s, k)
  {
    if Distinct(s) {
      var r := RemoveAt(s, k);
      forall i | 0 <= i < |r| ensures r[i] != s[k] {
        if i < k { assert r[i] == s[i]; } else { assert r[i] == s[i + 1]; }
      }
    }
  }

  /** An unseen id is inserted where Python's `list.insert(position, ...)` puts it, all
      positions are renumbered, and the list grows by one, keeping ids unique. */
  lemma AddNewAffiliation(s: seq<Affiliation>, a: Affiliation, position: int)
    requires a.id !in AffiliationIds(s)
    ensures var r, k := AffiliationAdded(s, a, position), InsertIndex(|s|, position);
            && |r| == |s| + 1
            && AffiliationsPositioned(r)
            && r[k] == a.(position := k)
            && (forall j {:trigger r[j]} :: 0 <= j < k ==> r[j] == s[j].(position := j))
            && (forall j {:trigger r[j]} :: k < j < |r| ==> r[j] == s[j - 1].(position := j))
            && AffiliationIds(r) == InsertAt(AffiliationIds(s), k, a.id)
            && (UniqueAffiliationIds(s) ==> UniqueAffiliationIds(r))
  {
    var k := InsertIndex(|s|, position);
    InsertAtIds(s, k, a);
    if UniqueAffiliationIds(s) {
      InsertAtDistinct(AffiliationIds(s), k, a.id);
    }
  }

  /** Moving the element at `i` to index `k` keeps the multiset and the distinctness. */
  lemma MoveKeeps<T>(s: seq<T>, i: nat, k: nat)
    requires i < |s| && k <= |s| - 1
    ensures multiset(InsertAt(RemoveAt(s, i), k, s[i])) == multiset(s)
    ensures Distinct(s) ==> Distinct(InsertAt(RemoveAt(s, i), k, s[i]))
  {
    var t := RemoveAt(s, i);
    assert s == s[..i] + [s[i]] + s[i + 1..];
    assert t == s[..i] + s[i + 1..];
    assert multiset(t) + multiset{s[i]} == multiset(s);
    assert InsertAt(t, k, s[i]) == t[..k] + [s[i]] + t[k..];
    assert t == t[..k] + t[k..];
    assert multiset(InsertAt(t, k, s[i])) == multiset(t) + multiset{s[i]};
    if Distinct(s) {
      RemoveAtDistinct(s, i);
      InsertAtDistinct(t, k, s[i]);
    }
  }

  /** A seen id at its current position: the entry is overwritten where it stands. */
  lemma AddExistingAffiliationInPlace(s: seq<Affiliation>, a: Affiliation, position: int, i: nat)
    requires FirstIndex(AffiliationIds(s), a.id) == Some(i) && position == s[i].position
    ensures AffiliationAdded(s, a, position) == s[i := Overwritten(s[i], a)]
    ensures AffiliationIds(AffiliationAdded(s, a, position)) == AffiliationIds(s)
    ensures AffiliationsPositioned(s) ==> AffiliationsPositioned(AffiliationAdded(s, a, position))
  {
    var ids := AffiliationIds(s);
    assert AffiliationIds(s[i := Overwritten(s[i], a)]) == ids[i := a.id];
    assert ids[i := a.id] == ids;
  }

  /** A seen id at another position: the overwritten entry is moved to the inserted position. */
  lemma AddExistingAffiliationMoved(s: seq<Affiliation>, a: Affiliation, position: int, i: nat)
    requires FirstIndex(AffiliationIds(s), a.id) == Some(i) && position != s[i].position
    ensures var r, k := AffiliationAdded(s, a, position), InsertIndex(|s| - 1, position);
            && |r| == |s| && AffiliationsPositioned(r)
            && r[k] == Overwritten(s[i], a).(position := k)
            && AffiliationIds(r) == InsertAt(RemoveAt(AffiliationIds(s), i), k, a.id)
    ensures var r, k := AffiliationAdded(s, a, position), InsertIndex(|s| - 1, position);
            forall j {:trigger r[j]} :: 0 <= j < k ==> r[j] == (if j < i then s[j] else s[j + 1]).(position := j)
    ensures var r, k := AffiliationAdded(s, a, position), InsertIndex(|s| - 1, position);
            forall j {:trigger r[j]} :: k < j < |r| ==> r[j] == (if j <= i then s[j - 1] else s[j]).(position := j)
  {
    var k, u := InsertIndex(|s| - 1, position), Overwritten(s[i], a);
    AffiliationAddedAt(s, a, position, i);
    MovedTo(s, i, k, u, AffiliationAdded(s, a, position));
  }

  /** What `AffiliationAdded` does for an id first seen at index `i`. */
  lemma AffiliationAddedAt(s: seq<Affiliation>, a: Affiliation, position: int, i: nat)
    requires FirstIndex(AffiliationIds(s), a.id) == Some(i)
    ensures position != s[i].position ==>
              AffiliationAdded(s, a, position) ==
              ReorderedAffiliations(InsertAt(RemoveAt(s, i), InsertIndex(|s| - 1, position), Overwritten(s[i], a)))
    ensures position == s[i].position ==> AffiliationAdded(s, a, position) == s[i := Overwritten(s[i], a)]
  {
  }

  /** What `AffiliationAdded` does for an unseen id. */
  lemma AffiliationAddedNew(s: seq<Affiliation>, a: Affiliation, position: int)
    requires a.id !in AffiliationIds(s)
    ensures AffiliationAdded(s, a, position) == ReorderedAffiliations(InsertAt(s, InsertIndex(|s|, position), a))
  {
  }

  /** Taking the entry at `i` out and putting `u` at `k` shifts the entries in between by one. */
  lemma MovedTo(s: seq<Affiliation>, i: nat, k: nat, u: Affiliation, r: seq<Affiliation>)
    requires i < |s| && k <= |s| - 1
    requires r == ReorderedAffiliations(InsertAt(RemoveAt(s, i), k, u))
    ensures |r| == |s| && AffiliationsPositioned(r) && r[k] == u.(position := k)
    ensures AffiliationIds(r) == InsertAt(RemoveAt(AffiliationIds(s), i), k, u.id)
    ensures forall j {:trigger r[j]} :: 0 <= j < k ==> r[j] == (if j < i then s[j] else s[j + 1]).(position := j)
    ensures forall j {:trigger r[j]} :: k < j < |r| ==> r[j] == (if j <= i then s[j - 1] else s[j]).(position := j)
  {
    RemoveAtIds(s, i);
    InsertAtIds(RemoveAt(s, i), k, u);
  }

  /** A seen id overwrites that entry's fields in place or at the inserted position; the
      length, the ids with their multiplicities and their uniqueness stay, and nothing moves
      when `position` is the entry's current one. */
  lemma AddExistingAffiliation(s: seq<Affiliation>, a: Affiliation, position: int)
    requires a.id in AffiliationIds(s)
    ensures var r := AffiliationAdded(s, a, position);
            && |r| == |s|
            && multiset(AffiliationIds(r)) == multiset(AffiliationIds(s))
            && (UniqueAffiliationIds(s) ==> UniqueAffiliationIds(r))
            && (AffiliationsPositioned(s) ==> AffiliationsPositioned(r))
  {
    var i := FirstIndex(AffiliationIds(s), a.id).value;
    if position == s[i].position {
      AddExistingAffiliationInPlace(s, a, position, i);
    } else {
      AddExistingAffiliationMoved(s, a, position, i);
      MoveKeeps(AffiliationIds(s), i, InsertIndex(|s| - 1, position));
    }
  }

  /** Adding keeps positions equal to indices and ids unique. */
  lemma AffiliationAddedValid(s: seq<Affiliation>, a: Affiliation, position: int)
    ensures AffiliationsPositioned(s) && UniqueAffiliationIds(s) ==>
              var r := AffiliationAdded(s, a, position);
              AffiliationsPositioned(r) && UniqueAffiliationIds(r)
  {
    if a.id in AffiliationIds(s) {
      AddExistingAffiliation(s, a, position);
    } else {
      AddNewAffiliation(s, a, position);
    }
  }

  /** The list after `profile.remove_affiliation(id)`. */
  function AffiliationRemoved(s: seq<Affiliation>, id: string): (r: seq<Affiliation>)
    ensures |r| == if id in AffiliationIds(s) then |s| - 1 else |s|
    ensures UniqueAffiliationIds(s) ==> id !in AffiliationIds(r)
  {
    match FirstIndex(AffiliationIds(s), id)
    case None => s
    case Some(i) =>
      RemoveAtIds(s, i);
      RemoveAtDistinct(AffiliationIds(s), i);
      ReorderedAffiliations(RemoveAt(s, i))
  }

  /** Removing the entry at `i` moves the later entries down by one and renumbers them. */
  lemma RemovedAt(s: seq<Affiliation>, i: nat)
    requires i < |s|
    ensures var r := ReorderedAffiliations(RemoveAt(s, i));
            forall j {:trigger r[j]} :: 0 <= j < |r| ==> r[j] == (if j < i then s[j] else s[j + 1]).(position := j)
    ensures AffiliationIds(ReorderedAffiliations(RemoveAt(s, i))) == RemoveAt(AffiliationIds(s), i)
    ensures UniqueAffiliationIds(s) ==> var r := ReorderedAffiliations(RemoveAt(s, i));
              UniqueAffiliationIds(r) && s[i].id !in AffiliationIds(r)
  {
    RemoveAtIds(s, i);
    RemoveAtDistinct(AffiliationIds(s), i);
  }

  /** Removing deletes the entry with that id and renumbers the rest, which keep their
      relative order; an absent id changes nothing. */
  lemma RemoveAffiliationFacts(s: seq<Affiliation>, id: string)
    ensures id !in AffiliationIds(s) ==> AffiliationRemoved(s, id) == s
    ensures id in AffiliationIds(s) ==>
              var r, i := AffiliationRemoved(s, id), FirstIndex(AffiliationIds(s), id).value;
              && |r| == |s| - 1
              && AffiliationsPositioned(r)
              && AffiliationIds(r) == RemoveAt(AffiliationIds(s), i)
              && (UniqueAffiliationIds(s) ==> UniqueAffiliationIds(r) && id !in AffiliationIds(r))
    ensures id in AffiliationIds(s) ==>
              var r, i := AffiliationRemoved(s, id), FirstIndex(AffiliationIds(s), id).value;
              forall j {:trigger r[j]} :: 0 <= j < |r| ==> r[j] == (if j < i then s[j] else s[j + 1]).(position := j)
  {
    if id in AffiliationIds(s) {
      var i := FirstIndex(AffiliationIds(s), id).value;
      var r := AffiliationRemoved(s, id);
      assert r == ReorderedAffiliations(RemoveAt(s, i));
      RemovedAt(s, i);
    } else {
      assert FirstIndex(AffiliationIds(s), id).None?;
    }
  }

  /** The message of the AffiliationNotFound `get_affiliation` raises, as written: it formats
      Python's builtin `id` function, not the id that was looked up. */
  function NotFoundMessageAsWritten(affiliationId: string): (m: string)
    ensures m == "Affiliation with the ID <built-in function id> not found"
  {
    "Affiliation with the ID " + "<built-in function id>" + " not found"
  }

  /** The as-written message cannot tell two missing ids apart. */
  lemma NotFoundMessageAsWrittenLosesId()
    ensures NotFoundMessageAsWritten("1") == NotFoundMessageAsWritten("2")
  {
  }

  /** The intended message names the missing id. */
  function NotFoundMessage(affiliationId: string): (m: string)
    ensures |m| == |affiliationId| + 34
    ensures m[24..24 + |affiliationId|] == affiliationId
  {
    "Affiliation with the ID " + affiliationId + " not found"
  }

  /** Different missing ids give different messages. */
  lemma NotFoundMessageNamesId(x: string, y: string)
    ensures NotFoundMessage(x) == NotFoundMessage(y) <==> x == y
  {
    if NotFoundMessage(x) == NotFoundMessage(y) {
      assert |x| == |y|;
      assert x == NotFoundMessage(x)[24..24 + |x|];
    }
  }

  /** `profile.get_affiliation(id)`: the first affiliation with that id, or the as-written
      AffiliationNotFound. */
  function FoundAffiliation(s: seq<Affiliation>, id: string): (r: Result<Affiliation, NotFoundError>)
    ensures r.Ok? ==> r.value in s && r.value.id == id
    ensures r.Ok? ==> exists i :: 0 <= i < |s| && s[i] == r.value && forall k :: 0 <= k < i ==> s[k].id != id
    ensures r.Ok? <==> id in AffiliationIds(s)
    ensures r.Err? ==> r.error == AffiliationNotFound(NotFoundMessageAsWritten(id))
  {
    match FirstIndex(AffiliationIds(s), id)
    case None => Err(AffiliationNotFound(NotFoundMessageAsWritten(id)))
    case Some(i) => Ok(s[i])
  }

  /** `get_affiliation` with the message naming the id: the same lookup, and only the error
      text differs. */
  function FoundAffiliationIntended(s: seq<Affiliation>, id: string): (r: Result<Affiliation, NotFoundError>)
    ensures r.Ok? <==> FoundAffiliation(s, id).Ok?
    ensures r.Ok? ==> r == FoundAffiliation(s, id)
    ensures r.Err? ==> r.error == AffiliationNotFound(NotFoundMessage(id))
  {
    match FoundAffiliation(s, id)
    case Ok(a) => Ok(a)
    case Err(_) => Err(AffiliationNotFound(NotFoundMessage(id)))
  }

  /** `[aff for aff in affiliations if not aff.restricted]`. */
  function UnrestrictedAffiliations(s: seq<Affiliation>): (r: seq<Affiliation>)
    ensures IsSubsequence(r, s)
    ensures forall a :: multiset(r)[a] == if a.restricted then 0 else multiset(s)[a]
  {
    Filter(s, (a: Affiliation) => !a.restricted)
  }

  /** The error of the first affiliation whose `is_current` raises, if one does. */
  function FirstDateError(s: seq<Affiliation>, now: DateTime): (r: Option<DateError>)
    ensures r.None? <==> forall i :: 0 <= i < |s| ==> IsCurrent(s[i], now).Ok?
    ensures r.Some? ==> exists i :: 0 <= i < |s| && IsCurrent(s[i], now) == Err(r.value) &&
                                    forall j :: 0 <= j < i ==> IsCurrent(s[j], now).Ok?
  {
    if s == [] then None
    else
      var init, last := s[..|s| - 1], s[|s| - 1];
      assert forall i :: 0 <= i < |init| ==> s[i] == init[i];
      match FirstDateError(init, now)
      case Some(e) => Some(e)
      case None => if IsCurrent(last, now).Err? then Some(IsCurrent(last, now).error) else None
  }

  /** `[aff for aff in affiliations if aff.is_current()]`: the current ones, in their order, or
      the error of the first affiliation whose dates cannot be expanded. */
  function CurrentAffiliations(s: seq<Affiliation>, now: DateTime): (r: Result<seq<Affiliation>, DateError>)
    ensures r.Ok? <==> forall i :: 0 <= i < |s| ==> IsCurrent(s[i], now).Ok?
    ensures r.Err? ==> exists i :: 0 <= i < |s| && IsCurrent(s[i], now) == Err(r.error) &&
                                   forall j :: 0 <= j < i ==> IsCurrent(s[j], now).Ok?
  {
    match FirstDateError(s, now)
    case Some(e) => Err(e)
    case None => Ok(Filter(s, (a: Affiliation) => IsCurrent(a, now) == Ok(true)))
  }

  /** The current affiliations keep the stored order, and each current affiliation occurs as
      often as it is stored while no other one occurs. */
  lemma CurrentAffiliationsKept(s: seq<Affiliation>, now: DateTime)
    requires CurrentAffiliations(s, now).Ok?
    ensures var r := CurrentAffiliations(s, now).value;
            && IsSubsequence(r, s)
            && forall a :: multiset(r)[a] == if IsCurrent(a, now) == Ok(true) then multiset(s)[a] else 0
  {
  }

  /** One more affiliation that expands extends the current ones by itself when it is current. */
  lemma CurrentStep(s: seq<Affiliation>, now: DateTime)
    requires s != [] && CurrentAffiliations(s[..|s| - 1], now).Ok? && IsCurrent(s[|s| - 1], now).Ok?
    ensures CurrentAffiliations(s, now) ==
            Ok(CurrentAffiliations(s[..|s| - 1], now).value + (if IsCurrent(s[|s| - 1], now).value then [s[|s| - 1]] else []))
  {
    assert FirstDateError(s[..|s| - 1], now).None?;
  }

  predicate SortedByPosition(s: seq<Affiliation>) {
    forall i, j :: 0 <= i < j < |s| ==> s[i].position <= s[j].position
  }

  /** Inserts `a` before the first element with a position at least its own. */
  function InsertByPosition(a: Affiliation, s: seq<Affiliation>): (r: seq<Affiliation>)
    requires SortedByPosition(s)
    ensures |r| == |s| + 1 && forall i :: 0 <= i < |r| ==> r[i] == a || r[i] in s
    ensures SortedByPosition(r) && multiset(r) == multiset(s) + multiset{a}
  {
    if s == [] || a.position <= s[0].position then [a] + s
    else
      var t := InsertByPosition(a, s[1..]);
      InsertedAfterHead(a, s, t);
      [s[0]] + t
  }

  /** The recursive step of `InsertByPosition`: the head stays in front of the insertion into
      the tail. */
  lemma InsertedAfterHead(a: Affiliation, s: seq<Affiliation>, t: seq<Affiliation>)
    requires SortedByPosition(s) && s != [] && s[0].position < a.position
    requires |t| == |s| && forall i :: 0 <= i < |t| ==> t[i] == a || t[i] in s[1..]
    requires SortedByPosition(t) && multiset(t) == multiset(s[1..]) + multiset{a}
    ensures forall i :: 0 <= i < |t| + 1 ==> ([s[0]] + t)[i] == a || ([s[0]] + t)[i] in s
    ensures SortedByPosition([s[0]] + t)
    ensures multiset([s[0]] + t) == multiset(s) + multiset{a}
  {
    assert s == [s[0]] + s[1..];
    forall i | 0 <= i < |t| ensures s[0].position <= t[i].position {
      if t[i] != a {
        var j :| 0 <= j < |s[1..]| && s[1..][j] == t[i];
        assert s[j + 1] == t[i];
      }
    }
  }

  /** `sorted(affiliations, key=lambda k: k.position)`: a stable sort by position. */
  function SortByPosition(s: seq<Affiliation>): (r: seq<Affiliation>)
    ensures SortedByPosition(r) && multiset(r) == multiset(s)
  {
    if s == [] then []
    else
      assert s == [s[0]] + s[1..];
      InsertByPosition(s[0], SortByPosition(s[1..]))
  }

  /** A list already in position order comes back unchanged, as it does from a profile whose
      positions are its indices. */
  lemma {:induction false} SortSorted(s: seq<Affiliation>)
    requires SortedByPosition(s)
    ensures SortByPosition(s) == s
  {
    if s != [] {
      SortSorted(s[1..]);
    }
  }

  /** Whether `get_affiliations` lists `a`: it is unrestricted unless `includeRestricted`, and
      current at `now` when `currentOnly`. */
  predicate Listed(a: Affiliation, currentOnly: bool, includeRestricted: bool, now: DateTime) {
    (includeRestricted || !a.restricted) && (!currentOnly || IsCurrent(a, now) == Ok(true))
  }

  /** The affiliations `get_affiliations` returns: exactly the listed ones, each as often as it
      is stored, sorted by position. Only the `is_current` check can raise, and only on an
      affiliation that survived the restriction filter. */
  function ListedAffiliations(s: seq<Affiliation>, currentOnly: bool, includeRestricted: bool, now: DateTime): (r: Result<seq<Affiliation>, DateError>)
    ensures r.Ok? <==> !currentOnly || forall i :: 0 <= i < |s| && (includeRestricted || !s[i].restricted) ==> IsCurrent(s[i], now).Ok?
    ensures r.Ok? ==> SortedByPosition(r.value)
    ensures r.Ok? ==> forall a :: multiset(r.value)[a] == if Listed(a, currentOnly, includeRestricted, now) then multiset(s)[a] else 0
    ensures r.Ok? ==> forall a :: a in r.value <==> a in s && Listed(a, currentOnly, includeRestricted, now)
    ensures r.Err? ==> currentOnly && exists i :: && 0 <= i < |s| && (includeRestricted || !s[i].restricted)
                                                 && IsCurrent(s[i], now) == Err(r.error)
  {
    var candidates := if includeRestricted then s else UnrestrictedAffiliations(s);
    CandidateMembers(s, candidates, includeRestricted);
    if !currentOnly then Ok(SortByPosition(candidates))
    else
      match CurrentAffiliations(candidates, now)
      case Err(e) =>
        ListedError(s, candidates, includeRestricted, now, e);
        Err(e)
      case Ok(current) =>
        ListedCurrent(s, candidates, current, includeRestricted, now);
        Ok(SortByPosition(current))
  }

  lemma ListedError(s: seq<Affiliation>, candidates: seq<Affiliation>, includeRestricted: bool, now: DateTime, e: DateError)
    requires forall a :: a in candidates <==> a in s && (includeRestricted || !a.restricted)
    requires CurrentAffiliations(candidates, now) == Err(e)
    ensures exists i :: 0 <= i < |s| && (includeRestricted || !s[i].restricted) && IsCurrent(s[i], now) == Err(e)
  {
    var k :| 0 <= k < |candidates| && IsCurrent(candidates[k], now) == Err(e);
    assert candidates[k] in s;
    var i :| 0 <= i < |s| && s[i] == candidates[k];
  }

  lemma ListedCurrent(s: seq<Affiliation>, candidates: seq<Affiliation>, current: seq<Affiliation>, includeRestricted: bool, now: DateTime)
    requires forall a :: a in candidates <==> a in s && (includeRestricted || !a.restricted)
    requires forall a :: multiset(candidates)[a] == if includeRestricted || !a.restricted then multiset(s)[a] else 0
    requires CurrentAffiliations(candidates, now) == Ok(current)
    ensures forall i :: 0 <= i < |s| && (includeRestricted || !s[i].restricted) ==> IsCurrent(s[i], now).Ok?
    ensures forall a :: multiset(current)[a] == if Listed(a, true, includeRestricted, now) then multiset(s)[a] else 0
    ensures forall a :: a in current <==> a in s && Listed(a, true, includeRestricted, now)
  {
    CurrentAffiliationsKept(candidates, now);
    forall i | 0 <= i < |s| && (includeRestricted || !s[i].restricted) ensures IsCurrent(s[i], now).Ok? {
      assert s[i] in candidates;
      var k :| 0 <= k < |candidates| && candidates[k] == s[i];
    }
    forall a ensures a in current <==> a in s && Listed(a, true, includeRestricted, now) {
      assert a in current <==> multiset(current)[a] > 0;
      assert a in s <==> multiset(s)[a] > 0;
    }
  }

  lemma CandidateMembers(s: seq<Affiliation>, candidates: seq<Affiliation>, includeRestricted: bool)
    requires candidates == if includeRestricted then s else UnrestrictedAffiliations(s)
    ensures forall a :: a in candidates <==> a in s && (includeRestricted || !a.restricted)
    ensures forall a :: multiset(candidates)[a] == if includeRestricted || !a.restricted then multiset(s)[a] else 0
  {
    forall a ensures a in candidates <==> a in s && (includeRestricted || !a.restricted) {
      assert a in candidates <==> multiset(candidates)[a] > 0;
      assert a in s <==> multiset(s)[a] > 0;
    }
  }

  /** A filtered list of a list in position order keeps that order. */
  lemma {:induction false} UnrestrictedSorted(s: seq<Affiliation>)
    requires SortedByPosition(s)
    ensures SortedByPosition(UnrestrictedAffiliations(s))
  {
    if s != [] {
      var init, last := s[..|s| - 1], s[|s| - 1];
      UnrestrictedSorted(init);
      var r := UnrestrictedAffiliations(init);
      assert UnrestrictedAffiliations(s) == r + (if !last.restricted then [last] else []);
      UnrestrictedBelow(init, last);
      SortedSnoc(r, last);
    }
  }

  /** Every unrestricted affiliation of a list sits at or below a bound of the whole list. */
  lemma UnrestrictedBelow(s: seq<Affiliation>, last: Affiliation)
    requires forall j :: 0 <= j < |s| ==> s[j].position <= last.position
    ensures var r := UnrestrictedAffiliations(s);
            forall i :: 0 <= i < |r| ==> r[i].position <= last.position
  {
    var r := UnrestrictedAffiliations(s);
    forall i | 0 <= i < |r| ensures r[i].position <= last.position {
      assert multiset(r)[r[i]] > 0;
      assert r[i] in multiset(s);
    }
  }

  lemma SortedSnoc(r: seq<Affiliation>, last: Affiliation)
    requires SortedByPosition(r) && forall i :: 0 <= i < |r| ==> r[i].position <= last.position
    ensures SortedByPosition(r + [last])
  {
  }

  /** For a profile whose positions are its indices, the full listing is the stored list and
      the unrestricted listing keeps the stored order too. */
  lemma ListedInStoredOrder(s: seq<Affiliation>, now: DateTime)
    requires AffiliationsPositioned(s)
    ensures ListedAffiliations(s, false, true, now) == Ok(s)
    ensures ListedAffiliations(s, false, false, now) == Ok(UnrestrictedAffiliations(s))
  {
    PositionedIsSorted(s);
    SortSorted(s);
    UnrestrictedSorted(s);
    SortSorted(UnrestrictedAffiliations(s));
  }

  lemma PositionedIsSorted(s: seq<Affiliation>)
    requires AffiliationsPositioned(s)
    ensures SortedByPosition(s)
  {
  }

  // ---------------------------------------------------------------------------------------
  // Email addresses

  function Emails(s: seq<EmailAddress>): (es: seq<string>)
    ensures |es| == |s| && forall i :: 0 <= i < |s| ==> es[i] == s[i].email
  {
    seq(|s|, i requires 0 <= i < |s| => s[i].email)
  }

  predicate EmailsPositioned(s: seq<EmailAddress>) {
    forall i :: 0 <= i < |s| ==> s[i].position == i
  }

  predicate UniqueEmails(s: seq<EmailAddress>) {
    Distinct(Emails(s))
  }

  /** `email_addresses.reorder()`. */
  function ReorderedEmails(s: seq<EmailAddress>): (r: seq<EmailAddress>)
    ensures |r| == |s| && EmailsPositioned(r)
    ensures forall i {:trigger r[i]} :: 0 <= i < |s| ==> r[i] == s[i].(position := i)
    ensures Emails(r) == Emails(s)
  {
    seq(|s|, i requires 0 <= i < |s| => s[i].(position := i))
  }

  /** The list after `profile.add_email_address(email, primary, restricted)`. A new address's
      position is only set by the renumbering. */
  function EmailAdded(s: seq<EmailAddress>, email: string, primary: bool, restricted: bool): (r: seq<EmailAddress>)
    ensures |r| == if email in Emails(s) then |s| else |s| + 1
    ensures email in Emails(r)
    ensures primary ==> r[0].email == email && r[0].restricted == restricted
  {
    match FirstIndex(Emails(s), email)
    case Some(i) =>
      var u := s[i].(restricted := restricted);
      if primary then ReorderedEmails(InsertAt(RemoveAt(s, i), 0, u))
      else
        assert Emails(s[i := u])[i] == email;
        s[i := u]
    case None =>
      var e := EmailAddress(email, restricted, 0);
      var r := ReorderedEmails(if primary then [e] + s else s + [e]);
      assert Emails(r)[if primary then 0 else |s|] == email;
      r
  }

  /** What `EmailAdded` does for an address first seen at index `i`. */
  lemma EmailAddedAt(s: seq<EmailAddress>, email: string, primary: bool, restricted: bool, i: nat)
    requires FirstIndex(Emails(s), email) == Some(i)
    ensures primary ==>
              EmailAdded(s, email, primary, restricted) ==
              ReorderedEmails(InsertAt(RemoveAt(s, i), 0, s[i].(restricted := restricted)))
    ensures !primary ==> EmailAdded(s, email, primary, restricted) == s[i := s[i].(restricted := restricted)]
  {
  }

  /** What `EmailAdded` does for a new address. */
  lemma EmailAddedNew(s: seq<EmailAddress>, email: string, primary: bool, restricted: bool)
    requires email !in Emails(s)
    ensures var e := EmailAddress(email, restricted, 0);
            EmailAdded(s, email, primary, restricted) == ReorderedEmails(if primary then [e] + s else s + [e])
  {
  }

  /** Adding keeps positions equal to indices and addresses unique. */
  lemma EmailAddedValid(s: seq<EmailAddress>, email: string, primary: bool, restricted: bool)
    ensures EmailsPositioned(s) && UniqueEmails(s) ==>
              var r := EmailAdded(s, email, primary, restricted);
              EmailsPositioned(r) && UniqueEmails(r)
  {
    if email in Emails(s) {
      AddExistingEmail(s, email, primary, restricted);
    } else {
      AddNewEmail(s, email, primary, restricted);
    }
  }

  lemma EmailsConcat(s: seq<EmailAddress>, t: seq<EmailAddress>)
    ensures Emails(s + t) == Emails(s) + Emails(t)
  {
  }

  /** An address already present only has `restricted` updated, and moves to the front
      exactly when it is made primary; the length and the addresses with their multiplicities
      stay. */
  lemma AddExistingEmail(s: seq<EmailAddress>, email: string, primary: bool, restricted: bool)
    requires email in Emails(s)
    ensures var r, i := EmailAdded(s, email, primary, restricted), FirstIndex(Emails(s), email).value;
            && |r| == |s|
            && multiset(Emails(r)) == multiset(Emails(s))
            && (UniqueEmails(s) ==> UniqueEmails(r))
            && (EmailsPositioned(s) ==> EmailsPositioned(r))
            && (primary ==> r[0] == EmailAddress(email, restricted, 0) && Emails(r) == InsertAt(RemoveAt(Emails(s), i), 0, email))
            && (!primary ==> r == s[i := s[i].(restricted := restricted)])
    ensures var r, i := EmailAdded(s, email, primary, restricted), FirstIndex(Emails(s), email).value;
            primary ==> forall j {:trigger r[j]} :: 1 <= j < |r| ==> r[j] == (if j <= i then s[j - 1] else s[j]).(position := j)
  {
    var i := FirstIndex(Emails(s), email).value;
    if primary {
      ExistingEmailMadePrimary(s, email, restricted, i);
    } else {
      ExistingEmailUpdated(s, email, restricted, i);
    }
  }

  lemma ExistingEmailMadePrimary(s: seq<EmailAddress>, email: string, restricted: bool, i: nat)
    requires FirstIndex(Emails(s), email) == Some(i)
    ensures var r := EmailAdded(s, email, true, restricted);
            && |r| == |s|
            && multiset(Emails(r)) == multiset(Emails(s))
            && (UniqueEmails(s) ==> UniqueEmails(r))
            && EmailsPositioned(r)
            && r[0] == EmailAddress(email, restricted, 0)
            && Emails(r) == InsertAt(RemoveAt(Emails(s), i), 0, email)
    ensures var r := EmailAdded(s, email, true, restricted);
            forall j {:trigger r[j]} :: 1 <= j < |r| ==> r[j] == (if j <= i then s[j - 1] else s[j]).(position := j)
  {
    var u := s[i].(restricted := restricted);
    var r := EmailAdded(s, email, true, restricted);
    assert r == ReorderedEmails(InsertAt(RemoveAt(s, i), 0, u));
    EmailMovedFirst(s, i, u);
    MoveKeeps(Emails(s), i, 0);
  }

  lemma ExistingEmailUpdated(s: seq<EmailAddress>, email: string, restricted: bool, i: nat)
    requires FirstIndex(Emails(s), email) == Some(i)
    ensures EmailAdded(s, email, false, restricted) == s[i := s[i].(restricted := restricted)]
    ensures Emails(EmailAdded(s, email, false, restricted)) == Emails(s)
  {
    var u := s[i].(restricted := restricted);
    assert EmailAdded(s, email, false, restricted) == s[i := u];
    assert Emails(s[i := u]) == Emails(s)[i := email];
  }

  lemma EmailMovedFirst(s: seq<EmailAddress>, i: nat, u: EmailAddress)
    requires i < |s|
    ensures Emails(ReorderedEmails(InsertAt(RemoveAt(s, i), 0, u))) == InsertAt(RemoveAt(Emails(s), i), 0, u.email)
    ensures var r := ReorderedEmails(InsertAt(RemoveAt(s, i), 0, u));
            forall j {:trigger r[j]} :: 1 <= j < |r| ==> r[j] == (if j <= i then s[j - 1] else s[j]).(position := j)
  {
    var t := RemoveAt(s, i);
    var m := InsertAt(t, 0, u);
    forall j | 1 <= j < |m| ensures ReorderedEmails(m)[j] == (if j <= i then s[j - 1] else s[j]).(position := j) {
      assert m[j] == t[j - 1];
    }
    assert Emails(t) == RemoveAt(Emails(s), i);
    assert Emails(InsertAt(t, 0, u)) == InsertAt(Emails(t), 0, u.email);
  }

  /** A new address goes first when primary and last otherwise; the list grows by one. */
  lemma AddNewEmail(s: seq<EmailAddress>, email: string, primary: bool, restricted: bool)
    requires email !in Emails(s)
    ensures var r := EmailAdded(s, email, primary, restricted);
            && |r| == |s| + 1
            && EmailsPositioned(r)
            && (primary ==> r[0] == EmailAddress(email, restricted, 0) && Emails(r) == [email] + Emails(s))
            && (primary ==> forall j {:trigger r[j]} :: 1 <= j < |r| ==> r[j] == s[j - 1].(position := j))
            && (!primary ==> r[|s|] == EmailAddress(email, restricted, |s|) && Emails(r) == Emails(s) + [email])
            && (!primary ==> forall j {:trigger r[j]} :: 0 <= j < |s| ==> r[j] == s[j].(position := j))
            && (UniqueEmails(s) ==> UniqueEmails(r))
  {
    var e := EmailAddress(email, restricted, 0);
    if primary {
      EmailsConcat([e], s);
      if UniqueEmails(s) {
        InsertAtDistinct(Emails(s), 0, email);
        assert InsertAt(Emails(s), 0, email) == [email] + Emails(s);
      }
    } else {
      EmailsConcat(s, [e]);
      if UniqueEmails(s) {
        InsertAtDistinct(Emails(s), |s|, email);
        assert InsertAt(Emails(s), |s|, email) == Emails(s) + [email];
      }
    }
  }

  /** The list after `profile.remove_email_address(email)`. */
  function EmailRemoved(s: seq<EmailAddress>, email: string): (r: seq<EmailAddress>)
    ensures |r| == if email in Emails(s) then |s| - 1 else |s|
    ensures UniqueEmails(s) ==> email !in Emails(r)
  {
    match FirstIndex(Emails(s), email)
    case None => s
    case Some(i) =>
      assert Emails(RemoveAt(s, i)) == RemoveAt(Emails(s), i);
      RemoveAtDistinct(Emails(s), i);
      ReorderedEmails(RemoveAt(s, i))
  }

  /** Removing the address at `i` moves the later addresses down by one and renumbers them. */
  lemma EmailRemovedAt(s: seq<EmailAddress>, i: nat)
    requires i < |s|
    ensures var r := ReorderedEmails(RemoveAt(s, i));
            forall j {:trigger r[j]} :: 0 <= j < |r| ==> r[j] == (if j < i then s[j] else s[j + 1]).(position := j)
    ensures Emails(ReorderedEmails(RemoveAt(s, i))) == RemoveAt(Emails(s), i)
    ensures UniqueEmails(s) ==> var r := ReorderedEmails(RemoveAt(s, i));
              UniqueEmails(r) && s[i].email !in Emails(r)
  {
    assert Emails(RemoveAt(s, i)) == RemoveAt(Emails(s), i);
    RemoveAtDistinct(Emails(s), i);
  }

  lemma EmailRemovedFound(s: seq<EmailAddress>, email: string, i: nat)
    requires FirstIndex(Emails(s), email) == Some(i)
    ensures EmailRemoved(s, email) == ReorderedEmails(RemoveAt(s, i))
  {
  }

  lemma RemoveEmailFacts(s: seq<EmailAddress>, email: string)
    ensures email !in Emails(s) ==> EmailRemoved(s, email) == s
    ensures email in Emails(s) ==>
              var r, i := EmailRemoved(s, email), FirstIndex(Emails(s), email).value;
              && |r| == |s| - 1
              && EmailsPositioned(r)
              && Emails(r) == RemoveAt(Emails(s), i)
              && (UniqueEmails(s) ==> UniqueEmails(r) && email !in Emails(r))
    ensures email in Emails(s) ==>
              var r, i := EmailRemoved(s, email), FirstIndex(Emails(s), email).value;
              forall j {:trigger r[j]} :: 0 <= j < |r| ==> r[j] == (if j < i then s[j] else s[j + 1]).(position := j)
  {
    if email in Emails(s) {
      var i := FirstIndex(Emails(s), email).value;
      EmailRemovedFound(s, email, i);
      EmailRemovedAt(s, i);
    } else {
      assert FirstIndex(Emails(s), email).None?;
    }
  }

  /** `[email for email in self.email_addresses if not email.restricted]`. */
  function UnrestrictedEmails(s: seq<EmailAddress>): (r: seq<EmailAddress>)
    ensures IsSubsequence(r, s)
    ensures forall e :: multiset(r)[e] == if e.restricted then 0 else multiset(s)[e]
  {
    Filter(s, (e: EmailAddress) => !e.restricted)
  }
}
