/** `profiles/events.py`: after a commit, one profile event is published on the bus for every
    changed Profile, in the order of the changes. The bus publisher is a class that records the
    events it accepted; whether an attempt succeeds or raises is its function `respond` of the
    events accepted so far and the new event. */
module Events {
  /** An instance in a committed change: a Profile (by its id), or any other model row. */
  datatype Instance =
    | ProfileInstance(id: string)
    | OtherInstance

  datatype Change = Change(instance: Instance, operation: string)

  /** `ProfileEvent(id=...)`. */
  datatype ProfileEvent = ProfileEvent(id: string)

  /** How one `publisher.publish(event)` ends. */
  datatype PublishResult =
    | Published
    | RaisedAttributeError
    | RaisedRuntimeError
    | RaisedOther(kind: string)

  /** How the handler ends: normally, with `UpdateEventFailure`, or with an exception it lets through. */
  datatype SendOutcome =
    | AllSent
    | UpdateEventFailure(message: string)
    | Uncaught(kind: string)

  class Publisher {
    var published: seq<ProfileEvent>
    const respond: (seq<ProfileEvent>, ProfileEvent) -> PublishResult

    constructor (respond: (seq<ProfileEvent>, ProfileEvent) -> PublishResult)
      ensures published == [] && this.respond == respond
    {
      published := [];
      this.respond := respond;
    }

    /** `publish(event)`: an accepted event is appended to the record; a raising one is not. */
    method Publish(event: ProfileEvent) returns (result: PublishResult)
      modifies this
      ensures result == respond(old(published), event)
      ensures published == old(published) + if result.Published? then [event] else []
    {
      result := respond(published, event);
      if result.Published? {
        published := published + [event];
      }
    }
  }

  /** `'{0}'.format(profile)`, which falls back to `Profile.__repr__`: `<Profile 'id'>`. */
  function ProfileRepr(id: string): string {
    "<Profile '" + id + "'>"
  }

  /** The message of the `UpdateEventFailure` raised for a profile change. */
  function FailureMessage(id: string, operation: string): string {
    "Failed to send " + ProfileRepr(id) + " event for Profile " + operation
  }

  /** The record after handling `changes` with `log` already published, and how handling ends. */
  function Send(log: seq<ProfileEvent>, changes: seq<Change>, respond: (seq<ProfileEvent>, ProfileEvent) -> PublishResult)
    : (r: (seq<ProfileEvent>, SendOutcome))
    ensures log <= r.0 && |r.0| <= |log| + |changes|
    decreases |changes|
  {
    if changes == [] then (log, AllSent)
    else
      match changes[0].instance
      case OtherInstance => Send(log, changes[1..], respond)
      case ProfileInstance(id) =>
        match respond(log, ProfileEvent(id))
        case Published => Send(log + [ProfileEvent(id)], changes[1..], respond)
        case RaisedAttributeError => (log, UpdateEventFailure(FailureMessage(id, changes[0].operation)))
        case RaisedRuntimeError => (log, UpdateEventFailure(FailureMessage(id, changes[0].operation)))
        case RaisedOther(kind) => (log, Uncaught(kind))
  }

  /** The ids of the changed Profiles, in the order of the changes, repeats kept. */
  function ProfileIds(changes: seq<Change>): (ids: seq<string>)
    ensures |ids| <= |changes|
  {
    if changes == [] then []
    else if changes[0].instance.ProfileInstance? then [changes[0].instance.id] + ProfileIds(changes[1..])
    else ProfileIds(changes[1..])
  }

  function EventsFor(ids: seq<string>): (es: seq<ProfileEvent>)
    ensures |es| == |ids| && forall i :: 0 <= i < |ids| ==> es[i] == ProfileEvent(ids[i])
  {
    seq(|ids|, i requires 0 <= i < |ids| => ProfileEvent(ids[i]))
  }

  lemma EventsForCons(id: string, ids: seq<string>)
    ensures EventsFor([id] + ids) == [ProfileEvent(id)] + EventsFor(ids)
  {
    assert EventsFor([id] + ids) == [ProfileEvent(id)] + EventsFor(ids);
  }

  /** `wrapper(sender, changes)`: publish an event for each Profile change, stopping at the first
      failure; AttributeError and RuntimeError become `UpdateEventFailure`. */
  method SendUpdateEvents(publisher: Publisher, changes: seq<Change>) returns (outcome: SendOutcome)
    modifies publisher
    ensures (publisher.published, outcome) == Send(old(publisher.published), changes, publisher.respond)
  {
    var i := 0;
    while i < |changes|
      invariant 0 <= i <= |changes|
      invariant Send(old(publisher.published), changes, publisher.respond) == Send(publisher.published, changes[i..], publisher.respond)
    {
      assert changes[i..][1..] == changes[i + 1..];
      var change := changes[i];
      assert changes[i..][0] == change;
      if change.instance.ProfileInstance? {
        ghost var before := publisher.published;
        var result := publisher.Publish(ProfileEvent(change.instance.id));
        if result.RaisedAttributeError? || result.RaisedRuntimeError? {
          assert publisher.published == before + [] == before;
          assert Send(before, changes[i..], publisher.respond) ==
                   (before, UpdateEventFailure(FailureMessage(change.instance.id, changes[i..][0].operation)));
          return UpdateEventFailure(FailureMessage(change.instance.id, change.operation));
        } else if result.RaisedOther? {
          assert publisher.published == before + [] == before;
          assert Send(before, changes[i..], publisher.respond) == (before, Uncaught(result.kind));
          return Uncaught(result.kind);
        }
      }
      i := i + 1;
    }
    assert changes[i..] == [];
    outcome := AllSent;
  }

  /** What is published is always a prefix of one event per Profile change, in order; when
      handling ends normally it is all of them. */
  lemma {:induction false} SendPublishesInOrder(log: seq<ProfileEvent>, changes: seq<Change>,
                                                respond: (seq<ProfileEvent>, ProfileEvent) -> PublishResult)
    ensures Send(log, changes, respond).0 <= log + EventsFor(ProfileIds(changes))
    ensures Send(log, changes, respond).1 == AllSent ==> Send(log, changes, respond).0 == log + EventsFor(ProfileIds(changes))
    decreases |changes|
  {
    if changes != [] {
      SendPublishesInOrder(log, changes[1..], respond);
      if changes[0].instance.ProfileInstance? {
        var e := ProfileEvent(changes[0].instance.id);
        EventsForCons(changes[0].instance.id, ProfileIds(changes[1..]));
        assert log + EventsFor(ProfileIds(changes)) == (log + [e]) + EventsFor(ProfileIds(changes[1..]));
        SendPublishesInOrder(log + [e], changes[1..], respond);
      }
    }
  }

  /** A publisher that accepts everything receives exactly one event per Profile change. */
  lemma SendAllAccepted(log: seq<ProfileEvent>, changes: seq<Change>,
                        respond: (seq<ProfileEvent>, ProfileEvent) -> PublishResult)
    requires forall l, e :: respond(l, e) == Published
    ensures Send(log, changes, respond) == (log + EventsFor(ProfileIds(changes)), AllSent)
  {
    SendNeverFails(log, changes, respond);
    SendPublishesInOrder(log, changes, respond);
  }

  lemma {:induction false} SendNeverFails(log: seq<ProfileEvent>, changes: seq<Change>,
                                          respond: (seq<ProfileEvent>, ProfileEvent) -> PublishResult)
    requires forall l, e :: respond(l, e) == Published
    ensures Send(log, changes, respond).1 == AllSent
    decreases |changes|
  {
    if changes != [] {
      if changes[0].instance.ProfileInstance? {
        SendNeverFails(log + [ProfileEvent(changes[0].instance.id)], changes[1..], respond);
      } else {
        SendNeverFails(log, changes[1..], respond);
      }
    }
  }

  /** Changes to anything but Profiles (affiliations, email addresses, ...) publish nothing and
      never fail. */
  lemma {:induction false} SendIgnoresOthers(log: seq<ProfileEvent>, changes: seq<Change>,
                                             respond: (seq<ProfileEvent>, ProfileEvent) -> PublishResult)
    requires forall i :: 0 <= i < |changes| ==> changes[i].instance == OtherInstance
    ensures Send(log, changes, respond) == (log, AllSent)
    decreases |changes|
  {
    if changes != [] {
      SendIgnoresOthers(log, changes[1..], respond);
    }
  }

  /** Handling two batches in a row: a failure in the first stops everything after it; otherwise
      the second continues from the record the first left. */
  lemma {:induction false} SendConcat(log: seq<ProfileEvent>, a: seq<Change>, b: seq<Change>,
                                      respond: (seq<ProfileEvent>, ProfileEvent) -> PublishResult)
    ensures Send(log, a, respond).1 != AllSent ==> Send(log, a + b, respond) == Send(log, a, respond)
    ensures Send(log, a, respond).1 == AllSent ==>
              Send(log, a + b, respond) == Send(Send(log, a, respond).0, b, respond)
    decreases |a|
  {
    if a == [] {
      assert a + b == b;
    } else {
      assert (a + b)[0] == a[0];
      assert (a + b)[1..] == a[1..] + b;
      if a[0].instance.ProfileInstance? {
        SendConcat(log + [ProfileEvent(a[0].instance.id)], a[1..], b, respond);
      } else {
        SendConcat(log, a[1..], b, respond);
      }
    }
  }

  /** The event for a Profile change carries the profile's id, whatever the operation was. */
  lemma SendOneChange(log: seq<ProfileEvent>, id: string, operation: string,
                      respond: (seq<ProfileEvent>, ProfileEvent) -> PublishResult)
    ensures respond(log, ProfileEvent(id)).Published? ==>
              Send(log, [Change(ProfileInstance(id), operation)], respond) == (log + [ProfileEvent(id)], AllSent)
    ensures respond(log, ProfileEvent(id)).RaisedAttributeError? || respond(log, ProfileEvent(id)).RaisedRuntimeError? ==>
              Send(log, [Change(ProfileInstance(id), operation)], respond) == (log, UpdateEventFailure(FailureMessage(id, operation)))
  {
    var c := [Change(ProfileInstance(id), operation)];
    assert c[1..] == [];
  }
}
