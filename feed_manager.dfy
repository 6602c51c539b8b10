/**
 * The NSW Rural Fire Service feed platform: a manager that reconciles each poll of
 * the feed against the external ids it manages, and the location-event entities it
 * creates, one per managed id.
 */
module NswRuralFireServiceFeed {
  import opened Wrappers
  import opened Enumerations
  import opened Signals
  import opened Attributes
  import opened FeedEntries
  import opened Dispatcher

  const ATTR_CATEGORY: string := "category"
  const ATTR_COUNCIL_AREA: string := "council_area"
  const ATTR_EXTERNAL_ID: string := "external_id"
  const ATTR_FIRE: string := "fire"
  const ATTR_LOCATION: string := "location"
  const ATTR_PUBLICATION_DATE: string := "publication_date"
  const ATTR_RESPONSIBLE_AGENCY: string := "responsible_agency"
  const ATTR_SIZE: string := "size"
  const ATTR_STATUS: string := "status"
  const ATTR_TYPE: string := "type"
  /** Defined by the host platform's constants module. */
  const ATTR_ATTRIBUTION: string := "attribution"

  /** The fields of an entity that an update refreshes from its feed entry. */
  datatype EventState = EventState(
    name: Option<string>,
    distance: Option<real>,
    latitude: Option<real>,
    longitude: Option<real>,
    attribution: Option<string>,
    category: Option<string>,
    publicationDate: Option<Timestamp>,
    location: Option<string>,
    councilArea: Option<string>,
    status: Option<string>,
    eventType: Option<string>,
    fire: Option<bool>,
    size: Option<string>,
    responsibleAgency: Option<string>)

  /** A freshly constructed entity: every field is `None`. */
  const Blank: EventState :=
    EventState(None, None, None, None, None, None, None, None, None, None, None, None, None, None)

  /** What an entity takes over from its feed entry. */
  function StateOf(entry: FeedEntry): (s: EventState)
    ensures s != Blank
    ensures s.latitude == Some(entry.coordinates.0) && s.longitude == Some(entry.coordinates.1)
    ensures s.distance == Some(entry.distanceToHome)
  {
    EventState(entry.title, Some(entry.distanceToHome),
               Some(entry.coordinates.0), Some(entry.coordinates.1),
               entry.attribution, entry.category, entry.publicationDate, entry.location,
               entry.councilArea, entry.status, entry.eventType, entry.fire, entry.size,
               entry.responsibleAgency)
  }

  function TextOf(o: Option<string>): Value {
    if o.Some? then TextValue(o.value) else NoneValue
  }

  function BoolOf(o: Option<bool>): Value {
    if o.Some? then BoolValue(o.value) else NoneValue
  }

  function DateOf(o: Option<Timestamp>): Value {
    if o.Some? then DateValue(o.value) else NoneValue
  }

  /** The external ids of a batch of entities, in batch order. */
  function Ids(entities: seq<LocationEvent>): (ids: seq<string>)
    ensures |ids| == |entities|
  {
    seq(|entities|, i requires 0 <= i < |entities| => entities[i].externalId)
  }

  /** A logged action agrees with the managed set `tracked` at the moment it was sent:
      no delete signal goes to an id still managed, an update signal only to a managed
      id, and every registered entity's id is already managed. */
  ghost predicate SentConsistently(a: Action<LocationEvent>, tracked: set<string>) {
    match a
    case Dispatch(s) =>
      && (s.kind == DeleteEntity ==> s.externalId !in tracked)
      && (s.kind == UpdateEntity ==> s.externalId in tracked)
    case AddEntities(es, _) => forall e | e in es :: e.externalId in tracked
  }

  /** Every logged action agrees with the managed set recorded beside it. */
  ghost predicate ConsistentLog(acts: seq<Action<LocationEvent>>, tracked: seq<set<string>>) {
    && |tracked| == |acts|
    && forall i :: 0 <= i < |acts| ==> SentConsistently(acts[i], tracked[i])
  }

  /** Signals sent one by one, each agreeing with the managed set recorded for it,
      keep the log consistent. */
  lemma SignalsKeepConsistent(acts: seq<Action<LocationEvent>>, tracked: seq<set<string>>,
                              kind: SignalKind, order: seq<string>, snaps: seq<set<string>>)
    requires ConsistentLog(acts, tracked)
    requires |snaps| == |order|
    requires forall i :: 0 <= i < |order| ==> SentConsistently(Dispatch(Signal(kind, order[i])), snaps[i])
    ensures ConsistentLog(acts + Dispatches(kind, order), tracked + snaps)
  {
    var acts' := acts + Dispatches(kind, order);
    var tracked' := tracked + snaps;
    assert forall i :: 0 <= i < |acts'| ==> SentConsistently(acts'[i], tracked'[i]);
  }

  /** The managed set after each step of a loop that removes the ids of `order` from
      `start` one at a time: entry i lacks `order[0]` to `order[i]`. */
  ghost function AfterEachRemoval(start: set<string>, order: seq<string>): (snaps: seq<set<string>>)
    ensures |snaps| == |order|
    decreases |order|
  {
    if order == [] then []
    else
      var snaps := AfterEachRemoval(start, order[..|order| - 1]);
      snaps + [Current(start, snaps) - {order[|order| - 1]}]
  }

  /** The managed set once the recorded steps `snaps` have been taken from `start`. */
  ghost function Current(start: set<string>, snaps: seq<set<string>>): set<string> {
    if snaps == [] then start else snaps[|snaps| - 1]
  }

  /** Right after step i an id is still managed exactly when it was managed at the start
      and is not among the first i + 1 ids removed. */
  lemma {:induction false} AfterEachRemovalMembers(start: set<string>, order: seq<string>, i: nat, x: string)
    requires i < |order|
    ensures x in AfterEachRemoval(start, order)[i] <==> x in start && x !in order[..i + 1]
    decreases |order|
  {
    var n := |order| - 1;
    if i < n {
      AfterEachRemovalMembers(start, order[..n], i, x);
      assert order[..n][..i + 1] == order[..i + 1];
    } else if n > 0 {
      AfterEachRemovalMembers(start, order[..n], n - 1, x);
      assert order[..n][..n] == order[..n];
      assert order[..n + 1] == order[..n] + [order[n]];
    } else {
      assert order[..1] == [order[0]];
    }
  }

  /** One more removal appends the managed set without that id. */
  lemma AfterEachRemovalSnoc(start: set<string>, order: seq<string>, x: string)
    ensures AfterEachRemoval(start, order + [x])
            == AfterEachRemoval(start, order) + [Current(start, AfterEachRemoval(start, order)) - {x}]
  {
    assert (order + [x])[..|order|] == order;
  }

  /** When the delete for `order[i]` is sent the id is no longer managed, while every id
      whose turn comes later is still managed. */
  lemma DeleteFollowsRemoval(start: set<string>, order: seq<string>, i: nat)
    requires i < |order|
    requires forall j, k :: 0 <= j < k < |order| ==> order[j] != order[k]
    ensures order[i] !in AfterEachRemoval(start, order)[i]
    ensures forall j :: i < j < |order| ==> (order[j] in AfterEachRemoval(start, order)[i] <==> order[j] in start)
  {
    AfterEachRemovalMembers(start, order, i, order[i]);
    forall j | i < j < |order|
      ensures order[j] in AfterEachRemoval(start, order)[i] <==> order[j] in start
    {
      AfterEachRemovalMembers(start, order, i, order[j]);
      assert forall k :: 0 <= k < i + 1 ==> order[..i + 1][k] == order[k];
    }
  }

  /** `n` copies of the managed set `s`, recorded by signals that leave it unchanged. */
  ghost function Repeat(s: set<string>, n: nat): (r: seq<set<string>>)
    ensures |r| == n && forall i :: 0 <= i < n ==> r[i] == s
  {
    seq(n, _ => s)
  }

  /** The managed set recorded at each action of a successful cycle that starts from
      `start` and ends managing `fetched`: one entry per removal, then the surviving ids
      at each update, then `fetched` at the registration call. */
  ghost function CycleHistory(start: set<string>, fetched: set<string>,
                              removed: seq<string>, updated: seq<string>): seq<set<string>>
  {
    AfterEachRemoval(start, removed) + Repeat(start * fetched, |updated|) + [fetched]
  }

  /** Update signals for the members of a managed set, each sent while that set was
      the managed one, all agree with it. */
  lemma UpdatesGoToManaged(order: seq<string>, ids: set<string>, snaps: seq<set<string>>,
                           tracked: set<string>)
    requires IsEnumeration(order, ids) && ids <= tracked
    requires snaps == Repeat(tracked, |order|)
    ensures forall i :: 0 <= i < |order| ==> SentConsistently(Dispatch(Signal(UpdateEntity, order[i])), snaps[i])
  {
    forall i | 0 <= i < |order|
      ensures SentConsistently(Dispatch(Signal(UpdateEntity, order[i])), snaps[i])
    {
      assert order[i] in order;
    }
  }

  class FeedManager {
    /** The entries of the last successful poll, by external id, for entity lookups. */
    var feedEntries: map<string, FeedEntry>
    /** The external ids that currently have an entity. */
    var managed: set<string>
    /** Everything sent through the dispatcher or to the registration callback. */
    var log: seq<Action<LocationEvent>>
    /** The managed set at the moment each logged action was sent. */
    ghost var trackedAtLog: seq<set<string>>

    ghost predicate LogConsistent()
      reads this
    {
      ConsistentLog(log, trackedAtLog)
    }

    /** Between cycles: the log agrees with membership, and every managed id has an
        entry to look up. */
    ghost predicate Valid()
      reads this
    {
      LogConsistent() && managed <= feedEntries.Keys
    }

    constructor ()
      ensures Valid()
      ensures feedEntries == map[] && managed == {} && log == []
    {
      feedEntries, managed, log := map[], {}, [];
      trackedAtLog := [];
    }

    /** `dispatcher_send(hass, Channel(signal))`. */
    method DispatcherSend(signal: Signal)
      modifies this`log, this`trackedAtLog
      ensures log == old(log) + [Dispatch(signal)]
      ensures trackedAtLog == old(trackedAtLog) + [managed]
    {
      log := log + [Dispatch(signal)];
      trackedAtLog := trackedAtLog + [managed];
    }

    /** `add_entities(entities, update_before_add)`, the registration callback. */
    method RegisterEntities(entities: seq<LocationEvent>, updateBeforeAdd: bool)
      modifies this`log, this`trackedAtLog
      ensures log == old(log) + [AddEntities(entities, updateBeforeAdd)]
      ensures trackedAtLog == old(trackedAtLog) + [managed]
    {
      log := log + [AddEntities(entities, updateBeforeAdd)];
      trackedAtLog := trackedAtLog + [managed];
    }

    /** One polling cycle, given what the feed client returned. */
    method Update(status: Status, entries: seq<FeedEntry>)
      returns (ghost removed: seq<string>, ghost updated: seq<string>, ghost created: seq<LocationEvent>)
      requires Valid()
      modifies this
      ensures Valid()
      ensures status == UpdateOk ==>
        && feedEntries == EntryMap(entries)
        && managed == feedEntries.Keys
        && IsEnumeration(removed, old(managed) - feedEntries.Keys)
        && IsEnumeration(updated, old(managed) * feedEntries.Keys)
        && IsEnumeration(Ids(created), feedEntries.Keys - old(managed))
        && (forall e | e in created :: fresh(e) && e.feedManager == this && e.State() == Blank)
        && log == old(log) + CycleActions(removed, updated, created)
      ensures status == UpdateOk ==>
        trackedAtLog == old(trackedAtLog) + CycleHistory(old(managed), managed, removed, updated)
      ensures status == UpdateOkNoData ==>
        && feedEntries == old(feedEntries) && managed == old(managed)
        && log == old(log) && trackedAtLog == old(trackedAtLog)
      ensures status == UpdateError ==>
        && feedEntries == old(feedEntries)
        && managed == {}
        && IsEnumeration(removed, old(managed))
        && log == old(log) + Dispatches(DeleteEntity, removed)
        && trackedAtLog == old(trackedAtLog) + AfterEachRemoval(old(managed), removed)
    {
      removed, updated, created := [], [], [];
      if status == UpdateOk {
        feedEntries := EntryMap(entries);
        var feedExternalIds := feedEntries.Keys;
        var removeExternalIds := managed - feedExternalIds;
        removed := RemoveEntities(removeExternalIds);
        ghost var kept := managed;
        assert kept == old(managed) * feedExternalIds;
        var updateExternalIds := managed * feedExternalIds;
        updated := UpdateEntities(updateExternalIds);
        assert Repeat(kept, |updated|) == Repeat(old(managed) * feedExternalIds, |updated|);
        var createExternalIds := feedExternalIds - managed;
        assert updateExternalIds == old(managed) * feedExternalIds;
        assert createExternalIds == feedExternalIds - old(managed);
        created := GenerateNewEntities(createExternalIds);
        assert managed == feedExternalIds;
        assert CycleHistory(old(managed), managed, removed, updated)
               == AfterEachRemoval(old(managed), removed) + Repeat(old(managed) * feedExternalIds, |updated|) + [managed];
        AppendInPieces(old(trackedAtLog), AfterEachRemoval(old(managed), removed),
                      Repeat(old(managed) * feedExternalIds, |updated|), [managed]);
        assert trackedAtLog == old(trackedAtLog) + CycleHistory(old(managed), managed, removed, updated);
        AppendInPieces(old(log), Dispatches(DeleteEntity, removed), Dispatches(UpdateEntity, updated),
                       [AddEntities(created, true)]);
      } else if status == UpdateOkNoData {
      } else {
        removed := RemoveEntities(managed);
      }
    }

    /** Creates one entity per id, manages each id, then registers the whole batch in
        one call, with an update before adding. The call happens for an empty batch too. */
    method GenerateNewEntities(ids: set<string>) returns (ghost created: seq<LocationEvent>)
      requires LogConsistent()
      modifies this`managed, this`log, this`trackedAtLog
      ensures managed == old(managed) + ids
      ensures IsEnumeration(Ids(created), ids)
      ensures forall e | e in created :: fresh(e) && e.feedManager == this && e.State() == Blank
      ensures log == old(log) + [AddEntities(created, true)]
      ensures trackedAtLog == old(trackedAtLog) + [managed]
      ensures LogConsistent()
    {
      var newEntities: seq<LocationEvent> := [];
      var remaining := ids;
      while remaining != {}
        invariant remaining <= ids
        invariant managed == old(managed) + (ids - remaining)
        invariant IsEnumeration(Ids(newEntities), ids - remaining)
        invariant forall e | e in newEntities :: fresh(e) && e.feedManager == this && e.State() == Blank
        invariant log == old(log) && trackedAtLog == old(trackedAtLog)
        decreases remaining
      {
        var externalId :| externalId in remaining;
        var newEntity := new LocationEvent(this, externalId);
        assert Ids(newEntities + [newEntity]) == Ids(newEntities) + [externalId];
        newEntities := newEntities + [newEntity];
        managed := managed + {externalId};
        remaining := remaining - {externalId};
      }
      forall e | e in newEntities ensures e.externalId in managed {
        var i :| 0 <= i < |newEntities| && newEntities[i] == e;
        assert Ids(newEntities)[i] == e.externalId;
      }
      RegisterEntities(newEntities, true);
      created := newEntities;
    }

    /** Sends an update signal to each id; membership does not change. */
    method UpdateEntities(ids: set<string>) returns (ghost order: seq<string>)
      requires LogConsistent()
      modifies this`log, this`trackedAtLog
      ensures IsEnumeration(order, ids)
      ensures log == old(log) + Dispatches(UpdateEntity, order)
      ensures trackedAtLog == old(trackedAtLog) + Repeat(managed, |order|)
      ensures ids <= managed ==> LogConsistent()
    {
      order := [];
      ghost var snaps: seq<set<string>> := [];
      var remaining := ids;
      while remaining != {}
        invariant remaining <= ids
        invariant IsEnumeration(order, ids - remaining)
        invariant log == old(log) + Dispatches(UpdateEntity, order)
        invariant trackedAtLog == old(trackedAtLog) + snaps
        invariant |snaps| == |order| && forall i :: 0 <= i < |order| ==> snaps[i] == managed
        decreases remaining
      {
        var externalId :| externalId in remaining;
        DispatcherSend(Signal(UpdateEntity, externalId));
        EnumerationSnoc(order, ids - remaining, externalId);
        DispatchesSnoc<LocationEvent>(UpdateEntity, order, externalId);
        order, snaps := order + [externalId], snaps + [managed];
        remaining := remaining - {externalId};
      }
      assert snaps == Repeat(managed, |order|);
      if ids <= managed {
        UpdatesGoToManaged(order, ids, snaps, managed);
        SignalsKeepConsistent(old(log), old(trackedAtLog), UpdateEntity, order, snaps);
      }
    }

    /** For each id: stop managing it, then send its delete signal. Every id must be
        managed (removing an absent id from a Python set raises). */
    method RemoveEntities(ids: set<string>) returns (ghost order: seq<string>)
      requires ids <= managed
      requires LogConsistent()
      modifies this`managed, this`log, this`trackedAtLog
      ensures managed == old(managed) - ids
      ensures IsEnumeration(order, ids)
      ensures log == old(log) + Dispatches(DeleteEntity, order)
      ensures trackedAtLog == old(trackedAtLog) + AfterEachRemoval(old(managed), order)
      ensures LogConsistent()
    {
      order := [];
      ghost var snaps: seq<set<string>> := [];
      var remaining := ids;
      while remaining != {}
        invariant remaining <= ids
        invariant managed == old(managed) - (ids - remaining)
        invariant IsEnumeration(order, ids - remaining)
        invariant log == old(log) + Dispatches(DeleteEntity, order)
        invariant trackedAtLog == old(trackedAtLog) + snaps
        invariant snaps == AfterEachRemoval(old(managed), order)
        invariant managed == Current(old(managed), snaps)
        decreases remaining
      {
        var externalId :| externalId in remaining;
        assert externalId in managed;
        managed := managed - {externalId};
        DispatcherSend(Signal(DeleteEntity, externalId));
        EnumerationSnoc(order, ids - remaining, externalId);
        DispatchesSnoc<LocationEvent>(DeleteEntity, order, externalId);
        AfterEachRemovalSnoc(old(managed), order, externalId);
        order, snaps := order + [externalId], snaps + [managed];
        remaining := remaining - {externalId};
      }
      forall i | 0 <= i < |order|
        ensures SentConsistently(Dispatch(Signal(DeleteEntity, order[i])), snaps[i])
      {
        DeleteFollowsRemoval(old(managed), order, i);
      }
      SignalsKeepConsistent(old(log), old(trackedAtLog), DeleteEntity, order, snaps);
    }
  }

  class LocationEvent {
    const feedManager: FeedManager
    const externalId: string
    var name: Option<string>
    var distance: Option<real>
    var latitude: Option<real>
    var longitude: Option<real>
    var attribution: Option<string>
    var category: Option<string>
    var publicationDate: Option<Timestamp>
    var location: Option<string>
    var councilArea: Option<string>
    var status: Option<string>
    var eventType: Option<string>
    var fire: Option<bool>
    var size: Option<string>
    var responsibleAgency: Option<string>

    ghost function State(): EventState
      reads this
    {
      EventState(name, distance, latitude, longitude, attribution, category,
                 publicationDate, location, councilArea, status, eventType, fire, size,
                 responsibleAgency)
    }

    constructor (feedManager: FeedManager, externalId: string)
      ensures this.feedManager == feedManager && this.externalId == externalId
      ensures State() == Blank
    {
      this.feedManager := feedManager;
      this.externalId := externalId;
      name, distance, latitude, longitude := None, None, None, None;
      attribution, category, publicationDate, location := None, None, None, None;
      councilArea, status, eventType, fire := None, None, None, None;
      size, responsibleAgency := None, None;
    }

    /** Refreshes the entity from the manager's entry for its id; an id the manager has
        no entry for leaves every field as it was. */
    method AsyncUpdate()
      modifies this
      ensures externalId in feedManager.feedEntries ==>
                State() == StateOf(feedManager.feedEntries[externalId])
      ensures externalId !in feedManager.feedEntries ==> State() == old(State())
    {
      var entries := feedManager.feedEntries;
      var feedEntry := if externalId in entries then Some(entries[externalId]) else None;
      if feedEntry.Some? {
        UpdateFromFeed(feedEntry.value);
      }
    }

    method UpdateFromFeed(feedEntry: FeedEntry)
      modifies this
      ensures State() == StateOf(feedEntry)
    {
      name, distance := feedEntry.title, Some(feedEntry.distanceToHome);
      latitude, longitude := Some(feedEntry.coordinates.0), Some(feedEntry.coordinates.1);
      attribution, category := feedEntry.attribution, feedEntry.category;
      publicationDate, location := feedEntry.publicationDate, feedEntry.location;
      councilArea, status, eventType := feedEntry.councilArea, feedEntry.status, feedEntry.eventType;
      fire, size := feedEntry.fire, feedEntry.size;
      responsibleAgency := feedEntry.responsibleAgency;
    }

    /** The candidate state attributes, in the order the entity offers them. */
    function AttributePairs(): (pairs: seq<(string, Value)>)
      reads this
      ensures |pairs| == 11 && DistinctKeys(pairs)
      ensures pairs[0] == (ATTR_EXTERNAL_ID, TextValue(externalId))
      ensures pairs[8] == (ATTR_FIRE, BoolOf(fire))
    {
      [ (ATTR_EXTERNAL_ID, TextValue(externalId)),
        (ATTR_CATEGORY, TextOf(category)),
        (ATTR_LOCATION, TextOf(location)),
        (ATTR_ATTRIBUTION, TextOf(attribution)),
        (ATTR_PUBLICATION_DATE, DateOf(publicationDate)),
        (ATTR_COUNCIL_AREA, TextOf(councilArea)),
        (ATTR_STATUS, TextOf(status)),
        (ATTR_TYPE, TextOf(eventType)),
        (ATTR_FIRE, BoolOf(fire)),
        (ATTR_SIZE, TextOf(size)),
        (ATTR_RESPONSIBLE_AGENCY, TextOf(responsibleAgency)) ]
    }

    /** The state attributes: each candidate key is present exactly when its value is
        truthy or a bool, with that value, and no other key is present. */
    method DeviceStateAttributes() returns (attributes: map<string, Value>)
      ensures attributes == Filter(AttributePairs())
      ensures forall i :: 0 <= i < |AttributePairs()| ==>
                (AttributePairs()[i].0 in attributes <==> Kept(AttributePairs()[i].1))
      ensures forall i :: 0 <= i < |AttributePairs()| && Kept(AttributePairs()[i].1) ==>
                attributes[AttributePairs()[i].0] == AttributePairs()[i].1
      ensures forall k :: k in attributes ==> exists i :: 0 <= i < |AttributePairs()| && AttributePairs()[i].0 == k
      ensures ATTR_EXTERNAL_ID in attributes <==> externalId != ""
      ensures ATTR_FIRE in attributes <==> fire.Some?
    {
      var pairs := AttributePairs();
      attributes := map[];
      for i := 0 to |pairs|
        invariant attributes == Filter(pairs[..i])
      {
        assert pairs[..i + 1][..i] == pairs[..i];
        var (key, value) := pairs[i];
        if Kept(value) {
          attributes := attributes[key := value];
        }
      }
      assert pairs[..|pairs|] == pairs;
      FilterExact(pairs);
      assert pairs[0].0 == ATTR_EXTERNAL_ID && pairs[8].0 == ATTR_FIRE;
    }
  }
}
