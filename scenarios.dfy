/**
 * Client code that drives a feed manager through the reconciliation scenarios the
 * platform is designed for, using nothing but the manager's and the entities'
 * contracts.
 */
module Scenarios {
  import opened Wrappers
  import opened Enumerations
  import opened Signals
  import opened FeedEntries
  import opened Dispatcher
  import opened NswRuralFireServiceFeed

  /** An incident with the given id and no optional attributes. */
  function Incident(id: string): FeedEntry {
    FeedEntry(id, None, (0.0, 0.0), 0.0, None, None, None, None, None, None, None, None, None, None)
  }

  /** Managed {A, B}, then a poll returning {B, C}: A is deleted once, B updated once,
      one entity is created for C, and {B, C} is managed afterwards. */
  method ReplaceOneOfTwo() {
    var feed := new FeedManager();
    var a, b, c := Incident("A"), Incident("B"), Incident("C");
    assert ExternalIds([a, b]) == {"A", "B"} by { assert a in [a, b] && b in [a, b]; }
    ghost var r0, u0, c0 := feed.Update(UpdateOk, [a, b]);
    assert feed.managed == {"A", "B"};
    PollBAndC(feed);
  }

  /** The second poll of the scenario above, from a manager that manages {A, B}. */
  method PollBAndC(feed: FeedManager)
    requires feed.Valid() && feed.managed == {"A", "B"}
    modifies feed
  {
    var b, c := Incident("B"), Incident("C");
    ghost var before := feed.log;
    assert ExternalIds([b, c]) == {"B", "C"} by { assert b in [b, c] && c in [b, c]; }
    ghost var removed, updated, created := feed.Update(UpdateOk, [b, c]);
    assert feed.managed == {"B", "C"};
    assert feed.log == before + CycleActions(removed, updated, created);
    assert IsEnumeration(removed, {"A"}) && IsEnumeration(updated, {"B"});
    ReplaceOneOfTwoSignals(removed, updated, created);
    EnumerationSize(Ids(created), {"C"});
    assert |created| == 1 && created[0].externalId == "C" by {
      assert Ids(created)[0] in {"C"};
    }
  }

  lemma ReplaceOneOfTwoSignals(removed: seq<string>, updated: seq<string>, created: seq<LocationEvent>)
    requires IsEnumeration(removed, {"A"}) && IsEnumeration(updated, {"B"})
    ensures var acts := CycleActions(removed, updated, created);
      && CountDispatches(acts, Channel(Signal(DeleteEntity, "A"))) == 1
      && CountDispatches(acts, Channel(Signal(UpdateEntity, "A"))) == 0
      && CountDispatches(acts, Channel(Signal(DeleteEntity, "B"))) == 0
      && CountDispatches(acts, Channel(Signal(UpdateEntity, "B"))) == 1
      && CountDispatches(acts, Channel(Signal(DeleteEntity, "C"))) == 0
      && CountDispatches(acts, Channel(Signal(UpdateEntity, "C"))) == 0
  {
    assert {"A", "B"} - {"B", "C"} == {"A"} && {"A", "B"} * {"B", "C"} == {"B"};
    CycleSignalCounts(removed, updated, created, {"A", "B"}, {"B", "C"}, "A");
    CycleSignalCounts(removed, updated, created, {"A", "B"}, {"B", "C"}, "B");
    CycleSignalCounts(removed, updated, created, {"A", "B"}, {"B", "C"}, "C");
  }

  /** Managed {A}, then a failed poll: A is deleted once and nothing is managed. */
  method ErrorClearsAll() {
    var feed := new FeedManager();
    var a := Incident("A");
    assert ExternalIds([a]) == {"A"} by { assert a in [a]; }
    ghost var r0, u0, c0 := feed.Update(UpdateOk, [a]);
    ghost var before := feed.log;
    ghost var removed, updated, created := feed.Update(UpdateError, []);
    assert feed.managed == {};
    assert feed.log == before + Dispatches(DeleteEntity, removed);
    DispatchesOfEnumeration<LocationEvent>(DeleteEntity, removed, {"A"}, Signal(DeleteEntity, "A"));
    EnumerationSize(removed, {"A"});
    assert |feed.log| == |before| + 1;
    // The entries of the last good poll stay available for lookups.
    assert "A" in feed.feedEntries;
  }

  /** Nothing managed, then a poll returning {X}: one entity for X, no signals; the
      entity's refresh before it is added takes over X's attributes. */
  method FirstPoll() {
    var feed := new FeedManager();
    var x := Incident("X");
    assert ExternalIds([x]) == {"X"} by { assert x in [x]; }
    ghost var removed, updated, created := feed.Update(UpdateOk, [x]);
    EnumerationOfEmpty(removed);
    EnumerationOfEmpty(updated);
    assert feed.log == [AddEntities(created, true)];
    assert feed.managed == {"X"};
    EnumerationSize(Ids(created), {"X"});
    assert Ids(created)[0] in {"X"};
    // Registration refreshes the new entity before adding it: it reads X's entry.
    var entity := feed.log[0].entities[0];
    assert entity in created;
    entity.AsyncUpdate();
    assert entity.State() == StateOf(x);
  }

  /** The same ids polled twice: the second cycle only updates, and an empty
      successful poll afterwards changes nothing. */
  method SameFeedTwice(entries: seq<FeedEntry>) {
    var feed := new FeedManager();
    ghost var r0, u0, c0 := feed.Update(UpdateOk, entries);
    ghost var managed := feed.managed;
    ghost var before := feed.log;
    ghost var removed, updated, created := feed.Update(UpdateOk, entries);
    EnumerationOfEmpty(removed);
    EnumerationOfEmpty(Ids(created));
    assert feed.managed == managed;
    assert feed.log == before + Dispatches(UpdateEntity, updated) + [AddEntities([], true)];
    EnumerationSize(updated, managed);

    ghost var entriesBefore, logBefore := feed.feedEntries, feed.log;
    ghost var r2, u2, c2 := feed.Update(UpdateOkNoData, []);
    assert feed.feedEntries == entriesBefore && feed.managed == managed && feed.log == logBefore;
  }
}
