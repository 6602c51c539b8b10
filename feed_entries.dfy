/**
 * What one poll of the feed client yields: a status and a list of entries. Entries are
 * values; a later poll produces new entries, never changes old ones.
 */
module FeedEntries {
  import opened Wrappers
  import opened Attributes

  /** The feed client's UPDATE_OK, UPDATE_OK_NO_DATA and any other (error) status. */
  datatype Status = UpdateOk | UpdateOkNoData | UpdateError

  /** One fetched incident. Coordinates and distance are opaque payload: the platform
      copies them and does no arithmetic on them. */
  datatype FeedEntry = FeedEntry(
    externalId: string,
    title: Option<string>,
    coordinates: (real, real),
    distanceToHome: real,
    attribution: Option<string>,
    category: Option<string>,
    publicationDate: Option<Timestamp>,
    location: Option<string>,
    councilArea: Option<string>,
    status: Option<string>,
    eventType: Option<string>,
    fire: Option<bool>,
    size: Option<string>,
    responsibleAgency: Option<string>)

  /** The ids occurring in a fetched list. */
  function ExternalIds(entries: seq<FeedEntry>): set<string> {
    set e | e in entries :: e.externalId
  }

  /** An id is fetched exactly when some position of the list carries it, and a
      fetched list is empty exactly when its id set is. */
  lemma ExternalIdsExact(entries: seq<FeedEntry>)
    ensures forall i :: 0 <= i < |entries| ==> entries[i].externalId in ExternalIds(entries)
    ensures forall id :: id in ExternalIds(entries) <==>
              exists i :: 0 <= i < |entries| && entries[i].externalId == id
    ensures ExternalIds(entries) == {} <==> entries == []
  {
    forall id | id in ExternalIds(entries)
      ensures exists i :: 0 <= i < |entries| && entries[i].externalId == id
    {
      var e :| e in entries && e.externalId == id;
      var i :| 0 <= i < |entries| && entries[i] == e;
    }
    if entries != [] {
      assert entries[0] in entries;
    }
  }

  /** `{entry.external_id: entry for entry in feed_entries}`: one key per fetched id,
      the value being an entry with that id taken from the list. */
  function EntryMap(entries: seq<FeedEntry>): (m: map<string, FeedEntry>)
    ensures m.Keys == ExternalIds(entries)
    ensures forall id :: id in m ==> m[id] in entries && m[id].externalId == id
    decreases |entries|
  {
    if entries == [] then map[]
    else
      var last := entries[|entries| - 1];
      var init := entries[..|entries| - 1];
      assert entries == init + [last];
      EntryMap(init)[last.externalId := last]
  }

  /** For a repeated id the later entry of the list wins: the map holds the entry at the
      last position carrying that id. */
  lemma {:induction false} EntryMapLastWins(entries: seq<FeedEntry>, i: nat)
    requires i < |entries|
    requires forall j :: i < j < |entries| ==> entries[j].externalId != entries[i].externalId
    ensures entries[i].externalId in EntryMap(entries)
    ensures EntryMap(entries)[entries[i].externalId] == entries[i]
    decreases |entries|
  {
    var n := |entries| - 1;
    if i < n {
      var init := entries[..n];
      assert init[i] == entries[i];
      forall j | i < j < |init| ensures init[j].externalId != init[i].externalId {
        assert init[j] == entries[j];
      }
      EntryMapLastWins(init, i);
    }
  }
}
