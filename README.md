# NSW Rural Fire Service feed reconciliation, modelled in Dafny

This project models the geo-location platform for the NSW Rural Fire Service
GeoJSON feed in Home Assistant. Each polling cycle the platform's feed manager
takes the feed client's result, a status plus a list of incident entries. It
compares the entries' external ids with the ids it already manages and then:

- sends a delete signal to each entity whose incident is gone;
- sends an update signal to each entity whose incident is still listed;
- registers, in one call, a batch of new entities for the new incidents.

A successful poll with no data changes nothing. Any other status retires every
managed entity. Each entity looks up its incident in the manager's entry map
when it refreshes. Its state attributes keep only the values that are truthy
or booleans.

Modules, one per concern of the platform file:

- `Signals` (`signals.dfy`): the per-entity delete and update channel names. A
  parser inverts the formatting, which shows that distinct signals use distinct
  channels.
- `Attributes` (`attributes.dfy`): Python values, their truthiness, and the
  attribute filter.
- `FeedEntries` (`feed_entries.dfy`): the poll status, the feed entry record,
  and the `{external_id: entry}` dictionary built from a poll.
- `Dispatcher` (`dispatcher.dfy`): the log of emitted actions. This log stands
  in for the dispatcher and the registration callback. The module also counts
  signals per channel and fixes the order of a cycle's phases.
- `NswRuralFireServiceFeed` (`feed_manager.dfy`): the `FeedManager` class,
  with fields `feedEntries`, `managed` and an append-only `log`, and the
  `LocationEvent` entity class.
- `Enumerations` (`enumerations.dfy`): iterating over a Python set visits each
  member once, in an unspecified order. The model's loops pick members
  arbitrarily and promise only that the visit order lists the set exactly.
- `Wrappers` (`wrappers.dfy`): `Option`.
- `Scenarios` (`scenarios.dfy`): client code that runs the manager through
  typical cycles using only its contracts. It covers replacing one of two
  incidents, a failed poll, the first poll followed by an entity refresh, and
  the same feed polled twice followed by a poll with no data.

The manager's ghost field `trackedAtLog` records the managed set at the moment
each action was logged. Only the two sending methods write it. Every method
states exactly what it appends there: for a removal loop, the set after each
removal (`AfterEachRemoval`); for an update loop, the unchanged set; for a
registration, the set once the batch is managed. The class invariant `Valid()`
states four facts:

- no delete signal was ever sent while its id was still managed, because
  removal from the set comes first;
- an update signal goes only to a managed id;
- every registered entity's id was already managed when the batch was
  registered;
- every managed id has an entry in `feedEntries` for its entity to look up.

Two behaviours of the code are worth stating:

- After a failed poll the code leaves `feed_entries` as it was, so entities can
  still look up the last good entries.
- A successful poll with an empty list is handled like any other successful
  poll. Every managed entity is deleted and an empty batch is registered.

## Model

| member | source | states |
|---|---|---|
| `Signals.ParseChannelIff` | homeassistant/components/geo_location/nsw_rural_fire_service_feed.py:49-50 | A channel name parses to a signal exactly when it is that signal's formatted channel, so formatting and parsing are inverse. |
| `Signals.ChannelInjective` | homeassistant/components/geo_location/nsw_rural_fire_service_feed.py:49-50 | Two signals share a channel name if and only if they are the same signal. Entities never share a channel, and an entity's delete and update channels differ. |
| `Signals.PrefixesDiffer` | homeassistant/components/geo_location/nsw_rural_fire_service_feed.py:49-50 | The fixed texts of the delete and update templates are equally long and differ. |
| `Signals.Channel` | homeassistant/components/geo_location/nsw_rural_fire_service_feed.py:49-50 | The channel name formatted for a signal parses back to exactly that signal, so a subscriber on that name receives only that signal. |
| `Attributes.Truthy` | homeassistant/components/geo_location/nsw_rural_fire_service_feed.py:282 | Python truthiness: the falsy values are exactly `None`, `False`, `0` and `""`; a date is always truthy. |
| `Attributes.Kept` | homeassistant/components/geo_location/nsw_rural_fire_service_feed.py:282 | `value or isinstance(value, bool)` keeps every value except `None`, `0` and `""`, so `False` is kept. |
| `Attributes.FilterExact` | homeassistant/components/geo_location/nsw_rural_fire_service_feed.py:268-284 | With distinct keys, the filtered dictionary holds a key iff its value is kept, holds it with that value, and holds no key outside the list. |
| `Attributes.FilterKeepsOnlyKept` | homeassistant/components/geo_location/nsw_rural_fire_service_feed.py:268-284 | For any list of pairs, every key of the built dictionary holds a kept value, comes from the list, and holds the value of its last kept pair. |
| `NswRuralFireServiceFeed.LocationEvent.AttributePairs` | homeassistant/components/geo_location/nsw_rural_fire_service_feed.py:269-281 | Eleven candidate pairs with pairwise distinct keys. `external_id` comes first with the entity's id, and `fire` is ninth with the fire flag. |
| `FeedEntries.ExternalIdsExact` | homeassistant/components/geo_location/nsw_rural_fire_service_feed.py:119 | An id is in the fetched id set exactly when some position of the list carries it. The set is empty exactly when the list is. |
| `FeedEntries.EntryMap` | homeassistant/components/geo_location/nsw_rural_fire_service_feed.py:116-117 | The dictionary built from a poll has exactly the fetched ids as keys. Each key maps to a fetched entry that carries that id. |
| `FeedEntries.EntryMapLastWins` | homeassistant/components/geo_location/nsw_rural_fire_service_feed.py:116-117 | For a repeated id, the entry at the last position carrying it is the one kept. |
| `Enumerations.EnumerationSize` | homeassistant/components/geo_location/nsw_rural_fire_service_feed.py:158 | A loop over a set visits exactly as many ids as the set holds. |
| `Dispatcher.Dispatches` | homeassistant/components/geo_location/nsw_rural_fire_service_feed.py:151-154 | One dispatch per visited id, in visit order, with position i carrying the i-th id's signal. |
| `Dispatcher.DispatchesOfEnumeration` | homeassistant/components/geo_location/nsw_rural_fire_service_feed.py:156-162 | Signalling each member of a set sends exactly one signal on each member's channel and none on any other entity channel. |
| `Dispatcher.CycleActions` | homeassistant/components/geo_location/nsw_rural_fire_service_feed.py:119-128 | A successful cycle emits one action per removed id and per updated id, plus one more, the registration of the created batch with update-before-add, which is last. |
| `Dispatcher.CycleActionsOrdered` | homeassistant/components/geo_location/nsw_rural_fire_service_feed.py:119-128 | In a successful cycle every action before the last is a dispatch, so the registration call is the only one and comes last. All deletes come before all updates, and all updates before the registration. |
| `Dispatcher.CycleSignalCounts` | homeassistant/components/geo_location/nsw_rural_fire_service_feed.py:119-128 | A successful cycle sends a delete exactly once to each id managed and no longer fetched. It sends an update exactly once to each id managed and still fetched. It sends no other signal. |
| `Dispatcher.SweepSignalCounts` | homeassistant/components/geo_location/nsw_rural_fire_service_feed.py:132-136 | After a failed poll, one delete goes to each previously managed id. That makes N deletes for N managed ids, including none for none. |
| `NswRuralFireServiceFeed.FeedManager.constructor` | homeassistant/components/geo_location/nsw_rural_fire_service_feed.py:96-97 | A new manager has no entries, manages nothing and has emitted nothing. |
| `NswRuralFireServiceFeed.FeedManager.Update` | homeassistant/components/geo_location/nsw_rural_fire_service_feed.py:109-136 | On OK, entries are replaced wholesale by the poll's dictionary, and the managed set becomes exactly its key set. Deletes go to old minus fetched, updates to old intersect fetched, and fresh blank entities to fetched minus old, in that order. On OK_NO_DATA nothing changes. On any other status the managed set is emptied, one delete goes per previously managed id, and entries are untouched. The recorded history is stated exactly for each status (`CycleHistory` for a successful poll), and the invariant holds throughout. |
| `NswRuralFireServiceFeed.FeedManager.GenerateNewEntities` | homeassistant/components/geo_location/nsw_rural_fire_service_feed.py:138-147 | Creates one fresh entity per id, bound to this manager. All ids join the managed set. Exactly one registration call follows, with update-before-add true, even for an empty batch. |
| `NswRuralFireServiceFeed.FeedManager.UpdateEntities` | homeassistant/components/geo_location/nsw_rural_fire_service_feed.py:149-154 | Sends exactly one update signal per id and leaves membership alone. Each signal is recorded with the unchanged managed set. |
| `NswRuralFireServiceFeed.FeedManager.RemoveEntities` | homeassistant/components/geo_location/nsw_rural_fire_service_feed.py:156-162 | Removes exactly the given ids from the managed set, and the others stay. Each removed id gets exactly one delete signal. The i-th signal is recorded with the managed set as it stands after the i-th removal, and the earlier history is kept. |
| `NswRuralFireServiceFeed.AfterEachRemovalMembers` | homeassistant/components/geo_location/nsw_rural_fire_service_feed.py:158-160 | After step i of the removal loop, an id is managed exactly when it was managed at the start and is not among the first i + 1 ids removed. |
| `NswRuralFireServiceFeed.DeleteFollowsRemoval` | homeassistant/components/geo_location/nsw_rural_fire_service_feed.py:160-162 | When the delete signal for an id is sent, that id has already left the managed set, and every id whose turn comes later is still managed. |
| `NswRuralFireServiceFeed.FeedManager.DispatcherSend` | homeassistant/components/geo_location/nsw_rural_fire_service_feed.py:161-162 | Appends one dispatch to the log and records the managed set of that moment. |
| `NswRuralFireServiceFeed.FeedManager.RegisterEntities` | homeassistant/components/geo_location/nsw_rural_fire_service_feed.py:147 | Appends one registration call holding the whole batch. |
| `NswRuralFireServiceFeed.LocationEvent.constructor` | homeassistant/components/geo_location/nsw_rural_fire_service_feed.py:168-185 | A new entity is bound to its manager and external id, with every attribute `None`. |
| `NswRuralFireServiceFeed.LocationEvent.AsyncUpdate` | homeassistant/components/geo_location/nsw_rural_fire_service_feed.py:211-216 | If the manager holds an entry for the entity's id, the entity takes over that entry's attributes. Otherwise every field stays as it was. |
| `NswRuralFireServiceFeed.StateOf` | homeassistant/components/geo_location/nsw_rural_fire_service_feed.py:218-233 | The state taken over from an entry is never blank: distance, latitude and longitude are always set, from the entry's distance and coordinates. |
| `NswRuralFireServiceFeed.LocationEvent.UpdateFromFeed` | homeassistant/components/geo_location/nsw_rural_fire_service_feed.py:218-233 | The entity's fields become the entry's title, distance, coordinates and domain attributes. |
| `NswRuralFireServiceFeed.LocationEvent.DeviceStateAttributes` | homeassistant/components/geo_location/nsw_rural_fire_service_feed.py:265-284 | Each of the eleven candidate keys is present iff its value is truthy or a bool, and carries that value. No other key is present. `fire` is present iff it is set, and `external_id` is present iff it is non-empty. |
| `Scenarios.ReplaceOneOfTwoSignals` | homeassistant/components/geo_location/nsw_rural_fire_service_feed.py:119-128 | Managed {A, B} and fetched {B, C}: delete(A) once, update(B) once, and no other signal to A, B or C. |

## Left out

- Configuration: the `PLATFORM_SCHEMA` validation (radius, categories) is left out. The radius and category filters are applied by the feed client, which is not part of this model.
- Start-up and scheduling are left out: `setup_platform`, the host start event, `startup`, and the periodic timer of `_init_regular_updates`. `startup` is one `Update` call followed by arming the timer, and any sequence of `Update` calls is covered by its contract.
- Fetching: the feed client's `update()` (network, GeoJSON parsing, distance computation) is not modelled. Its `(status, entries)` result is the parameter of `FeedManager.Update`.
- Dispatcher delivery is left out: subscription (`async_added_to_hass`), the callbacks `_delete_callback` and `_update_callback`, `async_remove` and `async_schedule_update_ha_state`. A dispatch is only a log entry, recorded as the signal whose channel name it was sent on.
- Timing is left out. `_update` runs from the timer callback and signals through the thread-safe `dispatcher_send`. The subscribed handlers and the `async_update` coroutine run later on the event loop, possibly while a later cycle is under way. The model applies each `Update` call whole, and `AsyncUpdate` sees `feedEntries` only between calls. It does not capture an entity refreshing in the middle of a cycle, or a handler running after later signals were sent.
- Registration callback: `add_entities` only appends its arguments to the log. What the host then does is left out, including the update-before-add refresh, which is `AsyncUpdate`.
- Floating point: distance, latitude and longitude are `real` payload, copied and never computed with. The publication date is an opaque `Timestamp`.
- The property getters are left out (`source`, `name`, `distance`, `latitude`, `longitude`, `unit_of_measurement`, `should_poll`): each only returns a field or a constant. Logging is left out too.
- Iteration order over Python sets is arbitrary in the model. Every contract holds for every order. The dictionary built by `device_state_attributes` is modelled as an unordered `map`.
- `ATTR_ATTRIBUTION` is defined in the host platform's constants module, which is not part of this model. It is taken to be `"attribution"`.
- `NswRuralFireServiceFeed.FeedManager.RemoveEntities`: removing an id that is not managed raises `KeyError` in Python. The model requires every id to be managed instead, which both callers guarantee.
