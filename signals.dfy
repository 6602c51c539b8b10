/**
 * Dispatcher channel names. The platform formats one delete channel and one update
 * channel per external id from two templates whose only placeholder is a trailing `{}`,
 * so a channel name is the template's fixed text followed by the id.
 */
module Signals {
  import opened Wrappers

  datatype SignalKind = DeleteEntity | UpdateEntity

  /** A lifecycle signal addressed to the entity that shows one feed entry. */
  datatype Signal = Signal(kind: SignalKind, externalId: string)

  /** The text of SIGNAL_DELETE_ENTITY and SIGNAL_UPDATE_ENTITY before their `{}`. */
  const SIGNAL_DELETE_ENTITY_PREFIX: string := "nsw_rural_fire_service_feed_delete_"
  const SIGNAL_UPDATE_ENTITY_PREFIX: string := "nsw_rural_fire_service_feed_update_"

  function Prefix(kind: SignalKind): string {
    match kind
    case DeleteEntity => SIGNAL_DELETE_ENTITY_PREFIX
    case UpdateEntity => SIGNAL_UPDATE_ENTITY_PREFIX
  }

  /** `SIGNAL_<KIND>_ENTITY.format(external_id)`. */
  function Channel(signal: Signal): (channel: string)
    ensures ParseChannel(channel) == Some(signal)
  {
    PrefixesDiffer();
    var channel := Prefix(signal.kind) + signal.externalId;
    assert channel[..|Prefix(signal.kind)|] == Prefix(signal.kind);
    assert channel[|Prefix(signal.kind)|..] == signal.externalId;
    channel
  }

  /** The signal a subscriber listening on `channel` is waiting for, if any. */
  function ParseChannel(channel: string): (r: Option<Signal>)
    ensures r.Some? ==> |r.value.externalId| < |channel|
  {
    var n := |SIGNAL_DELETE_ENTITY_PREFIX|;
    if n <= |channel| && channel[..n] == SIGNAL_DELETE_ENTITY_PREFIX then
      Some(Signal(DeleteEntity, channel[n..]))
    else if n <= |channel| && channel[..n] == SIGNAL_UPDATE_ENTITY_PREFIX then
      Some(Signal(UpdateEntity, channel[n..]))
    else
      None
  }

  /** The two templates have equally long fixed parts that differ. */
  lemma PrefixesDiffer()
    ensures |SIGNAL_DELETE_ENTITY_PREFIX| == |SIGNAL_UPDATE_ENTITY_PREFIX|
    ensures SIGNAL_DELETE_ENTITY_PREFIX != SIGNAL_UPDATE_ENTITY_PREFIX
  {
    assert SIGNAL_DELETE_ENTITY_PREFIX[28] != SIGNAL_UPDATE_ENTITY_PREFIX[28];
  }

  /** A channel name is parsed back into exactly the signal it was formatted from, and
      a name parses to a signal only if it is that signal's channel. */
  lemma ParseChannelIff(channel: string, signal: Signal)
    ensures ParseChannel(channel) == Some(signal) <==> channel == Channel(signal)
  {
    PrefixesDiffer();
    var p := Prefix(signal.kind);
    var n := |p|;
    if channel == Channel(signal) {
      assert channel[..n] == p && channel[n..] == signal.externalId;
    }
    if ParseChannel(channel) == Some(signal) {
      assert channel == channel[..n] + channel[n..];
    }
  }

  /** Distinct signals are sent on distinct channels: no two entities share a channel,
      and an entity's delete and update channels differ. */
  lemma ChannelInjective(a: Signal, b: Signal)
    ensures Channel(a) == Channel(b) <==> a == b
  {
    ParseChannelIff(Channel(a), a);
    ParseChannelIff(Channel(a), b);
  }
}
