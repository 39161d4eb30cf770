/** Change notification: one broadcast channel per watched tenant. */
module Watch {
  import opened ByteStrings

  datatype ChangeKind = ChangePut | ChangeDelete

  /** One committed change, its key relative to the tenant. */
  datatype KeyChange = KeyChange(kind: ChangeKind, key: Bytes, value: Bytes)

  /** Everything sent so far, and where each live reader stands. */
  datatype Channel = Channel(log: seq<KeyChange>, readers: map<nat, nat>)

  /** `window` is how many of the latest changes a channel still holds. Reader ids are
      never reused. */
  datatype HubState = HubState(window: nat, channels: map<Bytes, Channel>, nextReader: nat)

  predicate IsWatched(h: HubState, tenant: Bytes) {
    tenant in h.channels && h.channels[tenant].readers != map[]
  }

  function ChannelOf(h: HubState, tenant: Bytes): Channel {
    if tenant in h.channels then h.channels[tenant] else Channel([], map[])
  }

  /** A new reader starts after everything already sent. */
  function Subscribed(h: HubState, tenant: Bytes): HubState {
    var ch := ChannelOf(h, tenant);
    h.(channels := h.channels[tenant := ch.(readers := ch.readers[h.nextReader := |ch.log|])],
       nextReader := h.nextReader + 1)
  }

  /** Dropping a receiver touches nothing but the count. */
  function Unsubscribed(h: HubState, tenant: Bytes, id: nat): HubState {
    if tenant !in h.channels then h
    else var ch := h.channels[tenant]; h.(channels := h.channels[tenant := ch.(readers := ch.readers - {id})])
  }

  /** Sends to a channel somebody reads; collects one nobody does. */
  function Published(h: HubState, tenant: Bytes, change: KeyChange): HubState {
    if tenant !in h.channels then h
    else
      var ch := h.channels[tenant];
      if ch.readers == map[] then h.(channels := h.channels - {tenant})
      else h.(channels := h.channels[tenant := ch.(log := ch.log + [change])])
  }

  datatype Received = Got(change: KeyChange) | Lagged(missed: nat) | Nothing

  /** What `recv` answers a reader at `pos`, and where it stands afterwards. */
  function Receive(log: seq<KeyChange>, window: nat, pos: nat): (Received, nat) {
    if pos + window < |log| then (Lagged(|log| - window - pos), |log| - window)
    else if pos < |log| then (Got(log[pos]), pos + 1)
    else (Nothing, pos)
  }

  class WatchHub {
    const window: nat
    var channels: map<Bytes, Channel>
    var nextReader: nat

    ghost function View(): HubState
      reads this
    {
      HubState(window, channels, nextReader)
    }

    constructor (window: nat)
      ensures View() == HubState(window, map[], 0)
    {
      this.window, channels, nextReader := window, map[], 0;
    }

    method Subscribe(tenant: Bytes) returns (id: nat)
      modifies this
      ensures id == old(nextReader)
      ensures View() == Subscribed(old(View()), tenant)
    {
      id := nextReader;
      if tenant !in channels {
        channels := channels[tenant := Channel([], map[])];
      }
      var ch := channels[tenant];
      channels := channels[tenant := ch.(readers := ch.readers[id := |ch.log|])];
      nextReader := nextReader + 1;
    }

    method Unsubscribe(tenant: Bytes, id: nat)
      modifies this
      ensures View() == Unsubscribed(old(View()), tenant, id)
    {
      if tenant in channels {
        var ch := channels[tenant];
        channels := channels[tenant := ch.(readers := ch.readers - {id})];
      }
    }

    method Watched(tenant: Bytes) returns (b: bool)
      ensures b == IsWatched(View(), tenant)
    {
      b := tenant in channels && channels[tenant].readers != map[];
    }

    method Publish(tenant: Bytes, change: KeyChange)
      modifies this
      ensures View() == Published(old(View()), tenant, change)
    {
      if tenant !in channels {
        return;
      }
      var ch := channels[tenant];
      if ch.readers == map[] {
        channels := channels - {tenant};
      } else {
        channels := channels[tenant := ch.(log := ch.log + [change])];
      }
    }

    /** One `recv` by a live reader of a live channel. */
    method Recv(tenant: Bytes, id: nat) returns (r: Received)
      requires tenant in channels && id in channels[tenant].readers
      modifies this
      ensures var ch := old(channels[tenant]);
              var (r', pos) := Receive(ch.log, window, ch.readers[id]);
              && r == r'
              && View() == old(View()).(channels := old(channels)[tenant := ch.(readers := ch.readers[id := pos])])
    {
      var ch := channels[tenant];
      var (got, pos) := Receive(ch.log, window, ch.readers[id]);
      r := got;
      channels := channels[tenant := ch.(readers := ch.readers[id := pos])];
    }
  }
}
