/**
 * The test network manager: the boundary through which one simulated device
 * publishes the map of code paths to values it computed in a round, and reads
 * back what its neighbourhood has published. Device ids (D), code paths (P)
 * and values (T) are opaque keys and payloads.
 */
module Network {
  import opened Wrappers

  /** Why a publication was refused. */
  datatype ShareError = NullMap

  /**
   * The shared store after a device `id` publishes the non-null map `toSend`:
   * an empty map is skipped, a non-empty one replaces whatever was stored
   * under `id`.
   */
  function Publish<D, P, T>(store: map<D, map<P, T>>, id: D, toSend: map<P, T>): map<D, map<P, T>>
  {
    if |toSend| == 0 then store else store[id := toSend]
  }

  /** Publishing an empty map changes nothing in the store. */
  lemma EmptyPublicationChangesNothing<D, P, T>(store: map<D, map<P, T>>, id: D, toSend: map<P, T>)
    requires |toSend| == 0
    ensures Publish(store, id, toSend) == store
  {
  }

  /**
   * A publication touches no other device's entry: every other id is stored
   * exactly when it was before, with the same map.
   */
  lemma PublicationOnlyUnderOwnId<D, P, T>(store: map<D, map<P, T>>, id: D, toSend: map<P, T>, other: D)
    requires other != id
    ensures other in Publish(store, id, toSend) <==> other in store
    ensures other in store ==> Publish(store, id, toSend)[other] == store[other]
  {
  }

  /** A non-empty publication is stored, whole, under the publisher's own id. */
  lemma PublicationStoredUnderOwnId<D, P, T>(store: map<D, map<P, T>>, id: D, toSend: map<P, T>)
    requires |toSend| != 0
    ensures id in Publish(store, id, toSend) && Publish(store, id, toSend)[id] == toSend
    ensures Publish(store, id, toSend).Keys == store.Keys + {id}
  {
  }

  /**
   * An empty publication does not clear what the device published before:
   * its earlier non-empty map stays in the store, so the round trip of an
   * empty map returns the earlier map, not an empty one.
   */
  lemma EmptyShareKeepsEarlierMap<D, P, T>(store: map<D, map<P, T>>, id: D, earlier: map<P, T>, toSend: map<P, T>)
    requires |earlier| != 0 && |toSend| == 0
    ensures id in Publish(Publish(store, id, earlier), id, toSend)
    ensures Publish(Publish(store, id, earlier), id, toSend)[id] == earlier
  {
  }

  /**
   * Whether the neighbourhood query, on store `content`, reports device `id`
   * among its own neighbours with exactly what the store holds for it.
   */
  ghost predicate SeesItself<D, P, T>(neighborhood: (map<D, map<P, T>>, D) -> map<D, map<P, T>>,
                                content: map<D, map<P, T>>, id: D)
  {
    id in content ==> id in neighborhood(content, id) && neighborhood(content, id)[id] == content[id]
  }

  /**
   * Under a neighbourhood that includes the device itself, a non-empty
   * publication followed by a neighbour query returns the published map.
   */
  lemma ShareThenQueryRoundTrip<D, P, T>(neighborhood: (map<D, map<P, T>>, D) -> map<D, map<P, T>>,
                                         store: map<D, map<P, T>>, id: D, toSend: map<P, T>)
    requires |toSend| != 0
    requires SeesItself(neighborhood, Publish(store, id, toSend), id)
    ensures id in neighborhood(Publish(store, id, toSend), id)
    ensures neighborhood(Publish(store, id, toSend), id)[id] == toSend
  {
    PublicationStoredUnderOwnId(store, id, toSend);
  }

  /**
   * The simulated environment shared by all test devices: a content store of
   * the last map each device published, and a neighbourhood query over it
   * whose computation is outside this model.
   */
  class TestEnvironment<D(==), P(==), T> {
    var content: map<D, map<P, T>>
    const neighborhood: (map<D, map<P, T>>, D) -> map<D, map<P, T>>

    constructor (neighborhood: (map<D, map<P, T>>, D) -> map<D, map<P, T>>)
      ensures content == map[] && this.neighborhood == neighborhood
    {
      content := map[];
      this.neighborhood := neighborhood;
    }

    /** The latest states of the neighbours of `id`, as the environment reports them. */
    function GetNeighborhood(id: D): map<D, map<P, T>>
      reads this
    {
      neighborhood(content, id)
    }

    /** Record `m` as the latest state published by `id`. */
    method PutContent(id: D, m: map<P, T>)
      modifies this
      ensures content == old(content)[id := m]
    {
      content := content[id := m];
    }
  }

  /** A network manager bound, once and for all, to one device and one environment. */
  class TestNetworkManager<D(==), P(==), T> {
    const env: TestEnvironment<D, P, T>
    const id: D

    constructor (id: D, env: TestEnvironment<D, P, T>)
      ensures this.id == id && this.env == env
    {
      this.id := id;
      this.env := env;
    }

    /** Ask the environment for this device's neighbourhood; nothing is modified. */
    method GetNeighborState() returns (r: map<D, map<P, T>>)
      ensures r == env.neighborhood(env.content, id)
    {
      r := env.GetNeighborhood(id);
    }

    /**
     * Publish this round's state: a null map is refused and changes nothing;
     * an empty map is skipped; a non-empty one is stored under this device's id.
     */
    method ShareState(toSend: Option<map<P, T>>) returns (r: Outcome<ShareError>)
      modifies env
      ensures r == if toSend.None? then Fail(NullMap) else Pass
      ensures toSend.None? ==> env.content == old(env.content)
      ensures toSend.Some? ==> env.content == Publish(old(env.content), id, toSend.value)
    {
      if toSend.None? {
        return Fail(NullMap);
      }
      if |toSend.value| != 0 {
        env.PutContent(id, toSend.value);
      }
      r := Pass;
    }
  }
}
