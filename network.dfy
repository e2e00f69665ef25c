/**
 * A network of cables and the network elements their blocks provide
 * (core/network/Network.java).
 *
 * The Minecraft world is abstracted: `blockAt` gives the block at a cable's
 * position, and `PartContainers` holds, per cable, the network that the part
 * container at that position currently belongs to. Calls into element code
 * (afterNetworkAlive, beforeNetworkKill, update) and into onPartsChanged are
 * recorded in ghost multisets and a ghost counter on the network that makes them.
 */
module NetworkCore {
  import opened Wrappers
  import opened TickSchedule

  datatype Position = Position(world: int, x: int, y: int, z: int)

  /** A cable path element: a point of the cluster, identified by its position. */
  datatype Cable = Cable(pos: Position)

  /** A network element, identified by value; it asks to be ticked every `updateInterval` updates (a Java `int`) when `isUpdate`. */
  datatype Element = Element(id: nat, isUpdate: bool, updateInterval: Int32)

  /**
   * The block at a cable's position: `provider` is Some(the elements it creates) when the block is an
   * element provider, and `partContainerFacade` says whether it is a part-container facade.
   */
  datatype Block = Block(provider: Option<seq<Element>>, partContainerFacade: bool)

  /** Whether removing the block's cable creates any elements to tear down (the tick set is touched only then). */
  predicate CreatesElements(b: Block) {
    b.provider.Some? && b.provider.value != []
  }

  /** The elements a block provides, as a set (nothing for a block that is not a provider). */
  function ProvidedBy(b: Block): set<Element> {
    if b.provider.Some? then set e | e in b.provider.value else {}
  }

  /** The elements provided by the blocks at the given cables. */
  ghost function Provided(blockAt: Cable -> Block, cables: set<Cable>): set<Element> {
    set c, e | c in cables && e in ProvidedBy(blockAt(c)) :: e
  }

  /** The cables among `cables` whose block is a part-container facade. */
  ghost function Facades(blockAt: Cable -> Block, cables: set<Cable>): set<Cable> {
    set c | c in cables && blockAt(c).partContainerFacade
  }

  /** The owner table after every cable of `claimed` has been set to `n`. */
  ghost function Claimed(owner: map<Cable, Network>, claimed: set<Cable>, n: Network): map<Cable, Network> {
    map c | c in owner.Keys + claimed :: if c in claimed then n else owner[c]
  }

  /** The facade cables among `cables` that `owner` assigned to `n`: the cables `n` loses when they are claimed. */
  ghost function Lost(owner: map<Cable, Network>, n: Network, blockAt: Cable -> Block, cables: set<Cable>): set<Cable> {
    set c | c in Facades(blockAt, cables) && c in owner && owner[c] == n
  }

  /** The elements of `s` that ask to be ticked. */
  function Updateable(s: set<Element>): set<Element> {
    set e | e in s && e.isUpdate
  }

  lemma UpdateableGrows(s: set<Element>, e: Element)
    ensures Updateable(s + {e}) == Updateable(s) + (if e.isUpdate then {e} else {})
  {
  }

  /** The elements whose counter is due in the tick map `m`. */
  ghost function DueElements(m: map<Element, Int32>): set<Element> {
    set e | e in m && Due(m[e])
  }

  /**
   * The calls a network has made into code outside it: afterNetworkAlive, beforeNetworkKill and
   * update on each element (counted per element), and onPartsChanged.
   */
  datatype Calls = Calls(alive: multiset<Element>, kill: multiset<Element>, tick: multiset<Element>, partsChanged: nat)

  /** `after` records one more call than `before` for each element of `once`, and as many for every other element. */
  ghost predicate OneMoreCallEach(before: multiset<Element>, after: multiset<Element>, once: set<Element>) {
    forall x :: after[x] == before[x] + (if x in once then 1 else 0)
  }

  lemma NoCallsForNothing(before: multiset<Element>, after: multiset<Element>)
    requires OneMoreCallEach(before, after, {})
    ensures after == before
  {
    assert forall x :: after[x] == before[x];
  }

  /** The state of a network, as far as losing cables to another network can change it. */
  datatype Snapshot = Snapshot(
    cluster: set<Cable>, elements: set<Element>, updateable: set<Element>, tickCounters: map<Element, Int32>,
    partsChanged: bool, killed: bool, initialized: bool, calls: Calls)

  /**
   * How a network moves from state `s` to state `t` by losing the cables `lost` to other networks:
   * each cable leaves its cluster, the elements their blocks provide leave its three collections
   * and get beforeNetworkKill (and no other element does), and it is flagged as changed.
   */
  ghost predicate LostFrom(s: Snapshot, t: Snapshot, lost: set<Cable>, blockAt: Cable -> Block) {
    var gone := Provided(blockAt, lost);
    t.cluster == s.cluster - lost &&
    t.elements == s.elements - gone &&
    t.updateable == s.updateable - gone &&
    t.tickCounters == s.tickCounters - gone &&
    s.calls.kill <= t.calls.kill &&
    (forall e :: e in gone <==> s.calls.kill[e] < t.calls.kill[e]) &&
    t.calls.alive == s.calls.alive && t.calls.tick == s.calls.tick && t.calls.partsChanged == s.calls.partsChanged &&
    t.partsChanged == (s.partsChanged || lost != {}) &&
    t.killed == s.killed && t.initialized == s.initialized
  }

  /** How `RemoveCable(block, c)` followed by `NotifyPartsChanged()` moves a network from state `s` to state `t`. */
  ghost predicate CableRemoved(s: Snapshot, t: Snapshot, block: Block, c: Cable) {
    var gone := ProvidedBy(block);
    t.cluster == s.cluster - {c} &&
    t.elements == s.elements - gone &&
    t.updateable == s.updateable - gone &&
    t.tickCounters == s.tickCounters - gone &&
    t.calls == s.calls.(kill := s.calls.kill + if block.provider.Some? then multiset(block.provider.value) else multiset{}) &&
    t.partsChanged &&
    t.killed == s.killed && t.initialized == s.initialized
  }

  /** A network in a consistent state that has lost the cables `lost` since state `s`. */
  ghost predicate LostCables(n: Network, s: Snapshot, lost: set<Cable>, blockAt: Cable -> Block)
    reads n
  {
    n.Valid() && LostFrom(s, n.Snap(), lost, blockAt)
  }

  lemma ProvidedAdd(blockAt: Cable -> Block, cables: set<Cable>, c: Cable)
    ensures Provided(blockAt, cables + {c}) == Provided(blockAt, cables) + ProvidedBy(blockAt(c))
  {
  }

  lemma ProvidedNone(blockAt: Cable -> Block)
    ensures Provided(blockAt, {}) == {}
  {
  }

  lemma LostAdd(owner: map<Cable, Network>, n: Network, blockAt: Cable -> Block, cables: set<Cable>, c: Cable)
    ensures Lost(owner, n, blockAt, cables + {c}) ==
      if blockAt(c).partContainerFacade && c in owner && owner[c] == n then Lost(owner, n, blockAt, cables) + {c}
      else Lost(owner, n, blockAt, cables)
  {
  }

  /** Losing one more cable extends what a network has lost. */
  lemma LoseOneMore(s: Snapshot, mid: Snapshot, t: Snapshot, lost: set<Cable>, c: Cable, blockAt: Cable -> Block)
    requires LostFrom(s, mid, lost, blockAt)
    requires CableRemoved(mid, t, blockAt(c), c)
    ensures LostFrom(s, t, lost + {c}, blockAt)
  {
    var block := blockAt(c);
    var gone := Provided(blockAt, lost);
    ProvidedAdd(blockAt, lost, c);
    assert t.tickCounters == s.tickCounters - (gone + ProvidedBy(block));
    if block.provider.Some? {
      var ks := multiset(block.provider.value);
      forall e
        ensures e in gone + ProvidedBy(block) <==> s.calls.kill[e] < t.calls.kill[e]
      {
        assert t.calls.kill[e] == mid.calls.kill[e] + ks[e];
        assert e in ProvidedBy(block) <==> ks[e] > 0;
      }
    }
  }

  /** The network each part container currently belongs to; a cable absent from `owner` has none. */
  class PartContainers {
    var owner: map<Cable, Network>

    constructor (owner: map<Cable, Network>)
      ensures this.owner == owner
    {
      this.owner := owner;
    }

    /** The part container at `c`, when there is one, now belongs to `n`. */
    method Claim(c: Cable, block: Block, blockAt: Cable -> Block, n: Network, ghost o0: map<Cable, Network>, ghost done: set<Cable>)
      requires block == blockAt(c)
      requires owner == Claimed(o0, Facades(blockAt, done), n)
      modifies this`owner
      ensures owner == if block.partContainerFacade then old(owner)[c := n] else old(owner)
      ensures owner == Claimed(o0, Facades(blockAt, done + {c}), n)
    {
      ClaimedAdd(o0, blockAt, done, c, n);
      if block.partContainerFacade {
        owner := owner[c := n];
      }
    }
  }

  /** The world storage's set of live networks. */
  class Registry {
    ghost var live: set<Network>

    constructor ()
      ensures live == {}
    {
      live := {};
    }
  }

  /**
   * The requirements of claiming the cables of `cables` from their previous networks: every previous
   * network is consistent, and one that will have to tear down provided elements has been initialised.
   */
  ghost predicate OwnersReady(owner: map<Cable, Network>, blockAt: Cable -> Block, cables: set<Cable>)
    reads owner.Values
  {
    (forall n :: n in owner.Values ==> n.Valid()) &&
    (forall c :: c in Facades(blockAt, cables) && c in owner && CreatesElements(blockAt(c)) ==> owner[c].initialized)
  }

  /** Every facade cable of `cables` that provides elements belongs, in `owner`, to a network initialised in `snaps`. */
  ghost predicate OwnersInitialized(owner: map<Cable, Network>, snaps: map<Network, Snapshot>, blockAt: Cable -> Block, cables: set<Cable>) {
    forall c :: c in Facades(blockAt, cables) && c in owner && CreatesElements(blockAt(c)) ==>
      owner[c] in snaps && snaps[owner[c]].initialized
  }

  /** The current state of every network of `owner`. */
  ghost function Snaps(owner: map<Cable, Network>): map<Network, Snapshot>
    reads owner.Values
  {
    map n | n in owner.Values :: n.Snap()
  }

  /**
   * Every network of `owner` is consistent and has lost, since its state in `snaps`, exactly the
   * facade cables of `cables` that `owner` assigned to it.
   */
  ghost predicate AllLostCables(owner: map<Cable, Network>, snaps: map<Network, Snapshot>, blockAt: Cable -> Block, cables: set<Cable>)
    reads owner.Values
  {
    forall n {:trigger LostCables(n, snaps[n], Lost(owner, n, blockAt, cables), blockAt)} :: n in owner.Values ==>
      n in snaps && LostCables(n, snaps[n], Lost(owner, n, blockAt, cables), blockAt)
  }

  /** What `AllLostCables` says about the network that owned the part container at `c`. */
  lemma LostCablesOf(owner: map<Cable, Network>, snaps: map<Network, Snapshot>, blockAt: Cable -> Block, cables: set<Cable>, c: Cable)
    requires AllLostCables(owner, snaps, blockAt, cables) && c in owner
    ensures owner[c] in snaps && LostCables(owner[c], snaps[owner[c]], Lost(owner, owner[c], blockAt, cables), blockAt)
  {
    var n := owner[c];
    assert n in owner.Values;
    assert n in snaps && LostCables(n, snaps[n], Lost(owner, n, blockAt, cables), blockAt);
  }

  /** What `AllLostCables` says about one network `n` of `owner`. */
  lemma LostCablesAt(owner: map<Cable, Network>, snaps: map<Network, Snapshot>, blockAt: Cable -> Block, cables: set<Cable>, n: Network)
    requires AllLostCables(owner, snaps, blockAt, cables) && n in owner.Values
    ensures n in snaps && LostCables(n, snaps[n], Lost(owner, n, blockAt, cables), blockAt)
  {
  }

  /** Before anything is claimed, every consistent network has lost nothing. */
  lemma NothingLostYet(owner: map<Cable, Network>, blockAt: Cable -> Block)
    requires forall n :: n in owner.Values ==> n.Valid()
    ensures AllLostCables(owner, Snaps(owner), blockAt, {})
  {
    ProvidedNone(blockAt);
    forall n | n in owner.Values
      ensures LostCables(n, Snaps(owner)[n], Lost(owner, n, blockAt, {}), blockAt)
    {
      assert Lost(owner, n, blockAt, {}) == {};
    }
  }

  /** When `c` was not a claimed part container, no network loses anything more by claiming it. */
  lemma NothingLost(c: Cable, blockAt: Cable -> Block, o0: map<Cable, Network>, s0: map<Network, Snapshot>, done: set<Cable>)
    requires !(blockAt(c).partContainerFacade && c in o0)
    requires AllLostCables(o0, s0, blockAt, done)
    ensures AllLostCables(o0, s0, blockAt, done + {c})
  {
    forall n | n in o0.Values
      ensures n in s0 && LostCables(n, s0[n], Lost(o0, n, blockAt, done + {c}), blockAt)
    {
      assert n in s0 && LostCables(n, s0[n], Lost(o0, n, blockAt, done), blockAt);
      LostAdd(o0, n, blockAt, done, c);
    }
  }

  lemma ClaimedAdd(owner: map<Cable, Network>, blockAt: Cable -> Block, cables: set<Cable>, c: Cable, n: Network)
    ensures Claimed(owner, Facades(blockAt, cables + {c}), n) ==
      if blockAt(c).partContainerFacade then Claimed(owner, Facades(blockAt, cables), n)[c := n]
      else Claimed(owner, Facades(blockAt, cables), n)
  {
    if blockAt(c).partContainerFacade {
      assert Facades(blockAt, cables + {c}) == Facades(blockAt, cables) + {c};
    } else {
      assert Facades(blockAt, cables + {c}) == Facades(blockAt, cables);
    }
  }

  class Network {
    var cluster: set<Cable>
    var elements: set<Element>
    /** The updateable elements; the source keeps them (and `tickCounters`) null until `initialize`. */
    var updateable: set<Element>
    var tickCounters: map<Element, Int32>
    var initialized: bool
    var partsChanged: bool
    var killed: bool

    ghost var calls: Calls

    /** The tick set and the counter map are kept in step, and only elements asking for ticks are in them. */
    ghost predicate Valid()
      reads this
    {
      tickCounters.Keys == updateable &&
      (forall e :: e in updateable ==> e.isUpdate) &&
      (!initialized ==> updateable == {})
    }

    ghost function Snap(): Snapshot
      reads this
    {
      Snapshot(cluster, elements, updateable, tickCounters, partsChanged, killed, initialized, calls)
    }

    /** The network constructed before it is read back from NBT: an empty cluster and nothing else. */
    constructor Empty()
      ensures Valid()
      ensures cluster == {} && elements == {} && updateable == {} && tickCounters == map[]
      ensures !initialized && !partsChanged && !killed
      ensures calls == Calls(multiset{}, multiset{}, multiset{}, 0)
    {
      cluster, elements, updateable, tickCounters := {}, {}, {}, map[];
      initialized, partsChanged, killed := false, false, false;
      calls := Calls(multiset{}, multiset{}, multiset{}, 0);
    }

    /** A network over the given cluster, with its elements derived from the cluster's cables. */
    constructor FromCluster(cables: set<Cable>, blockAt: Cable -> Block, parts: PartContainers)
      requires OwnersReady(parts.owner, blockAt, cables)
      modifies parts, parts.owner.Values
      ensures Valid() && cluster == cables
      ensures updateable == {} && tickCounters == map[] && !initialized && !partsChanged
      ensures calls == Calls(multiset{}, multiset{}, multiset{}, 0)
      ensures killed == (cables == {})
      ensures elements == Provided(blockAt, cables)
      ensures parts.owner == Claimed(old(parts.owner), Facades(blockAt, cables), this)
      ensures AllLostCables(old(parts.owner), old(Snaps(parts.owner)), blockAt, cables)
    {
      cluster, elements, updateable, tickCounters := cables, {}, {}, map[];
      initialized, partsChanged, killed := false, false, false;
      calls := Calls(multiset{}, multiset{}, multiset{}, 0);
      new;
      DeriveNetworkElements(blockAt, parts);
      NoCallsForNothing(multiset{}, calls.kill);
    }

    /**
     * Unless the network is killed for having an empty cluster, adds the elements of every provider
     * block in the cluster and claims every part-container cable: its previous network loses the
     * cable and is flagged as changed, and the cable's part container now belongs to this network.
     */
    method DeriveNetworkElements(blockAt: Cable -> Block, parts: PartContainers)
      requires Valid()
      requires this !in parts.owner.Values
      requires OwnersReady(parts.owner, blockAt, cluster)
      modifies this, parts, parts.owner.Values
      ensures Valid()
      ensures cluster == old(cluster) && updateable == old(updateable) && tickCounters == old(tickCounters)
      ensures initialized == old(initialized) && partsChanged == old(partsChanged)
      ensures cluster == {} ==> killed && elements == old(elements) && OneMoreCallEach(old(calls.kill), calls.kill, elements)
      ensures calls == old(calls).(kill := calls.kill)
      ensures cluster != {} ==> killed == old(killed) && calls == old(calls) && elements == old(elements) + Provided(blockAt, cluster)
      ensures parts.owner == Claimed(old(parts.owner), Facades(blockAt, cluster), this)
      ensures AllLostCables(old(parts.owner), old(Snaps(parts.owner)), blockAt, cluster)
    {
      ghost var o0 := parts.owner;
      ghost var s0 := Snaps(o0);
      NothingLostYet(o0, blockAt);
      assert OwnersInitialized(o0, s0, blockAt, cluster);
      var empty := KillIfEmpty();
      if empty {
        assert Claimed(o0, Facades(blockAt, {}), this) == o0;
        assert AllLostCables(o0, s0, blockAt, {});
        return;
      }
      ClaimAll(blockAt, parts, o0, s0);
    }

    /** The loop of `DeriveNetworkElements` over the cables of a non-empty cluster. */
    method ClaimAll(blockAt: Cable -> Block, parts: PartContainers, ghost o0: map<Cable, Network>, ghost s0: map<Network, Snapshot>)
      requires this !in o0.Values
      requires OwnersInitialized(o0, s0, blockAt, cluster)
      requires parts.owner == o0
      requires AllLostCables(o0, s0, blockAt, {})
      modifies this`elements, parts, o0.Values
      ensures elements == old(elements) + Provided(blockAt, cluster)
      ensures parts.owner == Claimed(o0, Facades(blockAt, cluster), this)
      ensures AllLostCables(o0, s0, blockAt, cluster)
    {
      var todo := cluster;
      ghost var done: set<Cable> := {};
      ProvidedNone(blockAt);
      assert Claimed(o0, Facades(blockAt, {}), this) == o0;
      while todo != {}
        invariant todo <= cluster && done == cluster - todo
        invariant elements == old(elements) + Provided(blockAt, done)
        invariant parts.owner == Claimed(o0, Facades(blockAt, done), this)
        invariant AllLostCables(o0, s0, blockAt, done)
        decreases todo
      {
        var c :| c in todo;
        var block := blockAt(c);
        ProvidedAdd(blockAt, done, c);
        ClaimCable(c, block, blockAt, parts, o0, s0, done);
        todo := todo - {c};
        done := done + {c};
      }
      assert done == cluster;
    }

    /** One step of `DeriveNetworkElements`: the cable `c` with block `block`. */
    method ClaimCable(c: Cable, block: Block, blockAt: Cable -> Block, parts: PartContainers,
                      ghost o0: map<Cable, Network>, ghost s0: map<Network, Snapshot>, ghost done: set<Cable>)
      requires block == blockAt(c) && c !in done && c in cluster
      requires this !in o0.Values
      requires OwnersInitialized(o0, s0, blockAt, cluster)
      requires parts.owner == Claimed(o0, Facades(blockAt, done), this)
      requires AllLostCables(o0, s0, blockAt, done)
      modifies this`elements, parts, o0.Values
      ensures elements == old(elements) + ProvidedBy(block)
      ensures parts.owner == Claimed(o0, Facades(blockAt, done + {c}), this)
      ensures AllLostCables(o0, s0, blockAt, done + {c})
    {
      if block.provider.Some? {
        elements := elements + ProvidedBy(block);
      }
      if block.partContainerFacade && c in parts.owner {
        var previous := parts.owner[c];
        assert c in o0 && previous == o0[c];
        ReleaseCable(c, block, blockAt, previous, o0, s0, done);
      } else {
        NothingLost(c, blockAt, o0, s0, done);
      }
      parts.Claim(c, block, blockAt, this, o0, done);
    }

    /** The network `previous` that owned the part container at `c` loses the cable; every other network stays as it was. */
    static method ReleaseCable(c: Cable, block: Block, blockAt: Cable -> Block, previous: Network,
                               ghost o0: map<Cable, Network>, ghost s0: map<Network, Snapshot>, ghost done: set<Cable>)
      requires block == blockAt(c) && block.partContainerFacade && c !in done
      requires c in o0 && o0[c] == previous
      requires AllLostCables(o0, s0, blockAt, done)
      requires CreatesElements(block) ==> previous in s0 && s0[previous].initialized
      modifies previous
      ensures AllLostCables(o0, s0, blockAt, done + {c})
    {
      LostCablesOf(o0, s0, blockAt, done, c);
      forall n | n in o0.Values && n != previous
        ensures n in s0 && LostCables(n, s0[n], Lost(o0, n, blockAt, done), blockAt)
      {
        LostCablesAt(o0, s0, blockAt, done, n);
      }
      previous.LoseCable(c, block, blockAt, s0[previous], Lost(o0, previous, blockAt, done));
      forall n | n in o0.Values
        ensures n in s0 && LostCables(n, s0[n], Lost(o0, n, blockAt, done + {c}), blockAt)
      {
        LostAdd(o0, n, blockAt, done, c);
      }
    }

    /** What a network does when another claims its cable `c`: it removes the cable and is flagged as changed. */
    method LoseCable(c: Cable, block: Block, blockAt: Cable -> Block, ghost s: Snapshot, ghost lost: set<Cable>)
      requires block == blockAt(c)
      requires Valid() && LostFrom(s, Snap(), lost, blockAt)
      requires CreatesElements(block) ==> initialized
      modifies this
      ensures Valid() && LostFrom(s, Snap(), lost + {c}, blockAt)
    {
      ghost var mid := Snap();
      RemoveCable(block, c);
      NotifyPartsChanged();
      LoseOneMore(s, mid, Snap(), lost, c, blockAt);
    }

    /** Registers an element, and in the tick set too when it asks for ticks. */
    method AddNetworkElement(e: Element)
      requires Valid() && (e.isUpdate ==> initialized)
      modifies this`elements, this`updateable, this`tickCounters
      ensures Valid()
      ensures elements == old(elements) + {e}
      ensures updateable == old(updateable) + (if e.isUpdate then {e} else {})
      ensures tickCounters == if e.isUpdate then old(tickCounters)[e := 0] else old(tickCounters)
    {
      elements := elements + {e};
      AddNetworkElementUpdateable(e);
    }

    /** Puts an element that asks for ticks into the tick set with counter 0, so that it ticks on the next update. */
    method AddNetworkElementUpdateable(e: Element)
      requires Valid() && (e.isUpdate ==> initialized)
      modifies this`updateable, this`tickCounters
      ensures Valid()
      ensures updateable == old(updateable) + (if e.isUpdate then {e} else {})
      ensures tickCounters == if e.isUpdate then old(tickCounters)[e := 0] else old(tickCounters)
    {
      if e.isUpdate {
        updateable := updateable + {e};
        tickCounters := tickCounters[e := 0];
      }
    }

    /** Removes an element from the network and from the tick set and counter map. */
    method RemoveNetworkElement(e: Element)
      requires Valid() && initialized
      modifies this`elements, this`updateable, this`tickCounters
      ensures Valid()
      ensures elements == old(elements) - {e}
      ensures updateable == old(updateable) - {e} && tickCounters == old(tickCounters) - {e}
    {
      elements := elements - {e};
      RemoveNetworkElementUpdateable(e);
    }

    /** Removes an element from the tick set and the counter map only. */
    method RemoveNetworkElementUpdateable(e: Element)
      requires Valid() && initialized
      modifies this`updateable, this`tickCounters
      ensures Valid()
      ensures updateable == old(updateable) - {e} && tickCounters == old(tickCounters) - {e}
    {
      updateable := updateable - {e};
      tickCounters := tickCounters - {e};
    }

    /**
     * Rebuilds the tick set from scratch: exactly the elements that ask for ticks, all with counter 0;
     * every element is told the network is alive unless `silent`.
     */
    method Initialize(silent: bool)
      requires Valid()
      modifies this`updateable, this`tickCounters, this`initialized, this`calls
      ensures Valid() && initialized
      ensures updateable == Updateable(elements)
      ensures forall e :: e in updateable ==> tickCounters[e] == 0
      ensures OneMoreCallEach(old(calls.alive), calls.alive, if silent then {} else elements)
      ensures calls == old(calls).(alive := calls.alive)
    {
      updateable, tickCounters, initialized := {}, map[], true;
      var todo := elements;
      assert elements - todo == {};
      while todo != {}
        invariant todo <= elements
        invariant Valid() && initialized
        invariant updateable == Updateable(elements - todo)
        invariant forall e :: e in updateable ==> tickCounters[e] == 0
        invariant silent ==> calls.alive == old(calls.alive)
        invariant !silent ==> OneMoreCallEach(old(calls.alive), calls.alive, elements - todo)
        invariant calls.kill == old(calls.kill) && calls.tick == old(calls.tick) && calls.partsChanged == old(calls.partsChanged)
        decreases todo
      {
        var e :| e in todo;
        AddNetworkElementUpdateable(e);
        if !silent {
          calls := calls.(alive := calls.alive + multiset{e});
        }
        UpdateableGrows(elements - todo, e);
        assert elements - (todo - {e}) == (elements - todo) + {e};
        todo := todo - {e};
      }
    }

    /** Calls beforeNetworkKill once on every element, then marks the network killed; there is no guard against a second call. */
    method Kill()
      requires Valid()
      modifies this`calls, this`killed
      ensures Valid() && killed
      ensures OneMoreCallEach(old(calls.kill), calls.kill, elements)
      ensures calls == old(calls).(kill := calls.kill)
    {
      var todo := elements;
      while todo != {}
        invariant todo <= elements
        invariant OneMoreCallEach(old(calls.kill), calls.kill, elements - todo)
        invariant calls == old(calls).(kill := calls.kill)
        decreases todo
      {
        var e :| e in todo;
        calls := calls.(kill := calls.kill + multiset{e});
        assert elements - (todo - {e}) == (elements - todo) + {e};
        todo := todo - {e};
      }
      killed := true;
    }

    /** Kills the network exactly when its cluster is empty, and says whether it did. */
    method KillIfEmpty() returns (wasKilled: bool)
      requires Valid()
      modifies this`calls, this`killed
      ensures Valid()
      ensures wasKilled <==> cluster == {}
      ensures wasKilled ==> killed && OneMoreCallEach(old(calls.kill), calls.kill, elements) && calls == old(calls).(kill := calls.kill)
      ensures !wasKilled ==> killed == old(killed) && calls == old(calls)
    {
      if cluster == {} {
        Kill();
        return true;
      }
      return false;
    }

    /**
     * The per-tick driver. A network with an empty cluster is killed; a killed or empty network is
     * dropped from the registry and ticks nothing. Otherwise a pending change is handled once and
     * the flag cleared, and every updateable element whose counter is due ticks once; every counter
     * moves on by `NextCounter`.
     */
    method Update(registry: Registry)
      requires Valid()
      requires cluster != {} && !killed ==> initialized
      modifies this, registry
      ensures Valid()
      ensures cluster == old(cluster) && elements == old(elements) && updateable == old(updateable)
      ensures initialized == old(initialized) && calls.alive == old(calls.alive)
      ensures old(cluster) == {} ==> killed && OneMoreCallEach(old(calls.kill), calls.kill, elements)
      ensures old(cluster) != {} ==> killed == old(killed) && calls.kill == old(calls.kill)
      ensures old(cluster) == {} || old(killed) ==>
        registry.live == old(registry.live) - {this} &&
        tickCounters == old(tickCounters) && calls.tick == old(calls.tick) &&
        partsChanged == old(partsChanged) && calls.partsChanged == old(calls.partsChanged)
      ensures old(cluster) != {} && !old(killed) ==>
        registry.live == old(registry.live) && !partsChanged &&
        calls.partsChanged == old(calls.partsChanged) + (if old(partsChanged) then 1 else 0) &&
        tickCounters.Keys == updateable &&
        (forall e :: e in updateable ==> tickCounters[e] == NextCounter(old(tickCounters)[e], e.updateInterval)) &&
        OneMoreCallEach(old(calls.tick), calls.tick, DueElements(old(tickCounters)))
    {
      var empty := KillIfEmpty();
      if empty || killed {
        registry.live := registry.live - {this};
        return;
      }
      if partsChanged {
        partsChanged := false;
        calls := calls.(partsChanged := calls.partsChanged + 1);
      }
      TickDueElements();
    }

    /** The countdown loop of `Update`: every due element ticks once, and every counter moves on by `NextCounter`. */
    method TickDueElements()
      requires Valid() && initialized
      modifies this`tickCounters, this`calls
      ensures Valid()
      ensures tickCounters.Keys == updateable
      ensures forall e :: e in updateable ==> tickCounters[e] == NextCounter(old(tickCounters)[e], e.updateInterval)
      ensures OneMoreCallEach(old(calls.tick), calls.tick, DueElements(old(tickCounters)))
      ensures calls == old(calls).(tick := calls.tick)
    {
      var todo := updateable;
      while todo != {}
        invariant todo <= updateable
        invariant tickCounters.Keys == updateable
        invariant forall e :: e in todo ==> tickCounters[e] == old(tickCounters)[e]
        invariant forall e :: e in updateable - todo ==> tickCounters[e] == NextCounter(old(tickCounters)[e], e.updateInterval)
        invariant OneMoreCallEach(old(calls.tick), calls.tick, DueElements(old(tickCounters)) - todo)
        invariant calls == old(calls).(tick := calls.tick)
        decreases todo
      {
        var e :| e in todo;
        if tickCounters[e] <= 0 {
          tickCounters := tickCounters[e := e.updateInterval];
          calls := calls.(tick := calls.tick + multiset{e});
        }
        tickCounters := tickCounters[e := Decrement(tickCounters[e])];
        assert DueElements(old(tickCounters)) - (todo - {e}) == (DueElements(old(tickCounters)) - todo) + (if Due(old(tickCounters)[e]) then {e} else {});
        todo := todo - {e};
      }
    }

    /** Flags the network so that the next update handles a change of its parts. */
    method NotifyPartsChanged()
      modifies this`partsChanged
      ensures partsChanged
      ensures old(Valid()) ==> Valid()
    {
      partsChanged := true;
    }

    /**
     * Removes a cable from the cluster, without checking whether the remaining cables are still
     * connected. When its block provides elements, each provided element gets beforeNetworkKill
     * and is removed from the network.
     */
    method RemoveCable(block: Block, cable: Cable)
      requires Valid()
      requires CreatesElements(block) ==> initialized
      modifies this`cluster, this`elements, this`updateable, this`tickCounters, this`calls
      ensures Valid()
      ensures cluster == old(cluster) - {cable}
      ensures elements == old(elements) - ProvidedBy(block)
      ensures updateable == old(updateable) - ProvidedBy(block)
      ensures tickCounters == old(tickCounters) - ProvidedBy(block)
      ensures calls == old(calls).(kill := old(calls.kill) + if block.provider.Some? then multiset(block.provider.value) else multiset{})
    {
      cluster := cluster - {cable};
      if block.provider.Some? {
        KillProvided(block.provider.value);
      }
    }

    /** The loop of `RemoveCable`: each element of `provided` gets beforeNetworkKill and is removed from the network. */
    method KillProvided(provided: seq<Element>)
      requires Valid() && (provided != [] ==> initialized)
      modifies this`elements, this`updateable, this`tickCounters, this`calls
      ensures Valid()
      ensures elements == old(elements) - set e | e in provided
      ensures updateable == old(updateable) - set e | e in provided
      ensures tickCounters == old(tickCounters) - set e | e in provided
      ensures calls == old(calls).(kill := old(calls.kill) + multiset(provided))
    {
      var i := 0;
      ghost var removed: set<Element> := {};
      while i < |provided|
        invariant 0 <= i <= |provided|
        invariant Valid()
        invariant elements == old(elements) - removed
        invariant updateable == old(updateable) - removed
        invariant tickCounters == old(tickCounters) - removed
        invariant removed == set e | e in provided[..i]
        invariant calls.kill == old(calls.kill) + multiset(provided[..i])
        invariant calls.alive == old(calls.alive) && calls.tick == old(calls.tick) && calls.partsChanged == old(calls.partsChanged)
      {
        calls := calls.(kill := calls.kill + multiset{provided[i]});
        RemoveNetworkElement(provided[i]);
        assert provided[..i + 1] == provided[..i] + [provided[i]];
        removed := removed + {provided[i]};
        i := i + 1;
      }
      assert provided[..i] == provided;
    }

    /** The NBT form of a network: its cluster only. */
    method ToNBT() returns (tag: set<Cable>)
      ensures tag == cluster
    {
      tag := cluster;
    }

    /** Reads the cluster back, re-derives the elements from it and initialises silently. */
    method FromNBT(tag: set<Cable>, blockAt: Cable -> Block, parts: PartContainers)
      requires Valid()
      requires this !in parts.owner.Values
      requires OwnersReady(parts.owner, blockAt, tag)
      modifies this, parts, parts.owner.Values
      ensures Valid() && initialized && cluster == tag
      ensures tag == {} ==> killed && elements == old(elements) && OneMoreCallEach(old(calls.kill), calls.kill, elements)
      ensures calls == old(calls).(kill := calls.kill)
      ensures tag != {} ==> killed == old(killed) && calls == old(calls) && elements == old(elements) + Provided(blockAt, tag)
      ensures updateable == Updateable(elements)
      ensures forall e :: e in updateable ==> tickCounters[e] == 0
      ensures partsChanged == old(partsChanged)
      ensures parts.owner == Claimed(old(parts.owner), Facades(blockAt, tag), this)
      ensures AllLostCables(old(parts.owner), old(Snaps(parts.owner)), blockAt, tag)
    {
      cluster := tag;
      DeriveNetworkElements(blockAt, parts);
      Initialize(true);
    }

    /**
     * Builds a network over the cluster the path finder found from the starting cable (given here
     * as `cables`) and registers it as a new network of the world storage.
     */
    static method InitiateNetworkSetup(cables: set<Cable>, blockAt: Cable -> Block, parts: PartContainers, registry: Registry)
      returns (network: Network)
      requires OwnersReady(parts.owner, blockAt, cables)
      modifies parts, parts.owner.Values, registry
      ensures fresh(network) && network.Valid() && network.cluster == cables
      ensures !network.initialized && network.killed == (cables == {}) && !network.partsChanged
      ensures network.updateable == {} && network.tickCounters == map[]
      ensures network.calls == Calls(multiset{}, multiset{}, multiset{}, 0)
      ensures network.elements == Provided(blockAt, cables)
      ensures registry.live == old(registry.live) + {network}
      ensures parts.owner == Claimed(old(parts.owner), Facades(blockAt, cables), network)
      ensures AllLostCables(old(parts.owner), old(Snaps(parts.owner)), blockAt, cables)
    {
      network := new Network.FromCluster(cables, blockAt, parts);
      registry.live := registry.live + {network};
    }

    /** Adding an element that is not in the network and removing it again leaves the three collections as they were. */
    method AddThenRemove(e: Element)
      requires Valid() && initialized && e !in elements && e !in updateable
      modifies this
      ensures Valid()
      ensures elements == old(elements) && updateable == old(updateable) && tickCounters == old(tickCounters)
    {
      AddNetworkElement(e);
      RemoveNetworkElement(e);
      assert old(tickCounters) - {e} == old(tickCounters);
    }

    /** `kill` has no guard against a second call: killing twice calls beforeNetworkKill twice on every element. */
    method KillTwice()
      requires Valid()
      modifies this`calls, this`killed
      ensures Valid() && killed
      ensures forall x :: calls.kill[x] == old(calls.kill)[x] + (if x in elements then 2 else 0)
    {
      Kill();
      Kill();
    }

    /** However many times the network is notified before an update, that update handles the change exactly once. */
    method NotifyThenUpdate(times: nat, registry: Registry)
      requires Valid() && initialized && cluster != {} && !killed && times >= 1
      modifies this, registry
      ensures Valid() && !partsChanged
      ensures calls.partsChanged == old(calls.partsChanged) + 1
    {
      var i := 0;
      while i < times
        invariant 0 <= i <= times && (i > 0 ==> partsChanged)
        invariant Valid() && initialized && cluster == old(cluster) && !killed
        invariant calls == old(calls)
      {
        NotifyPartsChanged();
        i := i + 1;
      }
      Update(registry);
    }

    /**
     * A live network updated `rounds` times, starting from counters 0 (as `Initialize` and
     * `AddNetworkElementUpdateable` leave them): every updateable element follows the schedule of
     * its interval, ticking exactly `TicksWithin` times, and a pending change is handled once.
     */
    method UpdateRounds(rounds: nat, registry: Registry)
      requires Valid() && initialized && cluster != {} && !killed
      requires forall e :: e in updateable ==> tickCounters[e] == 0
      modifies this, registry
      ensures Valid() && updateable == old(updateable) && registry.live == old(registry.live)
      ensures forall e :: e in updateable ==>
        tickCounters[e] == CounterAfter(e.updateInterval, rounds) &&
        calls.tick[e] == old(calls.tick)[e] + TicksWithin(e.updateInterval, rounds)
      ensures calls.partsChanged == old(calls.partsChanged) + (if old(partsChanged) && rounds > 0 then 1 else 0)
    {
      var i := 0;
      while i < rounds
        invariant 0 <= i <= rounds
        invariant Valid() && initialized && cluster == old(cluster) && !killed
        invariant updateable == old(updateable) && registry.live == old(registry.live)
        invariant forall e :: e in updateable ==>
          tickCounters[e] == CounterAfter(e.updateInterval, i) &&
          calls.tick[e] == old(calls.tick)[e] + TicksWithin(e.updateInterval, i)
        invariant calls.partsChanged == old(calls.partsChanged) + (if old(partsChanged) && i > 0 then 1 else 0)
        invariant i > 0 ==> !partsChanged
        invariant i == 0 ==> partsChanged == old(partsChanged)
      {
        UpdateScheduledRound(registry, i, old(calls.tick));
        i := i + 1;
      }
    }

    /** Round `i + 1` of `UpdateRounds`: one update moves every updateable element from round `i` of its schedule to round `i + 1`. */
    method UpdateScheduledRound(registry: Registry, ghost i: nat, ghost ticks0: multiset<Element>)
      requires Valid() && initialized && cluster != {} && !killed
      requires forall e :: e in updateable ==>
        tickCounters[e] == CounterAfter(e.updateInterval, i) &&
        calls.tick[e] == ticks0[e] + TicksWithin(e.updateInterval, i)
      modifies this, registry
      ensures Valid() && initialized && cluster == old(cluster) && !killed && !partsChanged
      ensures updateable == old(updateable) && registry.live == old(registry.live)
      ensures calls.partsChanged == old(calls.partsChanged) + (if old(partsChanged) then 1 else 0)
      ensures forall e :: e in updateable ==>
        tickCounters[e] == CounterAfter(e.updateInterval, i + 1) &&
        calls.tick[e] == ticks0[e] + TicksWithin(e.updateInterval, i + 1)
    {
      ghost var counters, ticks := tickCounters, calls.tick;
      Update(registry);
      forall e | e in updateable
        ensures tickCounters[e] == CounterAfter(e.updateInterval, i + 1)
        ensures calls.tick[e] == ticks0[e] + TicksWithin(e.updateInterval, i + 1)
      {
        assert tickCounters[e] == NextCounter(counters[e], e.updateInterval);
        assert calls.tick[e] == ticks[e] + (if Due(counters[e]) then 1 else 0);
      }
    }

    /**
     * Saving a network and loading the tag into a fresh network gives the same cluster, with the
     * elements derived again from it and initialised silently: no element is told it is alive.
     */
    method NBTRoundTrip(blockAt: Cable -> Block, parts: PartContainers) returns (copy: Network)
      requires OwnersReady(parts.owner, blockAt, cluster)
      modifies parts, parts.owner.Values
      ensures fresh(copy) && copy.Valid() && copy.initialized && copy.cluster == old(cluster)
      ensures old(cluster) != {} ==> !copy.killed && copy.elements == Provided(blockAt, old(cluster))
      ensures copy.calls.alive == multiset{} && copy.calls.tick == multiset{}
      ensures !copy.partsChanged && copy.calls.partsChanged == 0
      ensures copy.updateable == Updateable(copy.elements)
    {
      var tag := ToNBT();
      copy := new Network.Empty();
      copy.FromNBT(tag, blockAt, parts);
    }
  }

  /** Two networks are equal when each holds every element of the other: the same element set. */
  function AreNetworksEqual(a: Network, b: Network): (equal: bool)
    reads a, b
    ensures equal <==> a.elements == b.elements
  {
    SubsetOfSameSize(b.elements, a.elements);
    b.elements <= a.elements && |a.elements| == |b.elements|
  }

  /** `equals`: the other object is a network holding the same elements. */
  function Equals(a: Network, other: object?): (equal: bool)
    reads a, other
    ensures equal <==> other is Network && a.elements == (other as Network).elements
  {
    other is Network && AreNetworksEqual(a, other as Network)
  }

  lemma SubsetOfSameSize<T>(small: set<T>, large: set<T>)
    ensures small <= large && |small| == |large| ==> small == large
  {
    if small <= large && |small| == |large| {
      assert large == small + (large - small);
      assert |large - small| == 0;
    }
  }
}
