# Integrated Dynamics networks and aspect builder, modelled in Dafny

This project models two parts of the Integrated Dynamics Minecraft mod.

**Networks** (`Network.java`, module `NetworkCore` in `network.dfy`). A network is built over
a cluster of cables. It derives its network elements from the blocks at those cables and claims
their part containers from the networks that held them before. Each update ticks every element
that asks for ticks on its own countdown schedule. It coalesces "parts changed" notifications and
tears itself down when its cluster is empty. `Network` is a class whose fields are updated in
place:

- the cluster of cables;
- the element set;
- the tick set and its counter map, which stay absent (`initialized` false) until `initialize`;
- the `partsChanged` and `killed` flags.

Calls out of the network are recorded in a ghost `Calls` value on the network that makes them, counted per element:

- `afterNetworkAlive`, `beforeNetworkKill` and `update` on an element;
- `onPartsChanged`.

The world is a parameter:

- `blockAt` gives the block at a cable: whether it provides elements, and which ones, and
  whether it is a part-container facade;
- `PartContainers` holds the network each part container currently belongs to;
- `Registry` is the world storage's set of live networks.

The countdown rule is also stated on its own, in module `TickSchedule` (`tick_schedule.dfy`).
There it is proved what it means over many rounds.

**Aspect builder** (`AspectBuilder.java`, module `AspectBuild` in `aspect_builder.dfy`). An
immutable builder of read and write aspects. Every step returns a new builder value; a step that
throws in the source returns `Err` with the same message. An aspect's name is `"." + kind` for each
kind in order, and its value propagation is a left fold over its propagators; the two loops of the
source are methods proved equal to those functions. A `Step` datatype lets properties of any chain
of builder steps be proved by induction.

`wrappers.dfy` holds the `Option` and `Result` datatypes.

Two facts about the code are worth stating:

- An element with update interval k >= 1 ticks on rounds 0, k, 2k, … after it is registered:
  `Network.java:178-182` resets a due counter to k and decrements it in the same round.
  Intervals from 0 down to -2147483647 tick every round. Intervals and counters are Java `int`s,
  and for Integer.MIN_VALUE the decrement wraps to Integer.MAX_VALUE, so that element ticks once
  every 2^31 rounds. See `TickSchedule.TicksEveryIntervalRounds`.
- `kill()` has no guard (`Network.java:147-152`). A second call runs every element's
  `beforeNetworkKill` again (`NetworkCore.Network.KillTwice`).

## Model

| member | source | states |
|---|---|---|
| `TickSchedule.NextCounter` | src/main/java/org/cyclops/integrateddynamics/core/network/Network.java:177-183 | a due counter (<= 0) becomes period - 1 for an interval k >= 1 or Integer.MIN_VALUE (the latter wrapping to Integer.MAX_VALUE), and stays due for intervals from 1 down to -2147483647; any other counter goes down by one and stays non-negative |
| `TickSchedule.CounterInPeriod` | src/main/java/org/cyclops/integrateddynamics/core/network/Network.java:177-183 | from a fresh counter 0, with period p (interval k >= 1 or Integer.MIN_VALUE), the counter r rounds into a period is p - r, or 0 at the start of a period |
| `TickSchedule.PeriodicTicks` | src/main/java/org/cyclops/integrateddynamics/core/network/Network.java:177-183 | with interval k >= 1 or Integer.MIN_VALUE an element ticks in round n exactly when n is a multiple of its period |
| `TickSchedule.SmallIntervalTicksEveryRound` | src/main/java/org/cyclops/integrateddynamics/core/network/Network.java:177-183 | with an interval from 1 down to -2147483647 an element ticks in every round |
| `TickSchedule.TicksEveryIntervalRounds` | src/main/java/org/cyclops/integrateddynamics/core/network/Network.java:177-183 | for every Java int interval, an element ticks in round n exactly when n is a multiple of its period: k for k >= 1, 1 for intervals from 0 down to -2147483647, 2^31 for Integer.MIN_VALUE |
| `TickSchedule.PeriodicTicksWithin` | src/main/java/org/cyclops/integrateddynamics/core/network/Network.java:177-183 | with interval k >= 1 or Integer.MIN_VALUE, in j*p + r rounds (r < p, the period) an element ticks j times, plus once when r > 0 |
| `TickSchedule.SmallIntervalTicksWithin` | src/main/java/org/cyclops/integrateddynamics/core/network/Network.java:177-183 | with an interval from 1 down to -2147483647 an element ticks n times in n rounds |
| `TickSchedule.TicksWithinCount` | src/main/java/org/cyclops/integrateddynamics/core/network/Network.java:177-183 | for every Java int interval, in j*p + r rounds (r < p, the period) an element ticks j times, plus once when r > 0: ceil(n / p) ticks in n rounds |
| `NetworkCore.LoseOneMore` | src/main/java/org/cyclops/integrateddynamics/core/network/Network.java:71-74 | a network that has lost some cables and then loses one more through removeCable and notifyPartsChanged has lost both: the cables, their elements from all three collections, a kill hook for exactly those elements, and the changed flag |
| `NetworkCore.NothingLostYet` | src/main/java/org/cyclops/integrateddynamics/core/network/Network.java:59-60 | before any cable is claimed every consistent network has lost nothing |
| `NetworkCore.AreNetworksEqual` | src/main/java/org/cyclops/integrateddynamics/core/network/Network.java:222-224 | "contains all and same size" holds exactly when the two element sets are equal, so it is an equivalence |
| `NetworkCore.Equals` | src/main/java/org/cyclops/integrateddynamics/core/network/Network.java:226-229 | equals holds exactly for another network with the same element set |
| `NetworkCore.PartContainers.Claim` | src/main/java/org/cyclops/integrateddynamics/core/network/Network.java:75-76 | setNetwork: the part container at a facade cable now belongs to the new network and no other entry changes; a non-facade cable changes nothing; so the owner table is the claimed table extended by that cable |
| `NetworkCore.Network.Empty` | src/main/java/org/cyclops/integrateddynamics/core/network/Network.java:41-43 | the network made before reading NBT: empty cluster, no elements, not initialised, no calls |
| `NetworkCore.Network.FromCluster` | src/main/java/org/cyclops/integrateddynamics/core/network/Network.java:54-57 | a new network over the cables: killed iff the cluster is empty, elements are everything the cluster's blocks provide, every facade cable's part container is claimed, and every previous network has lost exactly its claimed cables |
| `NetworkCore.Network.DeriveNetworkElements` | src/main/java/org/cyclops/integrateddynamics/core/network/Network.java:59-80 | an empty cluster kills the network, calling beforeNetworkKill once per element, and claims nothing; otherwise elements grow by all provided elements, the owner table is claimed for every facade, and each previous owner loses exactly those cables with their elements (each getting beforeNetworkKill) and is flagged as changed |
| `NetworkCore.Network.ClaimAll` | src/main/java/org/cyclops/integrateddynamics/core/network/Network.java:61-78 | the loop over the cluster: after all cables, the elements, the owner table and the previous networks are as the whole cluster requires, whatever the iteration order |
| `NetworkCore.Network.ClaimCable` | src/main/java/org/cyclops/integrateddynamics/core/network/Network.java:62-77 | one cable: its provided elements are added, and its part container, if any, moves here from its previous network |
| `NetworkCore.Network.ReleaseCable` | src/main/java/org/cyclops/integrateddynamics/core/network/Network.java:70-74 | the previous owner of a claimed part container loses the cable, and every other previous network is unchanged |
| `NetworkCore.Network.LoseCable` | src/main/java/org/cyclops/integrateddynamics/core/network/Network.java:72-73 | removeCable followed by notifyPartsChanged extends what the network has lost by the cable |
| `NetworkCore.Network.AddNetworkElement` | src/main/java/org/cyclops/integrateddynamics/core/network/Network.java:94-97 | the element joins the element set, and the tick set with counter 0 exactly when it asks for ticks; an element that does not ask for ticks can be added before `initialize` |
| `NetworkCore.Network.AddNetworkElementUpdateable` | src/main/java/org/cyclops/integrateddynamics/core/network/Network.java:103-108 | only an element asking for ticks enters the tick set, with counter 0 |
| `NetworkCore.Network.RemoveNetworkElement` | src/main/java/org/cyclops/integrateddynamics/core/network/Network.java:115-118 | the element leaves the element set, the tick set and the counter map |
| `NetworkCore.Network.RemoveNetworkElementUpdateable` | src/main/java/org/cyclops/integrateddynamics/core/network/Network.java:124-127 | the element leaves the tick set and the counter map only |
| `NetworkCore.Network.AddThenRemove` | src/main/java/org/cyclops/integrateddynamics/core/network/Network.java:94-127 | adding an absent element and removing it again restores all three collections |
| `NetworkCore.Network.Initialize` | src/main/java/org/cyclops/integrateddynamics/core/network/Network.java:133-142 | the tick set becomes exactly the elements asking for ticks, all counters 0; afterNetworkAlive is called once on every element unless silent, and never when silent |
| `NetworkCore.Network.Kill` | src/main/java/org/cyclops/integrateddynamics/core/network/Network.java:147-152 | beforeNetworkKill is called once on every element, then the network is killed |
| `NetworkCore.Network.KillTwice` | src/main/java/org/cyclops/integrateddynamics/core/network/Network.java:147-152 | with no guard, killing twice calls beforeNetworkKill twice on every element |
| `NetworkCore.Network.KillIfEmpty` | src/main/java/org/cyclops/integrateddynamics/core/network/Network.java:158-164 | returns true exactly when the cluster is empty, and then the network is killed; otherwise nothing changes |
| `NetworkCore.Network.Update` | src/main/java/org/cyclops/integrateddynamics/core/network/Network.java:169-185 | an empty or killed network is dropped from the registry and ticks nothing; a live one handles a pending change exactly once and clears the flag, ticks each due element once and moves every counter on by the countdown rule |
| `NetworkCore.Network.TickDueElements` | src/main/java/org/cyclops/integrateddynamics/core/network/Network.java:177-183 | every element whose counter was due ticks once and no other element ticks; every counter becomes NextCounter of its old value |
| `NetworkCore.Network.UpdateRounds` | src/main/java/org/cyclops/integrateddynamics/core/network/Network.java:169-185 | over n updates of a live network from fresh counters, every updateable element's counter follows CounterAfter and it ticks exactly TicksWithin times; a pending change is handled once |
| `NetworkCore.Network.NotifyPartsChanged` | src/main/java/org/cyclops/integrateddynamics/core/network/Network.java:190-192 | sets the changed flag and nothing else |
| `NetworkCore.Network.NotifyThenUpdate` | src/main/java/org/cyclops/integrateddynamics/core/network/Network.java:169-192 | any number (at least one) of notifications before an update give exactly one onPartsChanged, and the flag is cleared |
| `NetworkCore.Network.RemoveCable` | src/main/java/org/cyclops/integrateddynamics/core/network/Network.java:204-214 | the cable leaves the cluster; when its block provides elements each gets beforeNetworkKill and leaves all three collections |
| `NetworkCore.Network.KillProvided` | src/main/java/org/cyclops/integrateddynamics/core/network/Network.java:209-212 | the loop of removeCable: the kill hook once per occurrence of each provided element, and all of them removed |
| `NetworkCore.Network.ToNBT` | src/main/java/org/cyclops/integrateddynamics/core/network/Network.java:231-236 | the saved form is the cluster |
| `NetworkCore.Network.FromNBT` | src/main/java/org/cyclops/integrateddynamics/core/network/Network.java:238-243 | the cluster is read back, the elements are derived from it, and the network is initialised silently |
| `NetworkCore.Network.NBTRoundTrip` | src/main/java/org/cyclops/integrateddynamics/core/network/Network.java:231-243 | loading a saved network into a fresh one gives the same cluster, elements derived from it, the tick set of its updateable elements, no pending change, and no alive, tick or parts-changed call |
| `NetworkCore.Network.InitiateNetworkSetup` | src/main/java/org/cyclops/integrateddynamics/core/network/Network.java:268-272 | a fresh network over the found cluster, as `new Network(cluster)` leaves it (killed iff the cluster is empty, elements derived from it, part containers claimed, not initialised, no pending change, no calls), is registered as live |
| `AspectBuild.JoinList` | src/main/java/org/cyclops/integrateddynamics/core/part/aspect/build/AspectBuilder.java:72-76 | joinList keeps the list as a prefix and adds the element at the end exactly when it is not null |
| `AspectBuild.UnlocalizedTypeConcat` | src/main/java/org/cyclops/integrateddynamics/core/part/aspect/build/AspectBuilder.java:204-211 | the name of concatenated kinds is the concatenation of their names |
| `AspectBuild.UnlocalizedTypeAppend` | src/main/java/org/cyclops/integrateddynamics/core/part/aspect/build/AspectBuilder.java:204-211 | appending a kind appends "." + kind to the name |
| `AspectBuild.UnlocalizedTypeShape` | src/main/java/org/cyclops/integrateddynamics/core/part/aspect/build/AspectBuilder.java:248-255 | the name has one "." per kind plus the kinds' characters, and starts with "." when there is a kind |
| `AspectBuild.DeriveUnlocalizedType` | src/main/java/org/cyclops/integrateddynamics/core/part/aspect/build/AspectBuilder.java:204-211 | the string-builder loop computes the in-order "." + kind concatenation |
| `AspectBuild.PropagateConcat` | src/main/java/org/cyclops/integrateddynamics/core/part/aspect/build/AspectBuilder.java:216-223 | propagating through two lists in turn is propagating through their concatenation |
| `AspectBuild.PropagateAppend` | src/main/java/org/cyclops/integrateddynamics/core/part/aspect/build/AspectBuilder.java:216-223 | a propagator appended last is applied last |
| `AspectBuild.ForReadType` | src/main/java/org/cyclops/integrateddynamics/core/part/aspect/build/AspectBuilder.java:174-178 | a read builder for the type: kinds are the type name, no properties, no propagators, activators or deactivators |
| `AspectBuild.ForWriteType` | src/main/java/org/cyclops/integrateddynamics/core/part/aspect/build/AspectBuilder.java:187-191 | the same, as a write builder |
| `AspectBuild.HandleWithKind` | src/main/java/org/cyclops/integrateddynamics/core/part/aspect/build/AspectBuilder.java:69-77 | keeps role, type and properties; appends the propagator and the non-null kind; the name grows by "." + kind and the new propagator is applied after the old ones |
| `AspectBuild.Handle` | src/main/java/org/cyclops/integrateddynamics/core/part/aspect/build/AspectBuilder.java:58-60 | appends the propagator and leaves kinds, activators and deactivators unchanged |
| `AspectBuild.AppendKind` | src/main/java/org/cyclops/integrateddynamics/core/part/aspect/build/AspectBuilder.java:84-92 | only the kinds change, by the non-null kind; the name grows by "." + kind |
| `AspectBuild.WithProperties` | src/main/java/org/cyclops/integrateddynamics/core/part/aspect/build/AspectBuilder.java:99-107 | only the default properties change |
| `AspectBuild.AppendActivator` | src/main/java/org/cyclops/integrateddynamics/core/part/aspect/build/AspectBuilder.java:115-126 | fails exactly on a read builder, with the source's message; otherwise only the activators change |
| `AspectBuild.AppendDeactivator` | src/main/java/org/cyclops/integrateddynamics/core/part/aspect/build/AspectBuilder.java:134-145 | fails exactly on a read builder, with the source's message; otherwise only the deactivators change |
| `AspectBuild.BuildRead` | src/main/java/org/cyclops/integrateddynamics/core/part/aspect/build/AspectBuilder.java:150-155 | fails exactly on a write builder; otherwise a reader named after the kinds with the builder's properties, type and propagators |
| `AspectBuild.BuildWrite` | src/main/java/org/cyclops/integrateddynamics/core/part/aspect/build/AspectBuilder.java:160-165 | fails exactly on a read builder; otherwise a writer named after the kinds with the builder's properties, type, propagators, activators and deactivators |
| `AspectBuild.FreshAspectName` | src/main/java/org/cyclops/integrateddynamics/core/part/aspect/build/AspectBuilder.java:174-191 | an aspect built straight from forReadType or forWriteType is named "." + type name |
| `AspectBuild.GetValue` | src/main/java/org/cyclops/integrateddynamics/core/part/aspect/build/AspectBuilder.java:214-225 | the loop threads the (target, properties) pair through the propagators in order: the left fold |
| `AspectBuild.Write` | src/main/java/org/cyclops/integrateddynamics/core/part/aspect/build/AspectBuilder.java:263-269 | the loop threads the (target, properties, variable) triple through the propagators in order: the left fold |
| `AspectBuild.ApplyOne` | src/main/java/org/cyclops/integrateddynamics/core/part/aspect/build/AspectBuilder.java:69-145 | a builder step that succeeds keeps role and value type and appends only its own kind and propagator |
| `AspectBuild.ApplyAllAccumulates` | src/main/java/org/cyclops/integrateddynamics/core/part/aspect/build/AspectBuilder.java:69-145 | a successful chain of steps keeps role and value type, and its kinds and propagators are the starting ones followed by the steps' own, in order |
| `AspectBuild.ApplyAllExtends` | src/main/java/org/cyclops/integrateddynamics/core/part/aspect/build/AspectBuilder.java:204-225 | after a successful chain, the name is the old name followed by the steps' kinds, and propagation runs the old propagators and then the steps' |
| `AspectBuild.ApplyAllFails` | src/main/java/org/cyclops/integrateddynamics/core/part/aspect/build/AspectBuilder.java:115-145 | a chain of steps fails exactly when the builder is a reader and some step adds an activator or a deactivator |

## Left out

- Minecraft world access is a parameter: the block at a cable, the part container's network, and
  the elements a provider creates. Provider blocks create equal elements on every call, so the
  elements `removeCable` creates are the ones the network holds.
- The NBT encoding is left out: a saved network is its set of cables. `Cluster.fromNBT` is taken
  to replace the cluster's cables.
- `PathFinder.getConnectedCluster` is not part of this model; `InitiateNetworkSetup` takes its
  result as a parameter.
- `NetworkWorldStorage` is reduced to its set of live networks (`Registry`).
- The `volatile` flags and any concurrent access are not modelled.
- `onPartsChanged` only prints, and `afterServerLoad`/`beforeServerStop` are empty. The model
  counts the calls to the first and leaves out the other two.
- `resetCurrentNetwork` on a part container is not part of this model.
- The no-argument `initialize()` only calls `initialize(false)`, so it is `Initialize(false)`.
- The source would throw a NullPointerException on the tick set before `initialize`. The model makes
  those cases preconditions instead:
  - removing an element;
  - adding an element that asks for ticks (adding any other element needs no initialised network);
  - the live branch of `update`;
  - `removeCable` of a block that creates at least one element; a previous network that loses
    such a cable must be initialised too.
- Iteration over a cluster or element set has no fixed order here. Calls are counted per element,
  so every result holds for every order.
- `NetworkCore.Network.DeriveNetworkElements` (and `FromNBT`, which calls it) requires that the
  network owns no part container at all, not only none in its own cluster. A network made by
  `new Network(cluster)` or the NBT constructor owns none. A network re-reading NBT while it owns
  part containers outside the new cluster is not covered. If it owned one inside the cluster, the
  source would remove cables from the cluster while iterating over it.
- `NetworkCore.Network.FromCluster`, `FromNBT` and `InitiateNetworkSetup` say nothing about other
  networks beyond the previous owners of the claimed part containers.
- What propagators, activators, deactivators and the aspect base classes compute is opaque. A
  propagator is any total function on an opaque output value.
- `AspectBuild.GetValue` and `AspectBuild.Write` leave out `EvaluationException`: its wrapping
  and `printStackTrace` in `getValue`, and its propagation out of `write`.
- `AspectBuild.Write` returns the final output that the source computes and drops.
- Properties for `write` come from the aspect base class (`hasProperties`/`getProperties`); here
  they are a parameter.
- `onActivate`/`onDeactivate` of a built writer are not modelled. They call the base class's
  `onActivate`/`onDeactivate` first and then each activator or deactivator in turn. The builder's
  part is modelled: `BuildWrite` keeps both lists.
- Java generics and the unchecked casts in `buildRead`/`buildWrite` are not modelled. All
  propagators work on one opaque value type.
- `SubGuiBox.java` is not part of this model.
