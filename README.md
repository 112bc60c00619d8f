# NetworkView graph model in Dafny

This project models the in-memory graph behind the NetworkView diagram editor:

- a **node** has a name, a position, a selection flag and a lazily created collection of
  **connectors**;
- a **connection** links a source connector to a destination connector;
- a **network** owns lazily created collections of nodes and of connections.

These objects keep their back-references consistent through guarded property setters
and collection-change handlers. That logic lives in three C# classes
(`NodeViewModel`, `ConnectionViewModel`, `NetworkViewModel`). The model treats them as
one Dafny module, `NetworkModel` (`network_model.dfy`):

- Each class becomes a Dafny `class` whose methods update its fields in place under
  `modifies` frames.
- Every `PropertyChanged` notification an object raises is appended to its
  `propertyChanged` log, so "no notification" and "exactly one notification" are
  stated outright.
- A connector's `HotspotUpdated` event is the list of handlers subscribed to it. `+=`
  appends a handler. `-=` removes the last occurrence of that handler, as a C#
  delegate does.
- A collection's `ItemsAdded` and `ItemsRemoved` events are lists of handlers. The
  owner pins those lists with its `Valid()` predicate and runs the handler on the
  batch that the collection reports.
- The `Trace.Assert` checks in the connection setters are preconditions.
- `Connection.Linked()` is the bidirectional invariant: each endpoint that is set
  points back to the connection, and the two endpoints differ. Both endpoint setters
  preserve it.

`sequences.dfy` (module `Sequences`) holds the two list operations the .NET code relies
on: the index of the first occurrence (what `Collection<T>.Remove` takes out) and
removal of the last occurrence (what `-=` does to an invocation list).

`scenarios.dfy` (module `Scenarios`) drives the model through the editor's usual
gestures, with assertions at each step:

- build nodes and connectors;
- drag a connection from A1 to B1;
- move a node, which raises `HotspotUpdated`;
- remove the connection from the network;
- attach and detach a connection at both ends.

### Source and destination detach differently

Detaching the old source connector unsubscribes the connection's handler
(`ConnectionViewModel.cs:51`). Detaching the old destination connector uses `+=`
instead (`ConnectionViewModel.cs:87`): the old destination keeps the handler and gets
a second copy of it. The model follows the code as written:

- `Connection.SetDestConnector` states that the old destination's list grows by one
  `DestHotspotHandler`.
- `Connection.SetSourceConnector` states that its list loses the last
  `SourceHotspotHandler`.
- `Network.RemoveConnection`, `Network.ClearConnections` and
  `Network.ConnectionsItemsRemoved` state the exact invocation lists after the cascade:
  the old source's list without the source handler, and the old destination's old list
  with one more destination handler. Distinct linked connections never share a
  connector, and a connection repeated in the batch is already detached when it comes
  round again, so these lists do not depend on the batch.
- `Scenarios.RemoveAbsent` shows that removing a connection the network does not hold
  leaves A1 attached to it and subscribed.
- `Scenarios.MoveNotifies` shows K raising exactly one SourceConnectorHotspot when A1 moves.
- `Scenarios.RemoveUnsubscribesSource`, `Scenarios.RemoveKeepsHotspot`,
  `Scenarios.RemoveKeepsCachedHotspot` and `Scenarios.RemoveKeepsParent` show A1's
  list empty again, and its hotspot, its parent node and the connection's cached
  hotspot unchanged; `Scenarios.Clear` shows B1 still holding
  the destination handler after `Clear()`.
- `Scenarios.DetachAsymmetry` shows A1 back to an empty list after an attach/detach
  cycle, while B1 holds the destination handler twice.
- `Scenarios.Remove` shows that after the connection is removed, B1 holds a handler
  whose `DestConnector` is null. The next `HotspotUpdated` on B1 would dereference null,
  so `Connector.UpdateHotspot`'s precondition (every subscribed handler can run) no
  longer holds for B1.

## Model

| member | source | states |
|---|---|---|
| Sequences.RemoveLast | SimpleSample/NetworkModel/ConnectionViewModel.cs:51 | `-=` takes one copy of the handler out of the invocation list when it is there (the list is one shorter and its multiset loses exactly that handler); a list without the handler is unchanged |
| Sequences.RemoveLastAt | SimpleSample/NetworkModel/ConnectionViewModel.cs:51 | the copy `-=` removes is the last one: the list is the old one with exactly that position cut out |
| Sequences.UnsubscribeUndoesSubscribe | SimpleSample/NetworkModel/ConnectionViewModel.cs:51-61 | unsubscribing a handler right after subscribing it gives back the original invocation list |
| NetworkModel.Connector.UpdateHotspot | SimpleSample/NetworkModel/ConnectionViewModel.cs:135-146 | raising HotspotUpdated, when every subscribed handler's endpoint is set, leaves every subscribed connection's cached hotspot equal to its endpoint's live hotspot, and each listening connection's log grows by exactly the notifications of its own handlers, in subscription order (`RaisedOn`); the list of handlers and every endpoint stay as they were |
| NetworkModel.DispatchNext | SimpleSample/NetworkModel/ConnectionViewModel.cs:135-146 | running the handler at one position of the invocation list refreshes its end, keeps the other cached end, and extends every listener's log from the notifications of the handlers before it to those up to and including it |
| NetworkModel.RaisedOnSingle | SimpleSample/NetworkModel/ConnectionViewModel.cs:111-127 | a connection with exactly one handler in the list receives exactly that handler's notification, SourceConnectorHotspot or DestConnectorHotspot |
| NetworkModel.RaisedOnNone | SimpleSample/NetworkModel/ConnectionViewModel.cs:111-127 | a connection with no handler in the list receives no notification |
| NetworkModel.Dispatch | SimpleSample/NetworkModel/ConnectionViewModel.cs:135-146 | one handler refreshes the cached end it maintains from the live hotspot, leaves the other cached end unchanged, and raises exactly one notification: SourceConnectorHotspot for a source handler, DestConnectorHotspot for a destination handler |
| NetworkModel.Connection.constructor | SimpleSample/NetworkModel/ConnectionViewModel.cs:18-29 | a new connection has no endpoints and has raised no notification |
| NetworkModel.Connection.SetSourceConnector | SimpleSample/NetworkModel/ConnectionViewModel.cs:39-66 | same value: nothing changes and nothing is notified. Otherwise the old source (required attached to this) ends unattached with the source handler unsubscribed; a new source (required unattached) ends attached to this, subscribed, and its hotspot copied; setting null keeps the cached hotspot; notifications are SourceConnectorHotspot (when attaching) then SourceConnector; `Linked()` is preserved |
| NetworkModel.Connection.SetDestConnector | SimpleSample/NetworkModel/ConnectionViewModel.cs:75-102 | as SetSourceConnector with DestConnectorHotspot/DestConnector, except that the old destination ends unattached with the destination handler subscribed once more |
| NetworkModel.Connection.SetSourceConnectorHotspot | SimpleSample/NetworkModel/ConnectionViewModel.cs:108-117 | the cached source hotspot takes the value and SourceConnectorHotspot is notified every time, with no equality guard |
| NetworkModel.Connection.SetDestConnectorHotspot | SimpleSample/NetworkModel/ConnectionViewModel.cs:119-128 | the cached destination hotspot takes the value and DestConnectorHotspot is notified every time |
| NetworkModel.Connection.SourceConnectorHotspotUpdated | SimpleSample/NetworkModel/ConnectionViewModel.cs:135-138 | with a source set, the cached source hotspot becomes the source's live hotspot, with one notification; the destination end is outside its frame |
| NetworkModel.Connection.DestinationConnectorHotspotUpdated | SimpleSample/NetworkModel/ConnectionViewModel.cs:143-146 | with a destination set, the cached destination hotspot becomes its live hotspot, with one notification; the source end is outside its frame |
| NetworkModel.AttachedOf | ProjectDesignSurfaceSample/NetworkModel/NodeViewModel.cs:136-146 | the attached-connections list has at most one entry per connector |
| NetworkModel.AttachedOfMembers | ProjectDesignSurfaceSample/NetworkModel/NodeViewModel.cs:138-143 | a connection is in the list if and only if some connector of the node is attached to it |
| NetworkModel.AttachedOfConcat | ProjectDesignSurfaceSample/NetworkModel/NodeViewModel.cs:138-143 | the list follows connector order: the attachments of two runs of connectors are the concatenation of their lists |
| NetworkModel.SharedConnectionListedTwice | ProjectDesignSurfaceSample/NetworkModel/NodeViewModel.cs:136-146 | a connection joining two connectors of the same node appears at least twice, since the result is a list and not a set |
| NetworkModel.CollectAttached | ProjectDesignSurfaceSample/NetworkModel/NodeViewModel.cs:136-146 | the foreach loop builds exactly the attached connections of the connectors, in order, skipping unattached ones |
| NetworkModel.Node.constructor | ProjectDesignSurfaceSample/NetworkModel/NodeViewModel.cs:45-47 | a new node has an empty name, position (0, 0), is not selected, has no connector collection yet and has raised no notification |
| NetworkModel.Node.Named | ProjectDesignSurfaceSample/NetworkModel/NodeViewModel.cs:49-52 | as the default constructor, with the given name |
| NetworkModel.Node.SetName | ProjectDesignSurfaceSample/NetworkModel/NodeViewModel.cs:60-70 | the name takes the value; setting the current name raises no notification, any other raises exactly one Name notification; no other field is in its frame |
| NetworkModel.Node.SetX | ProjectDesignSurfaceSample/NetworkModel/NodeViewModel.cs:79-89 | the same guard for X; Y, Name, IsSelected and Connectors are outside its frame |
| NetworkModel.Node.SetY | ProjectDesignSurfaceSample/NetworkModel/NodeViewModel.cs:98-108 | the same guard for Y; X, Name, IsSelected and Connectors are outside its frame |
| NetworkModel.Node.SetIsSelected | ProjectDesignSurfaceSample/NetworkModel/NodeViewModel.cs:156-166 | the same guard for IsSelected |
| NetworkModel.Node.Connectors | ProjectDesignSurfaceSample/NetworkModel/NodeViewModel.cs:116-126 | the first access creates an empty collection with this node's ItemsAdded and ItemsRemoved handlers registered once; later accesses return that same, unchanged collection with no second registration |
| NetworkModel.Node.AttachedConnections | ProjectDesignSurfaceSample/NetworkModel/NodeViewModel.cs:132-147 | the result is AttachedOf of the node's connectors, creating the connector collection if needed |
| NetworkModel.Node.ConnectorsItemsAdded | ProjectDesignSurfaceSample/NetworkModel/NodeViewModel.cs:174-180 | every connector of the batch gets this node as parent; their attachments, hotspots and subscriptions are kept; no other object is in its frame |
| NetworkModel.Node.ConnectorsItemsRemoved | ProjectDesignSurfaceSample/NetworkModel/NodeViewModel.cs:186-192 | every connector of the batch loses its parent, with the rest of each connector kept; connectors outside the batch are outside its frame |
| NetworkModel.Node.AddConnectors | ProjectDesignSurfaceSample/NetworkModel/NodeViewModel.cs:114-126 | adding a batch appends it to the connectors and, through ItemsAdded, makes this node the parent of each |
| NetworkModel.Node.RemoveConnector | ProjectDesignSurfaceSample/NetworkModel/NodeViewModel.cs:186-192 | removing a present connector cuts its first occurrence out and clears its parent; an absent one changes nothing |
| NetworkModel.Node.ClearConnectors | ProjectDesignSurfaceSample/NetworkModel/NodeViewModel.cs:186-192 | clearing empties the collection and clears the parent of every connector it held |
| NetworkModel.Network.constructor | ProjectDesignSurfaceAdvancedSample/ProjectDesignSurfaceModel/NetworkViewModel.cs:22-27 | a new network has neither collection yet |
| NetworkModel.Network.Nodes | ProjectDesignSurfaceAdvancedSample/ProjectDesignSurfaceModel/NetworkViewModel.cs:34-45 | created empty on first access with no handler; later accesses return the same, unchanged collection |
| NetworkModel.Network.Connections | ProjectDesignSurfaceAdvancedSample/ProjectDesignSurfaceModel/NetworkViewModel.cs:50-62 | created empty on first access with exactly one ItemsRemoved handler and no ItemsAdded handler; later accesses return the same, unchanged collection |
| NetworkModel.Network.AddNodes | ProjectDesignSurfaceAdvancedSample/ProjectDesignSurfaceModel/NetworkViewModel.cs:34-45 | the batch is appended; only the nodes collection is in its frame |
| NetworkModel.Network.RemoveNode | ProjectDesignSurfaceAdvancedSample/ProjectDesignSurfaceModel/NetworkViewModel.cs:34-45 | the node's first occurrence is cut out; connections and connectors are outside its frame, so nothing cascades |
| NetworkModel.Network.AddConnections | ProjectDesignSurfaceAdvancedSample/ProjectDesignSurfaceModel/NetworkViewModel.cs:50-62 | the batch is appended; no connection or connector is in its frame, so nothing cascades |
| NetworkModel.Network.TakeConnection | ProjectDesignSurfaceAdvancedSample/ProjectDesignSurfaceModel/NetworkViewModel.cs:50-62 | `Connections.Remove(k)` before its event: the collection is created on first use, a present connection's first occurrence is cut out and reported as the one-element removed batch; an absent one leaves the list as it was and reports an empty batch |
| NetworkModel.Network.TakeAllConnections | ProjectDesignSurfaceAdvancedSample/ProjectDesignSurfaceModel/NetworkViewModel.cs:50-62 | `Connections.Clear()` before its event: the collection ends empty and reports everything it held, in order, as the removed batch |
| NetworkModel.DetachEndpoints | ProjectDesignSurfaceAdvancedSample/ProjectDesignSurfaceModel/NetworkViewModel.cs:71-75 | `SourceConnector = null; DestConnector = null;` on a linked connection: both endpoints become null with exactly the SourceConnector and DestConnector notifications for the ends that were set; the old source ends unattached with the last copy of the source handler removed from its exact old list; the old destination ends unattached with its exact old list plus one more destination handler; both connectors keep their hotspot and parent node, and the connection keeps both cached hotspots |
| NetworkModel.DetachNext | ProjectDesignSurfaceAdvancedSample/ProjectDesignSurfaceModel/NetworkViewModel.cs:71-75 | one pass of the foreach keeps the cascade invariant: every connection handled so far is detached from the endpoints it started with, and every other connection of the batch, with its endpoints and their invocation lists, is untouched |
| NetworkModel.EndsApart | ProjectDesignSurfaceAdvancedSample/ProjectDesignSurfaceModel/NetworkViewModel.cs:71-75 | while the foreach runs, the endpoints of the next connection belong to no other connection of the batch, so detaching it leaves the others as they were |
| NetworkModel.Network.RemoveConnection | ProjectDesignSurfaceAdvancedSample/ProjectDesignSurfaceModel/NetworkViewModel.cs:69-76 | removing a present, linked connection cuts its first occurrence out and detaches it exactly as DetachEndpoints states (endpoints null, the two notifications, the source's list without the source handler, the destination's old list plus the destination handler); an absent connection changes nothing: it and both of its endpoints are unchanged. Its frame leaves the connectors' hotspots and parent nodes and the connection's cached hotspots untouched |
| NetworkModel.Network.ClearConnections | ProjectDesignSurfaceAdvancedSample/ProjectDesignSurfaceModel/NetworkViewModel.cs:69-76 | clearing empties the collection and detaches every connection it held as DetachEndpoints states, with exact invocation lists and notifications; every old endpoint keeps its hotspot and parent node and every connection its cached hotspots |
| NetworkModel.Network.ConnectionsItemsRemoved | ProjectDesignSurfaceAdvancedSample/ProjectDesignSurfaceModel/NetworkViewModel.cs:69-76 | for a batch of linked connections, possibly with repeats: every connection ends detached from the endpoints it had before the event, with exact invocation lists and notifications (a repeat finds the connection already detached and changes nothing); connectors keep hotspot and parent node, connections their cached hotspots |
| NetworkModel.ObservableCollection.SubscribeItemsAdded | ProjectDesignSurfaceSample/NetworkModel/NodeViewModel.cs:121 | `ItemsAdded +=` appends the handler to the event's invocation list |
| NetworkModel.ObservableCollection.SubscribeItemsRemoved | ProjectDesignSurfaceAdvancedSample/ProjectDesignSurfaceModel/NetworkViewModel.cs:57 | `ItemsRemoved +=` appends the handler to the event's invocation list |

## Left out

- The overview window (`AdvancedSample/OverviewWindow.xaml.cs`) is WPF glue with floating-point layout and no model state, so it is not modelled.
- `AbstractModelBase.OnPropertyChanged` and WPF's `INotifyPropertyChanged` dispatch are not part of this model. A notification is an entry appended to the object's `propertyChanged` log, and nothing listens to it.
- `ConnectorViewModel` is not part of this model. A connector is reduced to the surface the three classes use: its attached connection, its hotspot, its parent node and its HotspotUpdated handlers. Its own `Hotspot` setter is not part of this model. `Connector.UpdateHotspot` sets the hotspot and always raises the event, so it does not model any equality guard that setter may have.
- `ImpObservableCollection` is not part of this model. `ObservableCollection` is an ordered list whose `AddRange`, `Remove` and `Clear` return the batch they report, and `FirstIndex` is the position `Remove` takes out. Each owner then runs its one registered handler on that batch. The collection's own members are rows of the table only where the three classes call them: `SubscribeItemsAdded`/`SubscribeItemsRemoved` for the `+=` registrations, and `AddRange`, `Remove` and `Clear` through the `Add…`, `Remove…` and `Clear…` methods of `Node` and `Network`. Handler lists other than the owner's own are excluded by `Valid()`.
- Delegate dispatch through `sender` and `EventArgs` is a direct call of the handler named in the subscription list.
- `System.Windows.Point` and the `double` X and Y are pairs of `real` and a `real`. The code only copies and compares them, so NaN and rounding are not modelled.
- `AttachedConnections` returns a sequence value, so the "new list each time" aliasing guarantee is implicit: no caller can mutate a shared list.
- Connector.UpdateHotspot: states that every subscribed handler has refreshed its end, but not that a cached end with no subscribed handler keeps its value. `Dispatch` states that per handler, and the per-handler frames of `SourceConnectorHotspotUpdated` and `DestinationConnectorHotspotUpdated` state it too. Carrying it through the loop over all listeners was too expensive for the verifier.
- Connection.DestinationConnectorHotspotUpdated: requires a destination connector. The C# handler dereferences `DestConnector` (`ConnectionViewModel.cs:145`) and throws a NullReferenceException when it is null. That happens after a detach: the old destination keeps the handler because of the `+=` at `ConnectionViewModel.cs:87`. The throwing path is excluded by the precondition and is not modelled.
- Connector.UpdateHotspot: requires that every subscribed handler can run, so the NullReferenceException above is not modelled. In the C# code a throwing handler also stops the invocation list: the handlers after it do not run. The model does not capture that either.
- Node.Named and Node.SetName: a C# `string` can be null, so `new NodeViewModel(null)` and `Name = null` are accepted by the code (`NodeViewModel.cs:49-52`, `:60-70`), the setter then storing null and notifying Name. A Dafny `string` cannot be null, so a null name is not modelled.
