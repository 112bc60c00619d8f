/**
 * The in-memory graph behind the diagram editor: nodes own connectors, a connection
 * links a source connector to a destination connector, and a network owns the nodes
 * and the connections. The objects keep their mutual back-references consistent
 * through guarded setters and collection-change handlers.
 *
 * Events are modelled explicitly: a connector's HotspotUpdated event is the list of
 * handlers subscribed to it (`+=` appends, `-=` removes the last occurrence), a
 * collection's ItemsAdded / ItemsRemoved events are lists of handlers, and the
 * PropertyChanged notifications an object raises are appended to its
 * `propertyChanged` log.
 */
module NetworkModel {
  import opened Sequences

  /** A 2-D location (System.Windows.Point); the model only copies and compares it. */
  datatype Point = Point(x: real, y: real)

  /** The name a PropertyChanged notification carries. */
  datatype PropertyName =
    | Name | X | Y | IsSelected
    | SourceConnector | DestConnector | SourceConnectorHotspot | DestConnectorHotspot

  /** A handler subscribed to a connector's HotspotUpdated event. */
  datatype HotspotHandler =
    | SourceHotspotHandler(connection: Connection)  // Connection.SourceConnectorHotspotUpdated
    | DestHotspotHandler(connection: Connection)    // Connection.DestinationConnectorHotspotUpdated
  {
    /** The handler can run: the endpoint whose hotspot it reads is set. */
    predicate CanRun()
      reads connection
    {
      match this
      case SourceHotspotHandler(k) => k.sourceConnector != null
      case DestHotspotHandler(k) => k.destConnector != null
    }

    /** The cached hotspot the handler maintains mirrors its endpoint's live hotspot. */
    predicate Delivered()
      reads connection, connection.sourceConnector, connection.destConnector
    {
      match this
      case SourceHotspotHandler(k) =>
        k.sourceConnector != null && k.sourceConnectorHotspot == k.sourceConnector.hotspot
      case DestHotspotHandler(k) =>
        k.destConnector != null && k.destConnectorHotspot == k.destConnector.hotspot
    }
  }

  /** A handler subscribed to a collection's ItemsAdded or ItemsRemoved event. */
  datatype CollectionHandler =
    | NodeConnectorsAdded(node: Node)              // Node.ConnectorsItemsAdded
    | NodeConnectorsRemoved(node: Node)            // Node.ConnectorsItemsRemoved
    | NetworkConnectionsRemoved(network: Network)  // Network.ConnectionsItemsRemoved

  /**
   * An ordered collection that reports each bulk change as one batch. A mutating
   * method returns the batch it reports; the owner of the collection then runs the
   * handlers registered for that event with the batch.
   */
  class ObservableCollection<T(==)> {
    var items: seq<T>
    var itemsAdded: seq<CollectionHandler>
    var itemsRemoved: seq<CollectionHandler>

    constructor ()
      ensures items == [] && itemsAdded == [] && itemsRemoved == []
    {
      items, itemsAdded, itemsRemoved := [], [], [];
    }

    /** `ItemsAdded += h` */
    method SubscribeItemsAdded(h: CollectionHandler)
      modifies this`itemsAdded
      ensures itemsAdded == old(itemsAdded) + [h]
    {
      itemsAdded := itemsAdded + [h];
    }

    /** `ItemsRemoved += h` */
    method SubscribeItemsRemoved(h: CollectionHandler)
      modifies this`itemsRemoved
      ensures itemsRemoved == old(itemsRemoved) + [h]
    {
      itemsRemoved := itemsRemoved + [h];
    }

    /** Appends a batch, in order; ItemsAdded reports the whole batch. */
    method AddRange(batch: seq<T>) returns (added: seq<T>)
      modifies this`items
      ensures items == old(items) + batch
      ensures added == batch
    {
      items := items + batch;
      added := batch;
    }

    /** Removes the first occurrence of `item`; ItemsRemoved reports it, or nothing when absent. */
    method Remove(item: T) returns (removed: seq<T>)
      modifies this`items
      ensures item in old(items) ==>
        var i := FirstIndex(old(items), item);
        items == old(items)[..i] + old(items)[i + 1..] && removed == [item]
      ensures item !in old(items) ==> items == old(items) && removed == []
    {
      if item in items {
        var i := FirstIndex(items, item);
        items := items[..i] + items[i + 1..];
        removed := [item];
      } else {
        removed := [];
      }
    }

    /** Empties the collection; ItemsRemoved reports everything it held. */
    method Clear() returns (removed: seq<T>)
      modifies this`items
      ensures items == [] && removed == old(items)
    {
      removed := items;
      items := [];
    }
  }

  /** An attachment point of a node, with the one connection (if any) attached to it. */
  class Connector {
    var attachedConnection: Connection?
    var hotspot: Point
    var parentNode: Node?
    var hotspotUpdated: seq<HotspotHandler>

    constructor ()
      ensures attachedConnection == null && parentNode == null
      ensures hotspot == Point(0.0, 0.0) && hotspotUpdated == []
    {
      attachedConnection, parentNode := null, null;
      hotspot, hotspotUpdated := Point(0.0, 0.0), [];
    }

    /** The connections whose handlers are subscribed to HotspotUpdated. */
    ghost function Listeners(): set<Connection>
      reads this
    {
      set h | h in hotspotUpdated :: h.connection
    }

    /**
     * Moves the hotspot and raises HotspotUpdated: every subscribed handler runs, in
     * subscription order. A handler whose endpoint is null would dereference null,
     * so every subscribed handler must be able to run.
     */
    method UpdateHotspot(p: Point)
      requires forall h | h in hotspotUpdated :: h.CanRun()
      modifies this`hotspot, Listeners()
      ensures hotspot == p && hotspotUpdated == old(hotspotUpdated)
      ensures forall h | h in hotspotUpdated :: h.Delivered()
      ensures forall k: Connection | k in Listeners() ::
        k.sourceConnector == old(k.sourceConnector) && k.destConnector == old(k.destConnector)
      ensures forall k: Connection | k in Listeners() ::
        k.propertyChanged == old(k.propertyChanged) + RaisedOn(hotspotUpdated, k)
    {
      hotspot := p;
      var handlers := hotspotUpdated;
      ghost var before := map k | k in Listeners() :: k.propertyChanged;
      var i := 0;
      while i < |handlers|
        invariant 0 <= i <= |handlers|
        invariant hotspot == p && hotspotUpdated == handlers
        invariant forall k: Connection | k in Listeners() ::
          k.sourceConnector == old(k.sourceConnector) && k.destConnector == old(k.destConnector)
        invariant forall h | h in handlers :: h.CanRun()
        invariant forall j | 0 <= j < i :: handlers[j].Delivered()
        invariant Notified(handlers, before, i)
        decreases |handlers| - i
      {
        assert handlers[i] in handlers;
        DispatchNext(handlers, before, i);
        i := i + 1;
      }
      assert handlers[..i] == handlers;
    }
  }

  /** The PropertyChanged notification a HotspotUpdated handler raises on its connection. */
  function Notification(h: HotspotHandler): (r: PropertyName)
    ensures r == SourceConnectorHotspot || r == DestConnectorHotspot
  {
    if h.SourceHotspotHandler? then SourceConnectorHotspot else DestConnectorHotspot
  }

  /** The notifications raised on `k` when the handlers `hs` run in order. */
  function RaisedOn(hs: seq<HotspotHandler>, k: Connection): seq<PropertyName>
  {
    if hs == [] then []
    else
      var h := hs[|hs| - 1];
      RaisedOn(hs[..|hs| - 1], k) + (if h.connection == k then [Notification(h)] else [])
  }

  /**
   * A connection with exactly one handler in the list receives exactly that handler's
   * notification when the list runs.
   */
  lemma {:induction false} RaisedOnSingle(hs: seq<HotspotHandler>, j: int, k: Connection)
    requires 0 <= j < |hs| && hs[j].connection == k
    requires forall i | 0 <= i < |hs| && i != j :: hs[i].connection != k
    ensures RaisedOn(hs, k) == [Notification(hs[j])]
    decreases |hs|
  {
    var n := |hs| - 1;
    if j == n {
      RaisedOnNone(hs[..n], k);
    } else {
      RaisedOnSingle(hs[..n], j, k);
    }
  }

  /** A connection with no handler in the list receives no notification. */
  lemma {:induction false} RaisedOnNone(hs: seq<HotspotHandler>, k: Connection)
    requires forall i | 0 <= i < |hs| :: hs[i].connection != k
    ensures RaisedOn(hs, k) == []
    decreases |hs|
  {
    if hs != [] {
      RaisedOnNone(hs[..|hs| - 1], k);
    }
  }

  /**
   * After the first `i` handlers of `handlers` have run, each connection in `before` has
   * raised, on top of its log `before[k]`, exactly the notifications of its handlers.
   */
  ghost predicate Notified(handlers: seq<HotspotHandler>, before: map<Connection, seq<PropertyName>>, i: int)
    reads before.Keys
  {
    && 0 <= i <= |handlers|
    && forall k | k in before :: k.propertyChanged == before[k] + RaisedOn(handlers[..i], k)
  }

  /** Runs the handler at position `i` of the HotspotUpdated list. */
  method DispatchNext(handlers: seq<HotspotHandler>, ghost before: map<Connection, seq<PropertyName>>, i: int)
    requires 0 <= i < |handlers| && handlers[i].CanRun() && Notified(handlers, before, i)
    modifies handlers[i].connection`sourceConnectorHotspot, handlers[i].connection`destConnectorHotspot,
      handlers[i].connection`propertyChanged
    ensures handlers[i].Delivered()
    ensures handlers[i].SourceHotspotHandler? ==>
      handlers[i].connection.destConnectorHotspot == old(handlers[i].connection.destConnectorHotspot)
    ensures handlers[i].DestHotspotHandler? ==>
      handlers[i].connection.sourceConnectorHotspot == old(handlers[i].connection.sourceConnectorHotspot)
    ensures Notified(handlers, before, i + 1)
  {
    var h := handlers[i];
    assert handlers[..i + 1][..i] == handlers[..i];
    Dispatch(h);
  }

  /** Runs one HotspotUpdated handler: only the cached end it maintains changes. */
  method Dispatch(h: HotspotHandler)
    requires h.CanRun()
    modifies h.connection`sourceConnectorHotspot, h.connection`destConnectorHotspot,
      h.connection`propertyChanged
    ensures h.Delivered()
    ensures h.SourceHotspotHandler? ==>
      h.connection.destConnectorHotspot == old(h.connection.destConnectorHotspot)
    ensures h.DestHotspotHandler? ==>
      h.connection.sourceConnectorHotspot == old(h.connection.sourceConnectorHotspot)
    ensures h.SourceHotspotHandler? ==>
      h.connection.propertyChanged == old(h.connection.propertyChanged) + [SourceConnectorHotspot]
    ensures h.DestHotspotHandler? ==>
      h.connection.propertyChanged == old(h.connection.propertyChanged) + [DestConnectorHotspot]
  {
    match h {
      case SourceHotspotHandler(k) => k.SourceConnectorHotspotUpdated();
      case DestHotspotHandler(k) => k.DestinationConnectorHotspotUpdated();
    }
  }

  /** A directed edge from a source connector to a destination connector. */
  class Connection {
    var sourceConnector: Connector?
    var destConnector: Connector?
    var sourceConnectorHotspot: Point
    var destConnectorHotspot: Point
    var propertyChanged: seq<PropertyName>

    constructor ()
      ensures sourceConnector == null && destConnector == null && propertyChanged == []
      ensures sourceConnectorHotspot == Point(0.0, 0.0) && destConnectorHotspot == Point(0.0, 0.0)
    {
      sourceConnector, destConnector := null, null;
      sourceConnectorHotspot, destConnectorHotspot := Point(0.0, 0.0), Point(0.0, 0.0);
      propertyChanged := [];
    }

    /**
     * Bidirectional consistency: each endpoint that is set points back to this
     * connection, and the two endpoints are different connectors.
     */
    ghost predicate Linked()
      reads this, sourceConnector, destConnector
    {
      && (sourceConnector != null ==> sourceConnector.attachedConnection == this)
      && (destConnector != null ==> destConnector.attachedConnection == this)
      && (sourceConnector != null && destConnector != null ==> sourceConnector != destConnector)
    }

    /**
     * The SourceConnector setter. Setting the current value does nothing. Otherwise the
     * old source (which must be attached to this connection) is detached and its
     * handler unsubscribed, then a non-null new source (which must be unattached) is
     * attached, subscribed, and its hotspot copied.
     */
    method SetSourceConnector(value: Connector?)
      requires sourceConnector != null && sourceConnector != value ==>
        sourceConnector.attachedConnection == this
      requires value != null && value != sourceConnector ==> value.attachedConnection == null
      modifies this`sourceConnector, this`propertyChanged
      modifies (if value == null then {} else {this})`sourceConnectorHotspot
      modifies {sourceConnector, value}`attachedConnection, {sourceConnector, value}`hotspotUpdated
      ensures sourceConnector == value
      ensures old(sourceConnector) == value ==> unchanged(this) && (value != null ==> unchanged(value))
      ensures old(sourceConnector) != value && old(sourceConnector) != null ==>
        var prev := old(sourceConnector);
        && prev.attachedConnection == null
        && prev.hotspotUpdated == RemoveLast(old(prev.hotspotUpdated), SourceHotspotHandler(this))
        && prev.hotspot == old(prev.hotspot) && prev.parentNode == old(prev.parentNode)
      ensures old(sourceConnector) != value && value != null ==>
        && value.attachedConnection == this
        && value.hotspotUpdated == old(value.hotspotUpdated) + [SourceHotspotHandler(this)]
        && value.hotspot == old(value.hotspot) && value.parentNode == old(value.parentNode)
        && sourceConnectorHotspot == value.hotspot
      ensures value == null ==> sourceConnectorHotspot == old(sourceConnectorHotspot)
      ensures old(sourceConnector) != value ==>
        propertyChanged == old(propertyChanged)
          + (if value != null then [SourceConnectorHotspot] else []) + [SourceConnector]
      ensures old(Linked()) ==> Linked()
    {
      if sourceConnector == value {
        return;
      }
      if sourceConnector != null {
        sourceConnector.attachedConnection := null;
        sourceConnector.hotspotUpdated :=
          RemoveLast(sourceConnector.hotspotUpdated, SourceHotspotHandler(this));
      }
      sourceConnector := value;
      if sourceConnector != null {
        sourceConnector.attachedConnection := this;
        sourceConnector.hotspotUpdated := sourceConnector.hotspotUpdated + [SourceHotspotHandler(this)];
        SetSourceConnectorHotspot(sourceConnector.hotspot);
      }
      propertyChanged := propertyChanged + [SourceConnector];
    }

    /**
     * The DestConnector setter: the same as SetSourceConnector, except that detaching
     * the old destination subscribes its handler once more instead of unsubscribing it.
     */
    method SetDestConnector(value: Connector?)
      requires destConnector != null && destConnector != value ==>
        destConnector.attachedConnection == this
      requires value != null && value != destConnector ==> value.attachedConnection == null
      modifies this`destConnector, this`propertyChanged
      modifies (if value == null then {} else {this})`destConnectorHotspot
      modifies {destConnector, value}`attachedConnection, {destConnector, value}`hotspotUpdated
      ensures destConnector == value
      ensures old(destConnector) == value ==> unchanged(this) && (value != null ==> unchanged(value))
      ensures old(destConnector) != value && old(destConnector) != null ==>
        var prev := old(destConnector);
        && prev.attachedConnection == null
        && prev.hotspotUpdated == old(prev.hotspotUpdated) + [DestHotspotHandler(this)]
        && prev.hotspot == old(prev.hotspot) && prev.parentNode == old(prev.parentNode)
      ensures old(destConnector) != value && value != null ==>
        && value.attachedConnection == this
        && value.hotspotUpdated == old(value.hotspotUpdated) + [DestHotspotHandler(this)]
        && value.hotspot == old(value.hotspot) && value.parentNode == old(value.parentNode)
        && destConnectorHotspot == value.hotspot
      ensures value == null ==> destConnectorHotspot == old(destConnectorHotspot)
      ensures old(destConnector) != value ==>
        propertyChanged == old(propertyChanged)
          + (if value != null then [DestConnectorHotspot] else []) + [DestConnector]
      ensures old(Linked()) ==> Linked()
    {
      if destConnector == value {
        return;
      }
      if destConnector != null {
        destConnector.attachedConnection := null;
        destConnector.hotspotUpdated := destConnector.hotspotUpdated + [DestHotspotHandler(this)];
      }
      destConnector := value;
      if destConnector != null {
        destConnector.attachedConnection := this;
        destConnector.hotspotUpdated := destConnector.hotspotUpdated + [DestHotspotHandler(this)];
        SetDestConnectorHotspot(destConnector.hotspot);
      }
      propertyChanged := propertyChanged + [DestConnector];
    }

    /** The SourceConnectorHotspot setter: no equality guard, it always notifies. */
    method SetSourceConnectorHotspot(p: Point)
      modifies this`sourceConnectorHotspot, this`propertyChanged
      ensures sourceConnectorHotspot == p
      ensures propertyChanged == old(propertyChanged) + [SourceConnectorHotspot]
    {
      sourceConnectorHotspot := p;
      propertyChanged := propertyChanged + [SourceConnectorHotspot];
    }

    /** The DestConnectorHotspot setter: no equality guard, it always notifies. */
    method SetDestConnectorHotspot(p: Point)
      modifies this`destConnectorHotspot, this`propertyChanged
      ensures destConnectorHotspot == p
      ensures propertyChanged == old(propertyChanged) + [DestConnectorHotspot]
    {
      destConnectorHotspot := p;
      propertyChanged := propertyChanged + [DestConnectorHotspot];
    }

    /** Handler of the source connector's HotspotUpdated: re-copies its live hotspot. */
    method SourceConnectorHotspotUpdated()
      requires sourceConnector != null
      modifies this`sourceConnectorHotspot, this`propertyChanged
      ensures sourceConnectorHotspot == sourceConnector.hotspot
      ensures propertyChanged == old(propertyChanged) + [SourceConnectorHotspot]
    {
      SetSourceConnectorHotspot(sourceConnector.hotspot);
    }

    /** Handler of the destination connector's HotspotUpdated: re-copies its live hotspot. */
    method DestinationConnectorHotspotUpdated()
      requires destConnector != null
      modifies this`destConnectorHotspot, this`propertyChanged
      ensures destConnectorHotspot == destConnector.hotspot
      ensures propertyChanged == old(propertyChanged) + [DestConnectorHotspot]
    {
      SetDestConnectorHotspot(destConnector.hotspot);
    }
  }

  /** The connections attached to `cs`, in connector order, skipping unattached connectors. */
  function AttachedOf(cs: seq<Connector>): (r: seq<Connection>)
    reads cs
    ensures |r| <= |cs|
  {
    if cs == [] then []
    else if cs[0].attachedConnection != null then [cs[0].attachedConnection] + AttachedOf(cs[1..])
    else AttachedOf(cs[1..])
  }

  /** AttachedOf lists exactly the connections attached to some connector of `cs`. */
  lemma {:induction false} AttachedOfMembers(cs: seq<Connector>)
    ensures forall i | 0 <= i < |cs| && cs[i].attachedConnection != null ::
      cs[i].attachedConnection in AttachedOf(cs)
    ensures forall k | k in AttachedOf(cs) :: exists i | 0 <= i < |cs| :: cs[i].attachedConnection == k
  {
    if cs != [] {
      AttachedOfMembers(cs[1..]);
      assert forall i | 1 <= i < |cs| :: cs[i] == cs[1..][i - 1];
      forall k | k in AttachedOf(cs)
        ensures exists i | 0 <= i < |cs| :: cs[i].attachedConnection == k
      {
        if k != cs[0].attachedConnection {
          var i :| 0 <= i < |cs[1..]| && cs[1..][i].attachedConnection == k;
          assert cs[i + 1].attachedConnection == k;
        }
      }
    }
  }

  /** AttachedOf keeps connector order: the attachments of a concatenation concatenate. */
  lemma {:induction false} AttachedOfConcat(cs: seq<Connector>, ds: seq<Connector>)
    ensures AttachedOf(cs + ds) == AttachedOf(cs) + AttachedOf(ds)
  {
    if cs == [] {
      assert cs + ds == ds;
    } else {
      assert (cs + ds)[0] == cs[0];
      assert (cs + ds)[1..] == cs[1..] + ds;
      AttachedOfConcat(cs[1..], ds);
    }
  }

  /**
   * A connection attached to two connectors of the list (a connection between two
   * connectors of the same node) is listed twice.
   */
  lemma SharedConnectionListedTwice(cs: seq<Connector>, i: nat, j: nat)
    requires i < j < |cs|
    requires cs[i].attachedConnection != null && cs[i].attachedConnection == cs[j].attachedConnection
    ensures multiset(AttachedOf(cs))[cs[i].attachedConnection] >= 2
  {
    var k := cs[i].attachedConnection;
    var front, back := cs[..j], cs[j..];
    assert cs == front + back;
    AttachedOfConcat(front, back);
    assert front[i] == cs[i];
    AttachedOfMembers(front);
    assert k in AttachedOf(front);
    assert back[0] == cs[j];
    assert AttachedOf(back) == [k] + AttachedOf(back[1..]);
    assert multiset(AttachedOf(cs)) == multiset(AttachedOf(front)) + multiset(AttachedOf(back));
  }

  /**
   * The loop of the AttachedConnections getter: walks the connectors in order and adds
   * each attached connection to a new list.
   */
  method CollectAttached(cs: seq<Connector>) returns (r: seq<Connection>)
    ensures r == AttachedOf(cs)
  {
    r := [];
    var i := 0;
    while i < |cs|
      invariant 0 <= i <= |cs|
      invariant r == AttachedOf(cs[..i])
    {
      var c := cs[i];
      if c.attachedConnection != null {
        r := r + [c.attachedConnection];
      }
      AttachedOfConcat(cs[..i], [c]);
      assert cs[..i + 1] == cs[..i] + [c];
      i := i + 1;
    }
    assert cs[..i] == cs;
  }

  /** A node of the diagram: a name, a position, a selection flag and its connectors. */
  class Node {
    var name: string
    var x: real
    var y: real
    var isSelected: bool
    var connectors: ObservableCollection?<Connector>
    var propertyChanged: seq<PropertyName>

    /** Once created, the connector collection has exactly this node's two handlers. */
    ghost predicate Valid()
      reads this, connectors
    {
      connectors != null ==>
        && connectors.itemsAdded == [NodeConnectorsAdded(this)]
        && connectors.itemsRemoved == [NodeConnectorsRemoved(this)]
    }

    constructor ()
      ensures Valid() && connectors == null && propertyChanged == []
      ensures name == "" && x == 0.0 && y == 0.0 && !isSelected
    {
      name, x, y, isSelected := "", 0.0, 0.0, false;
      connectors, propertyChanged := null, [];
    }

    constructor Named(name: string)
      ensures Valid() && connectors == null && propertyChanged == []
      ensures this.name == name && x == 0.0 && y == 0.0 && !isSelected
    {
      this.name, x, y, isSelected := name, 0.0, 0.0, false;
      connectors, propertyChanged := null, [];
    }

    /** The Name setter: a no-op on the current value, else it updates and notifies Name. */
    method SetName(value: string)
      modifies this`name, this`propertyChanged
      ensures name == value
      ensures propertyChanged == if old(name) == value then old(propertyChanged)
                                 else old(propertyChanged) + [Name]
    {
      if name == value {
        return;
      }
      name := value;
      propertyChanged := propertyChanged + [Name];
    }

    /** The X setter: a no-op on the current value, else it updates and notifies X. */
    method SetX(value: real)
      modifies this`x, this`propertyChanged
      ensures x == value
      ensures propertyChanged == if old(x) == value then old(propertyChanged)
                                 else old(propertyChanged) + [X]
    {
      if x == value {
        return;
      }
      x := value;
      propertyChanged := propertyChanged + [X];
    }

    /** The Y setter: a no-op on the current value, else it updates and notifies Y. */
    method SetY(value: real)
      modifies this`y, this`propertyChanged
      ensures y == value
      ensures propertyChanged == if old(y) == value then old(propertyChanged)
                                 else old(propertyChanged) + [Y]
    {
      if y == value {
        return;
      }
      y := value;
      propertyChanged := propertyChanged + [Y];
    }

    /** The IsSelected setter: a no-op on the current value, else it flips and notifies. */
    method SetIsSelected(value: bool)
      modifies this`isSelected, this`propertyChanged
      ensures isSelected == value
      ensures propertyChanged == if old(isSelected) == value then old(propertyChanged)
                                 else old(propertyChanged) + [IsSelected]
    {
      if isSelected == value {
        return;
      }
      isSelected := value;
      propertyChanged := propertyChanged + [IsSelected];
    }

    /**
     * The Connectors getter: the first access creates the collection and registers the
     * two handlers; every later access returns that collection and registers nothing.
     */
    method Connectors() returns (r: ObservableCollection<Connector>)
      requires Valid()
      modifies this`connectors
      ensures Valid() && r == connectors
      ensures old(connectors) != null ==> r == old(connectors) && unchanged(r)
      ensures old(connectors) == null ==> fresh(r) && r.items == []
      ensures r.itemsAdded == [NodeConnectorsAdded(this)]
      ensures r.itemsRemoved == [NodeConnectorsRemoved(this)]
    {
      if connectors == null {
        var c := new ObservableCollection<Connector>();
        c.SubscribeItemsAdded(NodeConnectorsAdded(this));
        c.SubscribeItemsRemoved(NodeConnectorsRemoved(this));
        connectors := c;
      }
      r := connectors;
    }

    /**
     * The AttachedConnections getter: a new list of the connections attached to the
     * node's connectors, in connector order.
     */
    method AttachedConnections() returns (r: seq<Connection>)
      requires Valid()
      modifies this`connectors
      ensures Valid() && connectors != null
      ensures old(connectors) != null ==> connectors == old(connectors)
      ensures old(connectors) == null ==> fresh(connectors)
      ensures old(connectors) == null ==> connectors.items == []
      ensures r == AttachedOf(connectors.items)
    {
      var cs := Connectors();
      r := CollectAttached(cs.items);
    }

    /** Handler of the connectors' ItemsAdded: every added connector gets this node as parent. */
    method ConnectorsItemsAdded(batch: seq<Connector>)
      modifies batch
      ensures forall c | c in batch :: c.parentNode == this
      ensures forall c | c in batch ::
        && c.attachedConnection == old(c.attachedConnection)
        && c.hotspot == old(c.hotspot) && c.hotspotUpdated == old(c.hotspotUpdated)
    {
      var i := 0;
      while i < |batch|
        invariant 0 <= i <= |batch|
        invariant forall j | 0 <= j < i :: batch[j].parentNode == this
        invariant forall c | c in batch ::
          && c.attachedConnection == old(c.attachedConnection)
          && c.hotspot == old(c.hotspot) && c.hotspotUpdated == old(c.hotspotUpdated)
      {
        batch[i].parentNode := this;
        i := i + 1;
      }
    }

    /** Handler of the connectors' ItemsRemoved: every removed connector loses its parent. */
    method ConnectorsItemsRemoved(batch: seq<Connector>)
      modifies batch
      ensures forall c | c in batch :: c.parentNode == null
      ensures forall c | c in batch ::
        && c.attachedConnection == old(c.attachedConnection)
        && c.hotspot == old(c.hotspot) && c.hotspotUpdated == old(c.hotspotUpdated)
    {
      var i := 0;
      while i < |batch|
        invariant 0 <= i <= |batch|
        invariant forall j | 0 <= j < i :: batch[j].parentNode == null
        invariant forall c | c in batch ::
          && c.attachedConnection == old(c.attachedConnection)
          && c.hotspot == old(c.hotspot) && c.hotspotUpdated == old(c.hotspotUpdated)
      {
        batch[i].parentNode := null;
        i := i + 1;
      }
    }

    /** `Connectors.AddRange(batch)`: the collection grows and ItemsAdded runs once on the batch. */
    method AddConnectors(batch: seq<Connector>)
      requires Valid()
      modifies this`connectors, connectors, batch
      ensures Valid() && connectors != null
      ensures old(connectors) != null ==> connectors == old(connectors)
      ensures old(connectors) == null ==> fresh(connectors)
      ensures connectors.items ==
        (if old(connectors) == null then [] else old(connectors.items)) + batch
      ensures forall c | c in batch :: c.parentNode == this
      ensures forall c | c in batch ::
        && c.attachedConnection == old(c.attachedConnection)
        && c.hotspot == old(c.hotspot) && c.hotspotUpdated == old(c.hotspotUpdated)
    {
      var cs := Connectors();
      var added := cs.AddRange(batch);
      // ItemsAdded has exactly one handler, registered by Connectors().
      ConnectorsItemsAdded(added);
    }

    /** `Connectors.Remove(c)`: a connector that was present is taken out and loses its parent. */
    method RemoveConnector(c: Connector)
      requires Valid()
      modifies this`connectors, connectors, c
      ensures Valid() && connectors != null
      ensures old(connectors) != null ==> connectors == old(connectors)
      ensures old(connectors) == null ==> fresh(connectors)
      ensures old(connectors) != null && c in old(connectors.items) ==>
        var i := FirstIndex(old(connectors.items), c);
        connectors.items == old(connectors.items)[..i] + old(connectors.items)[i + 1..]
        && c.parentNode == null
      ensures (old(connectors) == null || c !in old(connectors.items)) ==>
        connectors.items == (if old(connectors) == null then [] else old(connectors.items))
        && c.parentNode == old(c.parentNode)
      ensures c.attachedConnection == old(c.attachedConnection)
      ensures c.hotspot == old(c.hotspot) && c.hotspotUpdated == old(c.hotspotUpdated)
    {
      var cs := Connectors();
      var removed := cs.Remove(c);
      // ItemsRemoved has exactly one handler, registered by Connectors().
      ConnectorsItemsRemoved(removed);
    }

    /** `Connectors.Clear()`: every connector that was present loses its parent. */
    method ClearConnectors()
      requires Valid()
      modifies this`connectors, connectors, if connectors == null then [] else connectors.items
      ensures Valid() && connectors != null && connectors.items == []
      ensures old(connectors) != null ==> connectors == old(connectors)
      ensures old(connectors) == null ==> fresh(connectors)
      ensures old(connectors) != null ==>
        forall c | c in old(connectors.items) ::
          && c.parentNode == null && c.attachedConnection == old(c.attachedConnection)
          && c.hotspot == old(c.hotspot) && c.hotspotUpdated == old(c.hotspotUpdated)
    {
      var cs := Connectors();
      var removed := cs.Clear();
      // ItemsRemoved has exactly one handler, registered by Connectors().
      ConnectorsItemsRemoved(removed);
    }
  }

  /** The connectors that the connections of `batch` are attached to. */
  ghost function EndpointsOf(batch: seq<Connection>): set<Connector>
    reads set k | k in batch
  {
    (set k | k in batch && k.sourceConnector != null :: k.sourceConnector)
    + (set k | k in batch && k.destConnector != null :: k.destConnector)
  }

  /** The invocation list of HotspotUpdated on `c`, or none when there is no connector. */
  function HandlersOf(c: Connector?): seq<HotspotHandler>
    reads c
  {
    if c == null then [] else c.hotspotUpdated
  }

  /** The state of a connection and of its endpoints that the removal cascade starts from. */
  datatype Snapshot = Snapshot(source: Connector?, dest: Connector?,
                               sourceHandlers: seq<HotspotHandler>, destHandlers: seq<HotspotHandler>,
                               log: seq<PropertyName>)

  /** The current state of `k` and of its endpoints. */
  function Snap(k: Connection): Snapshot
    reads k, k.sourceConnector, k.destConnector
  {
    Snapshot(k.sourceConnector, k.destConnector,
             HandlersOf(k.sourceConnector), HandlersOf(k.destConnector), k.propertyChanged)
  }

  /** Connection `k` is still as in `s`: attached to both of its endpoints. */
  ghost predicate Pending(k: Connection, s: Snapshot)
    reads k, s.source, s.dest
  {
    && k.sourceConnector == s.source && k.destConnector == s.dest && k.propertyChanged == s.log
    && (s.source != null ==> s.source.attachedConnection == k && s.source.hotspotUpdated == s.sourceHandlers)
    && (s.dest != null ==> s.dest.attachedConnection == k && s.dest.hotspotUpdated == s.destHandlers)
    && (s.source != null ==> s.source != s.dest)
  }

  /**
   * Connection `k` is detached from the endpoints it had in `s`: it has no endpoints and
   * has notified each change; the old source is unattached and its source handler is
   * unsubscribed, the old destination is unattached and its destination handler is
   * subscribed once more.
   */
  ghost predicate Detached(k: Connection, s: Snapshot)
    reads k, s.source, s.dest
  {
    && k.sourceConnector == null && k.destConnector == null
    && k.propertyChanged == s.log + DetachNotifications(s.source, s.dest)
    && (s.source != null ==>
          s.source.attachedConnection == null
          && s.source.hotspotUpdated == RemoveLast(s.sourceHandlers, SourceHotspotHandler(k)))
    && (s.dest != null ==>
          s.dest.attachedConnection == null && s.dest.hotspotUpdated == s.destHandlers + [DestHotspotHandler(k)])
  }

  /** The connectors recorded in the snapshots. */
  ghost function SnapshotConnectors(before: map<Connection, Snapshot>): set<Connector?>
  {
    (set k | k in before :: before[k].source) + (set k | k in before :: before[k].dest)
  }

  /**
   * The removal cascade after `i` steps over `batch`, where `before` holds the state
   * each connection started from and `done` the connections handled so far.
   */
  ghost predicate Cascading(batch: seq<Connection>, before: map<Connection, Snapshot>,
                            done: set<Connection>, i: int)
    reads before.Keys, SnapshotConnectors(before)
  {
    && 0 <= i <= |batch|
    && (forall j | 0 <= j < |batch| :: batch[j] in before)
    && (forall j | 0 <= j < i :: batch[j] in done)
    && done <= before.Keys
    && (forall k | k in done :: Detached(k, before[k]))
    && (forall k | k in before && k !in done :: Pending(k, before[k]))
  }

  /** The notifications `SourceConnector = null; DestConnector = null;` raises. */
  function DetachNotifications(source: Connector?, dest: Connector?): seq<PropertyName>
  {
    (if source != null then [SourceConnector] else []) + (if dest != null then [DestConnector] else [])
  }

  /**
   * One step of the removal cascade: `SourceConnector = null; DestConnector = null;`.
   * Both old endpoints end unattached, the old source without the source handler and the
   * old destination with the destination handler subscribed once more; the connectors keep
   * their hotspot and parent, and the connection keeps its cached hotspots.
   */
  method DetachEndpoints(k: Connection)
    requires k.Linked()
    modifies k`sourceConnector, k`destConnector, k`propertyChanged
    modifies {k.sourceConnector, k.destConnector}`attachedConnection
    modifies {k.sourceConnector, k.destConnector}`hotspotUpdated
    ensures Detached(k, old(Snap(k)))
    ensures k.sourceConnectorHotspot == old(k.sourceConnectorHotspot)
    ensures k.destConnectorHotspot == old(k.destConnectorHotspot)
    ensures old(k.sourceConnector) != null ==>
      var c := old(k.sourceConnector); c.hotspot == old(c.hotspot) && c.parentNode == old(c.parentNode)
    ensures old(k.destConnector) != null ==>
      var c := old(k.destConnector); c.hotspot == old(c.hotspot) && c.parentNode == old(c.parentNode)
  {
    k.SetSourceConnector(null);
    k.SetDestConnector(null);
  }

  /** One step of the removal cascade: the connection at position `i` is detached. */
  method DetachNext(batch: seq<Connection>, ghost before: map<Connection, Snapshot>,
                    ghost done: set<Connection>, i: int)
    requires 0 <= i < |batch| && Cascading(batch, before, done, i)
    modifies {batch[i]}`sourceConnector, {batch[i]}`destConnector, {batch[i]}`propertyChanged
    modifies {batch[i].sourceConnector, batch[i].destConnector}`attachedConnection
    modifies {batch[i].sourceConnector, batch[i].destConnector}`hotspotUpdated
    ensures Cascading(batch, before, done + {batch[i]}, i + 1)
  {
    var k := batch[i];
    ghost var ends := {k.sourceConnector, k.destConnector};
    EndsApart(batch, before, done, i);
    label step:
    DetachEndpoints(k);
    // Every other connection of the batch, and its endpoints, are left as they were.
    forall k' | k' in before && k' != k
      ensures Detached(k', before[k']) == old@step(Detached(k', before[k']))
      ensures Pending(k', before[k']) == old@step(Pending(k', before[k']))
    {
      var s := before[k'];
      assert Apart(s, ends);
    }
  }

  /** While the cascade runs, the endpoints of the next connection belong to no other connection. */
  lemma EndsApart(batch: seq<Connection>, before: map<Connection, Snapshot>, done: set<Connection>, i: int)
    requires 0 <= i < |batch| && Cascading(batch, before, done, i)
    ensures forall k' | k' in before && k' != batch[i] ::
      Apart(before[k'], {batch[i].sourceConnector, batch[i].destConnector})
  {
    var k := batch[i];
    forall k' | k' in before && k' != k
      ensures Apart(before[k'], {k.sourceConnector, k.destConnector})
    {
      var s := before[k'];
      assert s.source in SnapshotConnectors(before) && s.dest in SnapshotConnectors(before);
    }
  }

  /** Neither endpoint recorded in `s` is among `ends`. */
  ghost predicate Apart(s: Snapshot, ends: set<Connector?>)
  {
    && (s.source != null ==> s.source !in ends)
    && (s.dest != null ==> s.dest !in ends)
  }

  /** The whole diagram: its nodes and its connections. */
  class Network {
    var nodes: ObservableCollection?<Node>
    var connections: ObservableCollection?<Connection>

    /** Nodes carries no handler; Connections carries exactly the removal cascade. */
    ghost predicate Valid()
      reads this`nodes, this`connections
      reads {nodes}`itemsAdded, {nodes}`itemsRemoved, {connections}`itemsAdded, {connections}`itemsRemoved
    {
      && (nodes != null ==> nodes.itemsAdded == [] && nodes.itemsRemoved == [])
      && (connections != null ==>
            connections.itemsAdded == [] && connections.itemsRemoved == [NetworkConnectionsRemoved(this)])
    }

    constructor ()
      ensures Valid() && nodes == null && connections == null
    {
      nodes, connections := null, null;
    }

    /** The Nodes getter: created on first access, the same collection afterwards. */
    method Nodes() returns (r: ObservableCollection<Node>)
      requires Valid()
      modifies this`nodes
      ensures Valid() && r == nodes
      ensures old(nodes) != null ==> r == old(nodes) && unchanged(r)
      ensures old(nodes) == null ==> fresh(r) && r.items == []
      ensures r.itemsAdded == [] && r.itemsRemoved == []
    {
      if nodes == null {
        nodes := new ObservableCollection<Node>();
      }
      r := nodes;
    }

    /**
     * The Connections getter: the first access creates the collection and registers the
     * removal cascade once; later accesses return that collection and register nothing.
     */
    method Connections() returns (r: ObservableCollection<Connection>)
      requires Valid()
      modifies this`connections
      ensures Valid() && r == connections
      ensures old(connections) != null ==> r == old(connections) && unchanged(r)
      ensures old(connections) == null ==> fresh(r) && r.items == []
      ensures r.itemsAdded == [] && r.itemsRemoved == [NetworkConnectionsRemoved(this)]
    {
      if connections == null {
        var c := new ObservableCollection<Connection>();
        c.SubscribeItemsRemoved(NetworkConnectionsRemoved(this));
        connections := c;
      }
      r := connections;
    }

    /** `Nodes.AddRange(batch)`: no handler is registered, so only the collection changes. */
    method AddNodes(batch: seq<Node>)
      requires Valid()
      modifies this`nodes, nodes
      ensures Valid() && nodes != null
      ensures old(nodes) != null ==> nodes == old(nodes)
      ensures old(nodes) == null ==> fresh(nodes)
      ensures nodes.items == (if old(nodes) == null then [] else old(nodes.items)) + batch
    {
      var ns := Nodes();
      var added := ns.AddRange(batch);
      // ItemsAdded has no handler.
    }

    /**
     * `Nodes.Remove(n)`: no handler is registered, so only the collection changes; the
     * node's connections stay in Connections and stay attached.
     */
    method RemoveNode(n: Node)
      requires Valid()
      modifies this`nodes, nodes
      ensures Valid() && nodes != null
      ensures old(nodes) != null ==> nodes == old(nodes)
      ensures old(nodes) == null ==> fresh(nodes)
      ensures old(nodes) != null && n in old(nodes.items) ==>
        var i := FirstIndex(old(nodes.items), n);
        nodes.items == old(nodes.items)[..i] + old(nodes.items)[i + 1..]
      ensures (old(nodes) == null || n !in old(nodes.items)) ==>
        nodes.items == (if old(nodes) == null then [] else old(nodes.items))
    {
      var ns := Nodes();
      var removed := ns.Remove(n);
      // ItemsRemoved has no handler.
    }

    /** `Connections.AddRange(batch)`: ItemsAdded has no handler, so nothing cascades. */
    method AddConnections(batch: seq<Connection>)
      requires Valid()
      modifies this`connections, connections
      ensures Valid() && connections != null
      ensures old(connections) != null ==> connections == old(connections)
      ensures old(connections) == null ==> fresh(connections)
      ensures connections.items == (if old(connections) == null then [] else old(connections.items)) + batch
    {
      var cs := Connections();
      var added := cs.AddRange(batch);
      // ItemsAdded has no handler.
    }

    /**
     * `Connections.Remove(k)` up to its ItemsRemoved event: the first occurrence of `k` is
     * taken out of the collection, which reports it as the removed batch.
     */
    method TakeConnection(k: Connection) returns (removed: seq<Connection>)
      requires Valid()
      modifies this`connections, {connections}`items
      ensures Valid() && connections != null
      ensures old(connections) != null ==> connections == old(connections)
      ensures old(connections) == null ==> fresh(connections)
      ensures old(connections) != null && k in old(connections.items) ==>
        var i := FirstIndex(old(connections.items), k);
        connections.items == old(connections.items)[..i] + old(connections.items)[i + 1..] && removed == [k]
      ensures (old(connections) == null || k !in old(connections.items)) ==>
        connections.items == (if old(connections) == null then [] else old(connections.items)) && removed == []
    {
      var cs := Connections();
      removed := cs.Remove(k);
    }

    /**
     * `Connections.Remove(k)`: a connection that was present is taken out, and the
     * cascade detaches it from both of its connectors.
     */
    method RemoveConnection(k: Connection)
      requires Valid()
      requires connections != null && k in connections.items ==> k.Linked()
      modifies this`connections, {connections}`items
      modifies {k}`sourceConnector, {k}`destConnector, {k}`propertyChanged
      modifies {k.sourceConnector, k.destConnector}`attachedConnection
      modifies {k.sourceConnector, k.destConnector}`hotspotUpdated
      ensures Valid() && connections != null
      ensures old(connections) != null ==> connections == old(connections)
      ensures old(connections) == null ==> fresh(connections)
      ensures old(connections) != null && k in old(connections.items) ==>
        var i := FirstIndex(old(connections.items), k);
        && connections.items == old(connections.items)[..i] + old(connections.items)[i + 1..]
        && Detached(k, old(Snap(k)))
      ensures (old(connections) == null || k !in old(connections.items)) ==>
        && connections.items == (if old(connections) == null then [] else old(connections.items))
        && unchanged(k)
        && (k.sourceConnector != null ==> unchanged(k.sourceConnector))
        && (k.destConnector != null ==> unchanged(k.destConnector))
    {
      var removed := TakeConnection(k);
      assert removed == [] || k in removed;
      // ItemsRemoved has exactly one handler, registered by Connections().
      assert EndpointsOf(removed) <= {k.sourceConnector, k.destConnector};
      ConnectionsItemsRemoved(removed);
    }

    /**
     * `Connections.Clear()` up to its ItemsRemoved event: the collection is emptied and
     * reports everything it held as the removed batch.
     */
    method TakeAllConnections() returns (removed: seq<Connection>)
      requires Valid()
      modifies this`connections, {connections}`items
      ensures Valid() && connections != null && connections.items == []
      ensures old(connections) != null ==> connections == old(connections)
      ensures old(connections) == null ==> fresh(connections)
      ensures removed == if old(connections) == null then [] else old(connections.items)
    {
      var cs := Connections();
      removed := cs.Clear();
    }

    /** `Connections.Clear()`: every connection is taken out and detached from its connectors. */
    method ClearConnections()
      requires Valid()
      requires connections != null ==> forall k | k in connections.items :: k.Linked()
      modifies this`connections, {connections}`items
      modifies (if connections == null then [] else connections.items)`sourceConnector
      modifies (if connections == null then [] else connections.items)`destConnector
      modifies (if connections == null then [] else connections.items)`propertyChanged
      modifies (if connections == null then {} else EndpointsOf(connections.items))`attachedConnection
      modifies (if connections == null then {} else EndpointsOf(connections.items))`hotspotUpdated
      ensures Valid() && connections != null && connections.items == []
      ensures old(connections) == null ==> fresh(connections)
      ensures old(connections) != null ==>
        && connections == old(connections)
        && (forall k | k in old(connections.items) :: Detached(k, old(Snap(k))))
        && (forall k | k in old(connections.items) ::
              && k.sourceConnectorHotspot == old(k.sourceConnectorHotspot)
              && k.destConnectorHotspot == old(k.destConnectorHotspot))
        && (forall c | c in old(EndpointsOf(connections.items)) ::
              c.hotspot == old(c.hotspot) && c.parentNode == old(c.parentNode))
    {
      var removed := TakeAllConnections();
      // ItemsRemoved has exactly one handler, registered by Connections().
      ConnectionsItemsRemoved(removed);
    }

    /**
     * Handler of the connections' ItemsRemoved: both endpoints of every removed
     * connection are set to null through the connection's setters, which detaches
     * the connectors.
     */
    method ConnectionsItemsRemoved(batch: seq<Connection>)
      requires forall k | k in batch :: k.Linked()
      modifies batch`sourceConnector, batch`destConnector, batch`propertyChanged
      modifies EndpointsOf(batch)`attachedConnection, EndpointsOf(batch)`hotspotUpdated
      ensures forall k | k in batch :: Detached(k, old(Snap(k)))
      ensures forall k | k in batch ::
        && k.sourceConnectorHotspot == old(k.sourceConnectorHotspot)
        && k.destConnectorHotspot == old(k.destConnectorHotspot)
      ensures forall c | c in old(EndpointsOf(batch)) ::
        c.hotspot == old(c.hotspot) && c.parentNode == old(c.parentNode)
    {
      ghost var before := map k | k in batch :: Snap(k);
      ghost var done: set<Connection> := {};
      var i := 0;
      while i < |batch|
        invariant Cascading(batch, before, done, i)
      {
        DetachNext(batch, before, done, i);
        done := done + {batch[i]};
        i := i + 1;
      }
    }
  }
}
