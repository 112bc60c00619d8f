/** Client code that drives the model through the editor's typical gestures: node A with
    connector A1 and node B with connector B1 are wired by connection K, A is moved, and K
    is removed from the network. */
module Scenarios {
  import opened Sequences
  import opened NetworkModel

  /** Nodes A and B join the network and get their connectors A1 and B1. */
  method Build()
  {
    var network := new Network();
    var a := new Node.Named("A");
    var b := new Node.Named("B");
    b.SetX(100.0);
    assert b.propertyChanged == [X];
    network.AddNodes([a, b]);
    assert network.nodes.items == [a, b];
    var a1 := new Connector();
    var b1 := new Connector();
    a.AddConnectors([a1]);
    b.AddConnectors([b1]);
    assert a1.parentNode == a && b1.parentNode == b;
    assert a.connectors.items == [a1];
  }

  /** K is dragged from A1 to B1 and added to the network; A lists K as attached. */
  method Wire()
  {
    var a := new Node.Named("A");
    var a1 := new Connector();
    var b1 := new Connector();
    a.AddConnectors([a1]);
    var k := new Connection();
    k.SetSourceConnector(a1);
    k.SetDestConnector(b1);
    assert a1.attachedConnection == k && b1.attachedConnection == k;
    assert k.propertyChanged ==
      [SourceConnectorHotspot, SourceConnector, DestConnectorHotspot, DestConnector];
    var network := new Network();
    network.AddConnections([k]);
    assert network.connections.items == [k];
    var attached := a.AttachedConnections();
    assert attached == [k];
  }

  /** Moving A moves A1's hotspot; HotspotUpdated refreshes K's cached source end. */
  method Move()
  {
    var a1 := new Connector();
    var b1 := new Connector();
    var k := new Connection();
    k.SetSourceConnector(a1);
    k.SetDestConnector(b1);
    a1.UpdateHotspot(Point(10.0, 0.0));
    assert k.sourceConnectorHotspot == Point(10.0, 0.0);
    assert k.sourceConnector == a1 && k.destConnector == b1;
  }

  /** Moving A1 makes K, its one listener, raise exactly one SourceConnectorHotspot. */
  method MoveNotifies()
  {
    var a1 := new Connector();
    var k := new Connection();
    k.SetSourceConnector(a1);
    var log := k.propertyChanged;
    assert a1.hotspotUpdated == [SourceHotspotHandler(k)] && k in a1.Listeners();
    RaisedOnSingle(a1.hotspotUpdated, 0, k);
    a1.UpdateHotspot(Point(10.0, 0.0));
    assert k.propertyChanged == log + [SourceConnectorHotspot];
  }

  /** Removing K from the network detaches both ends, but B1 keeps K's destination handler,
      whose DestConnector is now null: B1 can no longer raise HotspotUpdated safely. */
  method Remove()
  {
    var network := new Network();
    var a1 := new Connector();
    var b1 := new Connector();
    var k := new Connection();
    k.SetSourceConnector(a1);
    k.SetDestConnector(b1);
    network.AddConnections([k]);
    network.RemoveConnection(k);
    assert k.sourceConnector == null && k.destConnector == null;
    assert a1.attachedConnection == null && b1.attachedConnection == null;
    assert DestHotspotHandler(k) in b1.hotspotUpdated && !DestHotspotHandler(k).CanRun();
  }

  /** Removing a connection the network does not hold leaves it and its connectors as they were. */
  method RemoveAbsent()
  {
    var network := new Network();
    var a1 := new Connector();
    var k := new Connection();
    k.SetSourceConnector(a1);
    network.RemoveConnection(k);
    assert k.sourceConnector == a1;
    assert a1.attachedConnection == k && a1.hotspotUpdated == [SourceHotspotHandler(k)];
  }

  /** Removing K unsubscribes K's source handler from A1: its invocation list is empty again. */
  method RemoveUnsubscribesSource()
  {
    var network := new Network();
    var a1 := new Connector();
    var k := new Connection();
    k.SetSourceConnector(a1);
    network.AddConnections([k]);
    network.RemoveConnection(k);
    UnsubscribeUndoesSubscribe([], SourceHotspotHandler(k));
    assert a1.hotspotUpdated == [];
  }

  /** Removing K leaves A1's hotspot as it was. */
  method RemoveKeepsHotspot()
  {
    var network := new Network();
    var a1 := new Connector();
    var k := new Connection();
    k.SetSourceConnector(a1);
    network.AddConnections([k]);
    var p := a1.hotspot;
    assert k.Linked() && k in network.connections.items;
    network.RemoveConnection(k);
    assert a1.hotspot == p;
  }

  /** Removing K leaves K's cached source hotspot as it was. */
  method RemoveKeepsCachedHotspot()
  {
    var network := new Network();
    var a1 := new Connector();
    var k := new Connection();
    k.SetSourceConnector(a1);
    network.AddConnections([k]);
    var cached := k.sourceConnectorHotspot;
    assert k.Linked() && k in network.connections.items;
    network.RemoveConnection(k);
    assert k.sourceConnectorHotspot == cached;
  }

  /** Removing a connection of A1 leaves A1 on its node. */
  method RemoveKeepsParent()
  {
    var network := new Network();
    var a := new Node.Named("A");
    var a1 := new Connector();
    a.AddConnectors([a1]);
    var k := new Connection();
    k.SetSourceConnector(a1);
    network.AddConnections([k]);
    network.RemoveConnection(k);
    assert a1.parentNode == a && a1.attachedConnection == null;
  }

  /** Clearing the network detaches K the same way: B1 still holds K's destination handler. */
  method Clear()
  {
    var network := new Network();
    var a1 := new Connector();
    var b1 := new Connector();
    var k := new Connection();
    k.SetSourceConnector(a1);
    k.SetDestConnector(b1);
    network.AddConnections([k]);
    assert network.connections.items == [k] && k.Linked();
    label cleared:
    network.ClearConnections();
    assert k in old@cleared(network.connections.items);
    assert k.sourceConnector == null && k.destConnector == null;
    assert DestHotspotHandler(k) in b1.hotspotUpdated;
  }

  /**
   * Attaching K to A1 and B1 and detaching it again: A1's invocation list is back to
   * empty, while B1 is left with K's destination handler subscribed twice.
   */
  method DetachAsymmetry()
  {
    var a1 := new Connector();
    var b1 := new Connector();
    var k := new Connection();
    k.SetSourceConnector(a1);
    k.SetDestConnector(b1);
    k.SetSourceConnector(null);
    k.SetDestConnector(null);
    UnsubscribeUndoesSubscribe([], SourceHotspotHandler(k));
    assert a1.hotspotUpdated == [];
    assert b1.hotspotUpdated == [DestHotspotHandler(k), DestHotspotHandler(k)];
    assert k.sourceConnectorHotspot == a1.hotspot && k.destConnectorHotspot == b1.hotspot;
  }
}
