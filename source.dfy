/**
 * The data-source base behaviour exercised through the mock source: a
 * connection flag that an `isConnected` query may switch on, the identity
 * `name` quoting of the mock and the default class configuration handed
 * to models.
 */
module DataSource {

  // ---------------------------------------------------------------------
  // Class configuration

  /** Schema metadata: whether the schema is locked and the primary key. */
  datatype Meta = Meta(locked: bool, key: string)

  datatype ClassConfig = ClassConfig(classes: map<string, string>, meta: Meta)

  const RecordClass := "lithium\\data\\entity\\Record"
  const RecordSetClass := "lithium\\data\\collection\\RecordSet"
  const RelationshipClass := "lithium\\data\\model\\Relationship"
  const SchemaClass := "lithium\\data\\Schema"

  /**
   * The configuration given to a model bound to this source: the record,
   * record set, relationship and schema classes, and a locked schema keyed
   * on `id`, whatever the model.
   */
  function ConfigureClass(model: string): (r: ClassConfig)
    ensures r.classes.Keys == {"entity", "set", "relationship", "schema"}
    ensures r.classes["entity"] == RecordClass && r.classes["set"] == RecordSetClass
    ensures r.classes["relationship"] == RelationshipClass && r.classes["schema"] == SchemaClass
    ensures r.meta.locked && r.meta.key == "id"
  {
    ClassConfig(
      map["entity" := RecordClass, "set" := RecordSetClass,
          "relationship" := RelationshipClass, "schema" := SchemaClass],
      Meta(true, "id"))
  }

  /** The configuration does not depend on the model it is asked for. */
  lemma ConfigureClassUniform(a: string, b: string)
    ensures ConfigureClass(a) == ConfigureClass(b)
  {
  }

  // ---------------------------------------------------------------------
  // Names

  /** The mock quotes nothing: a name comes back exactly as given. */
  function Name(name: string): (r: string)
    ensures |r| == |name| && forall i :: 0 <= i < |name| ==> r[i] == name[i]
  {
    name
  }

  /** Quotes, braces, a colon and a non-ASCII character all survive. */
  lemma NameKeepsEverything(name: string)
    requires name == "{('Li':\"∆\")}"
    ensures Name(name) == name
  {
  }

  // ---------------------------------------------------------------------
  // The connection flag

  /** The flag after one `isConnected` query: a query with `autoConnect` connects. */
  function Step(connected: bool, autoConnect: bool): (r: bool)
    ensures connected ==> r
    ensures autoConnect ==> r
    ensures r ==> connected || autoConnect
  {
    connected || autoConnect
  }

  /** The answers to successive `isConnected` queries, given whether each one asks to connect. */
  function Replies(start: bool, autoConnects: seq<bool>): (r: seq<bool>)
    ensures |r| == |autoConnects|
    decreases |autoConnects|
  {
    if autoConnects == [] then []
    else
      var next := Step(start, autoConnects[0]);
      [next] + Replies(next, autoConnects[1..])
  }

  /** A query answers true exactly when the source started connected or some query so far asked to connect. */
  lemma {:induction false} RepliesConnected(start: bool, autoConnects: seq<bool>, i: nat)
    requires i < |autoConnects|
    ensures Replies(start, autoConnects)[i] <==> start || exists j :: 0 <= j <= i && autoConnects[j]
    decreases i
  {
    var next := Step(start, autoConnects[0]);
    if i > 0 {
      RepliesConnected(next, autoConnects[1..], i - 1);
      assert Replies(start, autoConnects)[i] == Replies(next, autoConnects[1..])[i - 1];
      if next {
        if !start {
          assert autoConnects[0];
        }
      } else {
        assert forall j :: 0 < j <= i ==> autoConnects[j] == autoConnects[1..][j - 1];
      }
    }
  }

  /** Once a query answers true, every later one does: the flag only goes from false to true. */
  lemma RepliesStayConnected(start: bool, autoConnects: seq<bool>, i: nat, k: nat)
    requires i <= k < |autoConnects| && Replies(start, autoConnects)[i]
    ensures Replies(start, autoConnects)[k]
  {
    RepliesConnected(start, autoConnects, i);
    RepliesConnected(start, autoConnects, k);
  }

  /** Without asking to connect, a source that starts disconnected stays so. */
  lemma RepliesNeverConnecting(start: bool, autoConnects: seq<bool>, i: nat)
    requires i < |autoConnects| && !start
    requires forall j :: 0 <= j < |autoConnects| ==> !autoConnects[j]
    ensures !Replies(start, autoConnects)[i]
  {
    RepliesConnected(start, autoConnects, i);
  }

  /**
   * A data source and its connection flag. The mock's `connect` always
   * succeeds.
   */
  class Source {
    var connected: bool

    /** A new source connects at once when configured to (the default). */
    constructor (autoConnect: bool := true)
      ensures connected == autoConnect
    {
      connected := autoConnect;
    }

    method Connect() returns (r: bool)
      modifies this
      ensures connected && r
    {
      connected := true;
      r := true;
    }

    /**
     * Whether the source is connected, connecting first when it is not
     * and the query asks to (`autoConnect`, off by default).
     */
    method IsConnected(autoConnect: bool := false) returns (r: bool)
      modifies this
      ensures connected == Step(old(connected), autoConnect)
      ensures r == connected
    {
      if !connected && autoConnect {
        var _ := Connect();
      }
      r := connected;
    }
  }

  /**
   * A source built not to connect answers false, then connects when a
   * query asks it to, then stays connected.
   */
  method ConnectionScenario() returns (before: bool, connecting: bool, after: bool)
    ensures !before && connecting && after
    ensures [before, connecting, after] == Replies(false, [false, true, false])
  {
    var source := new Source(false);
    before := source.IsConnected();
    connecting := source.IsConnected(true);
    after := source.IsConnected();
    assert [false, true, false][1..] == [true, false];
    assert [true, false][1..] == [false];
  }
}
