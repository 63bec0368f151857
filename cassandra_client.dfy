/**
 * The read path of the CDC source's Cassandra client: schema lookup, the
 * primary-key select, pinning the read to the coordinator that produced the
 * mutation, and the read that starts at the strongest consistency level of a
 * caller-owned list and downgrades to the next level while replicas are
 * unavailable.
 *
 * The cluster is a function from the attempt number and the statement sent to
 * the attempt's outcome; the schema and node lists are `Metadata` snapshots.
 */
module CassandraClient {
  import opened Wrappers

  datatype ConsistencyLevel =
    | Any | One | Two | Three | Quorum | All
    | LocalQuorum | EachQuorum | Serial | LocalSerial | LocalOne

  /** A `java.util.UUID`: two 64-bit halves. */
  datatype Uuid = Uuid(mostSigBits: int, leastSigBits: int)

  datatype Node = Node(hostId: Uuid)

  datatype TableMetadata = TableMetadata(name: string)

  datatype KeyspaceMetadata = KeyspaceMetadata(name: string, tables: map<string, TableMetadata>)

  /** The session's view of the cluster: its keyspaces by name and its nodes by host id. */
  datatype Metadata = Metadata(keyspaces: map<string, KeyspaceMetadata>, nodes: map<Uuid, Node>)

  /** The exceptions of the read path. */
  datatype Throwable =
    | UnavailableException
    | ReadTimeoutException
    | DriverException(name: string)
    | IllegalArgumentException(message: string)
    | IndexOutOfBoundsException
    | NoSuchElementException
    | CompletionException(cause: Throwable)

  function NoKeyspaceMessage(keyspace: string): string {
    "No metadata for keyspace " + keyspace
  }

  function NoTableMessage(keyspace: string, table: string): string {
    "No metadata for table " + keyspace + "." + table
  }

  /** `getTableMetadata`: the keyspace and table metadata, or an error naming what is missing. */
  function GetTableMetadata(metadata: Metadata, keyspace: string, table: string)
    : (r: Result<(KeyspaceMetadata, TableMetadata), Throwable>)
    ensures r.Success? <==>
      keyspace in metadata.keyspaces && table in metadata.keyspaces[keyspace].tables
    ensures r.Success? ==>
      r.value == (metadata.keyspaces[keyspace], metadata.keyspaces[keyspace].tables[table])
    ensures keyspace !in metadata.keyspaces ==>
      r == Failure(IllegalArgumentException(NoKeyspaceMessage(keyspace)))
    ensures keyspace in metadata.keyspaces && table !in metadata.keyspaces[keyspace].tables ==>
      r == Failure(IllegalArgumentException(NoTableMessage(keyspace, table)))
  {
    if keyspace !in metadata.keyspaces then
      Failure(IllegalArgumentException(NoKeyspaceMessage(keyspace)))
    else
      var keyspaceMetadata := metadata.keyspaces[keyspace];
      if table !in keyspaceMetadata.tables then
        Failure(IllegalArgumentException(NoTableMessage(keyspace, table)))
      else
        Success((keyspaceMetadata, keyspaceMetadata.tables[table]))
  }

  /** A missing keyspace and a missing table are never reported with the same message. */
  lemma MetadataErrorsDiffer(keyspace: string, keyspace': string, table: string)
    ensures NoKeyspaceMessage(keyspace) != NoTableMessage(keyspace', table)
  {
    assert NoKeyspaceMessage(keyspace)[16] == 'k';
    assert NoTableMessage(keyspace', table)[16] == 't';
  }

  /** `SELECT * FROM keyspace.table WHERE c1 = ? AND c2 = ? ...`, one column per primary-key entry. */
  datatype Select = Select(keyspace: string, table: string, whereColumns: seq<string>)

  /** The columns of the primary-key entries, in iteration order. */
  function PkColumns<V>(pk: seq<(string, V)>): (r: seq<string>)
    ensures |r| == |pk| && forall i :: 0 <= i < |pk| ==> r[i] == pk[i].0
  {
    seq(|pk|, i requires 0 <= i < |pk| => pk[i].0)
  }

  /** The values of the primary-key entries, in iteration order. */
  function PkValues<V>(pk: seq<(string, V)>): (r: seq<V>)
    ensures |r| == |pk| && forall i :: 0 <= i < |pk| ==> r[i] == pk[i].1
  {
    seq(|pk|, i requires 0 <= i < |pk| => pk[i].1)
  }

  /**
   * The loop of `selectRowAsync` over the primary-key entries: one equality
   * restriction on a bind marker per entry, and the entry's value collected.
   */
  method BuildQuery<V>(keyspace: string, table: string, pk: seq<(string, V)>)
    returns (query: Select, values: seq<V>)
    ensures query.keyspace == keyspace && query.table == table
    ensures query.whereColumns == PkColumns(pk)
    ensures values == PkValues(pk)
  {
    query := Select(keyspace, table, []);
    values := [];
    var i := 0;
    while i < |pk|
      invariant 0 <= i <= |pk|
      invariant query == Select(keyspace, table, PkColumns(pk[..i]))
      invariant values == PkValues(pk[..i])
    {
      assert pk[..i + 1] == pk[..i] + [pk[i]];
      values := values + [pk[i].1];
      query := query.(whereColumns := query.whereColumns + [pk[i].0]);
      i := i + 1;
    }
    assert pk[..i] == pk;
  }

  /**
   * A `SimpleStatement`. The driver's statements are immutable values: each
   * setter returns a modified copy.
   */
  datatype SimpleStatement<V> = SimpleStatement(
    query: Select,
    namedValues: seq<(string, V)>,
    consistencyLevel: Option<ConsistencyLevel>,
    node: Option<Node>)

  /** `query.build(pk)`: no consistency level and no coordinator yet. */
  function BuildStatement<V>(query: Select, pk: seq<(string, V)>): (s: SimpleStatement<V>)
    ensures s.query == query && s.namedValues == pk
    ensures s.consistencyLevel.None? && s.node.None?
  {
    SimpleStatement(query, pk, None, None)
  }

  /** The node `nodeId` names, when there is an id and the metadata knows it. */
  function CoordinatorNode(metadata: Metadata, nodeId: Option<Uuid>): (r: Option<Node>)
    ensures r.Some? <==> nodeId.Some? && nodeId.value in metadata.nodes
    ensures r.Some? ==> r.value == metadata.nodes[nodeId.value]
  {
    if nodeId.Some? && nodeId.value in metadata.nodes then Some(metadata.nodes[nodeId.value]) else None
  }

  /**
   * Coordinator pinning, corrected: the statement to send is pinned to the
   * node when it is known; otherwise it is the statement unchanged, and no
   * error is raised.
   */
  function PinCoordinator<V>(statement: SimpleStatement<V>, metadata: Metadata, nodeId: Option<Uuid>)
    : (r: SimpleStatement<V>)
    ensures r.query == statement.query && r.namedValues == statement.namedValues
    ensures r.consistencyLevel == statement.consistencyLevel
    ensures nodeId.Some? && nodeId.value in metadata.nodes ==> r.node == Some(metadata.nodes[nodeId.value])
    ensures nodeId.None? || nodeId.value !in metadata.nodes ==> r == statement
  {
    match CoordinatorNode(metadata, nodeId)
    case Some(node) => statement.(node := Some(node))
    case None => statement
  }

  /** The outcome of one execution of a statement. */
  datatype Attempt<R> = Succeeded(resultSet: R) | Failed(error: Throwable)

  /** The cluster: the outcome of the attempt with the given number when this statement is sent. */
  type Cluster<!V, R> = (nat, SimpleStatement<V>) -> Attempt<R>

  /** How a chain of attempts ended, and how many levels it took off the list. */
  datatype Run<R> = Run(outcome: Result<(R, ConsistencyLevel), Throwable>, tried: nat)

  /**
   * The downgrade protocol over `levels`, given what the handler observes of
   * the attempt with number `done + i` at `levels[i]`: take the head level and
   * try it; stop on success, on a failure that is not an unavailable-replicas
   * failure, or when no level is left; otherwise go on with the rest.
   */
  function Downgrade<R>(levels: seq<ConsistencyLevel>, observe: (nat, ConsistencyLevel) -> Attempt<R>, done: nat)
    : (run: Run<R>)
    ensures levels == [] ==> run == Run(Failure(IndexOutOfBoundsException), 0)
    ensures levels != [] ==> 1 <= run.tried <= |levels|
    decreases |levels|
  {
    if levels == [] then Run(Failure(IndexOutOfBoundsException), 0)
    else
      var cl := levels[0];
      match observe(done, cl)
      case Succeeded(rs) => Run(Success((rs, cl)), 1)
      case Failed(ex) =>
        if !ex.UnavailableException? || |levels| == 1 then Run(Failure(ex), 1)
        else
          var rest := Downgrade(levels[1..], observe, done + 1);
          Run(rest.outcome, rest.tried + 1)
  }

  /**
   * What a chain of attempts does, exactly: every attempt but the last found
   * replicas unavailable, the attempts took the levels in list order, one
   * each, and the last attempt decides the outcome. A success is returned with
   * the level it ran at; a failure is returned as it is, and an
   * unavailable-replicas failure ends the chain only when no level is left.
   */
  lemma {:induction false} DowngradeTrace<R>(levels: seq<ConsistencyLevel>, observe: (nat, ConsistencyLevel) -> Attempt<R>, done: nat)
    requires levels != []
    ensures var run := Downgrade(levels, observe, done);
      var last := run.tried - 1;
      1 <= run.tried <= |levels| &&
      (forall i :: 0 <= i < last ==> observe(done + i, levels[i]) == Failed(UnavailableException)) &&
      match observe(done + last, levels[last])
      case Succeeded(rs) => run.outcome == Success((rs, levels[last]))
      case Failed(ex) => run.outcome == Failure(ex) && (ex.UnavailableException? ==> run.tried == |levels|)
    decreases |levels|
  {
    var cl := levels[0];
    if observe(done, cl).Failed? && observe(done, cl).error.UnavailableException? && |levels| > 1 {
      DowngradeTrace(levels[1..], observe, done + 1);
      var rest := Downgrade(levels[1..], observe, done + 1);
      forall i | 0 <= i < rest.tried
        ensures observe(done + i, levels[i]) == Failed(UnavailableException)
      {
        if i > 0 {
          assert levels[i] == levels[1..][i - 1];
        }
      }
      assert levels[rest.tried] == levels[1..][rest.tried - 1];
    }
  }

  /** When every level finds replicas unavailable, all of them are tried and the last failure is returned. */
  lemma {:induction false} DowngradeExhaustion<R>(levels: seq<ConsistencyLevel>, observe: (nat, ConsistencyLevel) -> Attempt<R>, done: nat)
    requires levels != []
    requires forall i :: 0 <= i < |levels| ==> observe(done + i, levels[i]) == Failed(UnavailableException)
    ensures Downgrade(levels, observe, done) == Run(Failure(UnavailableException), |levels|)
  {
    DowngradeTrace(levels, observe, done);
  }

  /** The first attempt that does not find replicas unavailable ends the chain, whatever levels remain. */
  lemma DowngradeStopsAt<R>(levels: seq<ConsistencyLevel>, observe: (nat, ConsistencyLevel) -> Attempt<R>, done: nat, k: nat)
    requires k < |levels|
    requires forall i :: 0 <= i < k ==> observe(done + i, levels[i]) == Failed(UnavailableException)
    requires observe(done + k, levels[k]) != Failed(UnavailableException)
    ensures var run := Downgrade(levels, observe, done);
      run.tried == k + 1 &&
      match observe(done + k, levels[k])
      case Succeeded(rs) => run.outcome == Success((rs, levels[k]))
      case Failed(ex) => run.outcome == Failure(ex)
  {
    DowngradeTrace(levels, observe, done);
  }

  /** The statement the corrected code sends at level `cl`: the prepared one, at that level. */
  function AtLevel<V>(statement: SimpleStatement<V>, cl: ConsistencyLevel): (s: SimpleStatement<V>)
    ensures s.consistencyLevel == Some(cl)
    ensures s.(consistencyLevel := statement.consistencyLevel) == statement
  {
    statement.(consistencyLevel := Some(cl))
  }

  /** What the corrected handler observes of an attempt: the cluster's answer to the statement at that level. */
  function Corrected<V, R>(cluster: Cluster<V, R>, statement: SimpleStatement<V>)
    : (observe: (nat, ConsistencyLevel) -> Attempt<R>)
    ensures forall i, cl :: observe(i, cl) == cluster(i, AtLevel(statement, cl))
  {
    (i: nat, cl: ConsistencyLevel) => cluster(i, AtLevel(statement, cl))
  }

  /** The levels the Java code receives and consumes: a mutable list owned by the caller. */
  class LevelList {
    var items: seq<ConsistencyLevel>

    constructor (items: seq<ConsistencyLevel>)
      ensures this.items == items
    {
      this.items := items;
    }
  }

  /**
   * `executeWithDowngradeConsistencyRetry`, corrected: each attempt removes the
   * head of the caller's list and sends the statement at that level. On return
   * the list holds exactly the levels not attempted.
   */
  method ExecuteWithDowngradeConsistencyRetry<V, R>(cluster: Cluster<V, R>, statement: SimpleStatement<V>, levels: LevelList)
    returns (outcome: Result<(R, ConsistencyLevel), Throwable>)
    modifies levels
    ensures var run := Downgrade(old(levels.items), Corrected(cluster, statement), 0);
      outcome == run.outcome && levels.items == old(levels.items)[run.tried..]
  {
    ghost var original := levels.items;
    ghost var observe := Corrected(cluster, statement);
    if levels.items == [] {
      return Failure(IndexOutOfBoundsException);
    }
    var attempts: nat := 0;
    while true
      invariant attempts < |original| && levels.items == original[attempts..]
      invariant var rest := Downgrade(levels.items, observe, attempts);
        Downgrade(original, observe, 0) == Run(rest.outcome, rest.tried + attempts)
      decreases |levels.items|
    {
      var cl := levels.items[0];
      levels.items := levels.items[1..];
      var attempt := cluster(attempts, AtLevel(statement, cl));
      if attempt.Succeeded? {
        return Success((attempt.resultSet, cl));
      }
      if !attempt.error.UnavailableException? || levels.items == [] {
        return Failure(attempt.error);
      }
      attempts := attempts + 1;
    }
  }

  /** `ResultSet.one()`: the first row, or null. */
  function FirstRow<Row>(rows: seq<Row>): (r: Option<Row>)
    ensures r.None? <==> rows == []
    ensures r.Some? ==> r.value == rows[0]
  {
    if rows == [] then None else Some(rows[0])
  }

  /**
   * `selectRowAsync`, corrected: build the primary-key select, pin it to the
   * coordinator when known (`before` is the metadata at that moment), run the
   * downgrade protocol, then pair the first row and the level that produced it
   * with the keyspace metadata (`after`, read once the result is in; a missing
   * keyspace there fails `Optional.get`).
   */
  method SelectRowAsync<V, Row>(
    before: Metadata, after: Metadata,
    keyspaceName: string, tableName: string, pk: seq<(string, V)>, nodeId: Option<Uuid>,
    levels: LevelList, cluster: Cluster<V, seq<Row>>)
    returns (r: Result<(Option<Row>, ConsistencyLevel, KeyspaceMetadata), Throwable>)
    modifies levels
    ensures var sent := PinCoordinator(BuildStatement(Select(keyspaceName, tableName, PkColumns(pk)), pk), before, nodeId);
      var run := Downgrade(old(levels.items), Corrected(cluster, sent), 0);
      levels.items == old(levels.items)[run.tried..] &&
      match run.outcome
      case Failure(ex) => r == Failure(ex)
      case Success((rows, cl)) =>
        if keyspaceName in after.keyspaces then r == Success((FirstRow(rows), cl, after.keyspaces[keyspaceName]))
        else r == Failure(NoSuchElementException)
  {
    var query, values := BuildQuery(keyspaceName, tableName, pk);
    var statement := BuildStatement(query, pk);
    statement := PinCoordinator(statement, before, nodeId);
    var read := ExecuteWithDowngradeConsistencyRetry(cluster, statement, levels);
    match read
    case Failure(ex) => r := Failure(ex);
    case Success((rows, cl)) =>
      if keyspaceName in after.keyspaces {
        r := Success((FirstRow(rows), cl, after.keyspaces[keyspaceName]));
      } else {
        r := Failure(NoSuchElementException);
      }
  }

  // ---------------------------------------------------------------------------
  // The code as written. Statement setters return a new statement, and the
  // code drops it (lines 252 and 280), so every attempt sends the statement
  // as built: no consistency level, no coordinator. And the handler looks at
  // a stage derived by `thenApply`, whose failure is the driver's exception
  // wrapped in a `CompletionException` (line 286).
  // ---------------------------------------------------------------------------

  /** What the failure of a `thenApply` stage looks like to a handler on it. */
  function ThroughThenApply<R>(a: Attempt<R>): (r: Attempt<R>)
    ensures a.Succeeded? ==> r == a
    ensures a.Failed? ==> r == Failed(CompletionException(a.error))
  {
    match a
    case Succeeded(_) => a
    case Failed(ex) => Failed(CompletionException(ex))
  }

  /** What the handler of the code as written observes: the unpinned, level-less statement, wrapped failures. */
  function AsWritten<V, R>(cluster: Cluster<V, R>, built: SimpleStatement<V>)
    : (observe: (nat, ConsistencyLevel) -> Attempt<R>)
    ensures forall i, cl :: observe(i, cl) == ThroughThenApply(cluster(i, built))
  {
    (i: nat, cl: ConsistencyLevel) => ThroughThenApply(cluster(i, built))
  }

  /** As written, the chain never downgrades: it stops after its first attempt. */
  lemma AsWrittenNeverDowngrades<V, R>(cluster: Cluster<V, R>, built: SimpleStatement<V>, levels: seq<ConsistencyLevel>)
    requires levels != []
    ensures Downgrade(levels, AsWritten(cluster, built), 0).tried == 1
  {
  }

  /**
   * As written, a read is reported at the head level even though it was sent
   * without any level: with levels [All, LocalQuorum] and a cluster that has too
   * few replicas for All, the code reports a read at All, while the corrected
   * code tries All, then reads at LocalQuorum.
   */
  lemma AsWrittenMisreportsLevel<V, R>(built: SimpleStatement<V>, rs: R)
    requires built.consistencyLevel.None?
    ensures var cluster: Cluster<V, R> := (i: nat, s: SimpleStatement<V>) =>
        if s.consistencyLevel == Some(All) then Failed(UnavailableException) else Succeeded(rs);
      var levels := [All, LocalQuorum];
      Downgrade(levels, AsWritten(cluster, built), 0) == Run(Success((rs, All)), 1) &&
      cluster(0, AtLevel(built, All)) == Failed(UnavailableException) &&
      Downgrade(levels, Corrected(cluster, built), 0) == Run(Success((rs, LocalQuorum)), 2)
  {
    var cluster: Cluster<V, R> := (i: nat, s: SimpleStatement<V>) =>
      if s.consistencyLevel == Some(All) then Failed(UnavailableException) else Succeeded(rs);
    var levels := [All, LocalQuorum];
    assert levels[1..] == [LocalQuorum];
  }

  /**
   * Coordinator pinning as written: the node is looked up, but the copy that
   * `setNode` returns is dropped, so the statement sent is the one built.
   */
  function PinCoordinatorAsWritten<V>(statement: SimpleStatement<V>, metadata: Metadata, nodeId: Option<Uuid>)
    : (r: SimpleStatement<V>)
    ensures r == statement
  {
    var _ := CoordinatorNode(metadata, nodeId);
    statement
  }

  /**
   * As written, a known coordinator never reaches the cluster: the statement
   * sent for a known node id has no node, where the corrected pin sets it.
   */
  lemma AsWrittenDropsCoordinator<V>(metadata: Metadata, query: Select, pk: seq<(string, V)>, id: Uuid)
    requires id in metadata.nodes
    ensures PinCoordinatorAsWritten(BuildStatement(query, pk), metadata, Some(id)).node.None?
    ensures PinCoordinator(BuildStatement(query, pk), metadata, Some(id)).node == Some(metadata.nodes[id])
  {
  }
}
