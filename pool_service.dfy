/**
 * The `update` and `query` handlers: validate the request, route the pool id
 * to its shard file, load the shard's table (or start an empty one), change
 * it, and write the whole table back when it changed.
 *
 * The directory of shard files is a map from file path to the rows stored in
 * that file; `saveLog` records, in order, every path written.
 */
module PoolService {
  import opened Sorting
  import opened ShardRouter
  import opened Validation
  import opened QuantileEngine
  import opened PoolTable

  type Store = map<string, map<int, Row>>

  const UnknownPoolMessage: string := "poolId does not exist"

  datatype UpdateResponse = Inserted | Appended | UpdateRejected(error: string)

  datatype QueryResponse = Answer(quantile: real, count: nat) | QueryRejected(error: string)

  /** A stored shard file holds only pools routed to it, each non-empty with a truthful flag. */
  predicate ShardOk(path: string, rows: map<int, Row>) {
    && TableOk(rows)
    && forall id :: id in rows ==> ShardPath(id) == path && |rows[id].values| > 0
  }

  predicate StoreOk(store: Store) {
    forall path :: path in store ==> ShardOk(path, store[path])
  }

  /** Whether `id` has a row, looking only in the shard file it routes to. */
  predicate PoolStored(store: Store, id: int) {
    ShardPath(id) in store && id in store[ShardPath(id)]
  }

  /** In a consistent store a pool id has a row in at most one shard file. */
  lemma PoolInOneShard(store: Store, id: int, p1: string, p2: string)
    requires StoreOk(store)
    requires p1 in store && id in store[p1]
    requires p2 in store && id in store[p2]
    ensures p1 == p2 == ShardPath(id)
  {
    assert ShardOk(p1, store[p1]) && ShardOk(p2, store[p2]);
  }

  /** `does_pool_exist` looks only in the table of the file the id routes to; in a
      consistent store that is the same as the id having a row in any shard file. */
  lemma {:induction false} PoolStoredIffAnywhere(store: Store, id: int)
    requires StoreOk(store)
    ensures PoolStored(store, id) <==> exists p :: p in store && id in store[p]
  {
    if exists p :: p in store && id in store[p] {
      var p :| p in store && id in store[p];
      PoolInOneShard(store, id, p, p);
    }
  }

  class PoolService {
    var store: Store
    var saveLog: seq<string>

    ghost predicate Valid()
      reads this
    {
      StoreOk(store)
    }

    constructor (initial: Store)
      requires StoreOk(initial)
      ensures Valid() && store == initial && saveLog == []
    {
      store := initial;
      saveLog := [];
    }

    /** `save_data`: replaces the whole shard file at `path` with `rows`. */
    method Save(path: string, rows: map<int, Row>)
      modifies this
      ensures store == old(store)[path := rows]
      ensures saveLog == old(saveLog) + [path]
    {
      store := store[path := rows];
      saveLog := saveLog + [path];
    }

    /** The `/update` handler. */
    method Update(request: Request) returns (response: UpdateResponse)
      requires Valid()
      modifies this
      ensures Valid()
      ensures !ValidatePool(request).0 ==>
        response == UpdateRejected(ValidatePool(request).1) && store == old(store) && saveLog == old(saveLog)
      ensures ValidatePool(request).0 ==>
        var cmd := ToPoolCommand(request);
        var path := ShardPath(cmd.id);
        && saveLog == old(saveLog) + [path]
        && (path !in old(store) ==>
              response == Inserted && store == old(store)[path := map[cmd.id := NewRow(cmd.values)]])
        && (path in old(store) && cmd.id !in old(store)[path] ==>
              response == Inserted && store == old(store)[path := old(store)[path][cmd.id := NewRow(cmd.values)]])
        && (path in old(store) && cmd.id in old(store)[path] ==>
              response == Appended &&
              store == old(store)[path := old(store)[path][cmd.id := AppendValues(old(store)[path][cmd.id], cmd.values)]])
    {
      var (valid, message) := ValidatePool(request);
      if !valid {
        return UpdateRejected(message);
      }
      var cmd := ToPoolCommand(request);
      var path := ShardPath(cmd.id);
      if path !in store {
        var table := new PoolTable.Empty();
        table.Insert(cmd.id, cmd.values);
        Save(path, table.rows);
        response := Inserted;
      } else {
        var table := new PoolTable.Load(store[path]);
        if table.HasPool(cmd.id) {
          table.Append(cmd.id, cmd.values);
          Save(path, table.rows);
          response := Appended;
        } else {
          table.Insert(cmd.id, cmd.values);
          Save(path, table.rows);
          response := Inserted;
        }
      }
      assert ShardOk(path, store[path]);
    }

    /** The `/query` handler. */
    method Query(request: Request) returns (response: QueryResponse)
      requires Valid()
      modifies this
      ensures Valid()
      ensures !ValidateQuery(request).0 ==>
        response == QueryRejected(ValidateQuery(request).1) && store == old(store) && saveLog == old(saveLog)
      ensures ValidateQuery(request).0 && !PoolStored(old(store), ToQueryCommand(request).id) ==>
        response == QueryRejected(UnknownPoolMessage) && store == old(store) && saveLog == old(saveLog)
      ensures ValidateQuery(request).0 && PoolStored(old(store), ToQueryCommand(request).id) ==>
        var cmd := ToQueryCommand(request);
        var path := ShardPath(cmd.id);
        var row := old(store)[path][cmd.id];
        var sorted := SortAscending(row.values);
        && |row.values| > 0
        && response == Answer(CalculateQuantile(sorted, cmd.percentile).0, |row.values|)
        && response.quantile == LinearQuantile(sorted, cmd.percentile)
        && (row.sorted ==> store == old(store) && saveLog == old(saveLog))
        && (!row.sorted ==>
              store == old(store)[path := old(store)[path][cmd.id := Row(sorted, true)]] &&
              saveLog == old(saveLog) + [path])
    {
      var (valid, message) := ValidateQuery(request);
      if !valid {
        return QueryRejected(message);
      }
      var cmd := ToQueryCommand(request);
      var path := ShardPath(cmd.id);
      if path !in store {
        return QueryRejected(UnknownPoolMessage);
      }
      var table := new PoolTable.Load(store[path]);
      if !table.HasPool(cmd.id) {
        return QueryRejected(UnknownPoolMessage);
      }
      assert ShardOk(path, store[path]);
      var sortedValues, changed := table.Sort(cmd.id);
      if changed {
        Save(path, table.rows);
      }
      var (quantile, total) := CalculateQuantile(sortedValues, cmd.percentile);
      CalculateQuantileIsLinear(sortedValues, cmd.percentile);
      response := Answer(quantile, total);
      assert ShardOk(path, store[path]);
    }
  }

  /** Querying a pool twice gives the same answer, and only the first query can
      write its shard file: the lazy sort leaves nothing to do the second time. */
  method QueryTwice(service: PoolService, request: Request) returns (first: QueryResponse, second: QueryResponse)
    requires service.Valid()
    modifies service
    ensures service.Valid()
    ensures second == first
    ensures |service.saveLog| <= |old(service.saveLog)| + 1
  {
    first := service.Query(request);
    if ValidateQuery(request).0 && PoolStored(service.store, ToQueryCommand(request).id) {
      var cmd := ToQueryCommand(request);
      var row := service.store[ShardPath(cmd.id)][cmd.id];
      assert row.sorted;
      SortOfAscending(row.values);
    }
    second := service.Query(request);
  }

  /** The service test that queries a pool id no update has created. */
  method UnknownPoolScenario() returns (response: QueryResponse)
    ensures response == QueryRejected(UnknownPoolMessage)
  {
    var service := new PoolService(map[]);
    var query := map[PoolIdField := JInt(99991369), PercentileField := JInt(90)];
    assert query.Keys == {PoolIdField, PercentileField};
    assert ValidateQuery(query).0;
    response := service.Query(query);
  }

  /** The update request of the service tests that create a pool. */
  function FirstPool(): Request {
    map[PoolIdField := JInt(99991369),
        PoolValuesField := JList([JInt(1), JInt(7), JInt(2), JInt(6), JFloat(5.5), JFloat(3.141592653589793)])]
  }

  /** The service test that inserts a pool into a store with no file for it. */
  method InsertScenario() returns (response: UpdateResponse, store: Store)
    ensures response == Inserted
    ensures store == map[ShardPath(99991369) := map[99991369 := Row([1.0, 7.0, 2.0, 6.0, 5.5, 3.141592653589793], false)]]
  {
    var service := new PoolService(map[]);
    var request := FirstPool();
    assert request.Keys == {PoolIdField, PoolValuesField};
    assert ToPoolCommand(request).values == [1.0, 7.0, 2.0, 6.0, 5.5, 3.141592653589793];
    response := service.Update(request);
    store := service.store;
  }

  /** The service test that inserts a pool and then appends to it. */
  method InsertThenAppendScenario() returns (first: UpdateResponse, second: UpdateResponse, values: seq<real>)
    ensures first == Inserted && second == Appended
    ensures values == [1.0, 7.0, 2.0, 6.0, 5.5, 3.141592653589793, 2.0]
  {
    var id := 99991369;
    var path := ShardPath(id);
    var store;
    first, store := InsertScenario();
    assert ShardOk(path, store[path]);
    var service := new PoolService(store);
    var more := map[PoolIdField := JInt(id), PoolValuesField := JList([JInt(2)])];
    assert more.Keys == {PoolIdField, PoolValuesField};
    assert ToPoolCommand(more) == PoolCommand(id, [2.0]);
    second := service.Update(more);
    assert service.store[path][id] == AppendValues(Row([1.0, 7.0, 2.0, 6.0, 5.5, 3.141592653589793], false), [2.0]);
    values := service.store[path][id].values;
  }
}
