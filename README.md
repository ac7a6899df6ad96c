# Sharded pool store and quantile engine

This project models the core of a small REST service that keeps numeric
"pools". A pool is a list of numbers keyed by an integer `poolId`. The
service offers two operations:

- `/update` appends values to a pool, and creates the pool if it is absent.
- `/query` returns a percentile of a pool's values and the pool's element count.

Pools are spread over shard files. A pool goes to the file
`data/<abs(poolId) // 1000>.csv`. Each row of a shard holds the pool's values
and a `sorted` flag. A query sorts a pool only when the flag is off. It then
sets the flag and rewrites the shard file only if the table changed.

The Dafny modules follow the service's components:

- `ShardRouter` (`shard_router.dfy`): `get_path_by_id`. It holds the shard number, its decimal text, and the proof that the file path determines the shard number.
- `Validation` (`validation.dfy`): `validate_pool` and `validate_query` over a JSON object. Each is an ordered chain of checks that reports the first failure. A valid request is then read into a typed command.
- `Sorting` (`sorting.dfy`): ascending order and the sort used for `sorted(...)`. It proves that an ascending permutation is unique.
- `QuantileEngine` (`quantile_engine.dfy`): `calculate_quantile`, with a reference definition of the linear quantile (numpy's default) as its partner.
- `PoolTable` (`pool_table.dfy`): `insert_pool`, `append_pool_values`, `sort_pool_values` and `does_pool_exist` (`HasPool`, whose meaning in the whole store is `PoolService.PoolStoredIffAnywhere`). Row-level functions describe one row. The class `PoolTable` applies them to its map of rows in place.
- `PoolService` (`pool_service.dfy`): the `update` and `query` handlers as methods of a class. Its state is a store of shard files and a log of the paths saved. The store maps each path to that file's rows.

The store invariant (`StoreOk`) has three parts:

- every row lies in the file its id routes to;
- every row is non-empty;
- a row marked sorted holds ascending values.

The constructor of `PoolService` only sets up the starting state, a consistent directory of shard files and an empty save log; it models no function of the service. Both handlers preserve the invariant. Under it, a query's answer is the linear quantile of
the pool's sorted values, whatever the flag said. Only an unsorted pool causes
a save.

The model follows the code in these points:

- Pool ids are unbounded integers in routing and validation, as in Python.
- There is no per-shard lock.
- The flag means "sorted implies ascending" and not "sorted iff ascending". An append clears the flag even when the result is still in order.

## Model

| member | source | states |
|---|---|---|
| `ShardRouter.ShardOf` | api.py:134-137 | the shard number is the block of 1000 that `abs(id)` falls in: `shard*1000 <= abs(id) < (shard+1)*1000` |
| `ShardRouter.NatToString` | api.py:136 | `str` of the shard number is a non-empty string of decimal digits with no leading zero |
| `ShardRouter.ParseNatToString` | api.py:136 | reading the decimal text back gives the number (round trip) |
| `ShardRouter.ShardPath` | api.py:134-137 | the path is `data/`, then decimal digits, then `.csv`, and the digits read back as the shard number `abs(id) // 1000`, so distinct shards get distinct files |
| `ShardRouter.SamePathIffSameShard` | api.py:134-137 | two ids get the same file path exactly when they have the same shard number |
| `ShardRouter.NegationSameShard` | api.py:136 | `id` and `-id` route to the same shard file |
| `ShardRouter.BlockRoutesToShard` | api.py:136 | every id whose absolute value lies in block `k` routes to shard `k` |
| `ShardRouter.SameShardIsClose` | api.py:136 | ids in one shard differ in absolute value by less than 1000 |
| `Validation.ValidatePool` | api.py:80-101 | valid iff the keys are exactly {poolId, poolValues}, poolId is an int (not a bool), poolValues is a non-empty list of ints/floats; each error message is returned exactly when every earlier check passes and its own check fails |
| `Validation.ValidateQuery` | api.py:103-122 | valid iff the keys are exactly {poolId, percentile}, poolId is an int, percentile is an int/float in [0, 100]; each message exactly when the earlier checks pass and its own fails |
| `Validation.ToPoolCommand` | api.py:25-45 | a valid update reads into the id and a non-empty list of reals, element by element |
| `Validation.ToQueryCommand` | api.py:58-72 | a valid query reads into the id and a percentile in [0, 100] |
| `Validation.BoolElementRejected` | test_api.py:78-88 | `[True]` as poolValues is rejected with the real-number message |
| `Validation.UnknownKeyRejected` | test_api.py:162-172 | an extra key is rejected with the key-set message |
| `Validation.PercentileOutOfRangeRejected` | test_api.py:178-200 | percentiles -1 and 100.1 are rejected with the range message |
| `Sorting.Insert` | api.py:208 | inserting into an ascending list keeps it ascending and adds exactly that value |
| `Sorting.SortAscending` | api.py:208 | `sorted` returns an ascending permutation of its input |
| `Sorting.AscendingPermutationUnique` | api.py:208 | two ascending lists with the same values and multiplicities are equal, so any correct sort gives the same list |
| `Sorting.SortOfAscending` | api.py:205-216 | sorting an already ascending list leaves it unchanged |
| `Sorting.SortIsCanonical` | api.py:208 | every ascending permutation of a list is the sort of that list |
| `QuantileEngine.CalculateQuantile` | api.py:148-168 | returns the element count; gives `list[0]` when n = 1, the ends are equal or p = 0; otherwise gives `list[n-1]` when p = 100; on ascending input the result lies between the least and the greatest value |
| `QuantileEngine.RankInRange` | api.py:162-164 | the rank lies in [0, n-1], so both interpolation indices are in range, and, for n > 1, it reaches n-1 only at p = 100 |
| `QuantileEngine.CalculateQuantileIsLinear` | api.py:148-168 | on ascending input the engine, shortcuts included, equals the linear (type 7) quantile, the one the tests compare against |
| `QuantileEngine.LinearQuantileMonotone` | api.py:162-166 | on ascending input the quantile never decreases as the percentile grows |
| `QuantileEngine.ConstantPoolQuantile` | api.py:155-157 | a pool of equal values has that value as its quantile at every percentile |
| `QuantileEngine.TwoValueExample` | test_api.py:335-367 | the pool [3, 1] sorts to [1, 3] and its 90th percentile is 2.8 with count 2 |
| `QuantileEngine.LerpBetween` | api.py:166 | the interpolation `a*(1-w) + b*w` with weight in [0, 1] lies between `a` and `b` |
| `PoolTable.NewRow` | api.py:170-179 | a new row holds exactly the given values; its flag is set iff there is one value, and the flag is truthful |
| `PoolTable.AppendValues` | api.py:187-197 | the new values are the old ones followed by the appended ones, in order and with duplicates kept; the flag is cleared |
| `PoolTable.SortIfNeeded` | api.py:199-216 | it changes the row iff the flag was off; afterwards the flag is on and the values are a permutation of the old ones, ascending when sorted here; with the flag on, the row and values are returned as they were |
| `PoolTable.SortIfNeededSorts` | api.py:199-216 | on a row with a truthful flag, the returned values are the sorted values, and the row stays truthful |
| `PoolTable.SortTwiceUnchanged` | api.py:205-216 | a second lazy sort reports no change and returns the same row and values |
| `PoolTable.AppendThenSort` | api.py:187-216 | append then sort always changes the row and yields the sorted concatenation of old and new values |
| `PoolTable.PoolTable.Load` | api.py:139-142 | a loaded table holds exactly the stored rows |
| `PoolTable.PoolTable.Empty` | api.py:181-182 | a new shard starts with no rows |
| `PoolTable.PoolTable.Insert` | api.py:170-185 | adds exactly one row for the absent id; every other row is unchanged; the flag invariant is kept |
| `PoolTable.PoolTable.Append` | api.py:187-197 | replaces only that id's row by the appended row; the set of ids is unchanged |
| `PoolTable.PoolTable.Sort` | api.py:199-216 | changed iff the flag was off; if changed, only that row becomes (sorted values, flag on); if not, the table and returned list are the stored ones; on a valid table the returned list is the sorted values |
| `PoolService.PoolInOneShard` | api.py:25-45 | in a consistent store a pool id has a row in at most one shard file, the one it routes to |
| `PoolService.PoolStoredIffAnywhere` | api.py:129-132 | `does_pool_exist` looks only in the table of the routed file; in a consistent store that holds exactly when the id has a row in some shard file |
| `PoolService.PoolService.Save` | api.py:144-146 | writing a shard replaces that file's whole contents and records the write |
| `PoolService.PoolService.Update` | api.py:14-45 | an invalid request is rejected with the validator's message and nothing is written; otherwise exactly one save of the routed file; "inserted" with a new one-row file if the file is absent; "inserted" with the row added if the id is absent from the file; "appended" with the row's values extended if present; the store invariant is kept |
| `PoolService.PoolService.Query` | api.py:47-78 | an invalid request is rejected with the validator's message; a missing file or id gives "poolId does not exist"; otherwise the answer is the quantile of the sorted values with count n, equal to the linear quantile; file and log unchanged when the row was sorted; one save of the sorted row when it was not |
| `PoolService.QueryTwice` | api.py:66-72 | two identical queries give the same answer and write at most one shard file between them |
| `PoolService.UnknownPoolScenario` | test_api.py:202-212 | a query on an empty store is rejected with "poolId does not exist" |
| `PoolService.InsertScenario` | test_api.py:35-52 | an update on a store without the file answers "inserted" and creates a one-row file holding the values as given, marked unsorted |
| `PoolService.InsertThenAppendScenario` | test_api.py:11-30 | a second update of the same id answers "appended" and the row holds the first values followed by the second |

## Left out

- Flask routing, `request.get_json`, HTTP status codes and logging. The handlers take the parsed JSON object and return a typed response. A rejected response stands for the 400 reply.
- A request body that is not a JSON object (a list, a string, a number, a bool or `null`) is not modelled. The source fails on `len()` or `.keys()` (api.py:83-84, 106-107) before any check.
- File and CSV I/O (`does_path_exist`, `load_data`, `save_data`). The directory of shard files is a map from path to rows, and a save replaces one entry. I/O failures and corrupt files are not modelled.
- The textual form of values (`str(list)` / `ast.literal_eval`). Values are kept as lists of reals. The round trip through Python's float text is assumed exact.
- Floating point. Numbers are reals, so rounding in the interpolation, NaN and infinity are not modelled. For example, a `NaN` percentile would pass the range check in the source. Integer pool values are unbounded and pass validation, but the interpolation at api.py:166 multiplies them by a float, which raises `OverflowError` for an int beyond the float range (for example [1, 10**400] at percentile 50); the model returns a real instead.
- `PoolTable.PoolTable.Insert`: it requires the id to be absent. `pd.concat` would add a duplicate row, but every caller checks `does_pool_exist` first.
- `PoolTable.PoolTable.Append` and `PoolTable.PoolTable.Sort`: they require the id to be present. `df.loc` would raise `KeyError`, but the callers check first.
- `QuantileEngine.CalculateQuantile`: it requires a non-empty list and a percentile in [0, 100]. In the source an empty list raises `IndexError`. With an out-of-range percentile, a list of one value or with equal ends still takes the shortcut at api.py:155-157 and returns `list[0]` (for [2, 2] at 1000 it returns 2). Otherwise the source raises `IndexError` when floor(rank) >= n, and else returns a value through the clamps at api.py:163-164: a negative percentile keeps the left index at 0 and mixes the first two values with weight rank - floor(rank) (for [1, 2, 3] at -10 it gives 1.8), and a percentile just above 100 can return the last value. The only caller runs after `validate_query`, and the store invariant keeps rows non-empty, so neither case reaches it.
- The side effect of `insert_pool` on the caller's request dict (api.py:174). It changes a value the handler no longer uses.
- Pool ids outside the 64-bit range in the CSV index. Routing and validation use unbounded integers. A stored id is read back through `pd.read_csv(..., index_col="poolId")` (api.py:141), and an id beyond pandas' integer range may not come back as the same integer. The model keeps every id as it was stored.
- Concurrency. The source has no locking, and two requests on one shard can lose an update. The model is sequential.
