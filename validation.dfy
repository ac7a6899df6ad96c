/**
 * The request validators `validate_pool` and `validate_query`.
 *
 * A request body is a JSON object, modelled as a map from field name to a
 * JSON value. Each validator runs an ordered chain of checks and reports the
 * message of the first one that fails; a request that passes them all is then
 * read into a typed command.
 */
module Validation {

  /** A parsed JSON value. A JSON number with a fraction or exponent parses to a
      float, one without to an int; `true` and `false` parse to bools, which are
      not ints here. */
  datatype Json =
    | JNull
    | JBool(b: bool)
    | JInt(i: int)
    | JFloat(f: real)
    | JString(s: string)
    | JList(items: seq<Json>)
    | JObject(fields: map<string, Json>)

  type Request = map<string, Json>

  /** `type(x) is int` (a bool is not an int). */
  predicate IsInt(j: Json) {
    j.JInt?
  }

  /** `type(x) in (int, float)`. */
  predicate IsNumber(j: Json) {
    j.JInt? || j.JFloat?
  }

  function NumberValue(j: Json): real
    requires IsNumber(j)
  {
    if j.JInt? then j.i as real else j.f
  }

  const PoolIdField: string := "poolId"
  const PoolValuesField: string := "poolValues"
  const PercentileField: string := "percentile"

  const PoolKeysMessage: string :=
    "Pool must contain both 'poolId' and 'poolValues' and only contain this values"
  const PoolIdMessage: string := "'poolId' must be an integer"
  const PoolValuesListMessage: string := "'poolValues' must be a list"
  const PoolValuesEmptyMessage: string := "Number of elements in 'poolValues' must be greater than 0"
  const PoolValuesNumberMessage: string := "All elements of 'poolValues' must be real number"
  const ValidPoolMessage: string := "Valid pool"

  const QueryKeysMessage: string :=
    "Query must contain both 'poolId' and 'percentile' and only contain this values"
  const PercentileNumberMessage: string := "'percentile' must be a real number"
  const PercentileRangeMessage: string := "Percentiles must be in the range [0, 100]"
  const ValidQueryMessage: string := "Valid query"

  /* The rules of an update request, each stated on its own. */

  predicate PoolHasExactKeys(pool: Request) {
    pool.Keys == {PoolIdField, PoolValuesField}
  }

  predicate PoolIdIsInt(pool: Request)
    requires PoolHasExactKeys(pool)
  {
    IsInt(pool[PoolIdField])
  }

  predicate PoolValuesIsList(pool: Request)
    requires PoolHasExactKeys(pool)
  {
    pool[PoolValuesField].JList?
  }

  predicate PoolValuesNonEmpty(pool: Request)
    requires PoolHasExactKeys(pool) && PoolValuesIsList(pool)
  {
    |pool[PoolValuesField].items| > 0
  }

  predicate PoolValuesAllNumbers(pool: Request)
    requires PoolHasExactKeys(pool) && PoolValuesIsList(pool)
  {
    forall i :: 0 <= i < |pool[PoolValuesField].items| ==> IsNumber(pool[PoolValuesField].items[i])
  }

  /** An update request that satisfies every rule. */
  predicate WellFormedPool(pool: Request) {
    && PoolHasExactKeys(pool)
    && PoolIdIsInt(pool)
    && PoolValuesIsList(pool)
    && PoolValuesNonEmpty(pool)
    && PoolValuesAllNumbers(pool)
  }

  /** `validate_pool`: (is_valid, message), the message of the first failing check. */
  function ValidatePool(pool: Request): (r: (bool, string))
    ensures r.0 <==> WellFormedPool(pool)
    ensures r.0 ==> r.1 == ValidPoolMessage
    ensures r.1 == PoolKeysMessage <==> !PoolHasExactKeys(pool)
    ensures r.1 == PoolIdMessage <==> PoolHasExactKeys(pool) && !PoolIdIsInt(pool)
    ensures r.1 == PoolValuesListMessage <==>
      PoolHasExactKeys(pool) && PoolIdIsInt(pool) && !PoolValuesIsList(pool)
    ensures r.1 == PoolValuesEmptyMessage <==>
      PoolHasExactKeys(pool) && PoolIdIsInt(pool) && PoolValuesIsList(pool) && !PoolValuesNonEmpty(pool)
    ensures r.1 == PoolValuesNumberMessage <==>
      && PoolHasExactKeys(pool) && PoolIdIsInt(pool) && PoolValuesIsList(pool)
      && PoolValuesNonEmpty(pool) && !PoolValuesAllNumbers(pool)
  {
    if |pool| != 2 || pool.Keys != {PoolValuesField, PoolIdField} then
      (false, PoolKeysMessage)
    else if !pool[PoolIdField].JInt? then
      (false, PoolIdMessage)
    else if !pool[PoolValuesField].JList? then
      (false, PoolValuesListMessage)
    else if |pool[PoolValuesField].items| < 1 then
      (false, PoolValuesEmptyMessage)
    else if exists x :: x in pool[PoolValuesField].items && !(x.JInt? || x.JFloat?) then
      (false, PoolValuesNumberMessage)
    else
      (true, ValidPoolMessage)
  }

  /* The rules of a query request. */

  predicate QueryHasExactKeys(query: Request) {
    query.Keys == {PoolIdField, PercentileField}
  }

  predicate QueryIdIsInt(query: Request)
    requires QueryHasExactKeys(query)
  {
    IsInt(query[PoolIdField])
  }

  predicate PercentileIsNumber(query: Request)
    requires QueryHasExactKeys(query)
  {
    IsNumber(query[PercentileField])
  }

  predicate PercentileInRange(query: Request)
    requires QueryHasExactKeys(query) && PercentileIsNumber(query)
  {
    0.0 <= NumberValue(query[PercentileField]) <= 100.0
  }

  predicate WellFormedQuery(query: Request) {
    && QueryHasExactKeys(query)
    && QueryIdIsInt(query)
    && PercentileIsNumber(query)
    && PercentileInRange(query)
  }

  /** `validate_query`: (is_valid, message), the message of the first failing check. */
  function ValidateQuery(query: Request): (r: (bool, string))
    ensures r.0 <==> WellFormedQuery(query)
    ensures r.0 ==> r.1 == ValidQueryMessage
    ensures r.1 == QueryKeysMessage <==> !QueryHasExactKeys(query)
    ensures r.1 == PoolIdMessage <==> QueryHasExactKeys(query) && !QueryIdIsInt(query)
    ensures r.1 == PercentileNumberMessage <==>
      QueryHasExactKeys(query) && QueryIdIsInt(query) && !PercentileIsNumber(query)
    ensures r.1 == PercentileRangeMessage <==>
      && QueryHasExactKeys(query) && QueryIdIsInt(query) && PercentileIsNumber(query)
      && !PercentileInRange(query)
  {
    if |query| != 2 || query.Keys != {PercentileField, PoolIdField} then
      (false, QueryKeysMessage)
    else if !query[PoolIdField].JInt? then
      (false, PoolIdMessage)
    else if !(query[PercentileField].JInt? || query[PercentileField].JFloat?) then
      (false, PercentileNumberMessage)
    else if NumberValue(query[PercentileField]) < 0.0 || NumberValue(query[PercentileField]) > 100.0 then
      (false, PercentileRangeMessage)
    else
      (true, ValidQueryMessage)
  }

  /** A validated update request, read into typed values. */
  datatype PoolCommand = PoolCommand(id: int, values: seq<real>)

  /** A validated query request, read into typed values. */
  datatype QueryCommand = QueryCommand(id: int, percentile: real)

  function ToPoolCommand(pool: Request): (c: PoolCommand)
    requires WellFormedPool(pool)
    ensures c.id == pool[PoolIdField].i
    ensures |c.values| == |pool[PoolValuesField].items| > 0
    ensures forall k :: 0 <= k < |c.values| ==> c.values[k] == NumberValue(pool[PoolValuesField].items[k])
  {
    var items := pool[PoolValuesField].items;
    PoolCommand(pool[PoolIdField].i, seq(|items|, k requires 0 <= k < |items| => NumberValue(items[k])))
  }

  function ToQueryCommand(query: Request): (c: QueryCommand)
    requires WellFormedQuery(query)
    ensures c.id == query[PoolIdField].i
    ensures 0.0 <= c.percentile <= 100.0
    ensures c.percentile == NumberValue(query[PercentileField])
  {
    QueryCommand(query[PoolIdField].i, NumberValue(query[PercentileField]))
  }

  /* Requests from the service's own test suite. */

  lemma BoolElementRejected()
    ensures ValidatePool(map[PoolIdField := JInt(99991369), PoolValuesField := JList([JBool(true)])])
      == (false, PoolValuesNumberMessage)
  {
    var pool := map[PoolIdField := JInt(99991369), PoolValuesField := JList([JBool(true)])];
    assert pool.Keys == {PoolIdField, PoolValuesField};
    assert !IsNumber(pool[PoolValuesField].items[0]);
  }

  lemma UnknownKeyRejected()
    ensures ValidatePool(map[PoolIdField := JInt(99991369), PoolValuesField := JList([JInt(1)]),
                             "unknown_key" := JInt(4444)])
      == (false, PoolKeysMessage)
  {
    var pool := map[PoolIdField := JInt(99991369), PoolValuesField := JList([JInt(1)]),
                    "unknown_key" := JInt(4444)];
    assert "unknown_key" in pool.Keys;
  }

  lemma PercentileOutOfRangeRejected()
    ensures ValidateQuery(map[PoolIdField := JInt(99991369), PercentileField := JInt(-1)])
      == (false, PercentileRangeMessage)
    ensures ValidateQuery(map[PoolIdField := JInt(99991369), PercentileField := JFloat(100.1)])
      == (false, PercentileRangeMessage)
  {
    var q1 := map[PoolIdField := JInt(99991369), PercentileField := JInt(-1)];
    var q2 := map[PoolIdField := JInt(99991369), PercentileField := JFloat(100.1)];
    assert q1.Keys == {PoolIdField, PercentileField};
    assert q2.Keys == {PoolIdField, PercentileField};
  }
}
