/**
 * The reaction store client: a per-article "uplift" counter kept in the
 * "Reactions" table, one row per article in the partition "Content".
 *
 * The pure part states what a read and an increment do to the rows of that
 * table; the class `ReactionStorageService` performs them step by step
 * against the store and is proved to agree with it.
 */
module ReactionStorage {
  import opened Common
  import opened ReactionEntities
  import opened TableStore

  const TableName: string := "Reactions"

  /** The one row an article's counter may live in. */
  function Address(articleId: string): RowAddress {
    RowAddress(DefaultPartitionKey, articleId)
  }

  /** The count a healthy read reports: the stored counter, or 0 when there is no row. */
  function CountOf(rows: Rows, articleId: string): int32 {
    if Address(articleId) in rows then rows[Address(articleId)].upliftCount else 0
  }

  /**
   * The read step of an increment: the stored row, a fresh row for
   * `articleId` with count 0 when the store answers 404, or the read's
   * failure.
   */
  function Fetched(rows: Rows, articleId: string, readFault: Option<Failure>): Reply<EntityValue> {
    if readFault.Some? then
      if IsNotFound(readFault.value) then Ok(Initialised(articleId, 0)) else Failed(readFault.value)
    else if Address(articleId) in rows then Ok(rows[Address(articleId)])
    else Ok(Initialised(articleId, 0))
  }

  /** What an increment sends to the store, returns, and leaves in the table. */
  datatype IncrementEffect = IncrementEffect(result: Reply<int32>, upserted: Option<EntityValue>, rows: Rows)

  /** The write step of an increment, given the row the read step produced. */
  function WriteBack(rows: Rows, fetched: EntityValue, writeFault: Option<Failure>): IncrementEffect {
    var bumped := fetched.(upliftCount := Inc32(fetched.upliftCount));
    if writeFault.Some? then IncrementEffect(Failed(writeFault.value), Some(bumped), rows)
    else IncrementEffect(Ok(bumped.upliftCount), Some(bumped), rows[AddressOf(bumped) := bumped])
  }

  /** `IncrementUpliftCountAsync` as one sequential read-modify-write. */
  function Increment(rows: Rows, articleId: string, readFault: Option<Failure>, writeFault: Option<Failure>): (e: IncrementEffect)
    requires RowsWellFormed(rows)
    // the upsert is attempted exactly when the read found a row or answered 404
    ensures e.upserted.Some? <==> readFault.None? || IsNotFound(readFault.value)
    // the increment succeeds exactly when the read did not fail otherwise and the upsert went through
    ensures e.result.Ok? <==> e.upserted.Some? && writeFault.None?
    // only row ("Content", articleId) is written, carrying the count one above the prior one
    ensures e.upserted.Some? ==> AddressOf(e.upserted.value) == Address(articleId)
    ensures e.upserted.Some? ==>
      e.upserted.value.upliftCount == Inc32(if readFault.None? then CountOf(rows, articleId) else 0)
    // the value returned is the value written
    ensures e.result.Ok? ==> e.rows == rows[Address(articleId) := e.upserted.value]
    ensures e.result.Ok? ==> e.result.value == e.upserted.value.upliftCount
    // a failed increment leaves the table as it was and reports the failure it met
    ensures e.result.Failed? ==> e.rows == rows
    ensures e.result.Failed? ==> e.result.failure == if e.upserted.Some? then writeFault.value else readFault.value
    ensures RowsWellFormed(e.rows)
  {
    match Fetched(rows, articleId, readFault)
    case Failed(f) => IncrementEffect(Failed(f), None, rows)
    case Ok(fetched) => WriteBack(rows, fetched, writeFault)
  }

  /** An existing row with count K < Int32Max is upserted with count K + 1 and its metadata untouched; K + 1 is returned. */
  lemma IncrementExistingRow(rows: Rows, articleId: string)
    requires RowsWellFormed(rows)
    requires Address(articleId) in rows && rows[Address(articleId)].upliftCount < Int32Max
    ensures var row := rows[Address(articleId)];
      var e := Increment(rows, articleId, None, None);
      && e.result == Ok(row.upliftCount + 1)
      && e.upserted == Some(row.(upliftCount := row.upliftCount + 1))
      && e.rows == rows[Address(articleId) := row.(upliftCount := row.upliftCount + 1)]
  {
  }

  /** A missing row (or a 404 from the read) makes a fresh row for the article with count 1; 1 is returned. */
  lemma IncrementMissingRow(rows: Rows, articleId: string, readFault: Option<Failure>)
    requires RowsWellFormed(rows)
    requires readFault == Some(NotFound) || (readFault == None && Address(articleId) !in rows)
    ensures var e := Increment(rows, articleId, readFault, None);
      && e.result == Ok(1)
      && e.upserted == Some(Initialised(articleId, 1))
      && e.rows == rows[Address(articleId) := Initialised(articleId, 1)]
  {
  }

  /** Whatever the store does, no other article's count changes. */
  lemma IncrementLeavesOtherArticles(rows: Rows, articleId: string, other: string,
                                     readFault: Option<Failure>, writeFault: Option<Failure>)
    requires RowsWellFormed(rows) && other != articleId
    ensures CountOf(Increment(rows, articleId, readFault, writeFault).rows, other) == CountOf(rows, other)
  {
  }

  /** A failed increment leaves every count, the article's own included, as it was. */
  lemma FailedIncrementKeepsCounts(rows: Rows, articleId: string, readFault: Option<Failure>, writeFault: Option<Failure>)
    requires RowsWellFormed(rows)
    requires Increment(rows, articleId, readFault, writeFault).result.Failed?
    ensures forall id :: CountOf(Increment(rows, articleId, readFault, writeFault).rows, id) == CountOf(rows, id)
  {
  }

  /** The table after `n` sequential increments of one article, with no store failure. */
  function Repeated(rows: Rows, articleId: string, n: nat): (r: Rows)
    requires RowsWellFormed(rows)
    ensures RowsWellFormed(r)
    decreases n
  {
    if n == 0 then rows else Increment(Repeated(rows, articleId, n - 1), articleId, None, None).rows
  }

  /** `n` sequential increments raise the count by exactly `n` (until the 32-bit counter would wrap). */
  lemma {:induction false} RepeatedIncrementsCount(rows: Rows, articleId: string, n: nat)
    requires RowsWellFormed(rows)
    requires CountOf(rows, articleId) + n <= Int32Max
    ensures CountOf(Repeated(rows, articleId, n), articleId) == CountOf(rows, articleId) + n
    decreases n
  {
    if n > 0 {
      RepeatedIncrementsCount(rows, articleId, n - 1);
    }
  }

  /** Starting from an absent row, `n` increments leave a healthy read reporting `n`. */
  lemma IncrementsFromNothing(rows: Rows, articleId: string, n: nat)
    requires RowsWellFormed(rows) && Address(articleId) !in rows && n <= Int32Max
    ensures CountOf(Repeated(rows, articleId, n), articleId) == n
  {
    RepeatedIncrementsCount(rows, articleId, n);
  }

  /**
   * The lost update the read-modify-write admits: when two increments both
   * read before either writes, the count rises by one, not two.
   */
  lemma InterleavedIncrementsLoseOne(rows: Rows, articleId: string)
    requires RowsWellFormed(rows) && CountOf(rows, articleId) < Int32Max
    ensures var first := Fetched(rows, articleId, None);
      var second := Fetched(rows, articleId, None);
      var afterFirst := WriteBack(rows, first.value, None);
      var afterSecond := WriteBack(afterFirst.rows, second.value, None);
      && afterFirst.result == afterSecond.result == Ok(CountOf(rows, articleId) + 1)
      && CountOf(afterSecond.rows, articleId) == CountOf(rows, articleId) + 1
  {
  }

  /**
   * The reaction store client. It owns a handle on the "Reactions" table and
   * records, as ghost state, the article of every increment it was asked for.
   */
  class ReactionStorageService {
    const tableClient: TableClient
    ghost var incrementCalls: seq<string>

    ghost predicate Valid()
      reads this, tableClient, tableClient.service
    {
      && tableClient.name == TableName
      && tableClient.service.Valid()
      && TableName in tableClient.service.tables
    }

    /** The rows of the "Reactions" table. */
    ghost function Rows(): Rows
      reads this, tableClient, tableClient.service
      requires Valid()
      ensures RowsWellFormed(Rows())
    {
      tableClient.service.tables[TableName]
    }

    /** Takes a handle on the "Reactions" table and creates the table when it is missing. */
    constructor (tableServiceClient: TableServiceClient)
      requires tableServiceClient.Valid()
      modifies tableServiceClient
      ensures Valid() && tableClient.service == tableServiceClient && incrementCalls == []
      ensures tableServiceClient.tables ==
        if TableName in old(tableServiceClient.tables) then old(tableServiceClient.tables)
        else old(tableServiceClient.tables)[TableName := map[]]
      ensures tableServiceClient.upserts == old(tableServiceClient.upserts)
    {
      var client := tableServiceClient.GetTableClient(TableName);
      client.CreateIfNotExists();
      tableClient := client;
      incrementCalls := [];
    }

    /** `GetUpliftCountAsync`: the stored count, 0 on a 404, the failure otherwise. */
    method GetUpliftCount(articleId: string, fault: Option<Failure>) returns (r: Reply<int32>)
      requires Valid()
      ensures fault.None? ==> r == Ok(CountOf(Rows(), articleId))
      ensures fault.Some? && IsNotFound(fault.value) ==> r == Ok(0)
      ensures fault.Some? && !IsNotFound(fault.value) ==> r == Failed(fault.value)
    {
      var response := tableClient.GetEntity(DefaultPartitionKey, articleId, fault);
      if response.Ok? {
        r := Ok(response.value.upliftCount);
      } else if IsNotFound(response.failure) {
        r := Ok(0);
      } else {
        r := Failed(response.failure);
      }
    }

    /**
     * `IncrementUpliftCountAsync`: read the row (or start a fresh one on a
     * 404), bump its counter in place, upsert it and return the new count.
     */
    method IncrementUpliftCount(articleId: string, readFault: Option<Failure>, writeFault: Option<Failure>)
      returns (r: Reply<int32>)
      requires Valid()
      modifies this, tableClient.service
      ensures Valid()
      ensures incrementCalls == old(incrementCalls) + [articleId]
      ensures var e := Increment(old(Rows()), articleId, readFault, writeFault);
        && r == e.result
        && tableClient.service.tables == old(tableClient.service.tables)[TableName := e.rows]
        && tableClient.service.upserts ==
             old(tableClient.service.upserts) + (if e.upserted.Some? then [(TableName, e.upserted.value)] else [])
    {
      incrementCalls := incrementCalls + [articleId];
      var entity: ReactionEntity;
      var response := tableClient.GetEntity(DefaultPartitionKey, articleId, readFault);
      if response.Ok? {
        entity := response.value;
      } else if IsNotFound(response.failure) {
        entity := new ReactionEntity();
        entity.rowKey := articleId;
        entity.upliftCount := 0;
      } else {
        return Failed(response.failure);
      }
      assert Fetched(old(Rows()), articleId, readFault) == Ok(entity.Value());
      entity.upliftCount := Inc32(entity.upliftCount);
      var written := tableClient.UpsertEntity(entity, writeFault);
      if written.Failed? {
        return Failed(written.failure);
      }
      r := Ok(entity.upliftCount);
    }
  }
}
