/**
 * The key/value table store the reaction service talks to, reduced to what
 * the service relies on: named tables of rows addressed by
 * (PartitionKey, RowKey), a point read that answers 404 for a missing row or
 * table, an upsert that creates the row or merges into it (the same as
 * replacing it for rows that hold only reaction columns), and table creation.
 *
 * Whether a call fails for reasons outside the table's contents (network,
 * throttling, permissions, cancellation) is decided by the environment: each
 * call takes a `fault` argument, and a call given `Some(f)` throws `f`.
 */
module TableStore {
  import opened Common
  import opened ReactionEntities

  datatype RowAddress = RowAddress(partitionKey: string, rowKey: string)

  type Rows = map<RowAddress, EntityValue>

  /** Where the store files an entity: under its own keys. */
  function AddressOf(e: EntityValue): RowAddress {
    RowAddress(e.partitionKey, e.rowKey)
  }

  /** Every row sits under its own keys, so a key holds at most one row. */
  ghost predicate RowsWellFormed(rows: Rows) {
    forall a :: a in rows ==> AddressOf(rows[a]) == a
  }

  ghost predicate TablesWellFormed(tables: map<string, Rows>) {
    forall name :: name in tables ==> RowsWellFormed(tables[name])
  }

  /**
   * The storage account: every table's rows, and a record of every upsert
   * request sent to it (table name and entity, whether or not it succeeded).
   */
  class TableServiceClient {
    var tables: map<string, Rows>
    ghost var upserts: seq<(string, EntityValue)>

    ghost predicate Valid()
      reads this
    {
      TablesWellFormed(tables)
    }

    constructor (tables: map<string, Rows>)
      requires TablesWellFormed(tables)
      ensures Valid() && this.tables == tables && upserts == []
    {
      this.tables := tables;
      upserts := [];
    }

    /** A handle on one table; it holds no rows of its own. */
    method GetTableClient(name: string) returns (client: TableClient)
      ensures fresh(client) && client.service == this && client.name == name
    {
      client := new TableClient(this, name);
    }
  }

  class TableClient {
    const service: TableServiceClient
    const name: string

    constructor (service: TableServiceClient, name: string)
      ensures this.service == service && this.name == name
    {
      this.service := service;
      this.name := name;
    }

    method CreateIfNotExists()
      requires service.Valid()
      modifies service
      ensures service.Valid()
      ensures service.tables == if name in old(service.tables) then old(service.tables) else old(service.tables)[name := map[]]
      ensures service.upserts == old(service.upserts)
    {
      if name !in service.tables {
        service.tables := service.tables[name := map[]];
      }
    }

    /** `GetEntityAsync(partitionKey, rowKey)`: the stored row, or 404 when the row or the table is missing. */
    method GetEntity(partitionKey: string, rowKey: string, fault: Option<Failure>) returns (r: Reply<ReactionEntity>)
      ensures fault.Some? ==> r == Failed(fault.value)
      ensures fault.None? ==> (r.Ok? <==> name in service.tables && RowAddress(partitionKey, rowKey) in service.tables[name])
      ensures fault.None? && r.Failed? ==> r.failure == NotFound
      ensures r.Ok? ==> fresh(r.value) && r.value.Value() == service.tables[name][RowAddress(partitionKey, rowKey)]
    {
      if fault.Some? {
        return Failed(fault.value);
      }
      var address := RowAddress(partitionKey, rowKey);
      if name in service.tables && address in service.tables[name] {
        var entity := new ReactionEntity.FromRow(service.tables[name][address]);
        r := Ok(entity);
      } else {
        r := Failed(NotFound);
      }
    }

    /** `UpsertEntityAsync(entity)`: create or merge the row under the entity's own keys (the same as replace for these rows). */
    method UpsertEntity(entity: ReactionEntity, fault: Option<Failure>) returns (r: Reply<()>)
      requires service.Valid()
      modifies service
      ensures service.Valid()
      ensures service.upserts == old(service.upserts) + [(name, entity.Value())]
      ensures r.Ok? <==> fault.None? && name in old(service.tables)
      ensures r.Failed? ==> service.tables == old(service.tables)
      ensures r.Failed? && fault.Some? ==> r.failure == fault.value
      ensures r.Failed? && fault.None? ==> r.failure == NotFound
      ensures r.Ok? ==>
        service.tables == old(service.tables)[name := old(service.tables)[name][AddressOf(entity.Value()) := entity.Value()]]
    {
      service.upserts := service.upserts + [(name, entity.Value())];
      if fault.Some? {
        return Failed(fault.value);
      }
      if name !in service.tables {
        return Failed(NotFound);
      }
      var row := entity.Value();
      service.tables := service.tables[name := service.tables[name][AddressOf(row) := row]];
      r := Ok(());
    }
  }
}
