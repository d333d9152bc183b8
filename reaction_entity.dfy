/**
 * The persisted shape of a reaction: one row of the "Reactions" table.
 *
 * `ReactionEntity` is the mutable property bag the service works on (the
 * service bumps its counter in place); `EntityValue` is the row as the store
 * keeps it, a value with no identity.
 */
module ReactionEntities {
  import opened Common

  /** The partition every reaction row lives in. */
  const DefaultPartitionKey: string := "Content"

  /**
   * A row of the table. `timestamp` and `etag` are the store-managed
   * metadata; they are passed through and never interpreted.
   */
  datatype EntityValue = EntityValue(
    partitionKey: string,
    rowKey: string,
    timestamp: Option<int>,
    etag: Option<string>,
    upliftCount: int32)

  /** A row as it reads once the constructor and an object initialiser setting `RowKey` and `UpliftCount` have run. */
  function Initialised(rowKey: string, upliftCount: int32): EntityValue
  {
    EntityValue(DefaultPartitionKey, rowKey, None, None, upliftCount)
  }

  class ReactionEntity {
    var partitionKey: string
    var rowKey: string
    var timestamp: Option<int>
    var etag: Option<string>
    var upliftCount: int32

    /** `new ReactionEntity()`: the property initialisers and the C# defaults. */
    constructor ()
      ensures Value() == Initialised("", 0)
    {
      partitionKey := DefaultPartitionKey;
      rowKey := "";
      timestamp := None;
      etag := None;
      upliftCount := 0;
    }

    /** An entity materialised from a row the store returned. */
    constructor FromRow(row: EntityValue)
      ensures Value() == row
    {
      partitionKey := row.partitionKey;
      rowKey := row.rowKey;
      timestamp := row.timestamp;
      etag := row.etag;
      upliftCount := row.upliftCount;
    }

    /** The row this object would be stored as. */
    function Value(): EntityValue
      reads this
    {
      EntityValue(partitionKey, rowKey, timestamp, etag, upliftCount)
    }
  }
}
