/**
 * The database tables the indexer writes, as one object whose fields are the
 * tables. Every operation of the model that writes takes the `Db` and names
 * in its `modifies` clause the tables it may change.
 */
module Store {
  import opened Bytes
  import opened Values
  import opened Wrappers

  /** A `merkle_tree` row, keyed by the tree id. */
  datatype TreeRow = TreeRow(discriminator: Bytes, program: Option<Bytes>, dataSchema: Bytes, canopyDepth: int)

  /** `compressed_data` is unique on (tree_id, leaf_idx); rows are keyed by that pair. */
  datatype LeafKey = LeafKey(tree: Bytes, leafIdx: int)

  /** A `compressed_data` row without its key columns. */
  datatype LeafRow = LeafRow(seqNo: int, schemaValidated: bool, rawData: Bytes, parsedData: Value, slotUpdated: int)

  /** A `compressed_data_changelog` row (append-only; rows are kept in insertion order). */
  datatype ChangeLogRow = ChangeLogRow(tree: Bytes, leafIdx: int, key: Option<string>, data: Value, seqNo: int, slot: int)

  /**
   * A `character_history` row. The model numbers the rows by insertion, the
   * serial id of a row being its position plus one.
   */
  datatype HistoryRow = HistoryRow(characterId: Bytes, event: string, eventData: Value, slotUpdated: int)

  /** An `accounts` row, keyed by the account address. */
  datatype AccountRow = AccountRow(programId: Bytes, discriminator: Bytes, parsedData: Value, slotUpdated: int)

  datatype OwnerType = Single | Token | UnknownOwnerType

  /** The `asset` columns the token-account projection reads and writes, keyed by the asset id (the mint). */
  datatype AssetRow = AssetRow(
    ownerType: OwnerType,
    supply: int,
    slotUpdated: Option<int>,
    owner: Option<Bytes>,
    delegate: Option<Bytes>,
    frozen: bool,
    slotUpdatedTokenAccount: Option<int>,
    mintExtensions: Option<Value>)

  /** The arguments of one `upsert_owner_for_token_account` call (that function is not part of this model). */
  datatype OwnerUpsert = OwnerUpsert(
    mint: Bytes, account: Bytes, owner: Bytes, delegate: Option<Bytes>, slot: int,
    frozen: bool, amount: nat, delegatedAmount: int, accountOwner: Bytes)

  /** The four tables the compressed-data materializer writes. */
  datatype Tables = Tables(
    trees: map<Bytes, TreeRow>,
    leaves: map<LeafKey, LeafRow>,
    changelog: seq<ChangeLogRow>,
    history: seq<HistoryRow>)

  class Db {
    var trees: map<Bytes, TreeRow>
    var leaves: map<LeafKey, LeafRow>
    var changelog: seq<ChangeLogRow>
    var history: seq<HistoryRow>
    var accounts: map<Bytes, AccountRow>
    var assets: map<Bytes, AssetRow>
    var ownerUpserts: seq<OwnerUpsert>
    /** The connection rejects every write statement (reads still succeed). */
    var writesFail: bool

    constructor (writesFail: bool)
      ensures trees == map[] && leaves == map[] && changelog == [] && history == []
      ensures accounts == map[] && assets == map[] && ownerUpserts == []
      ensures this.writesFail == writesFail
    {
      trees, leaves, changelog, history := map[], map[], [], [];
      accounts, assets, ownerUpserts := map[], map[], [];
      this.writesFail := writesFail;
    }

    /** The materializer's four tables as one value. */
    function Compressed(): Tables
      reads this
    {
      Tables(trees, leaves, changelog, history)
    }
  }
}
