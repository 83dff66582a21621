/**
 * The token-2022 token-account projection onto the asset table
 * (program_transformers/src/token_extensions/token_account.rs): every update records
 * the token account's owner, and a single-owner NFT asset takes the account's owner,
 * delegate and frozen flag under the slot watermark.
 */
module TokenAccounts {
  import opened Wrappers
  import opened Bytes
  import opened Values
  import opened Store
  import opened TransformerErrors

  datatype AccountState = Uninitialized | Initialized | Frozen

  /** The decoded token account (`spl_token_2022::state::Account`) as the projection reads it. */
  datatype TokenAccount = TokenAccount(
    mint: Pubkey, owner: Pubkey, delegate: Option<Pubkey>, state: AccountState,
    amount: U64, delegatedAmount: U64)

  /** The account update: the token account's address, its owning program and the slot. */
  datatype AccountInfo = AccountInfo(pubkey: Pubkey, owner: Pubkey, slot: U64)

  function IsFrozen(state: AccountState): (r: bool)
    ensures r <==> state == Frozen
  {
    match state
    case Frozen => true
    case _ => false
  }

  /** The arguments `upsert_owner_for_token_account` is called with; the slot and delegated amount are cast to `i64`. */
  function OwnerUpsertOf(ta: TokenAccount, info: AccountInfo): (r: OwnerUpsert)
    ensures r.mint == ta.mint && r.account == info.pubkey && r.owner == ta.owner
    ensures r.frozen <==> ta.state == Frozen
    ensures r.slot == AsI64(info.slot) && r.amount == ta.amount
  {
    var delegate: Option<Bytes> := if ta.delegate.Some? then Some(ta.delegate.value) else None;
    OwnerUpsert(ta.mint, info.pubkey, ta.owner, delegate, AsI64(info.slot), IsFrozen(ta.state),
      ta.amount, AsI64(ta.delegatedAmount), info.owner)
  }

  /** The asset query's filter: a single-owner asset not yet updated at a later slot. */
  predicate Eligible(row: AssetRow, slot: int)
  {
    row.ownerType == Single && (row.slotUpdated.None? || row.slotUpdated.value <= slot)
  }

  function OwnerBytes(ta: TokenAccount): Option<Bytes>
  {
    Some(ta.owner)
  }

  function DelegateBytes(ta: TokenAccount): Option<Bytes>
  {
    if ta.delegate.Some? then Some(ta.delegate.value) else None
  }

  /** Some token-held field of the asset differs from the account, and the account holds the token. */
  predicate NeedsSave(row: AssetRow, ta: TokenAccount)
  {
    ta.amount > 0
    && (row.owner != OwnerBytes(ta) || row.delegate != DelegateBytes(ta) || row.frozen != IsFrozen(ta.state))
  }

  /** The row `upsert_assets_token_account_columns` leaves: the account's fields, the slot and the extensions. */
  function SavedRow(row: AssetRow, ta: TokenAccount, info: AccountInfo, extensions: Value): AssetRow
  {
    row.(owner := OwnerBytes(ta), delegate := DelegateBytes(ta), frozen := IsFrozen(ta.state),
         slotUpdatedTokenAccount := Some(AsI64(info.slot)), mintExtensions := Some(extensions))
  }

  /**
   * `handle_token2022_token_account` on the `asset` table and the log of owner upserts.
   * `extensions` is the JSON encoding of the account's extensions, `None` when encoding fails.
   */
  function TokenAccountOutcome(assets: map<Bytes, AssetRow>, upserts: seq<OwnerUpsert>, writesFail: bool,
                               ta: TokenAccount, info: AccountInfo, extensions: Option<Value>): (r: (Result<(), TransformerError>, map<Bytes, AssetRow>, seq<OwnerUpsert>))
    ensures writesFail ==> r == (Err(StorageWriteError), assets, upserts)
    ensures !writesFail ==> r.2 == upserts + [OwnerUpsertOf(ta, info)]
    ensures r.1.Keys == assets.Keys
    ensures forall k :: k in assets && k != ta.mint ==> r.1[k] == assets[k]
    ensures r.1 != assets ==>
      r.0.Ok? && Eligible(assets[ta.mint], AsI64(info.slot)) && assets[ta.mint].supply == 1
      && NeedsSave(assets[ta.mint], ta) && extensions.Some?
      && r.1[ta.mint] == SavedRow(assets[ta.mint], ta, info, extensions.value)
  {
    if writesFail then (Err(StorageWriteError), assets, upserts)
    else
      var logged := upserts + [OwnerUpsertOf(ta, info)];
      var mint: Bytes := ta.mint;
      if mint !in assets || !Eligible(assets[mint], AsI64(info.slot)) || assets[mint].supply != 1 then (Ok(()), assets, logged)
      else if extensions.None? then (Err(SerializationError), assets, logged)
      else if !NeedsSave(assets[mint], ta) then (Ok(()), assets, logged)
      else
        (Ok(()), assets[mint := SavedRow(assets[mint], ta, info, extensions.value)], logged)
  }

  /** The projection as the source runs it, step by step with its `save_required` flag. */
  method HandleTokenAccount(db: Db, ta: TokenAccount, info: AccountInfo, extensions: Option<Value>) returns (r: Result<(), TransformerError>)
    modifies db`assets, db`ownerUpserts
    ensures (r, db.assets, db.ownerUpserts) == TokenAccountOutcome(old(db.assets), old(db.ownerUpserts), db.writesFail, ta, info, extensions)
  {
    if db.writesFail {
      return Err(StorageWriteError);
    }
    db.ownerUpserts := db.ownerUpserts + [OwnerUpsertOf(ta, info)];
    var mint: Bytes := ta.mint;
    var slot := AsI64(info.slot);
    if mint !in db.assets || !Eligible(db.assets[mint], slot) {
      return Ok(());
    }
    var asset := db.assets[mint];
    if asset.supply != 1 {
      return Ok(());
    }
    var saveRequired := false;
    var delegate := DelegateBytes(ta);
    var frozen := IsFrozen(ta.state);
    if ta.amount > 0 && OwnerBytes(ta) != asset.owner {
      saveRequired := true;
    }
    if ta.amount > 0 && delegate != asset.delegate {
      saveRequired := true;
    }
    if ta.amount > 0 && frozen != asset.frozen {
      saveRequired := true;
    }
    assert saveRequired <==> NeedsSave(asset, ta);
    if extensions.None? {
      return Err(SerializationError);
    }
    if saveRequired {
      db.assets := db.assets[mint := SavedRow(asset, ta, info, extensions.value)];
    }
    r := Ok(());
  }

  /** An asset updated at exactly the account's slot is still eligible; one updated later is not. */
  lemma SlotWatermark(row: AssetRow, slot: int)
    requires row.ownerType == Single && row.slotUpdated.Some?
    ensures Eligible(row, slot) <==> row.slotUpdated.value <= slot
  {
  }

  /** An account that holds none of the token never changes the asset. */
  lemma ZeroAmountNeverChangesAsset(assets: map<Bytes, AssetRow>, upserts: seq<OwnerUpsert>, writesFail: bool,
                                    ta: TokenAccount, info: AccountInfo, extensions: Option<Value>)
    requires ta.amount == 0
    ensures TokenAccountOutcome(assets, upserts, writesFail, ta, info, extensions).1 == assets
  {
  }

  /** Only NFTs are projected: an asset whose supply is not 1 is left as it is. */
  lemma OnlyNftsChange(assets: map<Bytes, AssetRow>, upserts: seq<OwnerUpsert>, writesFail: bool,
                       ta: TokenAccount, info: AccountInfo, extensions: Option<Value>)
    requires ta.mint in assets && assets[ta.mint].supply != 1
    ensures TokenAccountOutcome(assets, upserts, writesFail, ta, info, extensions).1 == assets
  {
  }

  /**
   * A written asset takes the account's owner, delegate and frozen flag, records the slot,
   * and keeps its owner type, supply and slot watermark.
   */
  lemma SavedRowContents(row: AssetRow, ta: TokenAccount, info: AccountInfo, extensions: Value)
    ensures var s := SavedRow(row, ta, info, extensions);
      s.owner.Some? && s.owner.value == ta.owner && s.frozen == (ta.state == Frozen)
      && (s.delegate.Some? <==> ta.delegate.Some?)
      && s.slotUpdatedTokenAccount == Some(AsI64(info.slot))
      && s.ownerType == row.ownerType && s.supply == row.supply && s.slotUpdated == row.slotUpdated
      && !NeedsSave(s, ta)
  {
  }

  /** Replaying the same token-account update changes the asset table no further. */
  lemma ReplayLeavesAssets(assets: map<Bytes, AssetRow>, upserts: seq<OwnerUpsert>, writesFail: bool,
                           ta: TokenAccount, info: AccountInfo, extensions: Option<Value>)
    ensures var once := TokenAccountOutcome(assets, upserts, writesFail, ta, info, extensions);
      TokenAccountOutcome(once.1, once.2, writesFail, ta, info, extensions).1 == once.1
  {
    var once := TokenAccountOutcome(assets, upserts, writesFail, ta, info, extensions);
    if once.1 != assets {
      SavedRowContents(assets[ta.mint], ta, info, extensions.value);
    }
  }
}
