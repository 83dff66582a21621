/**
 * The Honeycomb account writers of `program_transformers`: one upsert into
 * the `accounts` table, and six handlers that pick its arguments from a
 * parsed account.
 */
module HplPrograms {
  import opened Wrappers
  import opened Bytes
  import opened Values
  import opened Store
  import opened Instructions
  import opened TransformerErrors
  import HplAccounts

  /** The arguments of one `save_account` call. */
  datatype SaveRequest = SaveRequest(address: Bytes, programId: Bytes, discriminator: Bytes, data: Value, slot: int)

  /**
   * The `accounts` table after the upsert: a new id gets the whole row, an
   * existing id only its parsed data and slot, with no slot comparison.
   */
  function SavedAccounts(accounts: map<Bytes, AccountRow>, q: SaveRequest): (r: map<Bytes, AccountRow>)
    ensures r.Keys == accounts.Keys + {q.address}
    ensures forall id :: id in accounts && id != q.address ==> r[id] == accounts[id]
    ensures r[q.address].parsedData == q.data && r[q.address].slotUpdated == q.slot
    ensures q.address !in accounts ==>
      r[q.address].programId == q.programId && r[q.address].discriminator == q.discriminator
    ensures q.address in accounts ==>
      r[q.address].programId == accounts[q.address].programId
      && r[q.address].discriminator == accounts[q.address].discriminator
  {
    if q.address in accounts then
      accounts[q.address := accounts[q.address].(parsedData := q.data, slotUpdated := q.slot)]
    else
      accounts[q.address := AccountRow(q.programId, q.discriminator, q.data, q.slot)]
  }

  /**
   * Two saves of one address: the program and discriminator are the ones of
   * the first write ever, the data and slot those of the later call, even
   * when its slot is lower.
   */
  lemma SaveLastWriteWins(accounts: map<Bytes, AccountRow>, q1: SaveRequest, q2: SaveRequest)
    requires q1.address == q2.address
    ensures var r := SavedAccounts(SavedAccounts(accounts, q1), q2)[q1.address];
      && r.parsedData == q2.data && r.slotUpdated == q2.slot
      && r.programId == (if q1.address in accounts then accounts[q1.address].programId else q1.programId)
      && r.discriminator == (if q1.address in accounts then accounts[q1.address].discriminator else q1.discriminator)
  {
  }

  /** Saving the same request twice leaves the table as one save does. */
  lemma SaveIdempotent(accounts: map<Bytes, AccountRow>, q: SaveRequest)
    ensures SavedAccounts(SavedAccounts(accounts, q), q) == SavedAccounts(accounts, q)
  {
  }

  /** `save_account`; a rejected write is a `StorageWriteError` and changes nothing. */
  method SaveAccount(db: Db, q: SaveRequest) returns (r: Result<(), TransformerError>)
    modifies db`accounts
    ensures db.writesFail ==> r == Err(StorageWriteError) && db.accounts == old(db.accounts)
    ensures !db.writesFail ==> r == Ok(()) && db.accounts == SavedAccounts(old(db.accounts), q)
  {
    if db.writesFail {
      return Err(StorageWriteError);
    }
    db.accounts := SavedAccounts(db.accounts, q);
    r := Ok(());
  }

  /**
   * The match of each per-program handler: an account of one of the
   * program's kinds is saved under the account's address, its owner as
   * program id, the kind's discriminator and the slot as `i64`; an
   * uninitialized or unknown account is `NotImplemented`.
   */
  function SaveRequestFor(p: HplProgram, info: AccountInfo, account: HplAccount): (r: Result<SaveRequest, TransformerError>)
    ensures r.Ok? <==> account.Known? && account.kind in HplAccounts.Kinds(p)
    ensures r.Err? ==> r.error == NotImplemented
    ensures r.Ok? ==>
      && r.value.address == info.pubkey && r.value.programId == info.owner
      && r.value.discriminator == HplAccounts.Discriminator(account.kind)
      && r.value.data == account.body && r.value.slot == AsI64(info.slot)
  {
    match account
    case Known(kind, body) =>
      if kind in HplAccounts.Kinds(p) then Ok(SaveRequest(info.pubkey, info.owner, HplAccounts.Discriminator(kind), body, AsI64(info.slot)))
      else Err(NotImplemented)
    case _ => Err(NotImplemented)
  }

  /**
   * Parser and handler together: whatever the parser of `p` accepts as a
   * known account is saved with the first 8 bytes of the account's own
   * data as its discriminator.
   */
  lemma StoredDiscriminatorIsDataPrefix(p: HplProgram, info: AccountInfo, decode: HplAccounts.AccountDecoder)
    requires HplAccounts.ParseAccount(p, info.data, decode).Ok?
    ensures var account := HplAccounts.ParseAccount(p, info.data, decode).value;
      account.Known? ==>
        SaveRequestFor(p, info, account).Ok?
        && SaveRequestFor(p, info, account).value.discriminator == info.data[..8]
    ensures var account := HplAccounts.ParseAccount(p, info.data, decode).value;
      !account.Known? ==> SaveRequestFor(p, info, account) == Err(NotImplemented)
  {
    HplAccounts.ParseAccountDispatch(p, info.data, decode);
  }

  /** `handle_hpl_*_account`: the handler's `NotImplemented`, or the result of its one save. */
  method HandleHplAccount(db: Db, p: HplProgram, info: AccountInfo, account: HplAccount) returns (r: Result<(), TransformerError>)
    modifies db`accounts
    ensures SaveRequestFor(p, info, account).Err? ==> r == Err(NotImplemented) && db.accounts == old(db.accounts)
    ensures SaveRequestFor(p, info, account).Ok? && db.writesFail ==>
      r == Err(StorageWriteError) && db.accounts == old(db.accounts)
    ensures SaveRequestFor(p, info, account).Ok? && !db.writesFail ==>
      r == Ok(()) && db.accounts == SavedAccounts(old(db.accounts), SaveRequestFor(p, info, account).value)
  {
    var q := SaveRequestFor(p, info, account);
    if q.Err? {
      return Err(q.error);
    }
    r := SaveAccount(db, q.value);
  }

  /** What one handler promises about the kinds it saves. */
  ghost predicate SavesKinds(p: HplProgram, info: AccountInfo, kinds: seq<AccountKind>)
  {
    && SaveRequestFor(p, info, Uninitialized) == Err(NotImplemented)
    && SaveRequestFor(p, info, UnknownAccount) == Err(NotImplemented)
    && forall k, body :: k in kinds ==>
         SaveRequestFor(p, info, Known(k, body)) == Ok(SaveRequest(info.pubkey, info.owner, HplAccounts.Discriminator(k), body, AsI64(info.slot)))
  }

  lemma HiveControlHandler(info: AccountInfo)
    ensures SavesKinds(HiveControl, info, [Global, Project, DelegateAuthority])
  {
  }

  lemma CharacterManagerHandler(info: AccountInfo)
    ensures SavesKinds(CharacterManager, info, [AssemblerConfig, CharacterModel, AssetCustody])
  {
  }

  lemma CurrencyManagerHandler(info: AccountInfo)
    ensures SavesKinds(CurrencyManager, info, [Currency, HolderAccount])
  {
  }

  lemma ResourceManagerHandler(info: AccountInfo)
    ensures SavesKinds(ResourceManager, info, [Resource, Recipe, Faucet])
  {
  }

  lemma NectarStakingHandler(info: AccountInfo)
    ensures SavesKinds(NectarStaking, info, [StakingPool, Multipliers, Staker])
  {
  }

  lemma NectarMissionsHandler(info: AccountInfo)
    ensures SavesKinds(NectarMissions, info, [MissionPool, Mission])
  {
  }

  /** A handler never saves a kind of another program. */
  lemma HandlerRejectsForeignKinds(p: HplProgram, info: AccountInfo, k: AccountKind, body: Value)
    requires k !in HplAccounts.Kinds(p)
    ensures SaveRequestFor(p, info, Known(k, body)) == Err(NotImplemented)
  {
  }
}
