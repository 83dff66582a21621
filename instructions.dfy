/**
 * The values the blockbuster parsers take and produce: compiled
 * instructions, instruction bundles, the account-compression events carried
 * in noop data, and the parse results the transformers dispatch on.
 */
module Instructions {
  import opened Wrappers
  import opened Bytes
  import opened Values

  /** A compiled instruction: account indices into the transaction's keys (each a `u8`) and its data. */
  datatype CompiledInstruction = CompiledInstruction(accounts: seq<U8>, data: Bytes)

  /** An instruction with the program it calls. */
  datatype IxPair = IxPair(program: Pubkey, instruction: CompiledInstruction)

  /** `InstructionBundle`: one outer instruction with its inner instructions and resolved keys. */
  datatype InstructionBundle = InstructionBundle(
    txnId: string,
    program: Pubkey,
    instruction: Option<CompiledInstruction>,
    innerIx: Option<seq<IxPair>>,
    keys: seq<Pubkey>,
    slot: U64)

  /** `AccountInfo`: one account update as the transformers receive it. */
  datatype AccountInfo = AccountInfo(slot: U64, pubkey: Pubkey, owner: Pubkey, data: Bytes)

  /** `ChangeLogEventV1` without its path nodes. */
  datatype ChangeLogEventV1 = ChangeLogEventV1(id: Pubkey, seqNo: U64, index: U32)

  datatype ApplicationDataEventV1 = ApplicationDataEventV1(applicationData: Bytes)

  /** `AccountCompressionEvent`, each arm holding its only (V1) version. */
  datatype AccountCompressionEvent =
    | ChangeLog(changeLog: ChangeLogEventV1)
    | ApplicationData(appData: ApplicationDataEventV1)

  /** What the noop parser extracts from one noop instruction. */
  datatype NoopInstruction = NoopInstruction(treeUpdate: Option<ChangeLogEventV1>, applicationData: Option<ApplicationDataEventV1>)

  /** The account-compression instruction kinds with their decoded arguments. */
  datatype CompressionIx =
    | UnknownIx
    | InitTree(maxDepth: U32, maxBufferSize: U32)
    | ReplaceLeaf(root: Pubkey, previousLeaf: Pubkey, newLeaf: Pubkey, index: U32)
    | TransferAuthority(newAuthority: Pubkey)
    | VerifyLeaf(root: Pubkey, leaf: Pubkey, index: U32)
    | Append(leaf: Pubkey)
    | InsertOrAppend(root: Pubkey, leaf: Pubkey, index: U32)
    | CloseTree

  datatype AccountCompressionInstruction = AccountCompressionInstruction(
    instruction: CompressionIx,
    treeUpdate: Option<ChangeLogEventV1>,
    leafUpdate: Option<ApplicationDataEventV1>)

  /** The six Honeycomb programs whose accounts are indexed. */
  datatype HplProgram = HiveControl | CharacterManager | CurrencyManager | ResourceManager | NectarStaking | NectarMissions

  /** Every account kind of the six programs. */
  datatype AccountKind =
    | Global | Project | DelegateAuthority
    | AssemblerConfig | CharacterModel | AssetCustody
    | Currency | HolderAccount
    | Resource | Recipe | Faucet
    | StakingPool | Multipliers | Staker
    | MissionPool | Mission

  /**
   * A parsed Honeycomb account. `body` is the decoded account struct in its
   * schema-value form (`schema_value()`), which is what gets stored.
   */
  datatype HplAccount = Uninitialized | UnknownAccount | Known(kind: AccountKind, body: Value)

  /**
   * `ProgramParseResult`. The results of parsers outside this model carry an
   * opaque payload; `NotUsed` results report `Unknown`.
   */
  datatype ParseResult =
    | UnknownResult
    | Bubblegum(payload: Value)
    | MplCore(payload: Value)
    | TokenMetadata(payload: Value)
    | TokenProgramAccount(payload: Value)
    | TokenExtensionsProgramAccount(payload: Value)
    | AccountCompression(compression: AccountCompressionInstruction)
    | Noop(noop: NoopInstruction)
    | Hpl(program: HplProgram, account: HplAccount)
}
