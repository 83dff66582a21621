/**
 * The six Honeycomb account parsers of blockbuster. Each one looks at the
 * first 8 bytes of the account data and decodes the rest as the account
 * kind whose `DISCRIMINATOR` they equal.
 */
module HplAccounts {
  import opened Wrappers
  import opened Bytes
  import opened Values
  import opened Instructions
  import opened BlockbusterErrors
  import ProgramIds

  /** The `DISCRIMINATOR` constant of each account struct. */
  function Discriminator(k: AccountKind): (d: Bytes)
    ensures |d| == 8
  {
    match k
    case Global => [167, 232, 232, 177, 200, 108, 114, 127]
    case Project => [205, 168, 189, 202, 181, 247, 142, 19]
    case DelegateAuthority => [121, 110, 250, 77, 147, 244, 126, 81]
    case AssemblerConfig => [5, 4, 69, 145, 53, 127, 224, 177]
    case CharacterModel => [48, 232, 95, 182, 18, 16, 71, 113]
    case AssetCustody => [214, 130, 16, 11, 2, 108, 220, 26]
    case Currency => [191, 62, 116, 219, 163, 67, 229, 200]
    case HolderAccount => [164, 95, 70, 248, 145, 238, 169, 176]
    case Resource => [10, 160, 2, 1, 42, 207, 51, 212]
    case Recipe => [10, 162, 156, 100, 56, 193, 205, 77]
    case Faucet => [146, 11, 249, 142, 199, 197, 61, 0]
    case StakingPool => [203, 19, 214, 220, 220, 154, 24, 102]
    case Multipliers => [129, 233, 66, 228, 168, 129, 38, 204]
    case Staker => [171, 229, 193, 85, 67, 177, 151, 4]
    case MissionPool => [106, 55, 99, 194, 178, 110, 104, 188]
    case Mission => [170, 56, 116, 75, 24, 11, 109, 12]
  }

  /** The account kinds each parser matches, in the order of its match arms. */
  function Kinds(p: HplProgram): seq<AccountKind>
  {
    match p
    case HiveControl => [Global, Project, DelegateAuthority]
    case CharacterManager => [AssemblerConfig, CharacterModel, AssetCustody]
    case CurrencyManager => [Currency, HolderAccount]
    case ResourceManager => [Resource, Faucet, Recipe]
    case NectarStaking => [StakingPool, Multipliers, Staker]
    case NectarMissions => [MissionPool, Mission]
  }

  /** The program each parser is registered under. */
  function Key(p: HplProgram): Pubkey
  {
    match p
    case HiveControl => ProgramIds.HIVE_CONTROL_ID
    case CharacterManager => ProgramIds.CHARACTER_MANAGER_ID
    case CurrencyManager => ProgramIds.CURRENCY_MANAGER_ID
    case ResourceManager => ProgramIds.RESOURCE_MANAGER_ID
    case NectarStaking => ProgramIds.NECTAR_STAKING_ID
    case NectarMissions => ProgramIds.NECTAR_MISSIONS_ID
  }

  predicate KeyMatch(p: HplProgram, key: Pubkey)
  {
    key == Key(p)
  }

  /** Every Honeycomb parser handles account updates and no instructions. */
  const HANDLES_ACCOUNT_UPDATES := true
  const HANDLES_INSTRUCTIONS := false

  /** No two account kinds, of any program, share a discriminator. */
  lemma DiscriminatorsDistinct(k1: AccountKind, k2: AccountKind)
    requires k1 != k2
    ensures Discriminator(k1) != Discriminator(k2)
  {
    var d1, d2 := Discriminator(k1), Discriminator(k2);
    assert d1[0] != d2[0] || d1[1] != d2[1];
  }

  /** The six programs have six different ids. */
  lemma KeysDistinct(p1: HplProgram, p2: HplProgram)
    requires p1 != p2
    ensures Key(p1) != Key(p2)
  {
  }

  /** The Borsh decoder of each account struct, giving its schema value; `None` is a decode failure. */
  type AccountDecoder = (AccountKind, Bytes) -> Option<Value>

  /** The first kind in `kinds` whose discriminator is `disc`. */
  function FirstMatch(kinds: seq<AccountKind>, disc: Bytes): (r: Option<AccountKind>)
    ensures r.Some? ==> r.value in kinds && Discriminator(r.value) == disc
    ensures r.None? ==> forall k :: k in kinds ==> Discriminator(k) != disc
  {
    if kinds == [] then None
    else if Discriminator(kinds[0]) == disc then Some(kinds[0])
    else FirstMatch(kinds[1..], disc)
  }

  /**
   * `handle_account` of the parser for program `p`: empty data is
   * uninitialized, data of 1 to 7 bytes panics on `[..8]`, and otherwise the
   * discriminator selects the kind whose body bytes 8.. are decoded.
   */
  function ParseAccount(p: HplProgram, data: Bytes, decode: AccountDecoder): (r: Result<HplAccount, BlockbusterError>)
  {
    if |data| == 0 then Ok(Uninitialized)
    else if |data| < 8 then Err(Panicked)
    else
      match FirstMatch(Kinds(p), data[..8])
      case None => Ok(UnknownAccount)
      case Some(k) =>
        match decode(k, data[8..])
        case None => Err(DeserializationError)
        case Some(body) => Ok(Known(k, body))
  }

  /**
   * The dispatch of every parser: the kind is the one whose discriminator
   * the data starts with, and only kinds of the parser's own program are
   * ever produced.
   */
  lemma ParseAccountDispatch(p: HplProgram, data: Bytes, decode: AccountDecoder)
    ensures |data| == 0 <==> ParseAccount(p, data, decode) == Ok(Uninitialized)
    ensures 0 < |data| < 8 ==> ParseAccount(p, data, decode) == Err(Panicked)
    ensures forall k :: k in Kinds(p) && |data| >= 8 && data[..8] == Discriminator(k) ==>
      ParseAccount(p, data, decode) == (if decode(k, data[8..]).Some? then Ok(Known(k, decode(k, data[8..]).value)) else Err(DeserializationError))
    ensures |data| >= 8 ==>
      (ParseAccount(p, data, decode) == Ok(UnknownAccount) <==> forall k :: k in Kinds(p) ==> data[..8] != Discriminator(k))
    ensures ParseAccount(p, data, decode).Ok? && ParseAccount(p, data, decode).value.Known? ==>
      ParseAccount(p, data, decode).value.kind in Kinds(p)
  {
    if |data| >= 8 {
      forall k | k in Kinds(p) && data[..8] == Discriminator(k)
        ensures FirstMatch(Kinds(p), data[..8]) == Some(k)
      {
        var found := FirstMatch(Kinds(p), data[..8]);
        if found != Some(k) {
          DiscriminatorsDistinct(found.value, k);
        }
      }
    }
  }

  /** One parser's behaviour, stated for the kinds of program `p`. */
  predicate ParsesAs(p: HplProgram, data: Bytes, decode: AccountDecoder)
  {
    var r := ParseAccount(p, data, decode);
    && (|data| == 0 ==> r == Ok(Uninitialized))
    && (0 < |data| < 8 ==> r == Err(Panicked))
    && (|data| >= 8 ==>
          (forall k :: k in Kinds(p) && data[..8] == Discriminator(k) ==>
             (decode(k, data[8..]).Some? ==> r == Ok(Known(k, decode(k, data[8..]).value)))
             && (decode(k, data[8..]).None? ==> r == Err(DeserializationError)))
          && ((forall k :: k in Kinds(p) ==> data[..8] != Discriminator(k)) ==> r == Ok(UnknownAccount)))
  }

  /** Global, Project and DelegateAuthority of the hive-control program. */
  lemma HiveControlParser(data: Bytes, decode: AccountDecoder)
    ensures Kinds(HiveControl) == [Global, Project, DelegateAuthority]
    ensures ParsesAs(HiveControl, data, decode)
  {
    ParseAccountDispatch(HiveControl, data, decode);
  }

  /** AssemblerConfig, CharacterModel and AssetCustody of the character-manager program. */
  lemma CharacterManagerParser(data: Bytes, decode: AccountDecoder)
    ensures Kinds(CharacterManager) == [AssemblerConfig, CharacterModel, AssetCustody]
    ensures ParsesAs(CharacterManager, data, decode)
  {
    ParseAccountDispatch(CharacterManager, data, decode);
  }

  /** Currency and HolderAccount of the currency-manager program. */
  lemma CurrencyManagerParser(data: Bytes, decode: AccountDecoder)
    ensures Kinds(CurrencyManager) == [Currency, HolderAccount]
    ensures ParsesAs(CurrencyManager, data, decode)
  {
    ParseAccountDispatch(CurrencyManager, data, decode);
  }

  /**
   * Resource, Faucet and Recipe of the resource-manager program; Resource
   * and Recipe share their first byte and are told apart by the second.
   */
  lemma ResourceManagerParser(data: Bytes, decode: AccountDecoder)
    ensures Kinds(ResourceManager) == [Resource, Faucet, Recipe]
    ensures Discriminator(Resource)[0] == Discriminator(Recipe)[0] && Discriminator(Resource)[1] != Discriminator(Recipe)[1]
    ensures ParsesAs(ResourceManager, data, decode)
  {
    ParseAccountDispatch(ResourceManager, data, decode);
  }

  /** StakingPool, Multipliers and Staker of the nectar-staking program. */
  lemma NectarStakingParser(data: Bytes, decode: AccountDecoder)
    ensures Kinds(NectarStaking) == [StakingPool, Multipliers, Staker]
    ensures ParsesAs(NectarStaking, data, decode)
  {
    ParseAccountDispatch(NectarStaking, data, decode);
  }

  /** MissionPool and Mission of the nectar-missions program. */
  lemma NectarMissionsParser(data: Bytes, decode: AccountDecoder)
    ensures Kinds(NectarMissions) == [MissionPool, Mission]
    ensures ParsesAs(NectarMissions, data, decode)
  {
    ParseAccountDispatch(NectarMissions, data, decode);
  }
}
