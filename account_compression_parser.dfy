/**
 * The blockbuster parser of the account-compression program: the 8-byte
 * Anchor discriminator of the outer instruction selects its kind, and the
 * noop inner instructions carry the change-log and application-data events.
 */
module AccountCompressionParser {
  import opened Wrappers
  import opened Bytes
  import opened Instructions
  import opened BlockbusterErrors
  import ProgramIds

  // Anchor's `sha256("global:<instruction name>")[..8]` for each instruction.
  const INIT_EMPTY_MERKLE_TREE: Bytes := [191, 11, 119, 7, 180, 107, 220, 110]
  const REPLACE_LEAF: Bytes := [204, 165, 76, 100, 73, 147, 0, 128]
  const TRANSFER_AUTHORITY: Bytes := [48, 169, 76, 72, 229, 180, 55, 161]
  const VERIFY_LEAF: Bytes := [124, 220, 22, 223, 104, 10, 250, 224]
  const APPEND: Bytes := [149, 120, 18, 222, 236, 225, 88, 203]
  const INSERT_OR_APPEND: Bytes := [6, 42, 50, 190, 51, 109, 178, 168]
  const CLOSE_EMPTY_TREE: Bytes := [50, 14, 219, 107, 78, 103, 16, 103]

  const KNOWN_DISCRIMINATORS: set<Bytes> :=
    {INIT_EMPTY_MERKLE_TREE, REPLACE_LEAF, TRANSFER_AUTHORITY, VERIFY_LEAF, APPEND, INSERT_OR_APPEND, CLOSE_EMPTY_TREE}

  /** The Borsh decoders of the instruction arguments (`try_from_slice`); `None` is a decode failure. */
  datatype ArgDecoders = ArgDecoders(
    initTree: Bytes -> Option<(U32, U32)>,
    replaceLeaf: Bytes -> Option<(Pubkey, Pubkey, Pubkey, U32)>,
    transferAuthority: Bytes -> Option<Pubkey>,
    verifyLeaf: Bytes -> Option<(Pubkey, Pubkey, U32)>,
    append: Bytes -> Option<Pubkey>,
    insertOrAppend: Bytes -> Option<(Pubkey, Pubkey, U32)>)

  /** The discriminator each known instruction kind is selected by. */
  function DiscriminatorOf(ix: CompressionIx): Option<Bytes>
  {
    match ix
    case UnknownIx => None
    case InitTree(_, _) => Some(INIT_EMPTY_MERKLE_TREE)
    case ReplaceLeaf(_, _, _, _) => Some(REPLACE_LEAF)
    case TransferAuthority(_) => Some(TRANSFER_AUTHORITY)
    case VerifyLeaf(_, _, _) => Some(VERIFY_LEAF)
    case Append(_) => Some(APPEND)
    case InsertOrAppend(_, _, _) => Some(INSERT_OR_APPEND)
    case CloseTree => Some(CLOSE_EMPTY_TREE)
  }

  /**
   * `get_instruction_type`. Fewer than 8 bytes, or arguments that do not
   * decode, panic (`split_at` and `unwrap`).
   */
  function GetInstructionType(bytes: Bytes, dec: ArgDecoders): (r: Result<CompressionIx, BlockbusterError>)
    ensures |bytes| < 8 ==> r == Err(Panicked)
    ensures r.Err? ==> r.error == Panicked
    ensures r.Ok? ==> (r.value.UnknownIx? <==> bytes[..8] !in KNOWN_DISCRIMINATORS)
    ensures r.Ok? && !r.value.UnknownIx? ==> DiscriminatorOf(r.value) == Some(bytes[..8])
    ensures |bytes| >= 8 && bytes[..8] == CLOSE_EMPTY_TREE ==> r == Ok(CloseTree)
  {
    if |bytes| < 8 then Err(Panicked)
    else
      var disc := bytes[..8];
      var args := bytes[8..];
      if disc == INIT_EMPTY_MERKLE_TREE then
        match dec.initTree(args)
        case None => Err(Panicked)
        case Some(a) => Ok(InitTree(a.0, a.1))
      else if disc == REPLACE_LEAF then
        match dec.replaceLeaf(args)
        case None => Err(Panicked)
        case Some(a) => Ok(ReplaceLeaf(a.0, a.1, a.2, a.3))
      else if disc == TRANSFER_AUTHORITY then
        match dec.transferAuthority(args)
        case None => Err(Panicked)
        case Some(a) => Ok(TransferAuthority(a))
      else if disc == VERIFY_LEAF then
        match dec.verifyLeaf(args)
        case None => Err(Panicked)
        case Some(a) => Ok(VerifyLeaf(a.0, a.1, a.2))
      else if disc == APPEND then
        match dec.append(args)
        case None => Err(Panicked)
        case Some(a) => Ok(Append(a))
      else if disc == INSERT_OR_APPEND then
        match dec.insertOrAppend(args)
        case None => Err(Panicked)
        case Some(a) => Ok(InsertOrAppend(a.0, a.1, a.2))
      else if disc == CLOSE_EMPTY_TREE then Ok(CloseTree)
      else Ok(UnknownIx)
  }

  /** Known kinds copy the decoded arguments verbatim; a known discriminator whose arguments do not decode panics. */
  lemma KnownKindsCopyArguments(bytes: Bytes, dec: ArgDecoders)
    requires |bytes| >= 8
    ensures bytes[..8] == INIT_EMPTY_MERKLE_TREE && dec.initTree(bytes[8..]).Some? ==>
      var a := dec.initTree(bytes[8..]).value; GetInstructionType(bytes, dec) == Ok(InitTree(a.0, a.1))
    ensures bytes[..8] == REPLACE_LEAF && dec.replaceLeaf(bytes[8..]).Some? ==>
      var a := dec.replaceLeaf(bytes[8..]).value; GetInstructionType(bytes, dec) == Ok(ReplaceLeaf(a.0, a.1, a.2, a.3))
    ensures bytes[..8] == TRANSFER_AUTHORITY && dec.transferAuthority(bytes[8..]).Some? ==>
      GetInstructionType(bytes, dec) == Ok(TransferAuthority(dec.transferAuthority(bytes[8..]).value))
    ensures bytes[..8] == VERIFY_LEAF && dec.verifyLeaf(bytes[8..]).Some? ==>
      var a := dec.verifyLeaf(bytes[8..]).value; GetInstructionType(bytes, dec) == Ok(VerifyLeaf(a.0, a.1, a.2))
    ensures bytes[..8] == APPEND && dec.append(bytes[8..]).Some? ==>
      GetInstructionType(bytes, dec) == Ok(Append(dec.append(bytes[8..]).value))
    ensures bytes[..8] == INSERT_OR_APPEND && dec.insertOrAppend(bytes[8..]).Some? ==>
      var a := dec.insertOrAppend(bytes[8..]).value; GetInstructionType(bytes, dec) == Ok(InsertOrAppend(a.0, a.1, a.2))
    ensures bytes[..8] == INIT_EMPTY_MERKLE_TREE && dec.initTree(bytes[8..]).None? ==> GetInstructionType(bytes, dec) == Err(Panicked)
    ensures bytes[..8] == REPLACE_LEAF && dec.replaceLeaf(bytes[8..]).None? ==> GetInstructionType(bytes, dec) == Err(Panicked)
    ensures bytes[..8] == TRANSFER_AUTHORITY && dec.transferAuthority(bytes[8..]).None? ==> GetInstructionType(bytes, dec) == Err(Panicked)
    ensures bytes[..8] == VERIFY_LEAF && dec.verifyLeaf(bytes[8..]).None? ==> GetInstructionType(bytes, dec) == Err(Panicked)
    ensures bytes[..8] == APPEND && dec.append(bytes[8..]).None? ==> GetInstructionType(bytes, dec) == Err(Panicked)
    ensures bytes[..8] == INSERT_OR_APPEND && dec.insertOrAppend(bytes[8..]).None? ==> GetInstructionType(bytes, dec) == Err(Panicked)
    ensures bytes[..8] == CLOSE_EMPTY_TREE ==> GetInstructionType(bytes, dec) == Ok(CloseTree)
  {
  }

  /** The seven discriminators are pairwise distinct, so no kind shadows another. */
  lemma DiscriminatorsDistinct()
    ensures |KNOWN_DISCRIMINATORS| == 7
  {
  }

  /** The event a noop inner instruction carries, if it is one with data that decodes. */
  function NoopEvent(p: IxPair, decodeEvent: Bytes -> Option<AccountCompressionEvent>): Option<AccountCompressionEvent>
  {
    if p.program == ProgramIds.NOOP_ID && |p.instruction.data| > 0 then decodeEvent(p.instruction.data) else None
  }

  function ChangeLogOf(p: IxPair, decodeEvent: Bytes -> Option<AccountCompressionEvent>): Option<ChangeLogEventV1>
  {
    match NoopEvent(p, decodeEvent)
    case Some(ChangeLog(c)) => Some(c)
    case _ => None
  }

  function AppDataOf(p: IxPair, decodeEvent: Bytes -> Option<AccountCompressionEvent>): Option<ApplicationDataEventV1>
  {
    match NoopEvent(p, decodeEvent)
    case Some(ApplicationData(a)) => Some(a)
    case _ => None
  }

  /** The change-log event of the last inner noop instruction that carries one. */
  function LastChangeLog(ixs: seq<IxPair>, decodeEvent: Bytes -> Option<AccountCompressionEvent>): Option<ChangeLogEventV1>
  {
    if ixs == [] then None
    else if ChangeLogOf(ixs[|ixs| - 1], decodeEvent).Some? then ChangeLogOf(ixs[|ixs| - 1], decodeEvent)
    else LastChangeLog(ixs[..|ixs| - 1], decodeEvent)
  }

  /** The application-data event of the last inner noop instruction that carries one. */
  function LastAppData(ixs: seq<IxPair>, decodeEvent: Bytes -> Option<AccountCompressionEvent>): Option<ApplicationDataEventV1>
  {
    if ixs == [] then None
    else if AppDataOf(ixs[|ixs| - 1], decodeEvent).Some? then AppDataOf(ixs[|ixs| - 1], decodeEvent)
    else LastAppData(ixs[..|ixs| - 1], decodeEvent)
  }

  /** The last `Some` that `f` gives over `xs`. */
  function LastSome<A, T>(xs: seq<A>, f: A -> Option<T>): Option<T>
  {
    if xs == [] then None
    else if f(xs[|xs| - 1]).Some? then f(xs[|xs| - 1])
    else LastSome(xs[..|xs| - 1], f)
  }

  /** The last `Some` is given by some element, and no later element gives one. */
  lemma {:induction false} LastSomeWins<A, T>(xs: seq<A>, f: A -> Option<T>)
    ensures LastSome(xs, f).None? <==> forall i :: 0 <= i < |xs| ==> f(xs[i]).None?
    ensures LastSome(xs, f).Some? ==>
      exists i :: 0 <= i < |xs| && f(xs[i]) == LastSome(xs, f) && forall j :: i < j < |xs| ==> f(xs[j]).None?
  {
    if xs != [] {
      var front := xs[..|xs| - 1];
      LastSomeWins(front, f);
      assert forall i :: 0 <= i < |front| ==> front[i] == xs[i];
      if f(xs[|xs| - 1]).None? && LastSome(front, f).Some? {
        var i :| 0 <= i < |front| && f(front[i]) == LastSome(front, f) && forall j :: i < j < |front| ==> f(front[j]).None?;
        assert f(xs[i]) == LastSome(xs, f);
      }
    }
  }

  /** `LastChangeLog` is the last change-log event in the generic sense. */
  lemma {:induction false} LastChangeLogIsLastSome(ixs: seq<IxPair>, decodeEvent: Bytes -> Option<AccountCompressionEvent>)
    ensures LastChangeLog(ixs, decodeEvent) == LastSome(ixs, p => ChangeLogOf(p, decodeEvent))
  {
    if ixs != [] {
      LastChangeLogIsLastSome(ixs[..|ixs| - 1], decodeEvent);
    }
  }

  /** `LastAppData` is the last application-data event in the generic sense. */
  lemma {:induction false} LastAppDataIsLastSome(ixs: seq<IxPair>, decodeEvent: Bytes -> Option<AccountCompressionEvent>)
    ensures LastAppData(ixs, decodeEvent) == LastSome(ixs, p => AppDataOf(p, decodeEvent))
  {
    if ixs != [] {
      LastAppDataIsLastSome(ixs[..|ixs| - 1], decodeEvent);
    }
  }

  /** The last change-log event wins: it is carried by some inner instruction and no later one carries another. */
  lemma LastChangeLogWins(ixs: seq<IxPair>, decodeEvent: Bytes -> Option<AccountCompressionEvent>)
    ensures LastChangeLog(ixs, decodeEvent).None? <==> forall i :: 0 <= i < |ixs| ==> ChangeLogOf(ixs[i], decodeEvent).None?
    ensures LastChangeLog(ixs, decodeEvent).Some? ==>
      exists i :: 0 <= i < |ixs| && ChangeLogOf(ixs[i], decodeEvent) == LastChangeLog(ixs, decodeEvent)
        && forall j :: i < j < |ixs| ==> ChangeLogOf(ixs[j], decodeEvent).None?
  {
    LastChangeLogIsLastSome(ixs, decodeEvent);
    LastSomeWins(ixs, p => ChangeLogOf(p, decodeEvent));
  }

  /** The last application-data event wins, in the same sense. */
  lemma LastAppDataWins(ixs: seq<IxPair>, decodeEvent: Bytes -> Option<AccountCompressionEvent>)
    ensures LastAppData(ixs, decodeEvent).None? <==> forall i :: 0 <= i < |ixs| ==> AppDataOf(ixs[i], decodeEvent).None?
    ensures LastAppData(ixs, decodeEvent).Some? ==>
      exists i :: 0 <= i < |ixs| && AppDataOf(ixs[i], decodeEvent) == LastAppData(ixs, decodeEvent)
        && forall j :: i < j < |ixs| ==> AppDataOf(ixs[j], decodeEvent).None?
  {
    LastAppDataIsLastSome(ixs, decodeEvent);
    LastSomeWins(ixs, p => AppDataOf(p, decodeEvent));
  }

  /** A program id is this parser's exactly when it is the account-compression program. */
  predicate KeyMatch(key: Pubkey)
  {
    key == ProgramIds.ACCOUNT_COMPRESSION_ID
  }

  const HANDLES_ACCOUNT_UPDATES := false
  const HANDLES_INSTRUCTIONS := true

  /** The value `handle_instruction` computes, for callers that are functions. */
  function ParsedInstruction(bundle: InstructionBundle, dec: ArgDecoders, decodeEvent: Bytes -> Option<AccountCompressionEvent>)
    : Result<AccountCompressionInstruction, BlockbusterError>
  {
    if bundle.instruction.None? then Err(DeserializationError)
    else
      var inner := if bundle.innerIx.Some? then bundle.innerIx.value else [];
      match GetInstructionType(bundle.instruction.value.data, dec)
      case Err(e) => Err(e)
      case Ok(ix) => Ok(AccountCompressionInstruction(ix, LastChangeLog(inner, decodeEvent), LastAppData(inner, decodeEvent)))
  }

  /** `handle_instruction`: the outer instruction's kind, then a pass over the inner instructions. */
  method HandleInstruction(bundle: InstructionBundle, dec: ArgDecoders, decodeEvent: Bytes -> Option<AccountCompressionEvent>)
    returns (r: Result<AccountCompressionInstruction, BlockbusterError>)
    ensures bundle.instruction.None? ==> r == Err(DeserializationError)
    ensures bundle.instruction.Some? ==>
      var inner := if bundle.innerIx.Some? then bundle.innerIx.value else [];
      match GetInstructionType(bundle.instruction.value.data, dec)
      case Err(e) => r == Err(e)
      case Ok(ix) => r == Ok(AccountCompressionInstruction(ix, LastChangeLog(inner, decodeEvent), LastAppData(inner, decodeEvent)))
    ensures r == ParsedInstruction(bundle, dec, decodeEvent)
  {
    if bundle.instruction.None? {
      return Err(DeserializationError);
    }
    var ixType := GetInstructionType(bundle.instruction.value.data, dec);
    if ixType.Err? {
      return Err(ixType.error);
    }
    var treeUpdate: Option<ChangeLogEventV1> := None;
    var leafUpdate: Option<ApplicationDataEventV1> := None;
    if bundle.innerIx.Some? {
      var ixs := bundle.innerIx.value;
      var i := 0;
      while i < |ixs|
        invariant 0 <= i <= |ixs|
        invariant treeUpdate == LastChangeLog(ixs[..i], decodeEvent)
        invariant leafUpdate == LastAppData(ixs[..i], decodeEvent)
      {
        assert ixs[..i + 1][..i] == ixs[..i];
        var p := ixs[i];
        if p.program == ProgramIds.NOOP_ID && |p.instruction.data| > 0 {
          var event := decodeEvent(p.instruction.data);
          if event.Some? {
            match event.value {
              case ChangeLog(c) => treeUpdate := Some(c);
              case ApplicationData(a) => leafUpdate := Some(a);
            }
          }
        }
        i := i + 1;
      }
      assert ixs[..i] == ixs;
    }
    r := Ok(AccountCompressionInstruction(ixType.value, treeUpdate, leafUpdate));
  }
}
