/**
 * `ProgramTransformer` of `nft_ingester`: five registered parsers, the
 * Honeycomb programs whose accounts are re-read after a transaction, the
 * confirmation wait that precedes that re-read, and the routing of a
 * transaction and of an account update.
 */
module IngesterTransformer {
  import opened Wrappers
  import opened Bytes
  import opened Values
  import opened Store
  import opened Instructions
  import opened IngesterErrors
  import opened Routing
  import BlockbusterErrors
  import ProgramIds
  import HplAccountHandler

  /** `From<BlockbusterError>`: a parser error becomes a parsing error; a panic stays a panic. */
  function FromBlockbuster(e: BlockbusterErrors.BlockbusterError): IngesterError
  {
    if e.Panicked? then Panicked else ParsingError
  }

  const ERRORS: ErrorKinds<IngesterError> := ErrorKinds(DeserializationError, FromBlockbuster)

  /** The programs `populate_programs` pushes, in its order. */
  const INDEXABLE: seq<Pubkey> := [
    ProgramIds.INDEXABLE_ETXB, ProgramIds.HIVE_CONTROL_ID, ProgramIds.CHARACTER_MANAGER_ID,
    ProgramIds.CURRENCY_MANAGER_ID, ProgramIds.INDEXABLE_PAY9, ProgramIds.NECTAR_STAKING_ID,
    ProgramIds.INDEXABLE_8FTW, ProgramIds.INDEXABLE_6ARW]

  /** `IndexablePrograms`: the programs whose accounts are re-read. */
  class IndexablePrograms {
    var keys: seq<Pubkey>

    /** `IndexablePrograms::new`. */
    constructor ()
      ensures keys == INDEXABLE
    {
      keys := [];
      new;
      PopulatePrograms();
    }

    /** `populate_programs`: one push per program. */
    method PopulatePrograms()
      modifies this
      ensures keys == old(keys) + INDEXABLE
    {
      keys := keys + [ProgramIds.INDEXABLE_ETXB];
      keys := keys + [ProgramIds.HIVE_CONTROL_ID];
      keys := keys + [ProgramIds.CHARACTER_MANAGER_ID];
      keys := keys + [ProgramIds.CURRENCY_MANAGER_ID];
      keys := keys + [ProgramIds.INDEXABLE_PAY9];
      keys := keys + [ProgramIds.NECTAR_STAKING_ID];
      keys := keys + [ProgramIds.INDEXABLE_8FTW];
      keys := keys + [ProgramIds.INDEXABLE_6ARW];
    }
  }

  /** The parsers `new` inserts, in its order. */
  const MATCHERS: seq<ParserKind> := [BubblegumParser, CompressionParser, TokenMetadataParser, TokenAccountParser, NoopProgramParser]

  /** The keys of the registered parsers. */
  lemma MatcherKeys()
    ensures Register(MATCHERS).Keys ==
      {ProgramIds.BUBBLEGUM_ID, ProgramIds.ACCOUNT_COMPRESSION_ID, ProgramIds.TOKEN_METADATA_ID,
       ProgramIds.TOKEN_PROGRAM_ID, ProgramIds.NOOP_ID}
  {
    assert ParserKey(BubblegumParser) == ProgramIds.BUBBLEGUM_ID;
    assert ParserKey(CompressionParser) == ProgramIds.ACCOUNT_COMPRESSION_ID;
    assert ParserKey(TokenMetadataParser) == ProgramIds.TOKEN_METADATA_ID;
    assert ParserKey(TokenAccountParser) == ProgramIds.TOKEN_PROGRAM_ID;
    assert ParserKey(NoopProgramParser) == ProgramIds.NOOP_ID;
  }

  /** No indexable program has a parser here: they are in the key set only so that their instructions are kept. */
  lemma IndexableProgramsHaveNoParser()
    ensures forall k :: k in INDEXABLE ==> k !in Register(MATCHERS)
  {
    NoParserFor(ProgramIds.INDEXABLE_ETXB);
    NoParserFor(ProgramIds.HIVE_CONTROL_ID);
    NoParserFor(ProgramIds.CHARACTER_MANAGER_ID);
    NoParserFor(ProgramIds.CURRENCY_MANAGER_ID);
    NoParserFor(ProgramIds.INDEXABLE_PAY9);
    NoParserFor(ProgramIds.NECTAR_STAKING_ID);
    NoParserFor(ProgramIds.INDEXABLE_8FTW);
    NoParserFor(ProgramIds.INDEXABLE_6ARW);
  }

  /** A key whose first byte no registered parser's key starts with has no parser. */
  lemma NoParserFor(k: Pubkey)
    requires k[0] !in {152, 9, 11, 6}
    ensures k !in Register(MATCHERS)
  {
    if k in Register(MATCHERS) {
      MatcherFirstBytes(k);
    }
  }

  lemma MatcherFirstBytes(k: Pubkey)
    requires k in Register(MATCHERS)
    ensures k[0] in {152, 9, 11, 6}
  {
    var kind := Register(MATCHERS)[k];
    assert ParserKey(kind) == k && kind in MATCHERS;
    assert ProgramIds.BUBBLEGUM_ID[0] == 152 && ProgramIds.ACCOUNT_COMPRESSION_ID[0] == 9;
    assert ProgramIds.TOKEN_METADATA_ID[0] == 11 && ProgramIds.TOKEN_PROGRAM_ID[0] == 6 && ProgramIds.NOOP_ID[0] == 11;
  }

  // ---------------------------------------------------------------------
  // The confirmation wait

  /** A slot answer reaches the transaction's slot; an RPC error counts as slot 0. */
  predicate Reached(answer: Option<U64>, txSlot: U64)
  {
    (if answer.Some? then answer.value else 0) >= txSlot
  }

  /** `remaining_tries` starts at 200: at most 201 slot checks. */
  const MAX_CHECKS: nat := 201

  /** The first check, from `t` on, whose answer reaches the slot. */
  function FirstConfirmed(slotAt: nat -> Option<U64>, txSlot: U64, t: nat): (r: Option<nat>)
    requires t <= MAX_CHECKS
    ensures r.Some? ==> t <= r.value < MAX_CHECKS && Reached(slotAt(r.value), txSlot)
    ensures r.Some? ==> forall u :: t <= u < r.value ==> !Reached(slotAt(u), txSlot)
    ensures r.None? <==> forall u :: t <= u < MAX_CHECKS ==> !Reached(slotAt(u), txSlot)
    decreases MAX_CHECKS - t
  {
    if t == MAX_CHECKS then None
    else if Reached(slotAt(t), txSlot) then Some(t)
    else FirstConfirmed(slotAt, txSlot, t + 1)
  }

  /**
   * The wait of `handle_transaction`: the slot is asked for until it reaches
   * the transaction's slot or the tries run out. `slotAt(t)` is the answer
   * to the `t`-th check. The result is the check that confirmed, if any.
   */
  method ConfirmTransaction(slotAt: nat -> Option<U64>, txSlot: U64) returns (confirmed: Option<nat>)
    ensures confirmed == FirstConfirmed(slotAt, txSlot, 0)
  {
    var remainingTries := 200;
    var t := 0;
    while true
      invariant 0 <= remainingTries <= 200 && t + remainingTries == 200
      invariant FirstConfirmed(slotAt, txSlot, 0) == FirstConfirmed(slotAt, txSlot, t)
      decreases remainingTries
    {
      var answer := slotAt(t);
      var currentSlot := if answer.Some? then answer.value else 0;
      if currentSlot >= txSlot {
        return Some(t);
      }
      if remainingTries == 0 {
        return None;
      }
      remainingTries := remainingTries - 1;
      t := t + 1;
    }
  }

  /** With slot 0 even a failing RPC confirms at the first check. */
  lemma SlotZeroConfirmsAtOnce(slotAt: nat -> Option<U64>)
    ensures FirstConfirmed(slotAt, 0, 0) == Some(0)
  {
  }

  /** When no answer reaches the slot, the wait gives up after 201 checks without the re-read. */
  lemma UnreachedSlotGivesUp(slotAt: nat -> Option<U64>, txSlot: U64)
    requires forall u :: 0 <= u < MAX_CHECKS ==> slotAt(u).None? || slotAt(u).value < txSlot
    requires txSlot > 0
    ensures FirstConfirmed(slotAt, txSlot, 0).None?
  {
  }

  // ---------------------------------------------------------------------
  // One transaction

  /**
   * The RPC client of `new_with_rpc_client`: `slotAt(i, t)` is the answer to
   * the `t`-th slot check after the `i`-th ordered instruction (`None` for
   * an RPC error), `chain` what the account re-read asks of the chain.
   */
  datatype Rpc = Rpc(slotAt: (nat, nat) -> Option<U64>, chain: HplAccountHandler.Chain)

  /** `keys.get(0)`: the fee payer, if the transaction has keys. */
  function Payer(keys: seq<Pubkey>): Option<Pubkey>
  {
    if |keys| > 0 then Some(keys[0]) else None
  }

  /**
   * The wait and the re-read after the `i`-th instruction: without a client
   * nothing happens; an unconfirmed slot skips the re-read; otherwise the
   * re-read's result and table.
   */
  function ConfirmAndEtl(rpc: Option<Rpc>, i: nat, table: map<Bytes, AccountRow>, writesFail: bool, tx: TransactionInfo,
                         bundle: InstructionBundle): (r: (Result<(), IngesterError>, map<Bytes, AccountRow>))
    ensures rpc.None? ==> r == (Ok(()), table)
    ensures r.0.Err? ==> r.1 == table
  {
    if rpc.None? then (Ok(()), table)
    else
      match FirstConfirmed((t: nat) => rpc.value.slotAt(i, t), tx.slot, 0)
      case None => (Ok(()), table)
      case Some(_) => HplAccountHandler.EtlOutcome(table, writesFail, rpc.value.chain, bundle, tx.accountKeys, Payer(tx.accountKeys))
  }

  /**
   * One turn of `handle_transaction`'s loop: the routing step, and for an
   * instruction that did not abort (counted or not, matched or not) the
   * wait and the re-read, whose error aborts.
   */
  function IngesterStep(matchers: map<Pubkey, ParserKind>, env: ParseEnv, handlers: Handlers<IngesterError>, rpc: Option<Rpc>,
                        tx: TransactionInfo, i: nat, o: OrderedIx, table: map<Bytes, AccountRow>, writesFail: bool)
    : (r: (Step<IngesterError>, map<Bytes, AccountRow>))
    ensures RouteStep(matchers, env, handlers, ERRORS, tx, o).Abort? ==> r == (RouteStep(matchers, env, handlers, ERRORS, tx, o), table)
    ensures rpc.None? ==> r == (RouteStep(matchers, env, handlers, ERRORS, tx, o), table)
    ensures r.0.Abort? ==> r.1 == table
    ensures !r.0.Abort? ==> r.0 == RouteStep(matchers, env, handlers, ERRORS, tx, o)
  {
    var s := RouteStep(matchers, env, handlers, ERRORS, tx, o);
    if s.Abort? then (s, table)
    else
      var (e, t) := ConfirmAndEtl(rpc, i, table, writesFail, tx, BundleOf(tx.txnId, tx.slot, tx.accountKeys, o));
      if e.Err? then (Abort(e.error), t) else (s, t)
  }

  /** The turns of `handle_transaction`'s loop over `ordered`, the `accounts` table as their state. */
  function Turn(matchers: map<Pubkey, ParserKind>, env: ParseEnv, handlers: Handlers<IngesterError>, rpc: Option<Rpc>,
                tx: TransactionInfo, ordered: seq<OrderedIx>, writesFail: bool)
    : (nat, map<Bytes, AccountRow>) -> (Step<IngesterError>, map<Bytes, AccountRow>)
  {
    (i: nat, t: map<Bytes, AccountRow>) =>
      if i < |ordered| then IngesterStep(matchers, env, handlers, rpc, tx, i, ordered[i], t, writesFail) else (Passed, t)
  }

  /** The result of `handle_transaction` and the `accounts` table after it. */
  function TransactionOutcome(matchers: map<Pubkey, ParserKind>, env: ParseEnv, handlers: Handlers<IngesterError>, rpc: Option<Rpc>,
                              tx: TransactionInfo, ordered: seq<OrderedIx>, table: map<Bytes, AccountRow>, writesFail: bool)
    : (r: (Result<(), IngesterError>, map<Bytes, AccountRow>))
    ensures |ordered| == 0 ==> r == (Err(NotImplemented), table)
  {
    var (steps, t) := RunTurns(Turn(matchers, env, handlers, rpc, tx, ordered, writesFail), |ordered|, table);
    (Outcome(steps, NotImplemented), t)
  }

  /** The step that aborts decides the transaction's result and the table it leaves. */
  lemma AbortEndsTransaction(matchers: map<Pubkey, ParserKind>, env: ParseEnv, handlers: Handlers<IngesterError>,
                             rpc: Option<Rpc>, tx: TransactionInfo, ordered: seq<OrderedIx>, k: nat,
                             table: map<Bytes, AccountRow>, writesFail: bool)
    requires 1 <= k <= |ordered|
    requires FirstAbort(RunTurns(Turn(matchers, env, handlers, rpc, tx, ordered, writesFail), k, table).0) == Some(k - 1)
    ensures var run := RunTurns(Turn(matchers, env, handlers, rpc, tx, ordered, writesFail), k, table);
      TransactionOutcome(matchers, env, handlers, rpc, tx, ordered, table, writesFail) == (Err(run.0[k - 1].error), run.1)
  {
    RunTurnsStopAtAbort(Turn(matchers, env, handlers, rpc, tx, ordered, writesFail), k, |ordered|, table);
  }

  /** Without an RPC client every step is the one the routing alone gives. */
  lemma NoRpcIsRoutingOnly(matchers: map<Pubkey, ParserKind>, env: ParseEnv, handlers: Handlers<IngesterError>,
                           tx: TransactionInfo, ordered: seq<OrderedIx>, table: map<Bytes, AccountRow>, writesFail: bool)
    ensures var steps := RunTurns(Turn(matchers, env, handlers, None, tx, ordered, writesFail), |ordered|, table).0;
      forall j :: 0 <= j < |steps| ==> steps[j] == RouteStep(matchers, env, handlers, ERRORS, tx, ordered[j])
  {
    var turn := Turn(matchers, env, handlers, None, tx, ordered, writesFail);
    var steps := RunTurns(turn, |ordered|, table).0;
    forall i: nat, t: map<Bytes, AccountRow>
      ensures turn(i, t).0 == turn(i, table).0
    {
    }
    forall j | 0 <= j < |steps|
      ensures steps[j] == RouteStep(matchers, env, handlers, ERRORS, tx, ordered[j])
    {
      StateFreeStepAt(turn, |ordered|, table, j);
    }
  }

  /** Without an RPC client the `accounts` table is left as it was. */
  lemma NoRpcKeepsAccounts(matchers: map<Pubkey, ParserKind>, env: ParseEnv, handlers: Handlers<IngesterError>,
                           tx: TransactionInfo, ordered: seq<OrderedIx>, table: map<Bytes, AccountRow>, writesFail: bool)
    ensures TransactionOutcome(matchers, env, handlers, None, tx, ordered, table, writesFail).1 == table
  {
    var turn := Turn(matchers, env, handlers, None, tx, ordered, writesFail);
    forall i: nat, t: map<Bytes, AccountRow>
      ensures turn(i, t).1 == t
    {
    }
    StateKeepingRun(turn, |ordered|, table);
  }

  // ---------------------------------------------------------------------
  // The transformer

  class ProgramTransformer {
    var matchers: map<Pubkey, ParserKind>
    var indexablePrograms: seq<Pubkey>
    var keySet: set<Pubkey>
    var rpcClient: Option<Rpc>
    const clAudits: bool

    /** The key set holds the parsers' keys and the indexable programs; each parser sits under its own key. */
    ghost predicate Valid()
      reads this
    {
      && (forall key :: key in matchers ==> ParserKey(matchers[key]) == key)
      && keySet == matchers.Keys + set k | k in indexablePrograms
    }

    /**
     * `new` (with `rpc` absent) and `new_with_rpc_client`: the five inserts,
     * the indexable programs, and the key set folded from both.
     */
    constructor (clAudits: bool, rpc: Option<Rpc>)
      ensures Valid()
      ensures matchers == Register(MATCHERS) && indexablePrograms == INDEXABLE
      ensures rpcClient == rpc && this.clAudits == clAudits
    {
      var m := RegisterParsers(MATCHERS);
      var indexable := new IndexablePrograms();
      var programs := indexable.keys;
      var hs := KeySet(m.Keys, programs);
      matchers := m;
      indexablePrograms := programs;
      keySet := hs;
      rpcClient := rpc;
      this.clAudits := clAudits;
    }

    /** `match_program`: a key that is not 32 bytes long matches nothing; otherwise the registered parser. */
    function MatchProgram(key: Bytes): (r: Option<ParserKind>)
      reads this
      ensures |key| != 32 ==> r.None?
      ensures |key| == 32 ==> (r.Some? <==> key in matchers) && (r.Some? ==> r.value == matchers[key])
      ensures Valid() && r.Some? ==> ParserKey(r.value) == key
    {
      if |key| != 32 then None
      else
        var k: Pubkey := key;
        if k in matchers then
          Some(matchers[k])
        else None
    }

    /** `handle_transaction`: the loop with its `not_impl` counter, the first error returned. */
    method HandleTransaction(db: Db, env: ParseEnv, handlers: Handlers<IngesterError>, tx: TransactionInfo, ordered: seq<OrderedIx>)
      returns (r: Result<(), IngesterError>)
      modifies db`accounts
      ensures (r, db.accounts) == TransactionOutcome(matchers, env, handlers, rpcClient, tx, ordered, old(db.accounts), db.writesFail)
    {
      r := TransactionLoop(db, matchers, rpcClient, env, handlers, tx, ordered);
    }

    /** `handle_account_update`: only token-metadata and token-account results are handled. */
    method HandleAccountUpdate(env: ParseEnv, accountHandler: (ParseResult, AccountInfo) -> Result<(), IngesterError>, info: AccountInfo)
      returns (r: Result<(), IngesterError>)
      ensures r == AccountOutcome(matchers, env, accountHandler, info)
    {
      var parser := MatchProgram(info.owner);
      if parser.None? {
        return Ok(());
      }
      var result := ParseAccountData(parser.value, info.data, env);
      if result.Err? {
        return Err(FromBlockbuster(result.error));
      }
      match result.value {
        case TokenMetadata(_) => r := accountHandler(result.value, info);
        case TokenProgramAccount(_) => r := accountHandler(result.value, info);
        case _ => r := Err(NotImplemented);
      }
    }
  }

  /** What `handle_account_update` returns for an account update. */
  function AccountOutcome(matchers: map<Pubkey, ParserKind>, env: ParseEnv,
                          accountHandler: (ParseResult, AccountInfo) -> Result<(), IngesterError>, info: AccountInfo)
    : (r: Result<(), IngesterError>)
    ensures info.owner !in matchers ==> r == Ok(())
    ensures info.owner in matchers && ParseAccountData(matchers[info.owner], info.data, env).Err? ==>
      r == Err(FromBlockbuster(ParseAccountData(matchers[info.owner], info.data, env).error))
    ensures (&& r.Err? && r.error == NotImplemented && info.owner in matchers
             && (forall res :: accountHandler(res, info) != Err(NotImplemented))) ==>
      var res := ParseAccountData(matchers[info.owner], info.data, env);
      res.Ok? && !res.value.TokenMetadata? && !res.value.TokenProgramAccount?
  {
    if info.owner !in matchers then Ok(())
    else
      match ParseAccountData(matchers[info.owner], info.data, env)
      case Err(e) => Err(FromBlockbuster(e))
      case Ok(TokenMetadata(m)) => accountHandler(TokenMetadata(m), info)
      case Ok(TokenProgramAccount(a)) => accountHandler(TokenProgramAccount(a), info)
      case Ok(_) => Err(NotImplemented)
  }

  /** With the registered parsers, an account of an indexable program is never parsed here. */
  lemma IndexableAccountsIgnored(env: ParseEnv, accountHandler: (ParseResult, AccountInfo) -> Result<(), IngesterError>, info: AccountInfo)
    requires info.owner in INDEXABLE
    ensures AccountOutcome(Register(MATCHERS), env, accountHandler, info) == Ok(())
  {
    IndexableProgramsHaveNoParser();
  }

  /** With the registered parsers, an account owned by the noop or compression program is `NotImplemented`. */
  lemma CompressionAccountsNotImplemented(env: ParseEnv, accountHandler: (ParseResult, AccountInfo) -> Result<(), IngesterError>, info: AccountInfo)
    requires info.owner == ProgramIds.NOOP_ID || info.owner == ProgramIds.ACCOUNT_COMPRESSION_ID
    ensures AccountOutcome(Register(MATCHERS), env, accountHandler, info) == Err(NotImplemented)
  {
    if info.owner == ProgramIds.NOOP_ID {
      RegisteredUnder(NoopProgramParser);
    } else {
      RegisteredUnder(CompressionParser);
    }
  }

  /** The noop and compression parsers sit under their own program ids. */
  lemma RegisteredUnder(kind: ParserKind)
    requires kind == NoopProgramParser || kind == CompressionParser
    ensures ParserKey(kind) in Register(MATCHERS) && Register(MATCHERS)[ParserKey(kind)] == kind
  {
    var m := Register(MATCHERS);
    assert kind in MATCHERS;
    assert ParserKey(kind) in m;
    var found := m[ParserKey(kind)];
    assert found in MATCHERS && ParserKey(found) == ParserKey(kind);
    assert ProgramIds.BUBBLEGUM_ID[0] == 152 && ProgramIds.ACCOUNT_COMPRESSION_ID[0] == 9;
    assert ProgramIds.TOKEN_METADATA_ID[0] == 11 && ProgramIds.TOKEN_PROGRAM_ID[0] == 6 && ProgramIds.NOOP_ID[0] == 11;
    assert ProgramIds.TOKEN_METADATA_ID[1] == 112 && ProgramIds.NOOP_ID[1] == 188;
  }

  /**
   * One turn of `handle_transaction`'s loop with the transformer's parsers and client:
   * the routing of the instruction, the same as in the `program_transformers` crate,
   * then the wait and the account re-read when a client is present.
   */
  method RouteInstruction(db: Db, matchers: map<Pubkey, ParserKind>, rpcClient: Option<Rpc>, env: ParseEnv,
                          handlers: Handlers<IngesterError>, tx: TransactionInfo, i: nat, o: OrderedIx)
    returns (s: Step<IngesterError>)
    modifies db`accounts
    ensures (s, db.accounts) == IngesterStep(matchers, env, handlers, rpcClient, tx, i, o, old(db.accounts), db.writesFail)
  {
    s := RouteStep(matchers, env, handlers, ERRORS, tx, o);
    if s.Abort? || rpcClient.None? {
      return;
    }
    var rpc := rpcClient.value;
    var confirmed := ConfirmTransaction((t: nat) => rpc.slotAt(i, t), tx.slot);
    if confirmed.Some? {
      var bundle := BundleOf(tx.txnId, tx.slot, tx.accountKeys, o);
      var etl := HplAccountHandler.EtlAccountSchemaValues(db, rpc.chain, bundle, tx.accountKeys, Payer(tx.accountKeys));
      if etl.Err? {
        s := Abort(etl.error);
      }
    }
  }

  /**
   * One turn of the loop: an aborting instruction decides the transaction,
   * any other is one more step of the run and raises the counter when it was counted.
   */
  method Advance(db: Db, matchers: map<Pubkey, ParserKind>, rpcClient: Option<Rpc>, env: ParseEnv, handlers: Handlers<IngesterError>,
                 tx: TransactionInfo, ordered: seq<OrderedIx>, i: nat, notImpl: nat, ghost table: map<Bytes, AccountRow>,
                 ghost steps: seq<Step<IngesterError>>)
    returns (s: Step<IngesterError>, counted: nat)
    requires i < |ordered|
    requires TurnState(Turn(matchers, env, handlers, rpcClient, tx, ordered, db.writesFail), table, i, steps, db.accounts, notImpl)
    modifies db`accounts
    ensures s.Abort? ==>
      TransactionOutcome(matchers, env, handlers, rpcClient, tx, ordered, table, db.writesFail) == (Err(s.error), db.accounts)
    ensures !s.Abort? ==>
      TurnState(Turn(matchers, env, handlers, rpcClient, tx, ordered, db.writesFail), table, i + 1, steps + [s], db.accounts, counted)
  {
    ghost var before := db.accounts;
    ghost var turn := Turn(matchers, env, handlers, rpcClient, tx, ordered, db.writesFail);
    s := RouteInstruction(db, matchers, rpcClient, env, handlers, tx, i, ordered[i]);
    assert turn(i, before) == (s, db.accounts);
    if s.Abort? {
      AbortingTurnDecides(turn, |ordered|, table, i, steps, before, notImpl, NotImplemented);
    } else {
      CleanTurnAdvances(turn, table, i, steps, before, notImpl);
    }
    counted := if s.Counted? then notImpl + 1 else notImpl;
  }

  /** The loop of `handle_transaction` with its `not_impl` counter, the first error returned. */
  method TransactionLoop(db: Db, matchers: map<Pubkey, ParserKind>, rpcClient: Option<Rpc>, env: ParseEnv,
                         handlers: Handlers<IngesterError>, tx: TransactionInfo, ordered: seq<OrderedIx>)
    returns (r: Result<(), IngesterError>)
    modifies db`accounts
    ensures (r, db.accounts) == TransactionOutcome(matchers, env, handlers, rpcClient, tx, ordered, old(db.accounts), db.writesFail)
  {
    ghost var table := db.accounts;
    ghost var turn := Turn(matchers, env, handlers, rpcClient, tx, ordered, db.writesFail);
    ghost var steps: seq<Step<IngesterError>> := [];
    var notImpl := 0;
    var i := 0;
    while i < |ordered|
      invariant i <= |ordered|
      invariant TurnState(turn, table, i, steps, db.accounts, notImpl)
    {
      var step;
      step, notImpl := Advance(db, matchers, rpcClient, env, handlers, tx, ordered, i, notImpl, table, steps);
      if step.Abort? {
        return Err(step.error);
      }
      steps := steps + [step];
      i := i + 1;
    }
    AllTurnsDone(turn, |ordered|, table, steps, db.accounts, notImpl, NotImplemented);
    if notImpl == |ordered| {
      return Err(NotImplemented);
    }
    r := Ok(());
  }

  /** The fold of the key set: the parsers' keys, then each indexable program. */
  method KeySet(keys: set<Pubkey>, programs: seq<Pubkey>) returns (hs: set<Pubkey>)
    ensures hs == keys + set k | k in programs
  {
    hs := keys;
    for i := 0 to |programs|
      invariant hs == keys + set j | 0 <= j < i :: programs[j]
    {
      hs := hs + {programs[i]};
    }
    assert (set j | 0 <= j < |programs| :: programs[j]) == set k | k in programs;
  }
}
