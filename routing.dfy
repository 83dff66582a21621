/**
 * What the two transformers share when they route a transaction: the
 * parsers they can register, how a parser turns an instruction or account
 * data into a parse result, the account-index mapping with its bounds
 * check, and the counting rule that makes a transaction `NotImplemented`.
 */
module Routing {
  import opened Wrappers
  import opened Bytes
  import opened Values
  import opened Instructions
  import opened BlockbusterErrors
  import ProgramIds
  import HplAccounts
  import Compression = AccountCompressionParser
  import NoopIx = NoopParser

  /** The parser structs of blockbuster that the transformers register. */
  datatype ParserKind =
    | BubblegumParser
    | TokenMetadataParser
    | TokenAccountParser
    | MplCoreParser
    | CompressionParser
    | NoopProgramParser
    | HplParser(program: HplProgram)

  /** `key()` of each parser. */
  function ParserKey(kind: ParserKind): Pubkey
  {
    match kind
    case BubblegumParser => ProgramIds.BUBBLEGUM_ID
    case TokenMetadataParser => ProgramIds.TOKEN_METADATA_ID
    case TokenAccountParser => ProgramIds.TOKEN_PROGRAM_ID
    case MplCoreParser => ProgramIds.MPL_CORE_ID
    case CompressionParser => ProgramIds.ACCOUNT_COMPRESSION_ID
    case NoopProgramParser => ProgramIds.NOOP_ID
    case HplParser(p) => HplAccounts.Key(p)
  }

  /**
   * The decoders the parsers rely on. The bubblegum, token-metadata, token
   * and mpl-core parsers, and the instruction side of the Honeycomb parsers,
   * are not part of this model: `otherInstruction` and `otherAccount` stand
   * for them.
   */
  datatype ParseEnv = ParseEnv(
    otherInstruction: (ParserKind, InstructionBundle) -> Result<ParseResult, BlockbusterError>,
    otherAccount: (ParserKind, Bytes) -> Result<ParseResult, BlockbusterError>,
    compressionArgs: Compression.ArgDecoders,
    decodeEvent: Bytes -> Option<AccountCompressionEvent>,
    decodeAccount: HplAccounts.AccountDecoder)

  /** `handle_instruction` of the registered parser, with its result viewed as `result_type()`. */
  function ParseInstruction(kind: ParserKind, bundle: InstructionBundle, env: ParseEnv): (r: Result<ParseResult, BlockbusterError>)
    ensures kind.NoopProgramParser? ==>
      match NoopIx.HandleInstruction(bundle, env.decodeEvent)
      case Ok(n) => r == Ok(Noop(n))
      case Err(e) => r == Err(e)
    ensures kind.CompressionParser? && r.Ok? ==> r.value.AccountCompression?
  {
    match kind
    case CompressionParser =>
      (match Compression.ParsedInstruction(bundle, env.compressionArgs, env.decodeEvent)
       case Ok(c) => Ok(AccountCompression(c))
       case Err(e) => Err(e))
    case NoopProgramParser =>
      (match NoopIx.HandleInstruction(bundle, env.decodeEvent)
       case Ok(n) => Ok(Noop(n))
       case Err(e) => Err(e))
    case _ => env.otherInstruction(kind, bundle)
  }

  /**
   * `handle_account` of the registered parser: the Honeycomb parsers decode
   * the data, the compression and noop parsers answer `NotUsed`, whose
   * result type is `Unknown`.
   */
  function ParseAccountData(kind: ParserKind, data: Bytes, env: ParseEnv): (r: Result<ParseResult, BlockbusterError>)
    ensures (kind.CompressionParser? || kind.NoopProgramParser?) ==> r == Ok(UnknownResult)
    ensures kind.HplParser? && r.Ok? ==> r.value.Hpl? && r.value.program == kind.program
    ensures kind.HplParser? && |data| == 0 ==> r == Ok(Hpl(kind.program, Uninitialized))
  {
    match kind
    case CompressionParser => Ok(UnknownResult)
    case NoopProgramParser => Ok(UnknownResult)
    case HplParser(p) =>
      (match HplAccounts.ParseAccount(p, data, env.decodeAccount)
       case Ok(a) => Ok(Hpl(p, a))
       case Err(e) => Err(e))
    case _ => env.otherAccount(kind, data)
  }

  /** One entry of `order_instructions`: an outer instruction with its inner instructions. */
  datatype OrderedIx = OrderedIx(outer: IxPair, inner: Option<seq<IxPair>>)

  /**
   * The instruction handlers of the programs whose transformers are not part
   * of this model (bubblegum and account compression), each giving the
   * handler's result.
   */
  datatype Handlers<E> = Handlers(
    bubblegum: (Value, InstructionBundle) -> Result<(), E>,
    compression: (AccountCompressionInstruction, InstructionBundle) -> Result<(), E>)

  /** The bundle the transformers build for one ordered instruction. */
  function BundleOf(txnId: string, slot: U64, keys: seq<Pubkey>, o: OrderedIx): (b: InstructionBundle)
    ensures b.program == o.outer.program && b.instruction == Some(o.outer.instruction)
    ensures b.innerIx == o.inner && b.slot == slot && b.txnId == txnId
    ensures b.keys == KeysOf(keys, o.outer.instruction.accounts)
  {
    InstructionBundle(txnId, o.outer.program, Some(o.outer.instruction), o.inner, KeysOf(keys, o.outer.instruction.accounts), slot)
  }

  /** A map holding each parser of `kinds` under its own key; a later parser with the same key replaces an earlier one. */
  function Register(kinds: seq<ParserKind>): (m: map<Pubkey, ParserKind>)
    ensures m.Keys == set k | k in kinds :: ParserKey(k)
    ensures forall key :: key in m ==> ParserKey(m[key]) == key && m[key] in kinds
  {
    if |kinds| == 0 then map[]
    else Register(kinds[..|kinds| - 1])[ParserKey(kinds[|kinds| - 1]) := kinds[|kinds| - 1]]
  }

  /** The inserts of a transformer's `new`: each parser under its key, a later insert replacing an earlier one. */
  method RegisterParsers(kinds: seq<ParserKind>) returns (m: map<Pubkey, ParserKind>)
    ensures m == Register(kinds)
  {
    m := map[];
    for i := 0 to |kinds|
      invariant m == Register(kinds[..i])
    {
      assert kinds[..i + 1][..i] == kinds[..i];
      m := m[ParserKey(kinds[i]) := kinds[i]];
    }
    assert kinds[..|kinds|] == kinds;
  }

  /** The transaction as the transformers receive it; `txnId` is the signature's text form. */
  datatype TransactionInfo = TransactionInfo(slot: U64, txnId: string, accountKeys: seq<Pubkey>)

  /** How a crate names the two errors the routing step raises itself. */
  datatype ErrorKinds<E> = ErrorKinds(missingAccounts: E, fromParser: BlockbusterError -> E)

  /**
   * What one ordered instruction does to the transaction: the bounds check,
   * the parser registered for its program, and the handler of the parse
   * result. Bubblegum and account-compression handler errors abort; noop
   * results are never counted and their handler's errors are dropped.
   */
  function RouteStep<E>(parsers: map<Pubkey, ParserKind>, env: ParseEnv, handlers: Handlers<E>, errs: ErrorKinds<E>,
                        tx: TransactionInfo, o: OrderedIx): (s: Step<E>)
    ensures MissingAccounts(tx.accountKeys, o.outer.instruction.accounts) ==> s == Abort(errs.missingAccounts)
    ensures !MissingAccounts(tx.accountKeys, o.outer.instruction.accounts) && o.outer.program !in parsers ==> s == Passed
    ensures s.Counted? ==>
      && o.outer.program in parsers
      && var r := ParseInstruction(parsers[o.outer.program], BundleOf(tx.txnId, tx.slot, tx.accountKeys, o), env);
         r.Ok? && !r.value.Bubblegum? && !r.value.AccountCompression? && !r.value.Noop?
  {
    if MissingAccounts(tx.accountKeys, o.outer.instruction.accounts) then Abort(errs.missingAccounts)
    else if o.outer.program !in parsers then Passed
    else
      var bundle := BundleOf(tx.txnId, tx.slot, tx.accountKeys, o);
      match ParseInstruction(parsers[o.outer.program], bundle, env)
      case Err(e) => Abort(errs.fromParser(e))
      case Ok(Bubblegum(p)) => if handlers.bubblegum(p, bundle).Err? then Abort(handlers.bubblegum(p, bundle).error) else Passed
      case Ok(AccountCompression(c)) => if handlers.compression(c, bundle).Err? then Abort(handlers.compression(c, bundle).error) else Passed
      case Ok(Noop(_)) => Passed
      case Ok(_) => Counted
  }

  /** The largest account index of an instruction, 0 when it has none. */
  function MaxIndex(accounts: seq<U8>): (m: nat)
    ensures forall i :: 0 <= i < |accounts| ==> accounts[i] <= m
    ensures |accounts| == 0 ==> m == 0
    ensures |accounts| > 0 ==> m in accounts
  {
    if |accounts| == 0 then 0
    else
      var rest := MaxIndex(accounts[1..]);
      assert forall i :: 1 <= i < |accounts| ==> accounts[i] == accounts[1..][i - 1];
      if accounts[0] >= rest then accounts[0] else rest
  }

  /** The bounds check: more keys are needed than the transaction has. */
  predicate MissingAccounts(keys: seq<Pubkey>, accounts: seq<U8>)
  {
    |keys| < MaxIndex(accounts)
  }

  /** The instruction's keys: the transaction's keys at its indices, in order, out-of-range indices skipped. */
  function KeysOf(keys: seq<Pubkey>, accounts: seq<U8>): (r: seq<Pubkey>)
    ensures |r| <= |accounts|
  {
    if |accounts| == 0 then []
    else
      var front := KeysOf(keys, accounts[..|accounts| - 1]);
      var a := accounts[|accounts| - 1];
      if a < |keys| then front + [keys[a]] else front
  }

  /** With every index in range, the mapping is positional. */
  lemma {:induction false} KeysOfInRange(keys: seq<Pubkey>, accounts: seq<U8>)
    requires forall i :: 0 <= i < |accounts| ==> accounts[i] < |keys|
    ensures |KeysOf(keys, accounts)| == |accounts|
    ensures forall i :: 0 <= i < |accounts| ==> KeysOf(keys, accounts)[i] == keys[accounts[i]]
  {
    if |accounts| > 0 {
      KeysOfInRange(keys, accounts[..|accounts| - 1]);
    }
  }

  /** An index past the end is skipped, so the mapped keys are one fewer. */
  lemma {:induction false} KeysOfSkipsOutOfRange(keys: seq<Pubkey>, accounts: seq<U8>, a: U8)
    requires a >= |keys|
    ensures KeysOf(keys, accounts + [a]) == KeysOf(keys, accounts)
  {
    assert (accounts + [a])[..|accounts|] == accounts;
  }

  /**
   * An index equal to the number of keys passes the bounds check (the check
   * is `len < max`) and then contributes no key.
   */
  lemma IndexEqualToLengthPassesAndIsDropped(keys: seq<Pubkey>)
    requires |keys| < 256
    ensures !MissingAccounts(keys, [|keys|])
    ensures KeysOf(keys, [|keys|]) == []
  {
  }

  /** What one ordered instruction does to the transaction. */
  datatype Step<E> =
    | Abort(error: E)  // an error returned with `?`
    | Counted          // a parser matched but its result type is not handled: `not_impl += 1`
    | Passed           // handled, or no parser for the program

  /** The number of `Counted` steps. */
  function CountCounted<E>(steps: seq<Step<E>>): (n: nat)
    ensures n <= |steps|
  {
    if |steps| == 0 then 0
    else CountCounted(steps[..|steps| - 1]) + (if steps[|steps| - 1].Counted? then 1 else 0)
  }

  /** The index of the first abort, if any. */
  function FirstAbort<E>(steps: seq<Step<E>>): (r: Option<nat>)
    ensures r.Some? ==> r.value < |steps| && steps[r.value].Abort? && forall j :: 0 <= j < r.value ==> !steps[j].Abort?
    ensures r.None? ==> forall j :: 0 <= j < |steps| ==> !steps[j].Abort?
  {
    if |steps| == 0 then None
    else if steps[0].Abort? then Some(0)
    else
      match FirstAbort(steps[1..])
      case Some(i) => Some(i + 1)
      case None => None
  }

  /**
   * The transaction's result: the first aborting error; else
   * `NotImplemented` when every instruction was counted (zero instructions
   * included); else `Ok`.
   */
  function Outcome<E>(steps: seq<Step<E>>, notImplemented: E): (r: Result<(), E>)
    ensures FirstAbort(steps).Some? ==> r == Err(steps[FirstAbort(steps).value].error)
    ensures FirstAbort(steps).None? ==> (r == Ok(()) <==> CountCounted(steps) != |steps|)
    ensures FirstAbort(steps).None? && r.Err? ==> r.error == notImplemented
  {
    match FirstAbort(steps)
    case Some(i) => Err(steps[i].error)
    case None => if CountCounted(steps) == |steps| then Err(notImplemented) else Ok(())
  }

  /** A transaction with no instructions is `NotImplemented`. */
  lemma NoInstructionsNotImplemented<E>(notImplemented: E)
    ensures Outcome([], notImplemented) == Err(notImplemented)
  {
  }

  lemma {:induction false} CountCountedNone<E>(steps: seq<Step<E>>)
    requires forall j :: 0 <= j < |steps| ==> steps[j].Passed?
    ensures CountCounted(steps) == 0
  {
    if |steps| > 0 {
      CountCountedNone(steps[..|steps| - 1]);
    }
  }

  lemma {:induction false} CountCountedAll<E>(steps: seq<Step<E>>)
    requires forall j :: 0 <= j < |steps| ==> steps[j].Counted?
    ensures CountCounted(steps) == |steps|
  {
    if |steps| > 0 {
      CountCountedAll(steps[..|steps| - 1]);
    }
  }

  /** Instructions that are handled or unmatched are never counted: a non-empty run of them is `Ok`. */
  lemma PassedOnlyIsOk<E>(steps: seq<Step<E>>, notImplemented: E)
    requires |steps| > 0
    requires forall j :: 0 <= j < |steps| ==> steps[j].Passed?
    ensures Outcome(steps, notImplemented) == Ok(())
  {
    CountCountedNone(steps);
  }

  /** Instructions that all reach a parser whose result is unhandled make the transaction `NotImplemented`. */
  lemma CountedOnlyIsNotImplemented<E>(steps: seq<Step<E>>, notImplemented: E)
    requires forall j :: 0 <= j < |steps| ==> steps[j].Counted?
    ensures Outcome(steps, notImplemented) == Err(notImplemented)
  {
    CountCountedAll(steps);
  }

  /** An abort after a clean prefix is the first one. */
  lemma AbortAt<E>(steps: seq<Step<E>>, i: nat)
    requires i < |steps| && steps[i].Abort?
    requires FirstAbort(steps[..i]).None?
    ensures FirstAbort(steps) == Some(i)
  {
    assert forall j :: 0 <= j < i ==> steps[j] == steps[..i][j];
  }

  /** A clean prefix stays clean exactly when the next step does not abort. */
  lemma FirstAbortSnoc<E>(prefix: seq<Step<E>>, s: Step<E>)
    requires FirstAbort(prefix).None?
    ensures FirstAbort(prefix + [s]) == if s.Abort? then Some(|prefix|) else None
  {
    assert (prefix + [s])[..|prefix|] == prefix;
    if s.Abort? {
      AbortAt(prefix + [s], |prefix|);
    } else {
      assert forall j :: 0 <= j < |prefix| ==> (prefix + [s])[j] == prefix[j];
    }
  }

  /** The counter the loop keeps, one step at a time. */
  lemma CountCountedSnoc<E>(steps: seq<Step<E>>, s: Step<E>)
    ensures CountCounted(steps + [s]) == CountCounted(steps) + (if s.Counted? then 1 else 0)
  {
    assert (steps + [s])[..|steps|] == steps;
  }

  /** One more step of a transaction's steps that does not abort: the prefix stays clean and the counter follows. */
  lemma PrefixStep<E>(steps: seq<Step<E>>, i: nat)
    requires i < |steps| && !steps[i].Abort?
    requires FirstAbort(steps[..i]).None?
    ensures FirstAbort(steps[..i + 1]).None?
    ensures CountCounted(steps[..i + 1]) == CountCounted(steps[..i]) + (if steps[i].Counted? then 1 else 0)
  {
    assert steps[..i + 1] == steps[..i] + [steps[i]];
    FirstAbortSnoc(steps[..i], steps[i]);
    CountCountedSnoc(steps[..i], steps[i]);
  }

  // ---------------------------------------------------------------------
  // A transaction loop whose turns also change a state

  /**
   * The steps of the first `n` turns of a loop from state `t0`: turn `i` yields
   * its step and the next state, and no turn runs after one that aborts.
   */
  function RunTurns<E, T>(turn: (nat, T) -> (Step<E>, T), n: nat, t0: T): (r: (seq<Step<E>>, T))
    ensures |r.0| <= n
    ensures FirstAbort(r.0).None? ==> |r.0| == n
  {
    if n == 0 then ([], t0)
    else
      var (steps, t) := RunTurns(turn, n - 1, t0);
      if FirstAbort(steps).Some? then (steps, t)
      else
        var (s, t2) := turn(n - 1, t);
        FirstAbortSnoc(steps, s);
        (steps + [s], t2)
  }

  /** One more turn after a run without abort appends its step and takes its state. */
  lemma RunTurnsSnoc<E, T>(turn: (nat, T) -> (Step<E>, T), k: nat, t0: T)
    requires FirstAbort(RunTurns(turn, k, t0).0).None?
    ensures var run := RunTurns(turn, k, t0);
      RunTurns(turn, k + 1, t0) == (run.0 + [turn(k, run.1).0], turn(k, run.1).1)
  {
  }

  /** Once a turn aborts, the later turns change nothing. */
  lemma {:induction false} RunTurnsStopAtAbort<E, T>(turn: (nat, T) -> (Step<E>, T), k: nat, n: nat, t0: T)
    requires k <= n
    requires FirstAbort(RunTurns(turn, k, t0).0).Some?
    ensures RunTurns(turn, n, t0) == RunTurns(turn, k, t0)
    decreases n - k
  {
    if k < n {
      RunTurnsStopAtAbort(turn, k, n - 1, t0);
    }
  }

  /** A run ends with its first abort, when it has one. */
  lemma {:induction false} RunTurnsAbortIsLast<E, T>(turn: (nat, T) -> (Step<E>, T), n: nat, t0: T)
    ensures var steps := RunTurns(turn, n, t0).0;
      FirstAbort(steps).Some? ==> FirstAbort(steps).value == |steps| - 1
  {
    if n > 0 {
      RunTurnsAbortIsLast(turn, n - 1, t0);
      var (prev, t) := RunTurns(turn, n - 1, t0);
      if FirstAbort(prev).None? {
        FirstAbortSnoc(prev, turn(n - 1, t).0);
      }
    }
  }

  /** A later turn leaves the earlier steps as they were. */
  lemma RunTurnsKeepEarlierSteps<E, T>(turn: (nat, T) -> (Step<E>, T), n: nat, t0: T, j: nat)
    requires 0 < n && j < |RunTurns(turn, n - 1, t0).0|
    ensures j < |RunTurns(turn, n, t0).0| && RunTurns(turn, n, t0).0[j] == RunTurns(turn, n - 1, t0).0[j]
  {
  }

  /** When no turn's step depends on the state, the `j`-th step is turn `j`'s step from any state. */
  lemma {:induction false} StateFreeStepAt<E, T>(turn: (nat, T) -> (Step<E>, T), n: nat, t0: T, j: nat)
    requires forall i: nat, t: T :: turn(i, t).0 == turn(i, t0).0
    requires j < |RunTurns(turn, n, t0).0|
    ensures RunTurns(turn, n, t0).0[j] == turn(j, t0).0
  {
    var (prev, t) := RunTurns(turn, n - 1, t0);
    if j < |prev| {
      RunTurnsKeepEarlierSteps(turn, n, t0, j);
      StateFreeStepAt(turn, n - 1, t0, j);
    } else {
      assert FirstAbort(prev).None? && |prev| == n - 1 == j;
      assert RunTurns(turn, n, t0).0[j] == turn(j, t).0;
    }
  }

  /** When no turn changes the state, the run leaves it as it found it. */
  lemma {:induction false} StateKeepingRun<E, T>(turn: (nat, T) -> (Step<E>, T), n: nat, t0: T)
    requires forall i: nat, t: T :: turn(i, t).1 == t
    ensures RunTurns(turn, n, t0).1 == t0
  {
    if n > 0 {
      StateKeepingRun(turn, n - 1, t0);
    }
  }

  /** What a loop over the turns knows after `i` turns that did not abort, with its counter. */
  ghost predicate TurnState<E, T>(turn: (nat, T) -> (Step<E>, T), t0: T, i: nat, steps: seq<Step<E>>, t: T, counted: nat)
  {
    && (steps, t) == RunTurns(turn, i, t0)
    && FirstAbort(steps).None?
    && counted == CountCounted(steps)
  }

  /** A turn that aborts decides the outcome of all `n` turns and the state they leave. */
  lemma AbortingTurnDecides<E, T>(turn: (nat, T) -> (Step<E>, T), n: nat, t0: T, i: nat, steps: seq<Step<E>>, t: T,
                                  counted: nat, notImplemented: E)
    requires i < n && TurnState(turn, t0, i, steps, t, counted)
    requires turn(i, t).0.Abort?
    ensures var run := RunTurns(turn, n, t0);
      run.1 == turn(i, t).1 && Outcome(run.0, notImplemented) == Err(turn(i, t).0.error)
  {
    RunTurnsSnoc(turn, i, t0);
    FirstAbortSnoc(steps, turn(i, t).0);
    RunTurnsStopAtAbort(turn, i + 1, n, t0);
  }

  /** A turn that does not abort is one more step, and raises the counter when it is counted. */
  lemma CleanTurnAdvances<E, T>(turn: (nat, T) -> (Step<E>, T), t0: T, i: nat, steps: seq<Step<E>>, t: T, counted: nat)
    requires TurnState(turn, t0, i, steps, t, counted)
    requires !turn(i, t).0.Abort?
    ensures TurnState(turn, t0, i + 1, steps + [turn(i, t).0], turn(i, t).1,
                      if turn(i, t).0.Counted? then counted + 1 else counted)
  {
    RunTurnsSnoc(turn, i, t0);
    FirstAbortSnoc(steps, turn(i, t).0);
    CountCountedSnoc(steps, turn(i, t).0);
  }

  /** After all `n` turns without abort: the outcome is `notImplemented` exactly when every step was counted. */
  lemma AllTurnsDone<E, T>(turn: (nat, T) -> (Step<E>, T), n: nat, t0: T, steps: seq<Step<E>>, t: T, counted: nat,
                           notImplemented: E)
    requires TurnState(turn, t0, n, steps, t, counted)
    ensures Outcome(RunTurns(turn, n, t0).0, notImplemented) == if counted == n then Err(notImplemented) else Ok(())
    ensures RunTurns(turn, n, t0).1 == t
  {
  }
}
