/**
 * `ProgramTransformer` of the `program_transformers` crate: its parser
 * registry, the routing of a transaction's instructions and of an account
 * update, the metadata-download request, and the retrying lookup.
 */
module Transformer {
  import opened Wrappers
  import opened Bytes
  import opened Values
  import opened Store
  import opened Instructions
  import opened TransformerErrors
  import opened Routing
  import BlockbusterErrors
  import CompressedData
  import NoopTransformer
  import HplPrograms

  // ---------------------------------------------------------------------
  // DownloadMetadataInfo

  /** `char::is_whitespace`: the characters with the Unicode White_Space property. */
  predicate IsWhitespace(c: char)
  {
    || ('\U{0009}' <= c <= '\U{000D}') || c == '\U{0020}' || c == '\U{0085}' || c == '\U{00A0}'
    || c == '\U{1680}' || ('\U{2000}' <= c <= '\U{200A}') || c == '\U{2028}' || c == '\U{2029}'
    || c == '\U{202F}' || c == '\U{205F}' || c == '\U{3000}'
  }

  function TrimStart(s: string): (r: string)
    ensures |r| <= |s| && r == s[|s| - |r|..]
    ensures |r| > 0 ==> !IsWhitespace(r[0])
    ensures forall i :: 0 <= i < |s| - |r| ==> IsWhitespace(s[i])
  {
    if |s| > 0 && IsWhitespace(s[0]) then TrimStart(s[1..]) else s
  }

  function TrimEnd(s: string): (r: string)
    ensures |r| <= |s| && r == s[..|r|]
    ensures |r| > 0 ==> !IsWhitespace(r[|r| - 1])
    ensures forall i :: |r| <= i < |s| ==> IsWhitespace(s[i])
  {
    if |s| > 0 && IsWhitespace(s[|s| - 1]) then TrimEnd(s[..|s| - 1]) else s
  }

  /** `str::trim`: leading and trailing whitespace removed. */
  function Trim(s: string): string
  {
    TrimEnd(TrimStart(s))
  }

  /** `replace('\0', "")`: every NUL removed, the other characters kept in order. */
  function RemoveNul(s: string): (r: string)
    ensures '\0' !in r
    ensures |r| <= |s|
    ensures '\0' !in s ==> r == s
    ensures forall c :: c in r ==> c in s
  {
    if |s| == 0 then []
    else (if s[0] == '\0' then [] else [s[0]]) + RemoveNul(s[1..])
  }

  datatype DownloadMetadataInfo = DownloadMetadataInfo(assetDataId: Bytes, uri: string)

  /** `DownloadMetadataInfo::new`: the uri is trimmed, then cleared of NULs. */
  function NewDownloadMetadataInfo(assetDataId: Bytes, uri: string): (r: DownloadMetadataInfo)
    ensures r.assetDataId == assetDataId
    ensures '\0' !in r.uri
    ensures |r.uri| <= |uri|
  {
    DownloadMetadataInfo(assetDataId, RemoveNul(Trim(uri)))
  }

  function IntoInner(info: DownloadMetadataInfo): (Bytes, string)
  {
    (info.assetDataId, info.uri)
  }

  /**
   * `into_inner` gives back what was passed to `new` whenever the uri had
   * no NUL and no whitespace at either end.
   */
  lemma DownloadMetadataRoundTrip(assetDataId: Bytes, uri: string)
    requires '\0' !in uri
    requires |uri| > 0 ==> !IsWhitespace(uri[0]) && !IsWhitespace(uri[|uri| - 1])
    ensures IntoInner(NewDownloadMetadataInfo(assetDataId, uri)) == (assetDataId, uri)
  {
  }

  /** Leading and trailing whitespace and NULs are all gone from a uri that is nothing else. */
  lemma {:induction false} BlankUriBecomesEmpty(assetDataId: Bytes, uri: string)
    requires forall i :: 0 <= i < |uri| ==> IsWhitespace(uri[i])
    ensures NewDownloadMetadataInfo(assetDataId, uri).uri == []
  {
    if |uri| > 0 {
      BlankUriBecomesEmpty(assetDataId, uri[1..]);
    }
  }

  /**
   * The trim runs before the NULs go, so whitespace in front of a trailing
   * NUL survives.
   */
  lemma TrimBeforeNulRemovalKeepsInnerSpace()
    ensures NewDownloadMetadataInfo([], "x \0").uri == "x "
  {
    assert TrimStart("x \0") == "x \0";
    assert TrimEnd("x \0") == "x \0";
    assert RemoveNul("x \0") == "x ";
  }

  // ---------------------------------------------------------------------
  // The parser registry

  /** The parsers `new` registers, in the order of its inserts. */
  const REGISTERED: seq<ParserKind> := [
    BubblegumParser, TokenMetadataParser, TokenAccountParser, MplCoreParser,
    CompressionParser, NoopProgramParser,
    HplParser(CharacterManager), HplParser(CurrencyManager), HplParser(HiveControl),
    HplParser(NectarStaking), HplParser(NectarMissions), HplParser(ResourceManager)]

  /** `From<BlockbusterError>`: a parser error becomes a parsing error; a panic stays a panic. */
  function FromBlockbuster(e: BlockbusterErrors.BlockbusterError): TransformerError
  {
    if e.Panicked? then Panicked else ParsingError
  }

  /** The errors of this crate that the routing step produces. */
  const ERRORS: ErrorKinds<TransformerError> := ErrorKinds(DeserializationError, FromBlockbuster)

  /** The steps of a whole transaction. */
  function Steps(parsers: map<Pubkey, ParserKind>, env: ParseEnv, handlers: Handlers<TransformerError>,
                 tx: TransactionInfo, ordered: seq<OrderedIx>): (s: seq<Step<TransformerError>>)
    ensures |s| == |ordered|
    ensures forall j :: 0 <= j < |ordered| ==> s[j] == RouteStep(parsers, env, handlers, ERRORS, tx, ordered[j])
  {
    seq(|ordered|, j requires 0 <= j < |ordered| => RouteStep(parsers, env, handlers, ERRORS, tx, ordered[j]))
  }


  /**
   * A noop instruction whose data is empty fails in the noop parser, and
   * that error aborts the transaction; once parsed, a noop instruction never
   * does, whatever its handler returns.
   */
  lemma NoopRouting(parsers: map<Pubkey, ParserKind>, env: ParseEnv, handlers: Handlers<TransformerError>,
                    tx: TransactionInfo, o: OrderedIx)
    requires o.outer.program in parsers && parsers[o.outer.program] == NoopProgramParser
    requires !MissingAccounts(tx.accountKeys, o.outer.instruction.accounts)
    ensures |o.outer.instruction.data| == 0 ==> RouteStep(parsers, env, handlers, ERRORS, tx, o) == Abort(ParsingError)
    ensures |o.outer.instruction.data| > 0 ==> RouteStep(parsers, env, handlers, ERRORS, tx, o) == Passed
  {
  }

  // ---------------------------------------------------------------------
  // What a transaction writes

  /** The noop instruction an ordered instruction parses to, when it reaches the noop parser and parses. */
  function NoopOf(parsers: map<Pubkey, ParserKind>, env: ParseEnv, tx: TransactionInfo, o: OrderedIx): Option<NoopInstruction>
  {
    if MissingAccounts(tx.accountKeys, o.outer.instruction.accounts) || o.outer.program !in parsers then None
    else
      match ParseInstruction(parsers[o.outer.program], BundleOf(tx.txnId, tx.slot, tx.accountKeys, o), env)
      case Ok(Noop(n)) => Some(n)
      case _ => None
  }

  /** The tables after routing one instruction: only a noop result writes, and its error is dropped. */
  function RouteTables(parsers: map<Pubkey, ParserKind>, env: ParseEnv, tk: CompressedData.Toolkit,
                       accounts: map<Bytes, AccountRow>, writesFail: bool, tx: TransactionInfo, o: OrderedIx, t: Tables): Tables
  {
    match NoopOf(parsers, env, tx, o)
    case None => t
    case Some(n) => NoopTransformer.NoopEffect(t, accounts, writesFail, tk, n).1
  }

  /** The turns of `handle_transaction`'s loop over `ordered`, the four tables as their state. */
  function TransactionTurn(parsers: map<Pubkey, ParserKind>, env: ParseEnv, handlers: Handlers<TransformerError>,
                           tk: CompressedData.Toolkit, accounts: map<Bytes, AccountRow>, writesFail: bool,
                           tx: TransactionInfo, ordered: seq<OrderedIx>): (nat, Tables) -> (Step<TransformerError>, Tables)
  {
    (i: nat, t: Tables) =>
      if i < |ordered| then
        (RouteStep(parsers, env, handlers, ERRORS, tx, ordered[i]), RouteTables(parsers, env, tk, accounts, writesFail, tx, ordered[i], t))
      else (Passed, t)
  }

  /** The result of `handle_transaction` and the tables after it. */
  function TransactionEffect(parsers: map<Pubkey, ParserKind>, env: ParseEnv, handlers: Handlers<TransformerError>,
                             tk: CompressedData.Toolkit, accounts: map<Bytes, AccountRow>, writesFail: bool,
                             tx: TransactionInfo, ordered: seq<OrderedIx>, t0: Tables): (Result<(), TransformerError>, Tables)
  {
    var (steps, t) := RunTurns(TransactionTurn(parsers, env, handlers, tk, accounts, writesFail, tx, ordered), |ordered|, t0);
    (Outcome(steps, NotImplemented), t)
  }

  /** The noop effects of the instructions of `ordered`, in order. */
  function ApplyNoops(parsers: map<Pubkey, ParserKind>, env: ParseEnv, tk: CompressedData.Toolkit,
                      accounts: map<Bytes, AccountRow>, writesFail: bool, tx: TransactionInfo, ordered: seq<OrderedIx>, t0: Tables): Tables
  {
    if ordered == [] then t0
    else RouteTables(parsers, env, tk, accounts, writesFail, tx, ordered[|ordered| - 1],
                     ApplyNoops(parsers, env, tk, accounts, writesFail, tx, ordered[..|ordered| - 1], t0))
  }

  /** After `n` turns the tables are the noop effects of the instructions routed so far, in order. */
  lemma {:induction false} RunTurnsAppliesNoops(parsers: map<Pubkey, ParserKind>, env: ParseEnv, handlers: Handlers<TransformerError>,
                                                tk: CompressedData.Toolkit, accounts: map<Bytes, AccountRow>, writesFail: bool,
                                                tx: TransactionInfo, ordered: seq<OrderedIx>, t0: Tables, n: nat)
    requires n <= |ordered|
    ensures var run := RunTurns(TransactionTurn(parsers, env, handlers, tk, accounts, writesFail, tx, ordered), n, t0);
      run.1 == ApplyNoops(parsers, env, tk, accounts, writesFail, tx, ordered[..|run.0|], t0)
  {
    var turn := TransactionTurn(parsers, env, handlers, tk, accounts, writesFail, tx, ordered);
    if n > 0 {
      RunTurnsAppliesNoops(parsers, env, handlers, tk, accounts, writesFail, tx, ordered, t0, n - 1);
      var prev := RunTurns(turn, n - 1, t0);
      if FirstAbort(prev.0).None? {
        RunTurnsSnoc(turn, n - 1, t0);
        assert turn(n - 1, prev.1).1 == RouteTables(parsers, env, tk, accounts, writesFail, tx, ordered[n - 1], prev.1);
        assert ordered[..n][..n - 1] == ordered[..n - 1];
      }
    }
  }

  /**
   * The tables `handle_transaction` leaves are the noop effects of the
   * instructions it routed, in order: every instruction when none aborts,
   * else those up to and including the first that aborts.
   */
  lemma TransactionTablesAreNoopFold(parsers: map<Pubkey, ParserKind>, env: ParseEnv, handlers: Handlers<TransformerError>,
                                     tk: CompressedData.Toolkit, accounts: map<Bytes, AccountRow>, writesFail: bool,
                                     tx: TransactionInfo, ordered: seq<OrderedIx>, t0: Tables)
    ensures var run := RunTurns(TransactionTurn(parsers, env, handlers, tk, accounts, writesFail, tx, ordered), |ordered|, t0);
      && (FirstAbort(run.0).None? ==> |run.0| == |ordered|)
      && (FirstAbort(run.0).Some? ==> |run.0| == FirstAbort(run.0).value + 1)
      && TransactionEffect(parsers, env, handlers, tk, accounts, writesFail, tx, ordered, t0).1
         == ApplyNoops(parsers, env, tk, accounts, writesFail, tx, ordered[..|run.0|], t0)
  {
    RunTurnsAppliesNoops(parsers, env, handlers, tk, accounts, writesFail, tx, ordered, t0, |ordered|);
    RunTurnsAbortIsLast(TransactionTurn(parsers, env, handlers, tk, accounts, writesFail, tx, ordered), |ordered|, t0);
  }

  /** A transaction none of whose instructions parses as a noop writes nothing. */
  lemma NoNoopsKeepTables(parsers: map<Pubkey, ParserKind>, env: ParseEnv, handlers: Handlers<TransformerError>,
                          tk: CompressedData.Toolkit, accounts: map<Bytes, AccountRow>, writesFail: bool,
                          tx: TransactionInfo, ordered: seq<OrderedIx>, t0: Tables)
    requires forall j :: 0 <= j < |ordered| ==> NoopOf(parsers, env, tx, ordered[j]).None?
    ensures TransactionEffect(parsers, env, handlers, tk, accounts, writesFail, tx, ordered, t0).1 == t0
  {
    var turn := TransactionTurn(parsers, env, handlers, tk, accounts, writesFail, tx, ordered);
    forall i: nat, t: Tables
      ensures turn(i, t).1 == t
    {
    }
    StateKeepingRun(turn, |ordered|, t0);
  }

  /** The result is the routing's alone: the tables never change a step. */
  lemma TransactionResultIsRouting(parsers: map<Pubkey, ParserKind>, env: ParseEnv, handlers: Handlers<TransformerError>,
                                   tk: CompressedData.Toolkit, accounts: map<Bytes, AccountRow>, writesFail: bool,
                                   tx: TransactionInfo, ordered: seq<OrderedIx>, t0: Tables)
    ensures var run := RunTurns(TransactionTurn(parsers, env, handlers, tk, accounts, writesFail, tx, ordered), |ordered|, t0);
      forall j :: 0 <= j < |run.0| ==> run.0[j] == RouteStep(parsers, env, handlers, ERRORS, tx, ordered[j])
  {
    var turn := TransactionTurn(parsers, env, handlers, tk, accounts, writesFail, tx, ordered);
    var steps := RunTurns(turn, |ordered|, t0).0;
    forall i: nat, t: Tables
      ensures turn(i, t).0 == turn(i, t0).0
    {
    }
    forall j | 0 <= j < |steps|
      ensures steps[j] == RouteStep(parsers, env, handlers, ERRORS, tx, ordered[j])
    {
      StateFreeStepAt(turn, |ordered|, t0, j);
    }
  }

  /** A parser whose result the transformer does not handle (an account-only parser) is counted. */
  lemma AccountResultsAreCounted(parsers: map<Pubkey, ParserKind>, env: ParseEnv, handlers: Handlers<TransformerError>,
                                 tx: TransactionInfo, o: OrderedIx)
    requires o.outer.program in parsers
    requires !MissingAccounts(tx.accountKeys, o.outer.instruction.accounts)
    requires var r := ParseInstruction(parsers[o.outer.program], BundleOf(tx.txnId, tx.slot, tx.accountKeys, o), env);
      r.Ok? && (r.value.Hpl? || r.value.UnknownResult? || r.value.TokenMetadata? || r.value.MplCore?)
    ensures RouteStep(parsers, env, handlers, ERRORS, tx, o) == Counted
  {
  }

  class ProgramTransformer {
    var parsers: map<Pubkey, ParserKind>
    var keySet: set<Pubkey>
    const clAudits: bool

    /** The key set is the parser map's key set, and each parser sits under its own key. */
    ghost predicate Valid()
      reads this
    {
      && keySet == parsers.Keys
      && forall key :: key in parsers ==> ParserKey(parsers[key]) == key
    }

    /** `ProgramTransformer::new`: one insert per registered parser, then the key set folded from the map. */
    constructor (clAudits: bool)
      ensures Valid()
      ensures parsers == Register(REGISTERED)
      ensures this.clAudits == clAudits
    {
      var m := RegisterParsers(REGISTERED);
      parsers := m;
      keySet := m.Keys;
      this.clAudits := clAudits;
    }

    /** `match_program`: the parser registered for `key`, if any. */
    function MatchProgram(key: Pubkey): (r: Option<ParserKind>)
      reads this
      ensures r.Some? <==> key in parsers
      ensures r.Some? ==> r.value == parsers[key]
      ensures Valid() ==> (r.Some? <==> key in keySet) && (r.Some? ==> ParserKey(r.value) == key)
    {
      if key in parsers then Some(parsers[key]) else None
    }

    /**
     * The body of `handle_transaction`'s loop for one ordered instruction:
     * the bounds check, the bundle, the parser and the handler of its result.
     */
    method RouteInstruction(db: Db, tk: CompressedData.Toolkit, env: ParseEnv, handlers: Handlers<TransformerError>,
                            tx: TransactionInfo, o: OrderedIx)
      returns (s: Step<TransformerError>)
      modifies db`trees, db`leaves, db`history, db`changelog
      ensures s == RouteStep(parsers, env, handlers, ERRORS, tx, o)
      ensures db.Compressed() == RouteTables(parsers, env, tk, db.accounts, db.writesFail, tx, o, old(db.Compressed()))
    {
      if MissingAccounts(tx.accountKeys, o.outer.instruction.accounts) {
        return Abort(DeserializationError);
      }
      var bundle := BundleOf(tx.txnId, tx.slot, tx.accountKeys, o);
      var parser := MatchProgram(o.outer.program);
      if parser.None? {
        return Passed;
      }
      var result := ParseInstruction(parser.value, bundle, env);
      if result.Err? {
        return Abort(FromBlockbuster(result.error));
      }
      match result.value {
        case Bubblegum(p) =>
          var handled := handlers.bubblegum(p, bundle);
          s := if handled.Err? then Abort(handled.error) else Passed;
        case AccountCompression(c) =>
          var handled := handlers.compression(c, bundle);
          s := if handled.Err? then Abort(handled.error) else Passed;
        case Noop(n) =>
          var _ := NoopTransformer.HandleNoopInstruction(db, tk, n);
          s := Passed;
        case _ =>
          s := Counted;
      }
    }

    /**
     * One turn of `handle_transaction`'s loop: an aborting instruction
     * decides the transaction and its tables, any other is one more step of
     * the run and raises the counter when it was counted.
     */
    method Advance(db: Db, tk: CompressedData.Toolkit, env: ParseEnv, handlers: Handlers<TransformerError>,
                   tx: TransactionInfo, ordered: seq<OrderedIx>, i: nat, notImpl: nat, ghost table: Tables,
                   ghost run: seq<Step<TransformerError>>)
      returns (s: Step<TransformerError>, counted: nat)
      requires i < |ordered|
      requires TurnState(TransactionTurn(parsers, env, handlers, tk, db.accounts, db.writesFail, tx, ordered), table, i, run, db.Compressed(), notImpl)
      modifies db`trees, db`leaves, db`history, db`changelog
      ensures s == RouteStep(parsers, env, handlers, ERRORS, tx, ordered[i])
      ensures counted == if s.Counted? then notImpl + 1 else notImpl
      ensures s.Abort? ==>
        TransactionEffect(parsers, env, handlers, tk, db.accounts, db.writesFail, tx, ordered, table) == (Err(s.error), db.Compressed())
      ensures !s.Abort? ==>
        TurnState(TransactionTurn(parsers, env, handlers, tk, db.accounts, db.writesFail, tx, ordered), table, i + 1, run + [s], db.Compressed(), counted)
    {
      ghost var before := db.Compressed();
      ghost var turn := TransactionTurn(parsers, env, handlers, tk, db.accounts, db.writesFail, tx, ordered);
      s := RouteInstruction(db, tk, env, handlers, tx, ordered[i]);
      assert turn(i, before) == (s, db.Compressed());
      if s.Abort? {
        AbortingTurnDecides(turn, |ordered|, table, i, run, before, notImpl, NotImplemented);
      } else {
        CleanTurnAdvances(turn, table, i, run, before, notImpl);
      }
      counted := if s.Counted? then notImpl + 1 else notImpl;
    }

    /**
     * `handle_transaction`: the ordered instructions are routed in turn; the
     * first error aborts, and a transaction whose every instruction reached
     * a parser with an unhandled result is `NotImplemented`. Noop results go
     * to the noop transformer and its errors are dropped.
     */
    method HandleTransaction(db: Db, tk: CompressedData.Toolkit, env: ParseEnv, handlers: Handlers<TransformerError>,
                             tx: TransactionInfo, ordered: seq<OrderedIx>)
      returns (r: Result<(), TransformerError>)
      modifies db`trees, db`leaves, db`history, db`changelog
      ensures r == Outcome(Steps(parsers, env, handlers, tx, ordered), NotImplemented)
      ensures (r, db.Compressed()) == TransactionEffect(parsers, env, handlers, tk, db.accounts, db.writesFail, tx, ordered, old(db.Compressed()))
    {
      ghost var steps := Steps(parsers, env, handlers, tx, ordered);
      ghost var table := db.Compressed();
      ghost var turn := TransactionTurn(parsers, env, handlers, tk, db.accounts, db.writesFail, tx, ordered);
      ghost var run: seq<Step<TransformerError>> := [];
      var notImpl := 0;
      var i := 0;
      while i < |ordered|
        invariant 0 <= i <= |ordered|
        invariant FirstAbort(steps[..i]).None?
        invariant notImpl == CountCounted(steps[..i])
        invariant TurnState(turn, table, i, run, db.Compressed(), notImpl)
      {
        var step;
        step, notImpl := Advance(db, tk, env, handlers, tx, ordered, i, notImpl, table, run);
        if step.Abort? {
          AbortAt(steps, i);
          return Err(step.error);
        }
        PrefixStep(steps, i);
        run := run + [step];
        i := i + 1;
      }
      assert steps[..i] == steps;
      AllTurnsDone(turn, |ordered|, table, run, db.Compressed(), notImpl, NotImplemented);
      if notImpl == |ordered| {
        return Err(NotImplemented);
      }
      r := Ok(());
    }

    /**
     * `handle_account_update`: an owner without a parser is `Ok`; the token
     * metadata, token and mpl-core results go to their handlers, the
     * Honeycomb ones are saved, the rest is `NotImplemented`.
     */
    method HandleAccountUpdate(db: Db, env: ParseEnv, accountHandler: (ParseResult, AccountInfo) -> Result<(), TransformerError>,
                               info: AccountInfo)
      returns (r: Result<(), TransformerError>)
      modifies db`accounts
      ensures info.owner !in parsers ==> r == Ok(()) && db.accounts == old(db.accounts)
      ensures info.owner in parsers ==>
        match ParseAccountData(parsers[info.owner], info.data, env)
        case Err(e) => r == Err(FromBlockbuster(e)) && db.accounts == old(db.accounts)
        case Ok(Hpl(p, a)) =>
          var q := HplPrograms.SaveRequestFor(p, info, a);
          && (q.Err? ==> r == Err(NotImplemented) && db.accounts == old(db.accounts))
          && (q.Ok? && db.writesFail ==> r == Err(StorageWriteError) && db.accounts == old(db.accounts))
          && (q.Ok? && !db.writesFail ==> r == Ok(()) && db.accounts == HplPrograms.SavedAccounts(old(db.accounts), q.value))
        case Ok(result) =>
          && db.accounts == old(db.accounts)
          && (result.TokenMetadata? || result.TokenProgramAccount? || result.MplCore? ==> r == accountHandler(result, info))
          && (!(result.TokenMetadata? || result.TokenProgramAccount? || result.MplCore?) ==> r == Err(NotImplemented))
    {
      var parser := MatchProgram(info.owner);
      if parser.None? {
        return Ok(());
      }
      var result := ParseAccountData(parser.value, info.data, env);
      if result.Err? {
        return Err(FromBlockbuster(result.error));
      }
      match result.value {
        case TokenMetadata(_) => r := accountHandler(result.value, info);
        case TokenProgramAccount(_) => r := accountHandler(result.value, info);
        case MplCore(_) => r := accountHandler(result.value, info);
        case Hpl(p, a) => r := HplPrograms.HandleHplAccount(db, p, info, a);
        case _ => r := Err(NotImplemented);
      }
    }
  }

  // ---------------------------------------------------------------------
  // find_model_with_retry

  datatype DbErr = DbErr

  /** The lookups' answer when the `n` attempts from `i` on are still to be made. */
  function Lookup<M>(query: nat -> Result<Option<M>, DbErr>, i: nat, n: nat): (r: Result<Option<M>, DbErr>)
    requires i <= n
    decreases n - i
  {
    if i == n then Ok(None)
    else
      match query(i)
      case Err(e) => Err(e)
      case Ok(Some(m)) => Ok(Some(m))
      case Ok(None) => Lookup(query, i + 1, n)
  }

  /** The number of attempts `Lookup` makes. */
  function Attempts<M>(query: nat -> Result<Option<M>, DbErr>, i: nat, n: nat): (k: nat)
    requires i <= n
    ensures k <= n - i
    decreases n - i
  {
    if i == n then 0
    else if query(i) != Ok(None) then 1
    else 1 + Attempts(query, i + 1, n)
  }

  /** The result is the first answer that is not "nothing yet"; all-empty answers give `Ok(None)`. */
  lemma {:induction false} LookupFirstFound<M>(query: nat -> Result<Option<M>, DbErr>, i: nat, n: nat)
    requires i <= n
    ensures Lookup(query, i, n).Ok? && Lookup(query, i, n).value.Some? ==>
      exists j :: i <= j < n && query(j) == Lookup(query, i, n) && forall l :: i <= l < j ==> query(l) == Ok(None)
    ensures (forall l :: i <= l < n ==> query(l) == Ok(None)) <==> Lookup(query, i, n) == Ok(None)
    decreases n - i
  {
    if i < n {
      LookupFirstFound(query, i + 1, n);
      if query(i) == Ok(None) && Lookup(query, i, n).Ok? && Lookup(query, i, n).value.Some? {
        var j :| i + 1 <= j < n && query(j) == Lookup(query, i + 1, n) && forall l :: i + 1 <= l < j ==> query(l) == Ok(None);
        assert forall l :: i <= l < j ==> query(l) == Ok(None);
      }
    }
  }

  /** The retry count the failure metric records, as written: `retries - 1` on a `u32`. */
  function FailureRetryCountAsWritten(retries: U32): (r: Option<U32>)
    ensures r.None? <==> retries == 0
    ensures r.Some? ==> r.value + 1 == retries
  {
    if retries == 0 then None else Some(retries - 1)
  }

  /** With no retry intervals the loop never runs and the subtraction underflows. */
  lemma EmptyIntervalsUnderflow()
    ensures FailureRetryCountAsWritten(0).None?
  {
  }

  /** The count evidently meant: attempts after the first, and 0 when there were none. */
  function FailureRetryCount(retries: U32): (r: U32)
    ensures retries > 0 ==> Some(r) == FailureRetryCountAsWritten(retries)
    ensures retries == 0 ==> r == 0
    ensures r <= retries
  {
    if retries == 0 then 0 else retries - 1
  }

  /**
   * `find_model_with_retry`: one sleep before each attempt, the first model
   * found is returned, a database error returns at once, and after every
   * interval the answer is `Ok(None)` with the failure metric recorded.
   * `query(i)` is the answer of the `i`-th attempt.
   */
  method FindModelWithRetry<M>(intervals: seq<U64>, query: nat -> Result<Option<M>, DbErr>)
    returns (r: Result<Option<M>, DbErr>, slept: seq<U64>, metric: Option<(bool, U32)>)
    requires |intervals| < U32_LIMIT
    ensures r == Lookup(query, 0, |intervals|)
    ensures slept == intervals[..Attempts(query, 0, |intervals|)]
    ensures r.Ok? && r.value.Some? ==> metric == Some((true, |slept| - 1))
    ensures r == Ok(None) ==> |slept| == |intervals| && metric == Some((false, FailureRetryCount(|intervals|)))
    ensures r.Err? ==> metric.None?
  {
    var retries: U32 := 0;
    slept := [];
    var i := 0;
    while i < |intervals|
      invariant 0 <= i <= |intervals| && retries == i
      invariant slept == intervals[..i]
      invariant Lookup(query, 0, |intervals|) == Lookup(query, i, |intervals|)
      invariant Attempts(query, 0, |intervals|) == i + Attempts(query, i, |intervals|)
    {
      slept := slept + [intervals[i]];
      var model := query(i);
      if model.Err? {
        assert slept == intervals[..i + 1];
        return Err(model.error), slept, None;
      }
      if model.value.Some? {
        assert slept == intervals[..i + 1];
        return Ok(model.value), slept, Some((true, retries));
      }
      retries := retries + 1;
      i := i + 1;
    }
    r := Ok(None);
    metric := Some((false, FailureRetryCount(retries)));
  }
}
