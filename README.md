# Honeycomb digital-asset indexer core, modelled in Dafny

This project models the indexing core of Honeycomb Protocol's fork of the
digital-asset RPC infrastructure. The core consists of:

- the **ingress** (`grpc-ingest`), which receives account and transaction
  updates from Geyser gRPC endpoints, de-duplicates them in an LRU cache and
  batches them into Redis stream pipelines;
- the **acknowledgement rules** of the ingester's stream workers
  (`nft_ingester`), which decide which stream messages are acked or left for
  redelivery;
- the **program transformers**, in both copies:
  - `program_transformers` routes each ordered instruction of a transaction
    to its registered parser and counts instructions that are not
    implemented;
  - the older `nft_ingester` copy additionally waits for slot confirmation
    and re-reads Honeycomb account schemas through a simulated
    `__account_schemas` instruction;
- the **parsers** of the noop and account-compression programs and of the six
  Honeycomb (HPL) programs, and the HPL account writers;
- the **compressed-data materializer**: `merkle_tree`, `compressed_data`,
  `compressed_data_changelog` and `character_history`, including the
  character `used_by` history and the mission reward arithmetic, plus the
  legacy materializer of the ingester;
- the **token-2022 token-account projection** onto the `asset` table;
- the **bubblegum backfiller**: gap detection over `cl_audits_v2`, the gap
  worker's plan, the signature crawl, tree discovery and the re-queueing of
  fetched transactions.

## How the model is built

- **State.** Database tables are fields of one `Store.Db` class. The
  handlers are methods that modify named fields. Each method is proved equal
  to a function of the old state, and the properties are lemmas about those
  functions.
- **Failing connections.** A failing connection is the flag
  `Db.writesFail`: either every write statement of an operation fails or
  none does. Reads never fail in the model.
- **JSON values.** hpl_toolkit's `SchemaValue` and the JSON values the
  database stores are one datatype, `Values.Value`. Every `.into()` between
  them is the identity.
- **Foreign functions.** These become function-typed parameters, grouped
  into small datatypes (`Toolkit`, `ParseEnv`, `Chain`, `CrawlEnv`, `Codec`).
  This covers:
  - Borsh decoding and encoding;
  - `Schema::validate`;
  - `is_on_curve`;
  - base58 and base64;
  - every RPC and Redis call;
  - the bubblegum, token-metadata, token and mpl-core parsers and handlers.
- **Keccak.** The leaf id `keccak(tree || le32(leaf_idx))` is modelled by
  its pre-image, and its injectivity is proved.
- **Panics.** Every `unwrap`, slice index or `split_at` that can panic becomes
  an explicit `Panicked` error variant.
- **Integers.** `u64` wrap-around and `as i64` casts are written out in
  `Bytes.WrapU64` and `Bytes.AsI64`.

Two facts about the writes shape the lemmas below:

- **No watermark guard.** None of the modelled statements checks a `seq` or
  `slot` watermark before it overwrites a row. The `compressed_data` upsert
  and the `accounts` upsert replace rows unconditionally, and the model does
  the same.
- **Asset filter.** Only the token-account projection filters on the asset
  row's `slot_updated`.

Two places in the source do not compile as shown, and the model takes the
evident intent:

- **`etl_account_schema_values` call.** In
  `nft_ingester/src/program_transformers/mod.rs`, `handle_transaction` calls
  it with an argument list that does not match its definition in
  `hpl_account_handler/mod.rs`. The model passes the instruction bundle,
  the transaction keys and the payer, as the definition asks.
- **Resource-manager writer.** `program_transformers/src/hpl_programs/mod.rs`
  does not declare `mod hpl_resource_manager`. The resource-manager writer is
  modelled as if it were declared.

The `KeyMatch` predicates of the noop, account-compression and HPL parsers
state `key == program_id()` directly. They carry no contract of their own and
have no row below.

## Model

| member | source | states |
|---|---|---|
| Bytes.LeRoundTrip | program_transformers/src/noop/db.rs:129-133 | decoding the `n` little-endian bytes of a value below 256^n gives the value back |
| Bytes.LeBytesOfValue | program_transformers/src/noop/db.rs:129-133 | encoding the value of a byte string gives the same bytes back |
| Bytes.LeBytesInjective | program_transformers/src/noop/db.rs:129-133 | two values below 256^n with the same n-byte encoding are equal |
| Bytes.AsI64 | program_transformers/src/token_extensions/token_account.rs:41-44 | the `u64 as i64` cast: lies in the i64 range, is congruent to the input modulo 2^64, and is the identity exactly below 2^63 |
| Bytes.WrapU64 | program_transformers/src/noop/db.rs:725-728 | wrapping `u64` arithmetic: always a u64, congruent modulo 2^64, the identity on u64 values |
| NoopParser.HandleInstruction | blockbuster/src/programs/noop/mod.rs:69-108 | a missing instruction gives `DeserializationError` and only it; empty data gives `InstructionParsingError` and only it; an undecodable event still succeeds with neither field set; a change-log event sets exactly the tree update and an application-data event exactly the application data, never both |
| AccountCompressionParser.GetInstructionType | blockbuster/src/programs/account_compression/mod.rs:23-77 | fewer than 8 bytes panics; a result is `Unknown` exactly when the 8-byte discriminator is none of the seven known ones; a known kind carries its own discriminator; `close_empty_tree` gives `CloseTree` |
| AccountCompressionParser.KnownKindsCopyArguments | blockbuster/src/programs/account_compression/mod.rs:31-73 | each known discriminator whose arguments decode yields that instruction with those arguments; for each of the six kinds with arguments, arguments that fail to decode panic; close-tree takes no arguments and always parses |
| AccountCompressionParser.DiscriminatorsDistinct | blockbuster/src/programs/account_compression/mod.rs:31-73 | the seven instruction discriminators are pairwise distinct |
| AccountCompressionParser.LastSomeWins | blockbuster/src/programs/account_compression/mod.rs:180-203 | scanning a list and keeping the last present value is `None` exactly when no element yields one, else the value of the last element that does |
| AccountCompressionParser.LastChangeLogWins | blockbuster/src/programs/account_compression/mod.rs:180-203 | the tree update kept is the change-log event of the last non-empty noop inner instruction that carries one; none when no such instruction |
| AccountCompressionParser.LastAppDataWins | blockbuster/src/programs/account_compression/mod.rs:180-203 | the leaf update kept is the application-data event of the last noop inner instruction that carries one; none when no such instruction |
| AccountCompressionParser.HandleInstruction | blockbuster/src/programs/account_compression/mod.rs:163-206 | a missing outer instruction gives `DeserializationError`; otherwise the instruction type of its data with the last tree and leaf updates of the inner noop instructions |
| HplAccounts.DiscriminatorsDistinct | blockbuster/src/programs/hpl_hive_control/accounts/global.rs:12 | the sixteen HPL account discriminators (hive control, character manager, currency manager, resource manager, nectar staking, nectar missions) are pairwise distinct, so dispatch is unambiguous |
| HplAccounts.KeysDistinct | blockbuster/src/programs/hpl_hive_control/mod.rs:41-47 | the six HPL program ids are pairwise distinct |
| HplAccounts.FirstMatch | blockbuster/src/programs/hpl_hive_control/mod.rs:66-80 | the kind found has the given discriminator and belongs to the program; none found means no kind of the program has it |
| HplAccounts.ParseAccountDispatch | blockbuster/src/programs/hpl_hive_control/mod.rs:57-81 | empty data is exactly `Uninitialized`; 1 to 7 bytes panic; a known discriminator decodes the remainder as that kind (a decode failure is `DeserializationError`); an unknown one is `Unknown` |
| HplAccounts.HiveControlParser | blockbuster/src/programs/hpl_hive_control/mod.rs:57-81 | hive control dispatches Global, Project and DelegateAuthority by discriminator, as above |
| HplAccounts.CharacterManagerParser | blockbuster/src/programs/hpl_character_manager/mod.rs:57-83 | character manager dispatches AssemblerConfig, CharacterModel and AssetCustody |
| HplAccounts.CurrencyManagerParser | blockbuster/src/programs/hpl_currency_manager/mod.rs:56-76 | currency manager dispatches Currency and HolderAccount |
| HplAccounts.ResourceManagerParser | blockbuster/src/programs/hpl_resource_manager/mod.rs:57-81 | resource manager dispatches Resource, Faucet and Recipe; Resource and Recipe share their first byte but not their second |
| HplAccounts.NectarStakingParser | blockbuster/src/programs/hpl_nectar_staking/mod.rs:57-81 | nectar staking dispatches StakingPool, Multipliers and Staker |
| HplAccounts.NectarMissionsParser | blockbuster/src/programs/hpl_nectar_missions/mod.rs:56-75 | nectar missions dispatches MissionPool and Mission |
| HplPrograms.SavedAccounts | program_transformers/src/hpl_programs/mod.rs:27-45 | the `accounts` upsert: the row gets the new data and slot; a new row also takes program id and discriminator, an existing row keeps them; every other row is unchanged |
| HplPrograms.SaveLastWriteWins | program_transformers/src/hpl_programs/mod.rs:36-45 | of two saves of one address, the later one's data and slot remain even when its slot is lower; program id and discriminator stay those of the first write |
| HplPrograms.SaveIdempotent | program_transformers/src/hpl_programs/mod.rs:36-45 | saving the same request twice is the same as once |
| HplPrograms.SaveAccount | program_transformers/src/hpl_programs/mod.rs:19-50 | a failing write is `StorageWriteError` and the table is unchanged; otherwise `Ok` with the upserted table |
| HplPrograms.SaveRequestFor | program_transformers/src/hpl_programs/hpl_hive_control.rs:17-52 | a request exists exactly for a known kind of the program, carrying the account's address, owner, slot and the kind's own discriminator; anything else is `NotImplemented` |
| HplPrograms.StoredDiscriminatorIsDataPrefix | program_transformers/src/hpl_programs/hpl_hive_control.rs:17-52 | for account data that parses, the stored discriminator is the first 8 bytes of that data |
| HplPrograms.HandleHplAccount | program_transformers/src/hpl_programs/hpl_hive_control.rs:12-54 | an HPL account handler: `NotImplemented` without writing for kinds it does not save; otherwise the result and table of `SaveAccount` |
| HplPrograms.HiveControlHandler | program_transformers/src/hpl_programs/hpl_hive_control.rs:12-54 | hive control saves exactly Global, Project and DelegateAuthority |
| HplPrograms.CharacterManagerHandler | program_transformers/src/hpl_programs/hpl_character_manager.rs:12-54 | character manager saves exactly AssemblerConfig, CharacterModel and AssetCustody |
| HplPrograms.CurrencyManagerHandler | program_transformers/src/hpl_programs/hpl_currency_manager.rs:12-44 | currency manager saves exactly Currency and HolderAccount |
| HplPrograms.ResourceManagerHandler | program_transformers/src/hpl_programs/hpl_resource_manager.rs:12-54 | resource manager saves exactly Resource, Recipe and Faucet |
| HplPrograms.NectarStakingHandler | program_transformers/src/hpl_programs/hpl_nectar_staking.rs:12-54 | nectar staking saves exactly StakingPool, Multipliers and Staker |
| HplPrograms.NectarMissionsHandler | program_transformers/src/hpl_programs/hpl_nectar_missions.rs:10-41 | nectar missions saves exactly MissionPool and Mission |
| HplPrograms.HandlerRejectsForeignKinds | program_transformers/src/hpl_programs/hpl_hive_control.rs:51 | a kind of another program is `NotImplemented` |
| Routing.ParseInstruction | blockbuster/src/programs/noop/mod.rs:69-108 | the noop parser's result is exactly `NoopParser.HandleInstruction` wrapped as `Noop`; the compression parser yields only `AccountCompression` results |
| Routing.ParseAccountData | blockbuster/src/programs/account_compression/mod.rs:156-161 | the noop and compression parsers answer every account with `Unknown`; an HPL parser yields only its own program's results, with empty data as `Uninitialized` |
| Routing.BundleOf | program_transformers/src/lib.rs:201-208 | the bundle carries the instruction's program, the instruction, its inner instructions, the slot, the signature and the keys its indices select |
| Routing.Register | program_transformers/src/lib.rs:126-141 | the parser map holds exactly the parsers' keys, each mapped to a parser with that key |
| Routing.RegisterParsers | program_transformers/src/lib.rs:112-141 | the insertion loop builds `Register` of the parser list |
| Routing.RouteStep | program_transformers/src/lib.rs:182-272 | an index past the key list aborts with `DeserializationError`; an unregistered program passes; a counted step is a registered parser whose result no handler takes |
| Routing.MaxIndex | program_transformers/src/lib.rs:186 | `max().unwrap_or(0)`: an upper bound of the indices that is one of them, 0 when there are none |
| Routing.KeysOfInRange | program_transformers/src/lib.rs:192-200 | with every index in range, the keys are exactly `keys[accounts[i]]`, in order |
| Routing.KeysOfSkipsOutOfRange | program_transformers/src/lib.rs:196-198 | an out-of-range index adds no key |
| Routing.IndexEqualToLengthPassesAndIsDropped | program_transformers/src/lib.rs:187-198 | an index equal to the key count passes the `len() < max` check and its key is silently dropped |
| Routing.FirstAbort | program_transformers/src/lib.rs:182-272 | the index of the first aborting step, and none exactly when no step aborts |
| Routing.Outcome | program_transformers/src/lib.rs:268-279 | the first abort's error decides; without one the result is `Ok` exactly when not every instruction was counted, else `NotImplemented` |
| Routing.NoInstructionsNotImplemented | program_transformers/src/lib.rs:275-278 | a transaction without instructions is `NotImplemented` (0 == 0) |
| Routing.PassedOnlyIsOk | program_transformers/src/lib.rs:275-279 | a non-empty run of handled or unmatched instructions is `Ok` |
| Routing.CountedOnlyIsNotImplemented | program_transformers/src/lib.rs:268-278 | a run of only counted instructions is `NotImplemented` |
| Routing.AbortAt | program_transformers/src/lib.rs:187-191 | an aborting step after a clean prefix is the first abort |
| Routing.RunTurns | nft_ingester/src/program_transformers/mod.rs:161-307 | the loop of turns stops at the first abort, and runs all `n` turns when none aborts |
| Routing.RunTurnsStopAtAbort | nft_ingester/src/program_transformers/mod.rs:166-170 | once a turn aborts, no later turn runs and the state stays where the abort left it |
| Routing.RunTurnsAbortIsLast | program_transformers/src/lib.rs:182-272 | a run that aborts ends with that abort: no instruction after the first error is routed |
| Routing.StateFreeStepAt | nft_ingester/src/program_transformers/mod.rs:161-253 | when the steps do not depend on the state, each step of the run is the one the initial state gives |
| Routing.StateKeepingRun | nft_ingester/src/program_transformers/mod.rs:254-306 | turns that keep the state leave it unchanged over the whole run |
| Routing.AbortingTurnDecides | nft_ingester/src/program_transformers/mod.rs:166-170 | the loop invariant plus an aborting turn fixes the transaction's result to that error and its state |
| Routing.CleanTurnAdvances | nft_ingester/src/program_transformers/mod.rs:161-307 | the loop invariant (clean prefix, counter, state) is kept by a turn that does not abort |
| Routing.AllTurnsDone | nft_ingester/src/program_transformers/mod.rs:309-313 | after all turns the result is `NotImplemented` exactly when every turn was counted, and the state is the run's |
| NoopTransformer.HandleNoopInstruction | program_transformers/src/noop/mod.rs:9-24 | result and tables are `NoopEffect`: without application data nothing is written and the result is `Ok`; otherwise exactly the writes and the result of `save_applicationdata_event` (`AppDataEffect`) |
| NoopTransformer.NoopErrorKeepsTables | program_transformers/src/noop/mod.rs:19-22 | a noop instruction whose event the writer rejects leaves all four tables as they were |
| NoopTransformer.U32ToU8Array | program_transformers/src/noop/mod.rs:27-32 | eight bytes: the little-endian value in the first four, zeros after |
| Transformer.TrimStart | program_transformers/src/lib.rs:81 | a suffix of the input that starts with no whitespace, after only whitespace |
| Transformer.TrimEnd | program_transformers/src/lib.rs:81 | a prefix of the input that ends with no whitespace, followed by only whitespace |
| Transformer.RemoveNul | program_transformers/src/lib.rs:81 | no NUL remains, every character comes from the input, and NUL-free strings are unchanged |
| Transformer.NewDownloadMetadataInfo | program_transformers/src/lib.rs:78-83 | keeps the asset data id; the URI holds no NUL and is no longer than the input |
| Transformer.DownloadMetadataRoundTrip | program_transformers/src/lib.rs:77-88 | `into_inner(new(id, uri))` gives back `(id, uri)` for a trimmed, NUL-free URI |
| Transformer.BlankUriBecomesEmpty | program_transformers/src/lib.rs:81 | an all-whitespace URI becomes empty |
| Transformer.TrimBeforeNulRemovalKeepsInnerSpace | program_transformers/src/lib.rs:81 | trimming runs before NUL removal, so `"x \0"` keeps its space |
| Transformer.Steps | program_transformers/src/lib.rs:182-273 | one routing step per ordered instruction, in order |
| Transformer.NoopRouting | program_transformers/src/lib.rs:249-267 | a noop instruction with empty data aborts with a parsing error; with data it passes, because handler errors are only logged |
| Transformer.AccountResultsAreCounted | program_transformers/src/lib.rs:268-270 | an instruction whose parser's result no handler takes is counted as not implemented |
| Transformer.ProgramTransformer.constructor | program_transformers/src/lib.rs:107-150 | the twelve parsers registered under their keys; the key set is the parser map's keys |
| Transformer.ProgramTransformer.MatchProgram | program_transformers/src/lib.rs:165-167 | finds exactly the registered keys, returns the parser registered there, and agrees with the key set |
| Transformer.ProgramTransformer.RouteInstruction | program_transformers/src/lib.rs:182-272 | the step the instruction produces is `RouteStep`; the tables change only when it parses as a noop instruction, and then by that instruction's `NoopEffect`, its error dropped |
| Transformer.ProgramTransformer.Advance | program_transformers/src/lib.rs:182-272 | one turn of the loop: an abort decides the transaction's result and tables, any other step extends the run and the counter |
| Transformer.ProgramTransformer.HandleTransaction | program_transformers/src/lib.rs:169-280 | the result is `Outcome` of the steps of all ordered instructions; result and tables together are `TransactionEffect`, the turn fold with the tables as state |
| Transformer.RunTurnsAppliesNoops | program_transformers/src/lib.rs:182-272 | after any number of turns the tables are the noop effects of the instructions routed so far, in order |
| Transformer.TransactionTablesAreNoopFold | program_transformers/src/lib.rs:169-280 | the tables a transaction leaves are the noop effects of all its instructions in order when none aborts, else of those up to and including the first abort |
| Transformer.NoNoopsKeepTables | program_transformers/src/lib.rs:243-262 | a transaction with no instruction parsing as a noop writes none of the four tables |
| Transformer.TransactionResultIsRouting | program_transformers/src/lib.rs:182-272 | the writes never change a step: each step of the run is the instruction's `RouteStep` |
| Transformer.ProgramTransformer.HandleAccountUpdate | program_transformers/src/lib.rs:282-348 | an unregistered owner is `Ok` without writing; a parse error propagates; HPL results go to the HPL writers; other results go to the other handlers or are `NotImplemented` |
| Transformer.LookupFirstFound | program_transformers/src/lib.rs:360-373 | the lookup returns the first query that finds a model; it is `Ok(None)` exactly when every query finds none |
| Transformer.Attempts | program_transformers/src/lib.rs:360-370 | the number of queries made never exceeds the number of intervals |
| Transformer.FailureRetryCountAsWritten | program_transformers/src/lib.rs:372 | `retries - 1` on `u32`: undefined (overflow) exactly at 0, else one less |
| Transformer.EmptyIntervalsUnderflow | program_transformers/src/lib.rs:372 | with no intervals the subtraction underflows |
| Transformer.FailureRetryCount | program_transformers/src/lib.rs:372 | the saturating count: agrees with the source for positive retries and is 0 at 0 |
| Transformer.FindModelWithRetry | program_transformers/src/lib.rs:351-374 | sleeps the intervals up to the attempt that decides; a found model records `(true, attempts - 1)`; all misses record `(false, retries − 1)` with the corrected count at zero intervals (`FailureRetryCount`, see "Findings"); a DB error records nothing |
| CompressedData.LeafId | program_transformers/src/noop/db.rs:129-133 | the hashed pre-image is 36 bytes and starts with the tree id |
| CompressedData.LeafIdInjective | program_transformers/src/noop/db.rs:129-133 | distinct (tree, leaf index) pairs give distinct ids |
| CompressedData.AnnounceKeepsFirst | program_transformers/src/noop/db.rs:102-117 | after announcing a new tree several times, its row is the first announcement with the last schema; every other tree is unchanged |
| CompressedData.HandleTree | program_transformers/src/noop/db.rs:86-119 | an unencodable schema or a failing write leaves `merkle_tree` unchanged with that error; otherwise the upsert; result and tables are `TreeEffect` |
| CompressedData.CheckFullLeaf | program_transformers/src/noop/db.rs:174-212 | validated exactly when the tree is known; a known tree without program is rejected; the raw data is the encoding of the (validated) value; errors are parse errors or the program-id panic |
| CompressedData.ValidationFailureRejects | program_transformers/src/noop/db.rs:196-204 | data failing the tree's schema is rejected with `CompressedDataParseError` |
| CompressedData.HandleFullLeaf | program_transformers/src/noop/db.rs:165-264 | on a failed check nothing is written; otherwise the full row is upserted, and a character-manager leaf with `used_by` logs `NewCharacter`; result and tables are `FullLeafEffect` |
| CompressedData.PatchValueShape | program_transformers/src/noop/db.rs:306-331 | a patch replaces an existing key of an object and leaves everything else, including values that are not objects or lack the key |
| CompressedData.PatchValueIdempotent | program_transformers/src/noop/db.rs:306-331 | applying the same patch twice equals applying it once |
| CompressedData.PatchProgram | program_transformers/src/noop/db.rs:289-300 | no tree gives no program; a tree without a 32-byte program panics; otherwise its program |
| CompressedData.HandleLeafPatch | program_transformers/src/noop/db.rs:266-344 | a missing leaf is `StorageReadError` without writing; otherwise the patched row, after the history log for a character `used_by` patch; result and tables are `PatchEffect` |
| CompressedData.HandleEmptyLeaf | program_transformers/src/noop/db.rs:346-371 | a missing leaf is `StorageReadError`; otherwise the leaf is deleted and nothing else changes; result and tables are `EmptyEffect` |
| CompressedData.HandleChangeLog | program_transformers/src/noop/db.rs:373-394 | appends exactly the change-log row, or fails without writing |
| CompressedData.ChangeLogFor | program_transformers/src/noop/db.rs:140-160 | Full and PatchChunk log their data (PatchChunk with its key), Empty logs nothing |
| CompressedData.HandleLeaf | program_transformers/src/noop/db.rs:121-163 | result and tables are `LeafEffect`: the stream's handler (leaves and history as `FullLeafEffect`, `PatchEffect`, `EmptyEffect`), then the change-log row for Full and PatchChunk and none for Empty; with the all-or-nothing connection of this model an error leaves every table unchanged |
| CompressedData.HandleApplicationData | program_transformers/src/noop/db.rs:45-84 | result and tables are `AppDataEffect`: an undecodable event is a parse error without writes; a tree event is `TreeEffect`, a leaf event `LeafEffect` |
| CompressedData.SaveApplicationDataEvent | program_transformers/src/noop/db.rs:34-43 | `Ok(0)` or the handler's error, with the handler's tables (`AppDataEffect`) |
| CompressedData.LogEffectWithoutWrites | program_transformers/src/noop/db.rs:509-546 | on a failing connection the history log adds no row, whatever it answers |
| CompressedData.AppDataErrorKeepsTables | program_transformers/src/noop/db.rs:45-163 | an event that fails leaves all four tables as they were |
| CompressedData.AppDataTablesByEvent | program_transformers/src/noop/db.rs:56-119 | a tree event writes only `merkle_tree`, succeeds exactly when its schema encodes on a working connection, and is then the upsert; a leaf event never writes `merkle_tree` |
| CompressedData.LeafEffectChangelog | program_transformers/src/noop/db.rs:136-160 | a successful Full or PatchChunk event appends its change-log row; an Empty event touches neither the change log nor the history |
| CompressedData.LeafEffectTouchesOneLeaf | program_transformers/src/noop/db.rs:121-163 | a leaf event changes no `compressed_data` row but its own |
| CompressedData.LeafEffectHistory | program_transformers/src/noop/db.rs:121-163 | a leaf event appends at most one history row, at the end, and only for the character that is this leaf |
| CompressedData.AppDataKeepsUniqueEvents | program_transformers/src/noop/db.rs:520-546 | no event logs a (character, event, slot) triple twice: uniqueness of the history is kept |
| CompressedData.CharacterEventTable | program_transformers/src/noop/db.rs:430-443 | `UnWrapped` exactly for moves to Ejected; every other event stands for exactly the transition it was logged for, in both directions |
| CompressedData.CharacterEventNone | program_transformers/src/noop/db.rs:430-443 | a transition logs nothing exactly when it is none of the listed pairs and not a move to Ejected |
| CompressedData.InsertEventIdempotent | program_transformers/src/noop/db.rs:520-546 | logging the same (character, event, slot) again changes nothing and cannot fail |
| CompressedData.InsertEventKeepsUnique | program_transformers/src/noop/db.rs:520-546 | no two history rows share a (character, event, slot) triple, before and after |
| CompressedData.NewCharacterEvent | program_transformers/src/noop/db.rs:509-547 | the result and history table of `InsertEvent` |
| CompressedData.ParticipationIdsUpTo | program_transformers/src/noop/db.rs:462-483 | the ids of the participation's rows lie between 1 and the rows scanned |
| CompressedData.ParticipationIdsOrdered | program_transformers/src/noop/db.rs:483-492 | in the table order this model assumes, the ids come in increasing order, so `ids.last()` is the participation row inserted last |
| CompressedData.ParticipationIdsExact | program_transformers/src/noop/db.rs:462-483 | the ids found are exactly those of the rows with that participation id |
| CompressedData.GetResultFromDeltaInRange | program_transformers/src/noop/db.rs:725-728 | with min ≤ max, delta ≤ 100 and no overflow, the reward lies in [min, max] and is `min + delta·(max−min)/100` |
| CompressedData.GetResultFromDeltaUnderflow | program_transformers/src/noop/db.rs:725-728 | with max < min the `u64` subtraction wraps: min 1, max 0, delta 100 gives 184467440737095516, far outside the range |
| CompressedData.CalculateReward | program_transformers/src/noop/db.rs:691-723 | a reward only for an object marked collected with delta, index and collected present, built from the indexed min/max entry |
| CompressedData.CollectRewardsSound | program_transformers/src/noop/db.rs:614-622 | each collected reward comes from one event reward, and there are no more rewards than event rewards |
| CompressedData.CollectRewardsNoneCollected | program_transformers/src/noop/db.rs:614-622 | no event reward marked collected yields no reward |
| CompressedData.Numbers | program_transformers/src/noop/db.rs:666-669 | the ids as JSON numbers, in order |
| CompressedData.CreateParams | program_transformers/src/noop/db.rs:651-689 | an object with exactly the keys pre_used_by, event_participant_ids, last_event_id and rewards, holding those values |
| CompressedData.RecalledUsedByShape | program_transformers/src/noop/db.rs:549-648 | an enum becomes `None` with the recall params, or the lookup's error; any other value is kept |
| CompressedData.UpdateNewUsedBy | program_transformers/src/noop/db.rs:549-648 | the new `used_by` value is `RecalledUsedBy` |
| CompressedData.AnyCollectedIff | program_transformers/src/noop/db.rs:730-749 | true exactly when some reward is marked collected |
| CompressedData.HistoryDecisionSkips | program_transformers/src/noop/db.rs:410-443 | a non-enum `used_by` or an unlisted transition logs nothing and succeeds |
| CompressedData.HistoryDecisionPlain | program_transformers/src/noop/db.rs:445-506 | every event other than a recall from a mission logs the new value unchanged |
| CompressedData.LogCharacterHistory | program_transformers/src/noop/db.rs:396-507 | the result and history table of the decision followed by `new_character_event` |
| LegacyCompressedData.CheckLegacyFullLeaf | nft_ingester/src/program_transformers/noop/db.rs:76-107 | validated exactly when the tree is known; the raw data encodes the value; errors are parse errors |
| LegacyCompressedData.FullLeafAgreesWithCurrent | nft_ingester/src/program_transformers/noop/db.rs:76-107 | for trees with a valid program, the legacy and current full-leaf checks agree |
| LegacyCompressedData.LegacyPatchValueShape | nft_ingester/src/program_transformers/noop/db.rs:177-196 | a patch inserts into a `V1` object when present (adding the key), else replaces an existing top-level key; anything else is unchanged |
| LegacyCompressedData.LegacyPatchedRow | nft_ingester/src/program_transformers/noop/db.rs:198-202 | the patch sets parsed and raw data; seq, slot and validation flag are kept |
| LegacyCompressedData.InsertApplicationData | nft_ingester/src/program_transformers/noop/db.rs:22-223 | the result and both tables are `LegacyEffect` of the decoded event; an error writes nothing; tree events upsert the schema only; Full upserts; PatchChunk needs an existing leaf; Empty is a no-op |
| LegacyCompressedData.SaveApplicationDataEvent | nft_ingester/src/program_transformers/noop/db.rs:11-20 | both tables are `LegacyEffect`'s; the result is `Ok(0)` when the effect succeeds and the effect's error otherwise |
| LegacyCompressedData.LegacyEffectOutcome | nft_ingester/src/program_transformers/noop/db.rs:22-223 | a decodable event succeeds exactly when its checks pass and the connection works (an Empty stream writes nothing and always succeeds); after passing checks a failing connection is `StorageWriteError`; an undecodable event is a parse error; no error writes |
| LegacyCompressedData.LegacyEffectTouchesOneRow | nft_ingester/src/program_transformers/noop/db.rs:34-220 | a successful tree event upserts the announced row and keeps `compressed_data`; a successful leaf event keeps `merkle_tree`, adds at most its own leaf key and leaves every other leaf as it was |
| HplAccountHandler.Candidates | nft_ingester/src/program_transformers/hpl_account_handler/mod.rs:38-62 | distinct keys, each from the instruction and not excluded; every non-excluded key appears |
| HplAccountHandler.CandidatesFirstSeen | nft_ingester/src/program_transformers/hpl_account_handler/mod.rs:48-54 | a repeated key is queried once, at its first position |
| HplAccountHandler.CandidatesOfExcluded | nft_ingester/src/program_transformers/hpl_account_handler/mod.rs:48-53 | keys that are the program, the default key, on the curve or already resolved yield no candidates |
| HplAccountHandler.KeysAt | nft_ingester/src/program_transformers/hpl_account_handler/mod.rs:44-47 | the keys the instruction's indices select, in order |
| HplAccountHandler.Filled | nft_ingester/src/program_transformers/hpl_account_handler/mod.rs:105-115 | panics exactly when a value sits past the candidates; otherwise only candidate keys are added and other entries kept |
| HplAccountHandler.FilledByPosition | nft_ingester/src/program_transformers/hpl_account_handler/mod.rs:107-114 | each returned value is stored under the candidate at its position |
| HplAccountHandler.Extracted | nft_ingester/src/program_transformers/hpl_account_handler/mod.rs:25-125 | no payer leaves the directory as it is; an out-of-range account index panics, and a panic is the only error; a success keeps every entry already resolved |
| HplAccountHandler.ResolvedKeysAreNotRequeried | nft_ingester/src/program_transformers/hpl_account_handler/mod.rs:48-66 | with every key already resolved, nothing is simulated and the directory is unchanged |
| HplAccountHandler.FillDirectory | nft_ingester/src/program_transformers/hpl_account_handler/mod.rs:105-115 | the loop computes `Filled` |
| HplAccountHandler.CollectCandidates | nft_ingester/src/program_transformers/hpl_account_handler/mod.rs:44-62 | the filter loop panics exactly on an out-of-range index and otherwise yields `Candidates` |
| HplAccountHandler.ExtractAccountSchemaValues | nft_ingester/src/program_transformers/hpl_account_handler/mod.rs:25-125 | the method computes `Extracted` |
| HplAccountHandler.ExtractAll | nft_ingester/src/program_transformers/hpl_account_handler/mod.rs:151-164 | the inner instructions in order over one directory: panics only, and only ever adds entries |
| HplAccountHandler.ExtractAllNoPayer | nft_ingester/src/program_transformers/hpl_account_handler/mod.rs:34-37 | without a payer the inner instructions change nothing |
| HplAccountHandler.ExtractAllErrSticks | nft_ingester/src/program_transformers/hpl_account_handler/mod.rs:151-164 | a panic in a prefix is the result of the whole sequence |
| HplAccountHandler.EtlDirectory | nft_ingester/src/program_transformers/hpl_account_handler/mod.rs:136-164 | outer instruction first, then the inner ones, sharing one directory; errors are panics |
| HplAccountHandler.NoPayerNoDirectory | nft_ingester/src/program_transformers/hpl_account_handler/mod.rs:34-37 | without a payer the directory stays empty |
| HplAccountHandler.Upserted | nft_ingester/src/program_transformers/hpl_account_handler/mod.rs:170-195 | every directory value is upserted at its address with the bundle's slot; other rows are unchanged |
| HplAccountHandler.EtlOutcome | nft_ingester/src/program_transformers/hpl_account_handler/mod.rs:127-205 | an error leaves the table; a panic in extraction is `Panicked`; an empty directory writes nothing; a success keeps every row; no payer is `Ok` without writes |
| HplAccountHandler.CollectDirectory | nft_ingester/src/program_transformers/hpl_account_handler/mod.rs:136-164 | the method computes `EtlDirectory` |
| HplAccountHandler.ExtractInner | nft_ingester/src/program_transformers/hpl_account_handler/mod.rs:151-164 | the loop computes `ExtractAll` |
| HplAccountHandler.EtlAccountSchemaValues | nft_ingester/src/program_transformers/hpl_account_handler/mod.rs:127-205 | result and `accounts` table are `EtlOutcome` |
| IngesterTransformer.IndexablePrograms.constructor | nft_ingester/src/program_transformers/mod.rs:36-40 | holds exactly the eight indexable program ids |
| IngesterTransformer.IndexablePrograms.PopulatePrograms | nft_ingester/src/program_transformers/mod.rs:46-63 | appends the eight ids, in order |
| IngesterTransformer.MatcherKeys | nft_ingester/src/program_transformers/mod.rs:84-88 | the matcher keys are exactly bubblegum, account compression, token metadata, token and noop |
| IngesterTransformer.IndexableProgramsHaveNoParser | nft_ingester/src/program_transformers/mod.rs:46-63 | no indexable program has a parser, so their instructions and accounts only pass |
| IngesterTransformer.NoParserFor | nft_ingester/src/program_transformers/mod.rs:84-88 | a key whose first byte none of the five matchers has is not matched |
| IngesterTransformer.MatcherFirstBytes | nft_ingester/src/program_transformers/mod.rs:84-88 | every matched key starts with one of the matchers' first bytes |
| IngesterTransformer.FirstConfirmed | nft_ingester/src/program_transformers/mod.rs:254-305 | the first of the 201 checks whose slot reaches the transaction's, with none before it; none exactly when no check reaches it |
| IngesterTransformer.ConfirmTransaction | nft_ingester/src/program_transformers/mod.rs:254-305 | the wait loop returns `FirstConfirmed` |
| IngesterTransformer.SlotZeroConfirmsAtOnce | nft_ingester/src/program_transformers/mod.rs:261-270 | an RPC error reads as slot 0, so a slot-0 transaction confirms at once |
| IngesterTransformer.UnreachedSlotGivesUp | nft_ingester/src/program_transformers/mod.rs:295-304 | when no answer reaches the transaction's slot in the 201 checks, there is no confirmation |
| IngesterTransformer.ConfirmAndEtl | nft_ingester/src/program_transformers/mod.rs:254-306 | without a client nothing changes; an error leaves the table unchanged |
| IngesterTransformer.IngesterStep | nft_ingester/src/program_transformers/mod.rs:161-306 | an aborting routing step aborts at once; otherwise the routing step, unless the re-read fails; without a client exactly the routing step |
| IngesterTransformer.TransactionOutcome | nft_ingester/src/program_transformers/mod.rs:309-312 | no instructions is `NotImplemented` with the table unchanged |
| IngesterTransformer.AbortEndsTransaction | nft_ingester/src/program_transformers/mod.rs:166-170 | the first aborting instruction's error is the transaction's result, and its table the final one |
| IngesterTransformer.NoRpcIsRoutingOnly | nft_ingester/src/program_transformers/mod.rs:254 | without a client each step is exactly the routing step |
| IngesterTransformer.NoRpcKeepsAccounts | nft_ingester/src/program_transformers/mod.rs:254 | without a client the `accounts` table is unchanged |
| IngesterTransformer.ProgramTransformer.constructor | nft_ingester/src/program_transformers/mod.rs:77-110 | the five matchers, the indexable programs and the given client |
| IngesterTransformer.ProgramTransformer.MatchProgram | nft_ingester/src/program_transformers/mod.rs:131-139 | a key that is not 32 bytes is not matched; otherwise exactly the registered parser |
| IngesterTransformer.ProgramTransformer.HandleTransaction | nft_ingester/src/program_transformers/mod.rs:141-314 | result and `accounts` table are `TransactionOutcome` |
| IngesterTransformer.ProgramTransformer.HandleAccountUpdate | nft_ingester/src/program_transformers/mod.rs:316-347 | the result is `AccountOutcome` |
| IngesterTransformer.AccountOutcome | nft_ingester/src/program_transformers/mod.rs:316-347 | an unmatched owner is `Ok`; a parse error propagates; a handler-independent `NotImplemented` means a result other than token metadata or token account |
| IngesterTransformer.IndexableAccountsIgnored | nft_ingester/src/program_transformers/mod.rs:321 | an indexable program's account update is `Ok` without parsing |
| IngesterTransformer.CompressionAccountsNotImplemented | nft_ingester/src/program_transformers/mod.rs:343 | noop and compression accounts are `NotImplemented` |
| IngesterTransformer.RegisteredUnder | nft_ingester/src/program_transformers/mod.rs:84-88 | the noop and compression parsers sit under their own ids |
| IngesterTransformer.RouteInstruction | nft_ingester/src/program_transformers/mod.rs:161-306 | step and `accounts` table are `IngesterStep` |
| IngesterTransformer.Advance | nft_ingester/src/program_transformers/mod.rs:161-307 | an aborting turn fixes the transaction's outcome; a clean one keeps the loop invariant |
| IngesterTransformer.TransactionLoop | nft_ingester/src/program_transformers/mod.rs:157-313 | result and `accounts` table are `TransactionOutcome` |
| IngesterTransformer.KeySet | nft_ingester/src/program_transformers/mod.rs:92-98 | the key set is the matcher keys plus the indexable programs |
| TokenAccounts.IsFrozen | program_transformers/src/token_extensions/token_account.rs:29-32 | frozen exactly for the Frozen state |
| TokenAccounts.OwnerUpsertOf | program_transformers/src/token_extensions/token_account.rs:35-46 | the owner upsert carries mint, account, owner, frozen flag, the slot cast to i64 and the amount |
| TokenAccounts.TokenAccountOutcome | program_transformers/src/token_extensions/token_account.rs:15-129 | a failing write changes nothing; otherwise the owner upsert is logged; only the mint's asset can change, and only when eligible, an NFT, out of date, with encodable extensions |
| TokenAccounts.HandleTokenAccount | program_transformers/src/token_extensions/token_account.rs:15-129 | the step-by-step `save_required` version computes `TokenAccountOutcome` |
| TokenAccounts.SlotWatermark | program_transformers/src/token_extensions/token_account.rs:55-62 | an asset updated at the account's slot or earlier is eligible, a later one is not |
| TokenAccounts.ZeroAmountNeverChangesAsset | program_transformers/src/token_extensions/token_account.rs:76-94 | an account holding none of the token never changes the asset |
| TokenAccounts.OnlyNftsChange | program_transformers/src/token_extensions/token_account.rs:67-69 | an asset whose supply is not 1 is left as it is |
| TokenAccounts.SavedRowContents | program_transformers/src/token_extensions/token_account.rs:99-112 | the written row has the account's owner, delegate and frozen flag, records the slot, keeps owner type, supply and watermark, and needs no further save |
| TokenAccounts.ReplayLeavesAssets | program_transformers/src/token_extensions/token_account.rs:15-129 | replaying the same update changes the asset table no further |
| TreeGaps.GapRows | ops/src/bubblegum/tree.rs:53-89 | every gap belongs to the tree and spans more than one sequence number; no more gaps than rows |
| TreeGaps.GapRowsExact | ops/src/bubblegum/tree.rs:53-89 | a gap is listed exactly when two consecutive rows are more than one apart, with their seqs and txs as bounds |
| TreeGaps.GapStartsAfterFirst | ops/src/bubblegum/tree.rs:66-78 | every gap starts at or after the lowest recorded seq |
| TreeGaps.GapRowsOrdered | ops/src/bubblegum/tree.rs:87-88 | gaps come ordered by start seq |
| TreeGaps.MissingSeqLiesInGap | ops/src/bubblegum/tree.rs:53-89 | every unrecorded seq strictly between the lowest and highest recorded one lies strictly inside a listed gap |
| TreeGaps.GapInteriorUnrecorded | ops/src/bubblegum/tree.rs:53-89 | no recorded seq lies strictly inside a gap |
| TreeGaps.GapFillOf | ops/src/bubblegum/tree.rs:115-127 | converts exactly when the tree is 32 bytes and both txs 64; the pubkey error comes first; the upper bound becomes `before`, the lower `until` |
| TreeGaps.GapsOfWellFormedRowsConvert | ops/src/bubblegum/tree.rs:115-127 | gaps of well-formed rows always convert, into the fill of their bounds |
| TreeGaps.SuccessfulMembers | ops/src/bubblegum/tree.rs:153-156 | the filter keeps exactly the transactions without error |
| TreeGaps.SuccessfulAppend | ops/src/bubblegum/tree.rs:153-156 | the filter distributes over concatenation |
| TreeGaps.SendAll | ops/src/bubblegum/tree.rs:158-164 | on success every signature is sent and `before` is the last one sent (unchanged for none); errors are parse or channel errors |
| TreeGaps.SendAllSendsParsed | ops/src/bubblegum/tree.rs:158-164 | each signature sent is the parse of the status at its position |
| TreeGaps.SendPage | ops/src/bubblegum/tree.rs:158-164 | the send loop computes `SendAll` |
| TreeGaps.Crawl | ops/src/bubblegum/tree.rs:144-172 | the crawl loop computes `CrawlRun` |
| TreeGaps.CrawlSendsOnlySuccessful | ops/src/bubblegum/tree.rs:144-172 | every signature the crawl sends comes from a successful status of a fetched page |
| TreeGaps.ShortPageFinishes | ops/src/bubblegum/tree.rs:166-168 | a page shorter than 1000 ends the crawl after sending its successes |
| TreeGaps.FailedPageKeepsBefore | ops/src/bubblegum/tree.rs:158-164 | a full page of failed transactions leaves the cursor where it was |
| TreeGaps.FailedPageStalls | ops/src/bubblegum/tree.rs:144-172 | such a page is fetched again and again: no fuel bound finishes the crawl |
| TreeGaps.PageAt | ops/src/bubblegum/tree.rs:148-150 | a page holds at most 1000 statuses, and a short page is the rest of the history |
| TreeGaps.LastSuccessEnd | ops/src/bubblegum/tree.rs:158-164 | the position after the last successful status of a page |
| TreeGaps.NextStartAsWritten | ops/src/bubblegum/tree.rs:158-164 | the cursor as the source advances it never moves backward |
| TreeGaps.AsWrittenProgressIffSuccess | ops/src/bubblegum/tree.rs:158-164 | the source's cursor advances exactly when the page has a successful status |
| TreeGaps.CorrectedCrawlSendsEverySuccess | ops/src/bubblegum/tree.rs:144-172 | a cursor that advances past every fetched status sends every successful signature of the history, in order |
| TreeGaps.CrawlRunOverHistory | ops/src/bubblegum/tree.rs:144-172 | against a node that pages a history (`PageAt` at the cursor's position), each turn of `CrawlRun` sends the parses of the page's successful entries in order, moves the cursor to `NextStartAsWritten`, and finishes on a short page |
| TreeGaps.HistoryFailedPageStalls | ops/src/bubblegum/tree.rs:144-172 | against such a node, a full page of failed transactions at the cursor makes the as-written crawl send nothing and never finish |
| TreeGaps.SeqOfTree | ops/src/bubblegum/tree.rs:222-223 | the sequence number is the little-endian `u64` of the first 8 tree bytes; fewer than 8 bytes panic |
| TreeGaps.SeqOfEncodedTree | ops/src/bubblegum/tree.rs:222-223 | reading back an encoded sequence number gives it back |
| TreeGaps.AuthorityCheck | ops/src/bubblegum/tree.rs:232-260 | accepted exactly when the header is of the tree account type and its authority is the hive-control vault, or the tree's bubblegum authority (unless ignored), or, with allowed programs, an existing account owned by one of them; a header of the wrong account type is always the account-type error; for a valid header with no allowed programs every rejection is `IncorrectAuthority` |
| TreeGaps.TryFromRpc | ops/src/bubblegum/tree.rs:206-269 | a response keeps the queried pubkey, its header decoded and passed the authority check (so it is of the tree account type), and its seq is the little-endian `u64` after the header; data shorter than the header panics |
| TreeGaps.UnknownAuthorityRejected | ops/src/bubblegum/tree.rs:242-260 | with no allowed programs, an unknown authority is rejected |
| TreeGaps.InvalidHeaderRejected | ops/src/bubblegum/tree.rs:233-258 | a header of the wrong account type is rejected whatever authority it names and whatever programs are allowed, with the account-type error once the tree region is read |
| TreeGaps.Chunks | ops/src/bubblegum/tree.rs:324 | batches are non-empty, at most the batch size, and all full except the last |
| TreeGaps.ChunksFlatten | ops/src/bubblegum/tree.rs:324-337 | concatenating the batches gives back the keys |
| TreeGaps.Zip | ops/src/bubblegum/tree.rs:333 | pairs each key with the account at its position, up to the shorter list |
| TreeGaps.FetchBatchesKeys | ops/src/bubblegum/tree.rs:329-339 | when every batch's fetch succeeds, the pairs carry exactly the keys of the batches, in order |
| TreeGaps.Present | ops/src/bubblegum/tree.rs:341-345 | keeps exactly the pairs whose account exists |
| TreeGaps.DecodeAll | ops/src/bubblegum/tree.rs:341-349 | fails, as `SerializeTreeResponse`, exactly when some present account fails to decode |
| TreeGaps.Find | ops/src/bubblegum/tree.rs:319-352 | every tree found is one of the requested pubkeys |
| TreeGaps.FetchedKeysBatched | ops/src/bubblegum/tree.rs:329-339 | every fetched pair's key comes from the batches |
| TreeGaps.PresentKeysFetched | ops/src/bubblegum/tree.rs:324-345 | every present account found belongs to a requested pubkey |
| TreeGaps.FindDecodesPresentKeys | ops/src/bubblegum/tree.rs:319-352 | with successful fetches the keys come back in request order and each present account is decoded |
| Backfiller.Converted | ops/src/bubblegum/backfiller.rs:234-238 | a successful conversion has one fill per gap row |
| Backfiller.ConvertedExact | ops/src/bubblegum/backfiller.rs:234-238 | the conversion succeeds exactly when every row converts, each into its own fill |
| Backfiller.ConvertedFirstError | ops/src/bubblegum/backfiller.rs:234-238 | a failed conversion carries the error of the first row that fails |
| Backfiller.UpperGap | ops/src/bubblegum/backfiller.rs:240-265 | with audit rows, a gap from the chain head down to the highest known tx; without rows, a whole-tree gap exactly when the tree's seq is positive |
| Backfiller.LowerGap | ops/src/bubblegum/backfiller.rs:246-276 | a gap below the lowest known tx exactly when its seq exceeds 1 |
| Backfiller.PlannedGapsFailOnlyOnSignatures | ops/src/bubblegum/backfiller.rs:234-276 | the only planning error is a signature conversion |
| Backfiller.PlannedGapsStayInTree | ops/src/bubblegum/backfiller.rs:234-276 | every planned gap belongs to the worker's tree |
| Backfiller.PlannedGapsCount | ops/src/bubblegum/backfiller.rs:234-278 | with well-formed rows planning succeeds: the interior gaps, plus an upper gap when rows exist or the tree has changed, plus a lower gap when the lowest recorded seq exceeds 1 |
| Backfiller.PlannedGapsCoverMissing | ops/src/bubblegum/backfiller.rs:234-276 | every unrecorded seq between the known bounds lies inside a planned gap |
| Backfiller.ConvertGaps | ops/src/bubblegum/backfiller.rs:234-238 | the collect loop computes `Converted` |
| Backfiller.CollectGaps | ops/src/bubblegum/backfiller.rs:234-276 | the worker's plan is `PlannedGaps` |
| Backfiller.CollectStopsAtError | ops/src/bubblegum/backfiller.rs:234-238 | an error in a prefix is the result of the whole conversion |
| Backfiller.SendGaps | ops/src/bubblegum/backfiller.rs:280-285 | sends every gap in order, counting the failed sends |
| Backfiller.DeliveredBound | ops/src/bubblegum/backfiller.rs:280-285 | no more gaps are delivered than are sent |
| Backfiller.AllDeliveredInOrder | ops/src/bubblegum/backfiller.rs:280-285 | with every send succeeding, the gaps arrive in plan order |
| Backfiller.GapWorker | ops/src/bubblegum/backfiller.rs:226-294 | a planning error ends the worker with nothing sent; otherwise every planned gap is offered and failures are counted |
| Backfiller.MapAll | ops/src/bubblegum/backfiller.rs:389-397 | succeeds exactly when every element converts, keeping order and length |
| Backfiller.InnerInstructionOf | ops/src/bubblegum/backfiller.rs:389-397 | a compiled inner instruction with base58 data converts, copying its fields; anything else is the `todo!` panic |
| Backfiller.InnerInstructionsOf | ops/src/bubblegum/backfiller.rs:384-399 | keeps the group's index and its instruction count |
| Backfiller.TokenBalanceOf | ops/src/bubblegum/backfiller.rs:409-421 | copies index, mint and amount; a missing owner or program id becomes the empty string |
| Backfiller.TokenBalancesOf | ops/src/bubblegum/backfiller.rs:405-424 | converts every balance in order; none gives an empty list |
| Backfiller.LoadedAddressesOf | ops/src/bubblegum/backfiller.rs:446-460 | no loaded addresses give two empty lists; the lists keep their lengths |
| Backfiller.MetaOf | ops/src/bubblegum/backfiller.rs:377-488 | the meta keeps fee and balances, the `*_none` flags record absence, and `err` is none |
| Backfiller.MessageOf | ops/src/bubblegum/backfiller.rs:336-375 | a versioned message with the static keys in order and every instruction; no lookups give an empty list |
| Backfiller.QueuedTransaction | ops/src/bubblegum/backfiller.rs:316-512 | a fetch error propagates; no signatures panic; a queued update carries the first signature; otherwise a panic or `RedisPipe` |
| Backfiller.PlainTransactionQueues | ops/src/bubblegum/backfiller.rs:316-512 | a signed transaction without meta is queued exactly when the pipe succeeds |
| GrpcIngest.Hex | grpc-ingest/src/grpc.rs:155 | two digits per byte and never a colon |
| GrpcIngest.HexInjective | grpc-ingest/src/grpc.rs:155 | distinct byte strings encode differently |
| GrpcIngest.DecimalInjective | grpc-ingest/src/grpc.rs:155 | distinct slots render differently |
| GrpcIngest.SplitAtColon | grpc-ingest/src/grpc.rs:155 | `a:b` splits back into `a` and `b` when neither left half holds a colon |
| GrpcIngest.AccountKeyInjective | grpc-ingest/src/grpc.rs:155 | two account keys are equal exactly when slot and pubkey are |
| GrpcIngest.AccountAndTransactionKeysDiffer | grpc-ingest/src/grpc.rs:155-184 | an account key never equals a transaction key |
| GrpcIngest.TransactionKeyIsSignature | grpc-ingest/src/grpc.rs:184 | two transaction keys are equal exactly when the signatures are, whatever the slots |
| GrpcIngest.Remove | grpc-ingest/src/grpc.rs:137-139 | the cache without the key, keeping distinctness and every other key |
| GrpcIngest.Lookup | grpc-ingest/src/grpc.rs:157-162 | `get` then `put` on a miss: hit exactly when held; the key ends most recent; only the least recent is evicted, and only when full |
| GrpcIngest.RepeatIsSeen | grpc-ingest/src/grpc.rs:157-162 | the second lookup of a key is a hit, so a repeated update is skipped |
| GrpcIngest.Admission | grpc-ingest/src/grpc.rs:152-203 | an admitted update is queued unchanged |
| GrpcIngest.AccountAdmission | grpc-ingest/src/grpc.rs:154-171 | every account update is admitted for the accounts stream, keyed on slot and pubkey (empty when absent) |
| GrpcIngest.TransactionAdmission | grpc-ingest/src/grpc.rs:173-201 | a transaction is admitted exactly when present with meta and no error, keyed on its signature, for the transactions stream |
| GrpcIngest.SameSignatureSameKey | grpc-ingest/src/grpc.rs:184-192 | two admitted transactions collide exactly when their signatures agree |
| GrpcIngest.AccountKeysCollideOnlyOnRepeats | grpc-ingest/src/grpc.rs:155-162 | two account updates collide exactly when slot and pubkey agree |
| GrpcIngest.CountsPartition | grpc-ingest/src/grpc.rs:171-201 | the two counters always add up to the pipeline's length |
| GrpcIngest.Ingress.constructor | grpc-ingest/src/grpc.rs:129-139 | empty cache, pipeline and counters with the configured sizes |
| GrpcIngest.Ingress.Flush | grpc-ingest/src/grpc.rs:205-225 | hands the pipeline off as one batch with its counts, resets both counters, and loses no entry |
| GrpcIngest.Ingress.Enqueue | grpc-ingest/src/grpc.rs:164-225 | the entry joins the written-or-pending entries; a pipeline reaching the maximum is handed off |
| GrpcIngest.Ingress.OnUpdate | grpc-ingest/src/grpc.rs:152-226 | a dropped or repeated update queues nothing; a new admitted update is queued, after the cache records its key; it is handed off with the pipeline exactly when the pipeline then reaches its maximum size |
| GrpcIngest.Ingress.OnDeadline | grpc-ingest/src/grpc.rs:227-249 | a non-empty pipeline is handed off, an empty one left alone, and the cache is untouched |
| GrpcIngest.PendingBelowMaximum | grpc-ingest/src/grpc.rs:205-225 | with a non-zero maximum, in every reachable state of the ingress the pending pipeline holds fewer entries than its maximum size |
| GrpcIngest.StreamWithRetries | grpc-ingest/src/grpc.rs:112-124 | the streaming loop runs exactly ten times, however each run ends |
| Acks.HandleAccount | nft_ingester/src/account_updates.rs:56-121 | only a decodable update's own id is acked |
| Acks.HandleTransaction | nft_ingester/src/transaction_notifications.rs:47-102 | only a decodable transaction's own id is acked |
| Acks.AccountAckClassification | nft_ingester/src/account_updates.rs:80-118 | a decoded update is acked exactly on success, `NotImplemented`, `DeserializationError` or `ParsingError` |
| Acks.TransactionAckClassification | nft_ingester/src/transaction_notifications.rs:73-99 | a decoded transaction is acked exactly on success or `NotImplemented` |
| Acks.UndecodableNeverAcked | nft_ingester/src/account_updates.rs:66 | an undecodable payload is never acked on either stream |
| Acks.TransactionAcksAreAccountAcks | nft_ingester/src/transaction_notifications.rs:87-99 | the transaction stream acks no more than the account stream; a deserialization error is acked only for accounts |
| Acks.SomesExact | nft_ingester/src/account_updates.rs:37-46 | exactly the ids of the `Some` results are forwarded |
| Acks.ForwardAccountAcks | nft_ingester/src/account_updates.rs:37-46 | sends every acked id in completion order and counts the failed sends |
| Acks.FailedSends | nft_ingester/src/account_updates.rs:39-44 | the count of failed sends is zero exactly when every send succeeded, and all of them exactly when none did |
| Acks.ForwardTransactionAcks | nft_ingester/src/transaction_notifications.rs:30-39 | sends each acked id as a one-element list and counts the failed sends |
| Acks.HandleAll | nft_ingester/src/account_updates.rs:34-36 | one handler result per received message |
| Acks.AccountBatchAcks | nft_ingester/src/account_updates.rs:34-47 | an item is acked exactly when its handler returns its id |

## Left out

- I/O, `async`, `tokio` tasks, sleeps and clocks are left out. Every database, RPC, Redis and channel call is a parameter or a field of `Store.Db`; the order in which concurrent handlers finish is an input sequence.
- Metrics and logging (`statsd_*`, `debug!`, `error!`, `record_metric`'s emission) are not modelled; `FindModelWithRetry` returns the metric's arguments instead.
- The bubblegum, token-metadata, token, mpl-core and token-2022 mint transformers and parsers are parameters (`ParseEnv`, `Handlers`, the account handler). They are not part of this model.
- `order_instructions` is not part of this model: the ordered instruction list is an input.
- Borsh, base58 and base64 codecs, `Schema::validate`, keccak, `find_program_address` and `is_on_curve` are foreign functions given as parameters. `assert_valid_authority` is written out: `assert_valid` (the header's `valid` flag, its account type) followed by the authority comparison.
- The concurrent merkle-tree header is not decoded byte by byte. `HEADER_SIZE` and the authority slice `[10..42]` are constants, and the header is a decoder result.
- `merkle_tree_get_size` is part of the header decoder. Only the leading 8 bytes of the tree region are read.
- `TreeResponse::all` (ops/src/bubblegum/tree.rs:271-317) is not modelled. The per-account decode it drops errors from is `TryFromRpc`.
- The join order of `try_join_all` is not modelled. Results are in request order, which the source also guarantees.
- Database read errors are not modelled, in the gap worker, the materializer or the ingester: reads always succeed.
- The backfiller's worker and channel capacities, its progress bars and `tree.seq` fetching via `TreeResponse::find` in the main loop are left out; `GapWorker` covers one tree.
- `Crawl`: when the crawl stalls, the source loops forever, and a `fuel` parameter bounds the model's loop instead. `OutOfFuel` stands for that non-termination.
- `ui_amount` in the backfiller's token balances is a floating-point value (ops/src/bubblegum/backfiller.rs:413, 433) and is not carried.
- The JoinSet cap on writer tasks (grpc-ingest/src/grpc.rs:252-269) and the shutdown paths are left out. The Redis pipeline's success is not observed by the loop and not modelled.
- `GrpcIngest.Ingress.constructor` requires a non-zero cache size. The source rejects zero with `expect("Non zero value")` at grpc-ingest/src/grpc.rs:138.
- The LRU cache is modelled as a recency-ordered list of distinct keys, not as a hash map with a linked list.
- The idle deadline's timer is an event the model receives (`OnDeadline`). Its reset is not modelled.
- The `asset_upserts` helpers are modelled only by the row they leave (`SavedRow`). Conflict handling inside Postgres (`ON CONFLICT`) is modelled as map updates.
- `IngesterTransformer.ConfirmAndEtl`: the slot answer of each check is a parameter `slotAt(i, t)` of the RPC client. The 400 ms sleep is not modelled.
- `IngesterTransformer.ProgramTransformer.HandleTransaction`, `IngesterTransformer.TransactionLoop`, `IngesterTransformer.Advance`, `IngesterTransformer.RouteInstruction`: the ingester's transaction state is the `accounts` table only. Its noop branch (nft_ingester/src/program_transformers/mod.rs:228-247) passes the ingester's storage to `handle_noop_instruction` and only logs its error, so in the source a noop instruction also writes `merkle_tree` and `compressed_data` through the older writer (`LegacyCompressedData`). Those writes are not part of the ingester's state: nft_ingester's `handle_noop_instruction` is not part of this model, and its branch is a `Passed` step that writes nothing. The model does not promise what a transaction leaves in those two tables.
- The nft_ingester copies of the bubblegum, token and token-metadata handlers are parameters of the ingester's routing.
- In the ingester, `instruction.accounts().unwrap()` and `acct.owner().unwrap()` on flatbuffers are assumed present: the model's bundle and account carry them.
- `IngesterTransformer.AccountOutcome`: the not-implemented clause holds only for handlers that never return `NotImplemented` themselves. A handler that does is indistinguishable in the result.
- `HplAccountHandler.Extracted`: the padding of the base64 return data with `'A'` bytes before decoding is part of the decoder parameter.
- `CompressedData.CheckFullLeaf` and `CompressedData.PatchProgram`: `Pubkey::try_from(...).unwrap()` on a program that is not 32 bytes is a `Panicked` error, not a process abort.
- The character history's `participation_id` filter compares `to_string()` of a JSON value. The model compares the values themselves (`Participates`).
- `CompressedData.HandleLeaf`: every write statement here fails or none does, so an error leaves every table unchanged. In the source each statement commits on its own connection call (program_transformers/src/noop/db.rs:19-31, given the plain connection at program_transformers/src/lib.rs:251-254). A change-log insert that fails after the leaf upsert persisted leaves a leaf without its change-log row. `HandleApplicationData`, `SaveApplicationDataEvent`, `NoopTransformer.HandleNoopInstruction` and the tables of `Transformer.ProgramTransformer.HandleTransaction` inherit this assumption.
- `CompressedData.ParticipationIdsUpTo`, `CompressedData.ParticipationIdsOrdered`, `CompressedData.ParticipationIds`: the history rows are taken in insertion order, each with serial id position plus one. The source's query (program_transformers/src/noop/db.rs:462-467) has no `ORDER BY`, and Postgres serials leave gaps after failed inserts. That `ids.last()` is the latest participation row is an assumption of the model, not a guarantee of the source.
- `Transformer.FindModelWithRetry`: records the corrected count `FailureRetryCount` when every attempt misses. With no intervals the source's `retries - 1` underflows instead; `FailureRetryCountAsWritten` and `EmptyIntervalsUnderflow` state that behaviour (see "Findings").
- `CompressedData.GetResultFromDelta`: models the release build, where `max - min` and `delta * range` wrap around. A debug build panics on the same inputs (program_transformers/src/noop/db.rs:725-728); that panic is not modelled.
- `TokenAccounts.SavedRowContents`: `upsert_assets_token_account_columns` is not part of this model (program_transformers/src/token_extensions/token_account.rs:100-111 only calls it). That it writes its columns unconditionally is an assumption.
- `LegacyCompressedData.InsertApplicationData`: the tree row a first announcement inserts (`AnnouncedTree`) takes no discriminator bytes, no program and canopy depth 0. The insert leaves those columns unset and their defaults are not part of the sources; digital_asset_types/src/dao/generated/merkle_tree.rs declares the discriminator non-optional, so the database may reject the insert instead.
- `TokenAccounts.TokenAccountOutcome`: the database transaction (`begin`/`commit`) is not modelled separately. A failing connection fails before the first write.

## Findings

| source | as written | input that shows it | evidently intended | confidence | as-written member | corrected member |
|---|---|---|---|---|---|---|
| program_transformers/src/lib.rs:372 | after all retries miss, the metric is recorded with `retries - 1` on a `u32` counter | an empty `retry_intervals` slice: `retries` is 0 and `0u32 - 1` overflows (a panic in debug builds, `u32::MAX` in release) | record the number of retries, saturating at 0 | not executed | Transformer.FailureRetryCountAsWritten, Transformer.EmptyIntervalsUnderflow | Transformer.FailureRetryCount |
| ops/src/bubblegum/tree.rs:144-172 | the crawl advances `before` only to the last successful signature of a page | a page of 1000 signatures that all carry an error: `before` stays put, the same page is fetched again, and the loop never ends | advance the cursor past every fetched signature, failed ones included, and send the successful ones | not executed | TreeGaps.FailedPageStalls, TreeGaps.HistoryFailedPageStalls, TreeGaps.AsWrittenProgressIffSuccess | TreeGaps.CorrectedCrawlSendsEverySuccess |
