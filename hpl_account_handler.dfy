/**
 * `hpl_account_handler` of `nft_ingester`: after a Honeycomb transaction
 * is confirmed, the accounts its instructions touch are asked for their
 * schema values by simulating the `__account_schemas` instruction, and the
 * values found are upserted into the `accounts` table.
 */
module HplAccountHandler {
  import opened Wrappers
  import opened Bytes
  import opened Values
  import opened Store
  import opened Instructions
  import opened IngesterErrors

  /** `AccountSchemaValue` of hpl_toolkit: an account's address, program, discriminator and decoded value. */
  datatype SchemaValue = SchemaValue(address: Pubkey, programId: Pubkey, discriminator: Bytes, value: Value)

  datatype AccountMeta = AccountMeta(pubkey: Pubkey, isSigner: bool, isWritable: bool)

  /** The instruction that is simulated. */
  datatype SimulationIx = SimulationIx(programId: Pubkey, accounts: seq<AccountMeta>, data: Bytes)

  /** The discriminator of the `__account_schemas` instruction. */
  const ACCOUNT_SCHEMAS_IX: Bytes := [215, 120, 181, 56, 249, 195, 139, 167]

  /** `Pubkey::default()`. */
  const DEFAULT_PUBKEY: Pubkey := seq(32, _ => 0)

  /**
   * What the handler asks of the chain. `simulate` is the simulation of one
   * instruction paid by the payer, with its return data decoded (base64,
   * then Borsh) as a list of optional schema values; it is `None` when the
   * simulation fails, returns no data or does not decode, all of which are
   * only logged. `isOnCurve` is `Pubkey::is_on_curve`.
   */
  datatype Chain = Chain(
    simulate: (SimulationIx, Pubkey) -> Option<seq<Option<SchemaValue>>>,
    isOnCurve: Pubkey -> bool)

  /** The keys that are never asked for: already resolved, the program itself, the default key, on-curve keys. */
  predicate Excluded(chain: Chain, program: Pubkey, directory: map<Pubkey, SchemaValue>, k: Pubkey)
  {
    k in directory || k == program || k == DEFAULT_PUBKEY || chain.isOnCurve(k)
  }

  /** The meta keys: the keys that are not excluded, each once, in the order they are first seen. */
  function Candidates(chain: Chain, program: Pubkey, directory: map<Pubkey, SchemaValue>, keys: seq<Pubkey>): (r: seq<Pubkey>)
    ensures forall i, j :: 0 <= i < j < |r| ==> r[i] != r[j]
    ensures forall k :: k in r ==> k in keys && !Excluded(chain, program, directory, k)
    ensures forall i :: 0 <= i < |keys| && !Excluded(chain, program, directory, keys[i]) ==> keys[i] in r
  {
    if |keys| == 0 then []
    else
      var front := Candidates(chain, program, directory, keys[..|keys| - 1]);
      var k := keys[|keys| - 1];
      assert forall i :: 0 <= i < |keys| - 1 ==> keys[i] == keys[..|keys| - 1][i];
      if Excluded(chain, program, directory, k) || k in front then front else front + [k]
  }

  /** A key seen twice is asked for at the position of its first occurrence. */
  lemma CandidatesFirstSeen(chain: Chain, program: Pubkey, directory: map<Pubkey, SchemaValue>, keys: seq<Pubkey>, k: Pubkey)
    requires k !in keys && !Excluded(chain, program, directory, k)
    ensures Candidates(chain, program, directory, keys + [k] + [k]) == Candidates(chain, program, directory, keys) + [k]
  {
    assert (keys + [k] + [k])[..|keys| + 1] == keys + [k];
    assert (keys + [k])[..|keys|] == keys;
  }

  /** Keys that are all excluded give no candidate. */
  lemma {:induction false} CandidatesOfExcluded(chain: Chain, program: Pubkey, directory: map<Pubkey, SchemaValue>, keys: seq<Pubkey>)
    requires forall i :: 0 <= i < |keys| ==> Excluded(chain, program, directory, keys[i])
    ensures Candidates(chain, program, directory, keys) == []
  {
    if |keys| > 0 {
      CandidatesOfExcluded(chain, program, directory, keys[..|keys| - 1]);
    }
  }

  predicate IndicesInRange(indices: seq<U8>, accounts: seq<Pubkey>)
  {
    forall i :: 0 <= i < |indices| ==> indices[i] < |accounts|
  }

  /** The transaction's keys at the instruction's indices (no index is skipped here: an index out of range panics). */
  function KeysAt(indices: seq<U8>, accounts: seq<Pubkey>): (r: seq<Pubkey>)
    requires IndicesInRange(indices, accounts)
    ensures |r| == |indices| && forall i :: 0 <= i < |indices| ==> r[i] == accounts[indices[i]]
  {
    seq(|indices|, i requires 0 <= i < |indices| => accounts[indices[i]])
  }

  lemma KeysAtSnoc(indices: seq<U8>, i: nat, accounts: seq<Pubkey>)
    requires i < |indices| && IndicesInRange(indices[..i], accounts) && indices[i] < |accounts|
    ensures IndicesInRange(indices[..i + 1], accounts)
    ensures KeysAt(indices[..i + 1], accounts) == KeysAt(indices[..i], accounts) + [accounts[indices[i]]]
  {
    assert indices[..i + 1] == indices[..i] + [indices[i]];
  }

  lemma CandidatesSnoc(chain: Chain, program: Pubkey, directory: map<Pubkey, SchemaValue>, keys: seq<Pubkey>, k: Pubkey)
    ensures Candidates(chain, program, directory, keys + [k]) ==
      var front := Candidates(chain, program, directory, keys);
      if Excluded(chain, program, directory, k) || k in front then front else front + [k]
  {
    assert (keys + [k])[..|keys|] == keys;
  }

  /** The simulated instruction: the program, the metas as neither signer nor writable, the fixed data. */
  function SimulationFor(program: Pubkey, metas: seq<Pubkey>): SimulationIx
  {
    SimulationIx(program, seq(|metas|, i requires 0 <= i < |metas| => AccountMeta(metas[i], false, false)), ACCOUNT_SCHEMAS_IX)
  }

  /**
   * The directory after the decoded values are matched to the metas by
   * position, `None` entries skipped; `None` stands for the panic of a
   * value past the last meta.
   */
  function Filled(directory: map<Pubkey, SchemaValue>, metas: seq<Pubkey>, values: seq<Option<SchemaValue>>): (r: Option<map<Pubkey, SchemaValue>>)
    ensures r.None? <==> exists i :: 0 <= i < |values| && values[i].Some? && i >= |metas|
    ensures r.Some? ==> forall k :: k in r.value ==> k in directory || k in metas
    ensures r.Some? ==> forall k :: k in directory && k !in metas ==> k in r.value && r.value[k] == directory[k]
  {
    if |values| == 0 then Some(directory)
    else
      var n := |values| - 1;
      assert forall i :: 0 <= i < n ==> values[..n][i] == values[i];
      match Filled(directory, metas, values[..n])
      case None => None
      case Some(d) =>
        if values[n].None? then Some(d)
        else if n >= |metas| then None
        else
          Some(d[metas[n] := values[n].value])
  }

  /** With distinct metas, each decoded value lands under its own meta. */
  lemma FilledByPosition(directory: map<Pubkey, SchemaValue>, metas: seq<Pubkey>, values: seq<Option<SchemaValue>>)
    requires forall i, j :: 0 <= i < j < |metas| ==> metas[i] != metas[j]
    requires Filled(directory, metas, values).Some?
    ensures forall i :: 0 <= i < |values| && values[i].Some? ==>
      i < |metas| && metas[i] in Filled(directory, metas, values).value && Filled(directory, metas, values).value[metas[i]] == values[i].value
  {
    forall i | 0 <= i < |values| && values[i].Some?
      ensures i < |metas| && metas[i] in Filled(directory, metas, values).value
      ensures Filled(directory, metas, values).value[metas[i]] == values[i].value
    {
      FilledAt(directory, metas, values, i);
    }
  }

  /** The value at position `i` lands under the i-th meta: no later value overwrites it. */
  lemma {:induction false} FilledAt(directory: map<Pubkey, SchemaValue>, metas: seq<Pubkey>, values: seq<Option<SchemaValue>>, i: nat)
    requires forall i, j :: 0 <= i < j < |metas| ==> metas[i] != metas[j]
    requires Filled(directory, metas, values).Some?
    requires i < |values| && values[i].Some?
    ensures i < |metas| && metas[i] in Filled(directory, metas, values).value
    ensures Filled(directory, metas, values).value[metas[i]] == values[i].value
  {
    var n := |values| - 1;
    var prefix := values[..n];
    var d := Filled(directory, metas, prefix);
    var r := Filled(directory, metas, values).value;
    assert d.Some?;
    if values[n].None? {
      assert r == d.value;
    } else {
      assert n < |metas| && r == d.value[metas[n] := values[n].value];
    }
    if i < n {
      assert prefix[i] == values[i];
      FilledAt(directory, metas, prefix, i);
      if values[n].Some? {
        assert metas[i] != metas[n];
      }
    }
  }

  /** `extract_account_schema_values`, as the directory it leaves, or the panic. */
  function Extracted(chain: Chain, program: Pubkey, ix: CompiledInstruction, payer: Option<Pubkey>, accounts: seq<Pubkey>,
                     directory: map<Pubkey, SchemaValue>): (r: Result<map<Pubkey, SchemaValue>, IngesterError>)
    ensures payer.None? ==> r == Ok(directory)
    ensures payer.Some? && !IndicesInRange(ix.accounts, accounts) ==> r == Err(Panicked)
    ensures r.Err? ==> r.error == Panicked
    ensures r.Ok? ==> directory.Keys <= r.value.Keys && forall k :: k in directory ==> r.value[k] == directory[k]
  {
    if payer.None? then Ok(directory)
    else if !IndicesInRange(ix.accounts, accounts) then Err(Panicked)
    else
      var metas := Candidates(chain, program, directory, KeysAt(ix.accounts, accounts));
      if |metas| == 0 then Ok(directory)
      else
        match chain.simulate(SimulationFor(program, metas), payer.value)
        case None => Ok(directory)
        case Some(values) =>
          match Filled(directory, metas, values)
          case None => Err(Panicked)
          case Some(d) => Ok(d)
  }

  /**
   * Nothing is simulated when no candidate is left, in particular when every
   * key of the instruction is already resolved.
   */
  lemma ResolvedKeysAreNotRequeried(chain: Chain, program: Pubkey, ix: CompiledInstruction, payer: Option<Pubkey>,
                                    accounts: seq<Pubkey>, directory: map<Pubkey, SchemaValue>)
    requires IndicesInRange(ix.accounts, accounts)
    requires forall i :: 0 <= i < |ix.accounts| ==> accounts[ix.accounts[i]] in directory
    ensures Extracted(chain, program, ix, payer, accounts, directory) == Ok(directory)
  {
    CandidatesOfExcluded(chain, program, directory, KeysAt(ix.accounts, accounts));
  }

  /** The directory loop: the decoded values matched to the metas by position with a counter. */
  method FillDirectory(directory: map<Pubkey, SchemaValue>, metas: seq<Pubkey>, values: seq<Option<SchemaValue>>)
    returns (r: Option<map<Pubkey, SchemaValue>>)
    ensures r == Filled(directory, metas, values)
  {
    var d: map<Pubkey, SchemaValue> := directory;
    var i := 0;
    while i < |values|
      invariant 0 <= i <= |values|
      invariant Filled(directory, metas, values[..i]) == Some(d)
    {
      assert values[..i + 1][..i] == values[..i];
      if values[i].Some? {
        if i >= |metas| {
          assert values[i].Some? && i >= |metas|;
          return None;
        }
        d := d[metas[i] := values[i].value];
      }
      i := i + 1;
    }
    assert values[..i] == values;
    r := Some(d);
  }

  /** The meta filter of `extract_account_schema_values` with its set of seen keys; `None` is the panic of an index out of range. */
  method CollectCandidates(chain: Chain, program: Pubkey, ix: CompiledInstruction, accounts: seq<Pubkey>,
                           directory: map<Pubkey, SchemaValue>) returns (metas: Option<seq<Pubkey>>)
    ensures metas.None? <==> !IndicesInRange(ix.accounts, accounts)
    ensures metas.Some? ==> metas.value == Candidates(chain, program, directory, KeysAt(ix.accounts, accounts))
  {
    var seen := {program, DEFAULT_PUBKEY};
    var found: seq<Pubkey> := [];
    for i := 0 to |ix.accounts|
      invariant IndicesInRange(ix.accounts[..i], accounts)
      invariant found == Candidates(chain, program, directory, KeysAt(ix.accounts[..i], accounts))
      invariant forall x :: x in seen <==> x == program || x == DEFAULT_PUBKEY || x in found
    {
      var a := ix.accounts[i];
      if a >= |accounts| {
        assert !IndicesInRange(ix.accounts, accounts) by { assert ix.accounts[i] >= |accounts|; }
        return None;
      }
      KeysAtSnoc(ix.accounts, i, accounts);
      var k := accounts[a];
      CandidatesSnoc(chain, program, directory, KeysAt(ix.accounts[..i], accounts), k);
      if !(k in directory || k in seen || chain.isOnCurve(k)) {
        seen := seen + {k};
        found := found + [k];
      }
    }
    assert ix.accounts[..|ix.accounts|] == ix.accounts;
    metas := Some(found);
  }

  /** `extract_account_schema_values`: the meta filter with its set of seen keys, the simulation, the directory fill. */
  method ExtractAccountSchemaValues(chain: Chain, program: Pubkey, ix: CompiledInstruction, payer: Option<Pubkey>,
                                    accounts: seq<Pubkey>, directory: map<Pubkey, SchemaValue>)
    returns (r: Result<map<Pubkey, SchemaValue>, IngesterError>)
    ensures r == Extracted(chain, program, ix, payer, accounts, directory)
  {
    if payer.None? {
      return Ok(directory);
    }
    var candidates := CollectCandidates(chain, program, ix, accounts, directory);
    if candidates.None? {
      return Err(Panicked);
    }
    var metas := candidates.value;
    if |metas| == 0 {
      return Ok(directory);
    }
    var answer := chain.simulate(SimulationFor(program, metas), payer.value);
    if answer.None? {
      return Ok(directory);
    }
    var filled := FillDirectory(directory, metas, answer.value);
    if filled.None? {
      return Err(Panicked);
    }
    r := Ok(filled.value);
  }

  /** The directory after the instructions `ixs`, one extraction after another, the first panic ending it. */
  function ExtractAll(chain: Chain, payer: Option<Pubkey>, accounts: seq<Pubkey>, directory: map<Pubkey, SchemaValue>,
                      ixs: seq<IxPair>): (r: Result<map<Pubkey, SchemaValue>, IngesterError>)
    ensures r.Err? ==> r.error == Panicked
    ensures r.Ok? ==> directory.Keys <= r.value.Keys && forall k :: k in directory ==> r.value[k] == directory[k]
  {
    if |ixs| == 0 then Ok(directory)
    else
      match ExtractAll(chain, payer, accounts, directory, ixs[..|ixs| - 1])
      case Err(e) => Err(e)
      case Ok(d) => Extracted(chain, ixs[|ixs| - 1].program, ixs[|ixs| - 1].instruction, payer, accounts, d)
  }

  /** Without a payer nothing is simulated, whatever the instructions. */
  lemma {:induction false} ExtractAllNoPayer(chain: Chain, accounts: seq<Pubkey>, directory: map<Pubkey, SchemaValue>, ixs: seq<IxPair>)
    ensures ExtractAll(chain, None, accounts, directory, ixs) == Ok(directory)
  {
    if |ixs| > 0 {
      ExtractAllNoPayer(chain, accounts, directory, ixs[..|ixs| - 1]);
    }
  }

  /** The directory of one bundle: its outer instruction first, then its inner ones, sharing one directory. */
  function EtlDirectory(chain: Chain, bundle: InstructionBundle, accounts: seq<Pubkey>, payer: Option<Pubkey>)
    : (r: Result<map<Pubkey, SchemaValue>, IngesterError>)
    ensures r.Err? ==> r.error == Panicked
  {
    var outer := if bundle.instruction.Some? then Extracted(chain, bundle.program, bundle.instruction.value, payer, accounts, map[])
                 else Ok(map[]);
    match outer
    case Err(e) => Err(e)
    case Ok(d) => if bundle.innerIx.Some? then ExtractAll(chain, payer, accounts, d, bundle.innerIx.value) else Ok(d)
  }

  /** Without a payer the directory stays empty. */
  lemma NoPayerNoDirectory(chain: Chain, bundle: InstructionBundle, accounts: seq<Pubkey>)
    ensures EtlDirectory(chain, bundle, accounts, None) == Ok(map[])
  {
    if bundle.innerIx.Some? {
      ExtractAllNoPayer(chain, accounts, map[], bundle.innerIx.value);
    }
  }

  // ---------------------------------------------------------------------
  // The upsert

  function Addresses(directory: map<Pubkey, SchemaValue>): set<Bytes>
  {
    set k | k in directory :: directory[k].address
  }

  /**
   * One `insert_many ... on conflict` statement cannot touch a row twice:
   * the statement is accepted only when no two values share an address.
   */
  predicate DistinctAddresses(directory: map<Pubkey, SchemaValue>)
  {
    forall k1, k2 :: k1 in directory && k2 in directory && directory[k1].address == directory[k2].address ==> k1 == k2
  }

  function RowOf(v: SchemaValue, slot: U64): AccountRow
  {
    AccountRow(v.programId, v.discriminator, v.value, AsI64(slot))
  }

  /** The `accounts` table after the upsert: every value's row, all four columns written, the other rows kept. */
  function Upserted(table: map<Bytes, AccountRow>, directory: map<Pubkey, SchemaValue>, slot: U64): (r: map<Bytes, AccountRow>)
    requires DistinctAddresses(directory)
    ensures r.Keys == table.Keys + Addresses(directory)
    ensures forall k :: k in directory ==> r[directory[k].address] == RowOf(directory[k], slot)
    ensures forall a :: a in table && a !in Addresses(directory) ==> r[a] == table[a]
  {
    map a | a in table.Keys + Addresses(directory) ::
      if a in Addresses(directory) then
        var k :| k in directory && directory[k].address == a;
        RowOf(directory[k], slot)
      else table[a]
  }

  /**
   * `etl_account_schema_values`: the result and the `accounts` table after
   * it. A panic or a failed statement writes nothing; an empty directory
   * runs no statement.
   */
  function EtlOutcome(table: map<Bytes, AccountRow>, writesFail: bool, chain: Chain, bundle: InstructionBundle,
                      accounts: seq<Pubkey>, payer: Option<Pubkey>): (r: (Result<(), IngesterError>, map<Bytes, AccountRow>))
    ensures r.0.Err? ==> r.1 == table && (r.0.error == Panicked || r.0.error == StorageWriteError)
    ensures EtlDirectory(chain, bundle, accounts, payer).Err? ==> r.0 == Err(Panicked)
    ensures EtlDirectory(chain, bundle, accounts, payer) == Ok(map[]) ==> r == (Ok(()), table)
    ensures r.0.Ok? ==> forall a :: a in table ==> a in r.1
    ensures payer.None? ==> r == (Ok(()), table)
  {
    if payer.None? then NoPayerNoDirectory(chain, bundle, accounts); (Ok(()), table)
    else
      match EtlDirectory(chain, bundle, accounts, payer)
      case Err(e) => (Err(e), table)
      case Ok(d) =>
        if |d| == 0 then (Ok(()), table)
        else if writesFail || !DistinctAddresses(d) then (Err(StorageWriteError), table)
        else (Ok(()), Upserted(table, d, bundle.slot))
  }

  /** The directory loop of `etl_account_schema_values`: the outer instruction, then each inner one. */
  method CollectDirectory(chain: Chain, bundle: InstructionBundle, accounts: seq<Pubkey>, payer: Option<Pubkey>)
    returns (r: Result<map<Pubkey, SchemaValue>, IngesterError>)
    ensures r == EtlDirectory(chain, bundle, accounts, payer)
  {
    var directory: map<Pubkey, SchemaValue> := map[];
    if bundle.instruction.Some? {
      var outer := ExtractAccountSchemaValues(chain, bundle.program, bundle.instruction.value, payer, accounts, directory);
      if outer.Err? {
        return Err(outer.error);
      }
      directory := outer.value;
    }
    if bundle.innerIx.Some? {
      r := ExtractInner(chain, payer, accounts, directory, bundle.innerIx.value);
    } else {
      r := Ok(directory);
    }
  }

  /** The inner-instruction loop of the directory: one extraction after another on the shared directory. */
  method ExtractInner(chain: Chain, payer: Option<Pubkey>, accounts: seq<Pubkey>, first: map<Pubkey, SchemaValue>, inner: seq<IxPair>)
    returns (r: Result<map<Pubkey, SchemaValue>, IngesterError>)
    ensures r == ExtractAll(chain, payer, accounts, first, inner)
  {
    var directory := first;
    for i := 0 to |inner|
      invariant ExtractAll(chain, payer, accounts, first, inner[..i]) == Ok(directory)
    {
      assert inner[..i + 1][..i] == inner[..i];
      var next := ExtractAccountSchemaValues(chain, inner[i].program, inner[i].instruction, payer, accounts, directory);
      assert ExtractAll(chain, payer, accounts, first, inner[..i + 1]) == next;
      if next.Err? {
        ExtractAllErrSticks(chain, payer, accounts, first, inner, i + 1);
        return Err(next.error);
      }
      directory := next.value;
    }
    assert inner[..|inner|] == inner;
    r := Ok(directory);
  }

  /** `etl_account_schema_values` on the store: the directory, then one upsert of all its values. */
  method EtlAccountSchemaValues(db: Db, chain: Chain, bundle: InstructionBundle, accounts: seq<Pubkey>, payer: Option<Pubkey>)
    returns (r: Result<(), IngesterError>)
    modifies db`accounts
    ensures (r, db.accounts) == EtlOutcome(old(db.accounts), db.writesFail, chain, bundle, accounts, payer)
  {
    if payer.None? {
      NoPayerNoDirectory(chain, bundle, accounts);
    }
    var directory := CollectDirectory(chain, bundle, accounts, payer);
    if directory.Err? {
      return Err(directory.error);
    }
    if |directory.value| == 0 {
      return Ok(());
    }
    if db.writesFail || !DistinctAddresses(directory.value) {
      return Err(StorageWriteError);
    }
    db.accounts := Upserted(db.accounts, directory.value, bundle.slot);
    r := Ok(());
  }

  /** Once an extraction panics, the later instructions are not reached. */
  lemma {:induction false} ExtractAllErrSticks(chain: Chain, payer: Option<Pubkey>, accounts: seq<Pubkey>,
                                               directory: map<Pubkey, SchemaValue>, ixs: seq<IxPair>, n: nat)
    requires n <= |ixs|
    requires ExtractAll(chain, payer, accounts, directory, ixs[..n]).Err?
    ensures ExtractAll(chain, payer, accounts, directory, ixs) == ExtractAll(chain, payer, accounts, directory, ixs[..n])
    decreases |ixs| - n
  {
    if n < |ixs| {
      assert ixs[..n + 1][..n] == ixs[..n];
      ExtractAllErrSticks(chain, payer, accounts, directory, ixs, n + 1);
    } else {
      assert ixs[..n] == ixs;
    }
  }
}
