/**
 * `handle_noop_instruction` of `program_transformers`: the application data
 * of a noop instruction goes to the compressed-data writer; the tree update
 * is not used.
 */
module NoopTransformer {
  import opened Wrappers
  import opened Bytes
  import opened Store
  import opened Instructions
  import opened TransformerErrors
  import CompressedData

  /** `handle_noop_instruction` on the tables: the application data's effect, or nothing without it. */
  function NoopEffect(t: Tables, accounts: map<Bytes, AccountRow>, writesFail: bool, tk: CompressedData.Toolkit,
                      parsed: NoopInstruction): (Result<(), TransformerError>, Tables)
  {
    match parsed.applicationData
    case None => (Ok(()), t)
    case Some(a) => CompressedData.AppDataEffect(t, accounts, writesFail, tk, a.applicationData)
  }

  /** A noop instruction that the writer rejects leaves the tables as they were. */
  lemma NoopErrorKeepsTables(t: Tables, accounts: map<Bytes, AccountRow>, writesFail: bool, tk: CompressedData.Toolkit,
                             parsed: NoopInstruction)
    ensures NoopEffect(t, accounts, writesFail, tk, parsed).0.Err? ==> NoopEffect(t, accounts, writesFail, tk, parsed).1 == t
  {
    if parsed.applicationData.Some? {
      CompressedData.AppDataErrorKeepsTables(t, accounts, writesFail, tk, parsed.applicationData.value.applicationData);
    }
  }

  /**
   * Only `applicationData` is looked at: without it nothing is written and
   * the result is `Ok`; with it the writer's error comes back unchanged.
   */
  method HandleNoopInstruction(db: Db, tk: CompressedData.Toolkit, parsed: NoopInstruction) returns (r: Result<(), TransformerError>)
    modifies db`trees, db`leaves, db`history, db`changelog
    ensures (r, db.Compressed()) == NoopEffect(old(db.Compressed()), db.accounts, db.writesFail, tk, parsed)
    ensures parsed.applicationData.None? ==>
      r == Ok(()) && db.trees == old(db.trees) && db.leaves == old(db.leaves)
      && db.history == old(db.history) && db.changelog == old(db.changelog)
    ensures parsed.applicationData.Some? && tk.decodeEvent(parsed.applicationData.value.applicationData).None? ==>
      r == Err(CompressedDataParseError)
    ensures r.Err? ==>
      db.trees == old(db.trees) && db.leaves == old(db.leaves)
      && db.history == old(db.history) && db.changelog == old(db.changelog)
  {
    if parsed.applicationData.Some? {
      var saved := CompressedData.SaveApplicationDataEvent(db, tk, parsed.applicationData.value.applicationData);
      if saved.Err? {
        return Err(saved.error);
      }
    }
    r := Ok(());
  }

  /**
   * `_u32_to_u8_array`: the four little-endian bytes of `value` copied into
   * the front of an 8-byte zeroed buffer.
   */
  method U32ToU8Array(value: U32) returns (r: Bytes)
    ensures |r| == 8
    ensures r[..4] == LeBytes(value, 4)
    ensures r[4..] == [0, 0, 0, 0]
    ensures LeValue(r[..4]) == value
  {
    var bytes := LeBytes(value, 4);
    var result := new Byte[8](_ => 0);
    var i := 0;
    while i < 4
      invariant 0 <= i <= 4
      invariant result[..i] == bytes[..i]
      invariant forall j :: 4 <= j < 8 ==> result[j] == 0
    {
      result[i] := bytes[i];
      i := i + 1;
    }
    r := result[..];
    assert r[..4] == result[..4];
    Pow256Four();
    LeRoundTrip(value, 4);
  }
}
