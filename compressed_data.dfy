/**
 * The compressed-leaf materializer of `program_transformers`: application-data
 * events emitted through the noop program are folded into the `merkle_tree`
 * schema registry, the `compressed_data` leaf table, the append-only
 * `compressed_data_changelog` and the `character_history` log.
 *
 * The hpl_toolkit functions the code calls (Borsh decoding and encoding,
 * `Schema::validate`, base58) are the fields of a `Toolkit` value.
 */
module CompressedData {
  import opened Wrappers
  import opened Bytes
  import opened Values
  import opened Store
  import opened TransformerErrors
  import ProgramIds

  /** A leaf data schema; its structure is the toolkit's business. */
  datatype Schema = Schema(descriptor: Value)

  datatype Stream =
    | Full(data: Value)
    | PatchChunk(key: string, data: Value)
    | Empty

  /** `CompressedDataEvent`, as decoded from the application data bytes. */
  datatype Event =
    | TreeSchemaValue(discriminator: Pubkey, treeId: Pubkey, schema: Schema, canopyDepth: int, programId: Pubkey)
    | Leaf(slot: U64, treeId: Pubkey, leafIdx: U32, seqNo: U64, stream: Stream)

  /** The foreign functions the materializer calls; `None` is their failure. */
  datatype Toolkit = Toolkit(
    decodeEvent: Bytes -> Option<Event>,
    encodeSchema: Schema -> Option<Bytes>,
    decodeSchema: Bytes -> Option<Schema>,
    /** `schema.validate(&mut data)`: `None` when it returns false, else the value it leaves in `data`. */
    validate: (Schema, Value) -> Option<Value>,
    encodeValue: Value -> Option<Bytes>,
    decodeBase58: string -> Option<Bytes>)

  const CHARACTER_MANAGER: Bytes := ProgramIds.CHARACTER_MANAGER_ID

  // ---------------------------------------------------------------------
  // Leaf ids

  /**
   * The bytes whose keccak hash is the `compressed_data` id: the tree id
   * followed by the leaf index as 4 little-endian bytes. The hash itself is
   * left out; only the injectivity of the pre-image matters to the model.
   */
  function LeafId(treeId: Pubkey, leafIdx: U32): (id: Bytes)
    ensures |id| == 36 && id[..32] == treeId
  {
    treeId + LeBytes(leafIdx, 4)
  }

  /** Distinct (tree, leaf index) pairs have distinct id pre-images. */
  lemma LeafIdInjective(t1: Pubkey, i1: U32, t2: Pubkey, i2: U32)
    requires LeafId(t1, i1) == LeafId(t2, i2)
    ensures t1 == t2 && i1 == i2
  {
    assert t1 == LeafId(t1, i1)[..32] == LeafId(t2, i2)[..32] == t2;
    assert LeBytes(i1, 4) == LeafId(t1, i1)[32..] == LeafId(t2, i2)[32..] == LeBytes(i2, 4);
    Pow256Four();
    LeBytesInjective(i1, i2, 4);
  }

  // ---------------------------------------------------------------------
  // merkle_tree registry

  /** The `merkle_tree` upsert: a new id is inserted, a known id only gets its data_schema replaced. */
  function UpsertTree(trees: map<Bytes, TreeRow>, id: Bytes, row: TreeRow): map<Bytes, TreeRow>
  {
    if id in trees then trees[id := trees[id].(dataSchema := row.dataSchema)] else trees[id := row]
  }

  /** Announcing one tree several times, in order. */
  function AnnounceAll(trees: map<Bytes, TreeRow>, id: Bytes, rows: seq<TreeRow>): map<Bytes, TreeRow>
  {
    if rows == [] then trees else UpsertTree(AnnounceAll(trees, id, rows[..|rows| - 1]), id, rows[|rows| - 1])
  }

  /**
   * However many times a tree is announced, its discriminator, program and
   * canopy depth are those of the first announcement and its schema is that
   * of the last; other trees are untouched.
   */
  lemma {:induction false} AnnounceKeepsFirst(trees: map<Bytes, TreeRow>, id: Bytes, rows: seq<TreeRow>)
    requires id !in trees && rows != []
    ensures var t := AnnounceAll(trees, id, rows);
      id in t && t[id] == rows[0].(dataSchema := rows[|rows| - 1].dataSchema)
      && forall other :: other != id ==> (other in t <==> other in trees) && (other in trees ==> t[other] == trees[other])
  {
    if |rows| > 1 {
      AnnounceKeepsFirst(trees, id, rows[..|rows| - 1]);
    }
  }

  /** `handle_tree` on the tables: the schema is encoded, then the tree row is upserted. */
  function TreeEffect(t: Tables, writesFail: bool, tk: Toolkit, discriminator: Pubkey, treeId: Pubkey, schema: Schema,
                      canopyDepth: int, programId: Pubkey): (Result<(), TransformerError>, Tables)
  {
    match tk.encodeSchema(schema)
    case None => (Err(CompressedDataParseError), t)
    case Some(dataSchema) =>
      if writesFail then (Err(StorageWriteError), t)
      else (Ok(()), t.(trees := UpsertTree(t.trees, treeId, TreeRow(discriminator, Some(programId), dataSchema, canopyDepth))))
  }

  method HandleTree(db: Db, tk: Toolkit, discriminator: Pubkey, treeId: Pubkey, schema: Schema, canopyDepth: int, programId: Pubkey)
    returns (r: Result<(), TransformerError>)
    modifies db`trees
    ensures (r, db.Compressed()) == TreeEffect(old(db.Compressed()), db.writesFail, tk, discriminator, treeId, schema, canopyDepth, programId)
    ensures tk.encodeSchema(schema).None? ==> r == Err(CompressedDataParseError) && db.trees == old(db.trees)
    ensures tk.encodeSchema(schema).Some? && db.writesFail ==> r == Err(StorageWriteError) && db.trees == old(db.trees)
    ensures tk.encodeSchema(schema).Some? && !db.writesFail ==>
      r == Ok(()) && db.trees == UpsertTree(old(db.trees), treeId,
        TreeRow(discriminator, Some(programId), tk.encodeSchema(schema).value, canopyDepth))
  {
    var dataSchema := tk.encodeSchema(schema);
    if dataSchema.None? {
      return Err(CompressedDataParseError);
    }
    var item := TreeRow(discriminator, Some(programId), dataSchema.value, canopyDepth);
    if db.writesFail {
      return Err(StorageWriteError);
    }
    db.trees := UpsertTree(db.trees, treeId, item);
    r := Ok(());
  }

  // ---------------------------------------------------------------------
  // Full leaf

  /** What a full leaf event writes once every check has passed. */
  datatype FullLeaf = FullLeaf(schemaValidated: bool, data: Value, rawData: Bytes, program: Option<Bytes>)

  /** The checks of `handle_full_leaf` before its upsert, in the code's order. */
  function CheckFullLeaf(trees: map<Bytes, TreeRow>, tk: Toolkit, treeId: Pubkey, data: Value): (r: Result<FullLeaf, TransformerError>)
    ensures r.Ok? ==> (r.value.schemaValidated <==> treeId in trees)
    ensures r.Ok? ==> r.value.program == (if treeId in trees then trees[treeId].program else None)
    ensures r.Ok? ==> tk.encodeValue(r.value.data) == Some(r.value.rawData)
    ensures r.Ok? && treeId !in trees ==> r.value.data == data
    ensures treeId in trees && trees[treeId].program.None? ==> r == Err(CompressedDataParseError)
    ensures treeId in trees && r.Ok? ==>
      exists s :: tk.decodeSchema(trees[treeId].dataSchema) == Some(s) && tk.validate(s, data) == Some(r.value.data)
    ensures r.Err? ==> r.error in {CompressedDataParseError, Panicked}
  {
    if treeId in trees then
      var tree := trees[treeId];
      match tk.decodeSchema(tree.dataSchema)
      case None => Err(CompressedDataParseError)
      case Some(schema) =>
        if tree.program.None? then Err(CompressedDataParseError)
        else if |tree.program.value| != 32 then Err(Panicked)
        else
          match tk.validate(schema, data)
          case None => Err(CompressedDataParseError)
          case Some(validated) =>
            match tk.encodeValue(validated)
            case None => Err(CompressedDataParseError)
            case Some(raw) => Ok(FullLeaf(true, validated, raw, tree.program))
    else
      match tk.encodeValue(data)
      case None => Err(CompressedDataParseError)
      case Some(raw) => Ok(FullLeaf(false, data, raw, None))
  }

  /** A failed validation against an existing tree's schema rejects the leaf. */
  lemma ValidationFailureRejects(trees: map<Bytes, TreeRow>, tk: Toolkit, treeId: Pubkey, data: Value, s: Schema)
    requires treeId in trees && tk.decodeSchema(trees[treeId].dataSchema) == Some(s)
    requires trees[treeId].program.Some? && |trees[treeId].program.value| == 32
    requires tk.validate(s, data).None?
    ensures CheckFullLeaf(trees, tk, treeId, data) == Err(CompressedDataParseError)
  {
  }

  /** The row a full leaf event leaves in `compressed_data`. */
  function FullLeafRow(f: FullLeaf, seqNo: int, slot: int): LeafRow
  {
    LeafRow(seqNo, f.schemaValidated, f.rawData, f.data, slot)
  }

  /** A full leaf of a character-manager tree whose data has `used_by` logs a NewCharacter event. */
  predicate LogsNewCharacter(f: FullLeaf)
  {
    f.program == Some(CHARACTER_MANAGER) && f.data.Object? && "used_by" in f.data.fields
  }

  /**
   * `handle_full_leaf` on the tables: the checks, the upsert, then the
   * NewCharacter event of a character leaf (on a connection that has just
   * written).
   */
  function FullLeafEffect(t: Tables, writesFail: bool, tk: Toolkit, id: Bytes, treeId: Pubkey, leafIdx: int, data: Value,
                          seqNo: int, slot: int): (Result<(), TransformerError>, Tables)
  {
    match CheckFullLeaf(t.trees, tk, treeId, data)
    case Err(e) => (Err(e), t)
    case Ok(f) =>
      if writesFail then (Err(StorageWriteError), t)
      else
        var leaves := t.leaves[LeafKey(treeId, leafIdx) := FullLeafRow(f, seqNo, slot)];
        if LogsNewCharacter(f) then
          var logged := InsertEvent(t.history, false, HistoryRow(id, "NewCharacter", f.data.fields["used_by"], slot));
          (logged.0, t.(leaves := leaves, history := logged.1))
        else (Ok(()), t.(leaves := leaves))
  }

  method HandleFullLeaf(db: Db, tk: Toolkit, id: Bytes, treeId: Pubkey, leafIdx: int, data: Value, seqNo: int, slot: int)
    returns (r: Result<(), TransformerError>)
    modifies db`leaves, db`history
    ensures (r, db.Compressed()) == FullLeafEffect(old(db.Compressed()), db.writesFail, tk, id, treeId, leafIdx, data, seqNo, slot)
    ensures var c := CheckFullLeaf(db.trees, tk, treeId, data);
      && (c.Err? ==> r == Err(c.error) && db.leaves == old(db.leaves) && db.history == old(db.history))
      && (c.Ok? && db.writesFail ==> r == Err(StorageWriteError) && db.leaves == old(db.leaves) && db.history == old(db.history))
      && (c.Ok? && !db.writesFail ==>
            db.leaves == old(db.leaves)[LeafKey(treeId, leafIdx) := FullLeafRow(c.value, seqNo, slot)]
            && (LogsNewCharacter(c.value) ==>
                  (r, db.history) == InsertEvent(old(db.history), false,
                    HistoryRow(id, "NewCharacter", c.value.data.fields["used_by"], slot)))
            && (!LogsNewCharacter(c.value) ==> r == Ok(()) && db.history == old(db.history)))
  {
    var checked := CheckFullLeaf(db.trees, tk, treeId, data);
    if checked.Err? {
      return Err(checked.error);
    }
    if db.writesFail {
      return Err(StorageWriteError);
    }
    db.leaves := db.leaves[LeafKey(treeId, leafIdx) := FullLeafRow(checked.value, seqNo, slot)];
    r := Ok(());
    if LogsNewCharacter(checked.value) {
      r := NewCharacterEvent(db, id, checked.value.data.fields["used_by"], "NewCharacter", slot);
    }
  }

  // ---------------------------------------------------------------------
  // Patch, delete, changelog

  /** `object.insert(key, data)` when the parsed object already has `key`; anything else is left as it is. */
  function PatchValue(v: Value, key: string, data: Value): Value
  {
    if v.Object? && key in v.fields then Object(v.fields[key := data]) else v
  }

  /**
   * A patch never adds a member: the object keeps its key set, the patched
   * key holds the new data and every other member is unchanged. A value
   * without the key is returned as it is.
   */
  lemma PatchValueShape(v: Value, key: string, data: Value)
    ensures var p := PatchValue(v, key, data);
      && (v.Object? && key in v.fields ==>
            p.Object? && p.fields.Keys == v.fields.Keys && p.fields[key] == data
            && forall k :: k in v.fields && k != key ==> p.fields[k] == v.fields[k])
      && (!(v.Object? && key in v.fields) ==> p == v)
  {
  }

  /** Patching the same key with the same data twice is the same as once. */
  lemma PatchValueIdempotent(v: Value, key: string, data: Value)
    ensures PatchValue(PatchValue(v, key, data), key, data) == PatchValue(v, key, data)
  {
  }

  /**
   * The program of the patched row's tree: none without a tree row; a tree
   * row with no program, or one that is not 32 bytes, panics on `unwrap`.
   */
  function PatchProgram(trees: map<Bytes, TreeRow>, treeId: Bytes): (r: Result<Option<Bytes>, TransformerError>)
    ensures treeId !in trees ==> r == Ok(None)
    ensures treeId in trees ==> (r.Ok? <==> trees[treeId].program.Some? && |trees[treeId].program.value| == 32)
    ensures r.Ok? && treeId in trees ==> r.value == trees[treeId].program
    ensures r.Err? ==> r.error == Panicked
  {
    if treeId !in trees then Ok(None)
    else if trees[treeId].program.None? || |trees[treeId].program.value| != 32 then Err(Panicked)
    else Ok(trees[treeId].program)
  }

  /** A `used_by` patch of a character-manager leaf whose data has `used_by` goes through the history log. */
  predicate PatchLogsHistory(parsed: Value, key: string, program: Option<Bytes>)
  {
    parsed.Object? && key in parsed.fields && key == "used_by" && program == Some(CHARACTER_MANAGER)
  }

  /** The row after a patch: parsed data patched, slot_updated set; seq, schema_validated and raw_data untouched. */
  function PatchedRow(row: LeafRow, key: string, data: Value, slot: int): LeafRow
  {
    row.(parsedData := PatchValue(row.parsedData, key, data), slotUpdated := slot)
  }

  /** `handle_leaf_patch` on the tables: the read, the program, the history log, then the update. */
  function PatchEffect(t: Tables, accounts: map<Bytes, AccountRow>, writesFail: bool, tk: Toolkit, id: Bytes, k: LeafKey,
                       key: string, data: Value, slot: int): (Result<(), TransformerError>, Tables)
  {
    if k !in t.leaves then (Err(StorageReadError), t)
    else
      match PatchProgram(t.trees, k.tree)
      case Err(e) => (Err(Panicked), t)
      case Ok(program) =>
        var row := t.leaves[k];
        var logged := if PatchLogsHistory(row.parsedData, key, program)
          then LogEffect(t.history, accounts, writesFail, tk, id, row.parsedData.fields["used_by"], data, slot)
          else (Ok(()), t.history);
        if logged.0.Err? then (logged.0, t.(history := logged.1))
        else if writesFail then (Err(StorageWriteError), t.(history := logged.1))
        else (Ok(()), t.(leaves := t.leaves[k := PatchedRow(row, key, data, slot)], history := logged.1))
  }

  method HandleLeafPatch(db: Db, tk: Toolkit, id: Bytes, k: LeafKey, key: string, data: Value, slot: int)
    returns (r: Result<(), TransformerError>)
    modifies db`leaves, db`history
    ensures (r, db.Compressed()) == PatchEffect(old(db.Compressed()), db.accounts, db.writesFail, tk, id, k, key, data, slot)
    ensures k !in old(db.leaves) ==>
      r == Err(StorageReadError) && db.leaves == old(db.leaves) && db.history == old(db.history)
    ensures k in old(db.leaves) && PatchProgram(db.trees, k.tree).Err? ==>
      r == Err(Panicked) && db.leaves == old(db.leaves) && db.history == old(db.history)
    ensures k in old(db.leaves) && PatchProgram(db.trees, k.tree).Ok? ==>
      var row := old(db.leaves)[k];
      var logs := PatchLogsHistory(row.parsedData, key, PatchProgram(db.trees, k.tree).value);
      var logged := if logs
        then LogEffect(old(db.history), db.accounts, db.writesFail, tk, id, row.parsedData.fields["used_by"], data, slot)
        else (Ok(()), old(db.history));
      && db.history == logged.1
      && (logged.0.Err? ==> r == logged.0 && db.leaves == old(db.leaves))
      && (logged.0.Ok? && db.writesFail ==> r == Err(StorageWriteError) && db.leaves == old(db.leaves))
      && (logged.0.Ok? && !db.writesFail ==> r == Ok(()) && db.leaves == old(db.leaves)[k := PatchedRow(row, key, data, slot)])
  {
    if k !in db.leaves {
      return Err(StorageReadError);
    }
    var row := db.leaves[k];
    var program := PatchProgram(db.trees, k.tree);
    if program.Err? {
      return Err(Panicked);
    }
    var parsed := row.parsedData;
    if parsed.Object? && key in parsed.fields {
      if key == "used_by" && program.value == Some(CHARACTER_MANAGER) {
        var logged := LogCharacterHistory(db, tk, id, parsed.fields["used_by"], data, slot);
        if logged.Err? {
          return logged;
        }
      }
      parsed := Object(parsed.fields[key := data]);
    }
    if db.writesFail {
      return Err(StorageWriteError);
    }
    db.leaves := db.leaves[k := row.(parsedData := parsed, slotUpdated := slot)];
    r := Ok(());
  }

  /** `handle_empty_leaf` on the tables: the read, then the delete. */
  function EmptyEffect(t: Tables, writesFail: bool, k: LeafKey): (Result<(), TransformerError>, Tables)
  {
    if k !in t.leaves then (Err(StorageReadError), t)
    else if writesFail then (Err(StorageWriteError), t)
    else (Ok(()), t.(leaves := t.leaves - {k}))
  }

  method HandleEmptyLeaf(db: Db, k: LeafKey) returns (r: Result<(), TransformerError>)
    modifies db`leaves
    ensures (r, db.Compressed()) == EmptyEffect(old(db.Compressed()), db.writesFail, k)
    ensures k !in old(db.leaves) ==> r == Err(StorageReadError) && db.leaves == old(db.leaves)
    ensures k in old(db.leaves) && db.writesFail ==> r == Err(StorageWriteError) && db.leaves == old(db.leaves)
    ensures k in old(db.leaves) && !db.writesFail ==> r == Ok(()) && db.leaves == old(db.leaves) - {k}
  {
    if k !in db.leaves {
      return Err(StorageReadError);
    }
    if db.writesFail {
      return Err(StorageWriteError);
    }
    db.leaves := db.leaves - {k};
    r := Ok(());
  }

  method HandleChangeLog(db: Db, row: ChangeLogRow) returns (r: Result<(), TransformerError>)
    modifies db`changelog
    ensures db.writesFail ==> r == Err(StorageWriteError) && db.changelog == old(db.changelog)
    ensures !db.writesFail ==> r == Ok(()) && db.changelog == old(db.changelog) + [row]
  {
    if db.writesFail {
      return Err(StorageWriteError);
    }
    db.changelog := db.changelog + [row];
    r := Ok(());
  }

  /** The changelog row a leaf event appends: Full and PatchChunk log their data, Empty logs nothing. */
  function ChangeLogFor(treeId: Pubkey, leafIdx: U32, stream: Stream, seqNo: U64, slot: U64): (c: Option<ChangeLogRow>)
    ensures c.Some? <==> !stream.Empty?
    ensures stream.Full? ==> c.value.key.None? && c.value.data == stream.data
    ensures stream.PatchChunk? ==> c.value.key == Some(stream.key) && c.value.data == stream.data
    ensures c.Some? ==>
      c.value.tree == treeId && c.value.leafIdx == leafIdx && c.value.seqNo == AsI64(seqNo) && c.value.slot == AsI64(slot)
  {
    match stream
    case Full(data) => Some(ChangeLogRow(treeId, leafIdx, None, data, AsI64(seqNo), AsI64(slot)))
    case PatchChunk(key, data) => Some(ChangeLogRow(treeId, leafIdx, Some(key), data, AsI64(seqNo), AsI64(slot)))
    case Empty => None
  }

  /**
   * `handle_leaf` on the tables: the stream's handler, then the changelog
   * row of a Full or PatchChunk stream.
   */
  function LeafEffect(t: Tables, accounts: map<Bytes, AccountRow>, writesFail: bool, tk: Toolkit,
                      treeId: Pubkey, leafIdx: U32, stream: Stream, seqNo: U64, slot: U64): (Result<(), TransformerError>, Tables)
  {
    var k := LeafKey(treeId, leafIdx);
    var handled := match stream
      case Full(data) => FullLeafEffect(t, writesFail, tk, LeafId(treeId, leafIdx), treeId, leafIdx, data, AsI64(seqNo), AsI64(slot))
      case PatchChunk(key, data) => PatchEffect(t, accounts, writesFail, tk, LeafId(treeId, leafIdx), k, key, data, AsI64(slot))
      case Empty => EmptyEffect(t, writesFail, k);
    if handled.0.Err? then handled
    else
      match ChangeLogFor(treeId, leafIdx, stream, seqNo, slot)
      case None => handled
      case Some(c) =>
        if writesFail then (Err(StorageWriteError), handled.1)
        else (Ok(()), handled.1.(changelog := handled.1.changelog + [c]))
  }

  method HandleLeaf(db: Db, tk: Toolkit, treeId: Pubkey, leafIdx: U32, stream: Stream, seqNo: U64, slot: U64)
    returns (r: Result<(), TransformerError>)
    modifies db`leaves, db`history, db`changelog
    ensures (r, db.Compressed()) == LeafEffect(old(db.Compressed()), db.accounts, db.writesFail, tk, treeId, leafIdx, stream, seqNo, slot)
    ensures r.Err? ==> db.leaves == old(db.leaves) && db.changelog == old(db.changelog) && db.history == old(db.history)
    ensures r.Ok? && !stream.Empty? ==> db.changelog == old(db.changelog) + [ChangeLogFor(treeId, leafIdx, stream, seqNo, slot).value]
    ensures stream.Empty? ==> db.changelog == old(db.changelog) && db.history == old(db.history)
    ensures stream.Empty? && r.Ok? ==>
      LeafKey(treeId, leafIdx) in old(db.leaves) && db.leaves == old(db.leaves) - {LeafKey(treeId, leafIdx)}
    ensures stream.Full? && r.Ok? ==>
      var c := CheckFullLeaf(db.trees, tk, treeId, stream.data);
      c.Ok? && db.leaves == old(db.leaves)[LeafKey(treeId, leafIdx) := FullLeafRow(c.value, AsI64(seqNo), AsI64(slot))]
    ensures stream.PatchChunk? && r.Ok? ==>
      var k := LeafKey(treeId, leafIdx);
      k in old(db.leaves) && db.leaves == old(db.leaves)[k := PatchedRow(old(db.leaves)[k], stream.key, stream.data, AsI64(slot))]
  {
    var id := LeafId(treeId, leafIdx);
    var k := LeafKey(treeId, leafIdx);
    match stream {
      case Full(data) =>
        r := HandleFullLeaf(db, tk, id, treeId, leafIdx, data, AsI64(seqNo), AsI64(slot));
      case PatchChunk(key, data) =>
        r := HandleLeafPatch(db, tk, id, k, key, data, AsI64(slot));
      case Empty =>
        r := HandleEmptyLeaf(db, k);
    }
    if r.Err? {
      return r;
    }
    var change := ChangeLogFor(treeId, leafIdx, stream, seqNo, slot);
    if change.Some? {
      r := HandleChangeLog(db, change.value);
    }
  }

  /** `handle_application_data` on the tables: the decoded event goes to the tree or the leaf handler. */
  function AppDataEffect(t: Tables, accounts: map<Bytes, AccountRow>, writesFail: bool, tk: Toolkit, applicationData: Bytes)
    : (Result<(), TransformerError>, Tables)
  {
    match tk.decodeEvent(applicationData)
    case None => (Err(CompressedDataParseError), t)
    case Some(TreeSchemaValue(discriminator, treeId, schema, canopyDepth, programId)) =>
      TreeEffect(t, writesFail, tk, discriminator, treeId, schema, canopyDepth, programId)
    case Some(Leaf(slot, treeId, leafIdx, seqNo, stream)) =>
      LeafEffect(t, accounts, writesFail, tk, treeId, leafIdx, stream, seqNo, slot)
  }

  method HandleApplicationData(db: Db, tk: Toolkit, applicationData: Bytes) returns (r: Result<(), TransformerError>)
    modifies db`trees, db`leaves, db`history, db`changelog
    ensures (r, db.Compressed()) == AppDataEffect(old(db.Compressed()), db.accounts, db.writesFail, tk, applicationData)
    ensures tk.decodeEvent(applicationData).None? ==>
      r == Err(CompressedDataParseError) && db.trees == old(db.trees) && db.leaves == old(db.leaves)
      && db.history == old(db.history) && db.changelog == old(db.changelog)
    ensures tk.decodeEvent(applicationData).Some? && tk.decodeEvent(applicationData).value.TreeSchemaValue? ==>
      db.leaves == old(db.leaves) && db.history == old(db.history) && db.changelog == old(db.changelog)
    ensures tk.decodeEvent(applicationData).Some? && tk.decodeEvent(applicationData).value.Leaf? ==>
      db.trees == old(db.trees)
    ensures r.Err? ==>
      db.trees == old(db.trees) && db.leaves == old(db.leaves) && db.history == old(db.history) && db.changelog == old(db.changelog)
  {
    var event := tk.decodeEvent(applicationData);
    if event.None? {
      return Err(CompressedDataParseError);
    }
    match event.value {
      case TreeSchemaValue(discriminator, treeId, schema, canopyDepth, programId) =>
        r := HandleTree(db, tk, discriminator, treeId, schema, canopyDepth, programId);
      case Leaf(slot, treeId, leafIdx, seqNo, stream) =>
        r := HandleLeaf(db, tk, treeId, leafIdx, stream, seqNo, slot);
    }
  }

  /** `save_applicationdata_event`: the handler's error, or `Ok(0)`. */
  method SaveApplicationDataEvent(db: Db, tk: Toolkit, applicationData: Bytes) returns (r: Result<nat, TransformerError>)
    modifies db`trees, db`leaves, db`history, db`changelog
    ensures var e := AppDataEffect(old(db.Compressed()), db.accounts, db.writesFail, tk, applicationData);
      && db.Compressed() == e.1
      && (r.Ok? <==> e.0.Ok?)
      && (r.Err? ==> r.error == e.0.error)
    ensures r.Ok? ==> r.value == 0
    ensures tk.decodeEvent(applicationData).None? ==> r == Err(CompressedDataParseError)
    ensures r.Err? ==>
      db.trees == old(db.trees) && db.leaves == old(db.leaves) && db.history == old(db.history) && db.changelog == old(db.changelog)
  {
    var handled := HandleApplicationData(db, tk, applicationData);
    if handled.Err? {
      return Err(handled.error);
    }
    r := Ok(0);
  }

  // ---------------------------------------------------------------------
  // What one application-data event does to the tables

  /** On a failing connection the history log may answer `Ok` (the event is there already) but never adds a row. */
  lemma LogEffectWithoutWrites(h: seq<HistoryRow>, accounts: map<Bytes, AccountRow>, tk: Toolkit,
                               characterId: Bytes, pre: Value, post: Value, slot: int)
    ensures LogEffect(h, accounts, true, tk, characterId, pre, post, slot).1 == h
  {
  }

  /** An event that fails leaves all four tables as they were. */
  lemma AppDataErrorKeepsTables(t: Tables, accounts: map<Bytes, AccountRow>, writesFail: bool, tk: Toolkit, applicationData: Bytes)
    ensures AppDataEffect(t, accounts, writesFail, tk, applicationData).0.Err? ==>
      AppDataEffect(t, accounts, writesFail, tk, applicationData).1 == t
  {
    match tk.decodeEvent(applicationData)
    case None =>
    case Some(TreeSchemaValue(_, _, _, _, _)) =>
    case Some(Leaf(slot, treeId, leafIdx, seqNo, stream)) =>
      if stream.PatchChunk? && writesFail {
        var k := LeafKey(treeId, leafIdx);
        if k in t.leaves && t.leaves[k].parsedData.Object? && "used_by" in t.leaves[k].parsedData.fields {
          LogEffectWithoutWrites(t.history, accounts, tk, LeafId(treeId, leafIdx),
            t.leaves[k].parsedData.fields["used_by"], stream.data, AsI64(slot));
        }
      }
  }

  /**
   * A tree event writes only `merkle_tree`, and on success it is the tree
   * upsert; a leaf event never writes `merkle_tree`.
   */
  lemma AppDataTablesByEvent(t: Tables, accounts: map<Bytes, AccountRow>, writesFail: bool, tk: Toolkit, applicationData: Bytes)
    requires tk.decodeEvent(applicationData).Some?
    ensures var e := AppDataEffect(t, accounts, writesFail, tk, applicationData);
      match tk.decodeEvent(applicationData).value
      case TreeSchemaValue(discriminator, treeId, schema, canopyDepth, programId) =>
        && e.1.leaves == t.leaves && e.1.changelog == t.changelog && e.1.history == t.history
        && (e.0.Ok? <==> tk.encodeSchema(schema).Some? && !writesFail)
        && (e.0.Ok? ==> e.1.trees == UpsertTree(t.trees, treeId,
              TreeRow(discriminator, Some(programId), tk.encodeSchema(schema).value, canopyDepth)))
      case Leaf(_, _, _, _, _) => e.1.trees == t.trees
  {
  }

  /** A successful leaf event appends its changelog row, and an Empty stream appends none. */
  lemma LeafEffectChangelog(t: Tables, accounts: map<Bytes, AccountRow>, writesFail: bool, tk: Toolkit,
                            treeId: Pubkey, leafIdx: U32, stream: Stream, seqNo: U64, slot: U64)
    ensures var e := LeafEffect(t, accounts, writesFail, tk, treeId, leafIdx, stream, seqNo, slot);
      && (e.0.Ok? && !stream.Empty? ==> e.1.changelog == t.changelog + [ChangeLogFor(treeId, leafIdx, stream, seqNo, slot).value])
      && (stream.Empty? ==> e.1.changelog == t.changelog && e.1.history == t.history)
  {
  }

  /** A leaf event changes no `compressed_data` row but its own. */
  lemma LeafEffectTouchesOneLeaf(t: Tables, accounts: map<Bytes, AccountRow>, writesFail: bool, tk: Toolkit,
                                 treeId: Pubkey, leafIdx: U32, stream: Stream, seqNo: U64, slot: U64, other: LeafKey)
    requires other != LeafKey(treeId, leafIdx)
    ensures var e := LeafEffect(t, accounts, writesFail, tk, treeId, leafIdx, stream, seqNo, slot);
      (other in e.1.leaves <==> other in t.leaves) && (other in t.leaves ==> e.1.leaves[other] == t.leaves[other])
  {
  }

  /**
   * A leaf event adds at most one `character_history` row, at the end, and
   * only for the character that is this leaf.
   */
  lemma LeafEffectHistory(t: Tables, accounts: map<Bytes, AccountRow>, writesFail: bool, tk: Toolkit,
                          treeId: Pubkey, leafIdx: U32, stream: Stream, seqNo: U64, slot: U64)
    ensures var h := LeafEffect(t, accounts, writesFail, tk, treeId, leafIdx, stream, seqNo, slot).1.history;
      && |t.history| <= |h| <= |t.history| + 1 && h[..|t.history|] == t.history
      && (|h| > |t.history| ==> h[|t.history|].characterId == LeafId(treeId, leafIdx))
  {
  }

  /** No event logs the same (character, event, slot) triple twice. */
  lemma AppDataKeepsUniqueEvents(t: Tables, accounts: map<Bytes, AccountRow>, writesFail: bool, tk: Toolkit, applicationData: Bytes)
    requires UniqueEvents(t.history)
    ensures UniqueEvents(AppDataEffect(t, accounts, writesFail, tk, applicationData).1.history)
  {
    match tk.decodeEvent(applicationData)
    case None =>
    case Some(TreeSchemaValue(_, _, _, _, _)) =>
    case Some(Leaf(slot, treeId, leafIdx, seqNo, stream)) =>
      var id := LeafId(treeId, leafIdx);
      var k := LeafKey(treeId, leafIdx);
      match stream
      case Full(data) =>
        var c := CheckFullLeaf(t.trees, tk, treeId, data);
        if c.Ok? && LogsNewCharacter(c.value) {
          InsertEventKeepsUnique(t.history, false, HistoryRow(id, "NewCharacter", c.value.data.fields["used_by"], AsI64(slot)));
        }
      case PatchChunk(key, data) =>
        if k in t.leaves && t.leaves[k].parsedData.Object? && "used_by" in t.leaves[k].parsedData.fields {
          var pre := t.leaves[k].parsedData.fields["used_by"];
          match HistoryDecision(t.history, accounts, tk, pre, data)
          case Ok(Some(entry)) =>
            InsertEventKeepsUnique(t.history, writesFail, HistoryRow(id, entry.0, entry.1, AsI64(slot)));
          case _ =>
        }
      case Empty =>
  }

  // ---------------------------------------------------------------------
  // Character history

  /** The history event of a `used_by` transition, matched in the code's order; `None` for an unlisted pair. */
  function CharacterEvent(pre: string, post: string): Option<string>
  {
    if pre == "Ejected" && post == "None" then Some("Wrapped")
    else if pre == "None" && post == "Staking" then Some("Staked")
    else if pre == "None" && post == "Mission" then Some("MissionParticipation")
    else if pre == "Staking" && post == "None" then Some("UnStaked")
    else if pre == "Staking" && post == "Staking" then Some("ClaimedStakingReward")
    else if pre == "Mission" && post == "None" then Some("RecallFromMission")
    else if pre == "Mission" && post == "Mission" then Some("ClaimedMissionReward")
    else if post == "Ejected" then Some("UnWrapped")
    else None
  }

  /** The one transition each event other than UnWrapped stands for. */
  function TransitionOf(event: string): Option<(string, string)>
  {
    if event == "Wrapped" then Some(("Ejected", "None"))
    else if event == "Staked" then Some(("None", "Staking"))
    else if event == "MissionParticipation" then Some(("None", "Mission"))
    else if event == "UnStaked" then Some(("Staking", "None"))
    else if event == "ClaimedStakingReward" then Some(("Staking", "Staking"))
    else if event == "RecallFromMission" then Some(("Mission", "None"))
    else if event == "ClaimedMissionReward" then Some(("Mission", "Mission"))
    else None
  }

  /**
   * The event table read both ways: every event except UnWrapped names its
   * transition uniquely, and UnWrapped is exactly a move to Ejected.
   */
  lemma CharacterEventTable(pre: string, post: string)
    ensures CharacterEvent(pre, post) == Some("UnWrapped") <==> post == "Ejected"
    ensures forall e :: CharacterEvent(pre, post) == Some(e) && e != "UnWrapped" ==> TransitionOf(e) == Some((pre, post))
    ensures forall e :: TransitionOf(e) == Some((pre, post)) ==> CharacterEvent(pre, post) == Some(e)
  {
    EventNamesTransition(pre, post);
    TransitionNamesEvent(pre, post);
  }

  /** Read forwards: an event other than UnWrapped stands for the transition it was logged for. */
  lemma EventNamesTransition(pre: string, post: string)
    ensures forall e :: CharacterEvent(pre, post) == Some(e) && e != "UnWrapped" ==> TransitionOf(e) == Some((pre, post))
  {
  }

  /** Read backwards: the transition an event stands for logs that event. */
  lemma TransitionNamesEvent(pre: string, post: string)
    ensures forall e :: TransitionOf(e) == Some((pre, post)) ==> CharacterEvent(pre, post) == Some(e)
  {
  }

  /** A transition logs nothing exactly when it is not a move to Ejected and no event stands for it. */
  lemma CharacterEventNone(pre: string, post: string)
    ensures CharacterEvent(pre, post).None? <==>
      post != "Ejected" && TransitionOf("Wrapped") != Some((pre, post)) && TransitionOf("Staked") != Some((pre, post))
      && TransitionOf("MissionParticipation") != Some((pre, post)) && TransitionOf("UnStaked") != Some((pre, post))
      && TransitionOf("ClaimedStakingReward") != Some((pre, post)) && TransitionOf("RecallFromMission") != Some((pre, post))
      && TransitionOf("ClaimedMissionReward") != Some((pre, post))
  {
  }

  predicate HasEvent(h: seq<HistoryRow>, characterId: Bytes, event: string, slot: int)
  {
    exists i :: 0 <= i < |h| && h[i].characterId == characterId && h[i].event == event && h[i].slotUpdated == slot
  }

  /** `new_character_event` on the history table: insert unless the (character, event, slot) triple is already logged. */
  function InsertEvent(h: seq<HistoryRow>, writesFail: bool, row: HistoryRow): (Result<(), TransformerError>, seq<HistoryRow>)
  {
    if HasEvent(h, row.characterId, row.event, row.slotUpdated) then (Ok(()), h)
    else if writesFail then (Err(StorageWriteError), h)
    else (Ok(()), h + [row])
  }

  /** Logging an event a second time changes nothing and cannot fail, whatever the connection does. */
  lemma InsertEventIdempotent(h: seq<HistoryRow>, writesFail: bool, row: HistoryRow, writesFail2: bool)
    requires InsertEvent(h, writesFail, row).0.Ok?
    ensures var h1 := InsertEvent(h, writesFail, row).1;
      HasEvent(h1, row.characterId, row.event, row.slotUpdated) && InsertEvent(h1, writesFail2, row) == (Ok(()), h1)
  {
    var h1 := InsertEvent(h, writesFail, row).1;
    if !HasEvent(h, row.characterId, row.event, row.slotUpdated) {
      assert h1[|h|] == row;
    }
  }

  /** No two history rows share a (character, event, slot) triple. */
  predicate UniqueEvents(h: seq<HistoryRow>)
  {
    forall i, j :: 0 <= i < j < |h| ==>
      !(h[i].characterId == h[j].characterId && h[i].event == h[j].event && h[i].slotUpdated == h[j].slotUpdated)
  }

  lemma InsertEventKeepsUnique(h: seq<HistoryRow>, writesFail: bool, row: HistoryRow)
    requires UniqueEvents(h)
    ensures UniqueEvents(InsertEvent(h, writesFail, row).1)
  {
    var h1 := InsertEvent(h, writesFail, row).1;
    if h1 != h {
      forall i, j | 0 <= i < j < |h1|
        ensures !(h1[i].characterId == h1[j].characterId && h1[i].event == h1[j].event && h1[i].slotUpdated == h1[j].slotUpdated)
      {
        if j == |h| {
          assert h1[i] == h[i];
        }
      }
    }
  }

  method NewCharacterEvent(db: Db, characterId: Bytes, eventData: Value, event: string, slot: int)
    returns (r: Result<(), TransformerError>)
    modifies db`history
    ensures (r, db.history) == InsertEvent(old(db.history), db.writesFail, HistoryRow(characterId, event, eventData, slot))
  {
    var found := HasEvent(db.history, characterId, event, slot);
    r := Ok(());
    if !found {
      if db.writesFail {
        return Err(StorageWriteError);
      }
      db.history := db.history + [HistoryRow(characterId, event, eventData, slot)];
    }
  }

  /** A history row's `event_data->'params'->>'participation_id'` equals `pid`. */
  predicate Participates(row: HistoryRow, pid: Value)
  {
    var p := Params(row.eventData);
    p.Some? && Get(p.value, "participation_id") == Some(pid)
  }

  /** The serial ids (position + 1) of the first `n` history rows of participation `pid`, in table order. */
  function ParticipationIdsUpTo(h: seq<HistoryRow>, pid: Value, n: nat): (ids: seq<int>)
    requires n <= |h|
    ensures forall j :: 0 <= j < |ids| ==> 1 <= ids[j] <= n
  {
    if n == 0 then []
    else ParticipationIdsUpTo(h, pid, n - 1) + (if Participates(h[n - 1], pid) then [n] else [])
  }

  /** Each id is larger than the ones before it. */
  predicate Increasing(ids: seq<int>)
  {
    forall j, j' :: 0 <= j < j' < |ids| ==> ids[j] < ids[j']
  }

  /** The ids come in table order, so the last one found is the latest participation row. */
  lemma {:induction false} ParticipationIdsOrdered(h: seq<HistoryRow>, pid: Value, n: nat)
    requires n <= |h|
    ensures Increasing(ParticipationIdsUpTo(h, pid, n))
  {
    if n > 0 {
      ParticipationIdsOrdered(h, pid, n - 1);
      var prev := ParticipationIdsUpTo(h, pid, n - 1);
      var ids := ParticipationIdsUpTo(h, pid, n);
      assert ids == prev + (if Participates(h[n - 1], pid) then [n] else []);
      forall j, j' | 0 <= j < j' < |ids|
        ensures ids[j] < ids[j']
      {
        assert ids[j] == prev[j] && prev[j] <= n - 1;
        if j' < |prev| {
          assert ids[j'] == prev[j'];
        } else {
          assert ids[j'] == n;
        }
      }
    }
  }

  /** The ids found are exactly those of the rows of the participation among the first `n`. */
  lemma {:induction false} ParticipationIdsExact(h: seq<HistoryRow>, pid: Value, n: nat)
    requires n <= |h|
    ensures forall j :: 0 <= j < |ParticipationIdsUpTo(h, pid, n)| ==>
      Participates(h[ParticipationIdsUpTo(h, pid, n)[j] - 1], pid)
    ensures forall i :: 0 <= i < n && Participates(h[i], pid) ==> i + 1 in ParticipationIdsUpTo(h, pid, n)
  {
    if n > 0 {
      ParticipationIdsExact(h, pid, n - 1);
      var prev := ParticipationIdsUpTo(h, pid, n - 1);
      var ids := ParticipationIdsUpTo(h, pid, n);
      assert forall j :: 0 <= j < |prev| ==> ids[j] == prev[j];
    }
  }

  /** The history rows the participation query finds, as their ids. */
  function ParticipationIds(h: seq<HistoryRow>, pid: Value): seq<int>
  {
    ParticipationIdsUpTo(h, pid, |h|)
  }

  /** `get_result_from_delta` as a release build computes it: every `u64` operation wraps. */
  function GetResultFromDelta(min: U64, max: U64, delta: U64): U64
  {
    var range := WrapU64(max - min);
    WrapU64(min + WrapU64(delta * range) / 100)
  }

  /** With min ≤ max, delta ≤ 100 and no overflow in delta·(max−min), the reward lies in [min, max]. */
  lemma GetResultFromDeltaInRange(min: U64, max: U64, delta: U64)
    requires min <= max && delta <= 100
    requires delta * (max - min) < U64_LIMIT
    ensures min <= GetResultFromDelta(min, max, delta) <= max
    ensures GetResultFromDelta(min, max, delta) == min + delta * (max - min) / 100
  {
    var range := max - min;
    assert WrapU64(max - min) == range;
    var scaled := delta * range;
    assert WrapU64(scaled) == scaled;
    PercentOfRange(delta, range);
    assert min + scaled / 100 <= max;
  }

  /** At most 100 percent of a range lies within it. */
  lemma PercentOfRange(delta: nat, range: nat)
    requires delta <= 100
    ensures 0 <= delta * range / 100 <= range
  {
    assert 100 * range == delta * range + (100 - delta) * range;
    assert (100 - delta) * range >= 0;
  }

  /** With max < min the subtraction wraps and the "reward" leaves the range. */
  lemma GetResultFromDeltaUnderflow()
    ensures GetResultFromDelta(1, 0, 100) == 184467440737095516
  {
  }

  /** A reward object `{reward, reward_type}` for one collected event reward, or `None`. */
  function CalculateReward(eventReward: Value, parsedRewards: seq<Value>): (r: Option<Value>)
    ensures r.Some? ==> eventReward.Object? && Get(eventReward, "collected") == Some(Bool(true))
    ensures Get(eventReward, "collected") == Some(Bool(false)) ==> r.None?
    ensures Get(eventReward, "delta").None? || Get(eventReward, "reward_idx").None? || Get(eventReward, "collected").None? ==> r.None?
    ensures r.Some? ==>
      var o := eventReward.fields;
      && "delta" in o && AsU64(o["delta"]).Some?
      && "reward_idx" in o && AsU64(o["reward_idx"]).Some?
      && o["reward_idx"].n < |parsedRewards| && parsedRewards[o["reward_idx"].n].Object?
      && var bounds := parsedRewards[o["reward_idx"].n].fields;
      && "min" in bounds && AsU64(bounds["min"]).Some? && "max" in bounds && AsU64(bounds["max"]).Some?
      && "reward_type" in bounds
      && r.value == Object(map[
           "reward" := Number(GetResultFromDelta(bounds["min"].n, bounds["max"].n, o["delta"].n)),
           "reward_type" := bounds["reward_type"]])
  {
    if !eventReward.Object? then None
    else
      var o := eventReward.fields;
      if "delta" !in o || AsU64(o["delta"]).None? then None
      else if "reward_idx" !in o || AsU64(o["reward_idx"]).None? then None
      else if "collected" !in o || AsBool(o["collected"]).None? then None
      else if !o["collected"].b then None
      else
        var idx := o["reward_idx"].n;
        if idx >= |parsedRewards| || !parsedRewards[idx].Object? then None
        else
          var minMax := parsedRewards[idx].fields;
          if "min" !in minMax || AsU64(minMax["min"]).None? then None
          else if "max" !in minMax || AsU64(minMax["max"]).None? then None
          else if "reward_type" !in minMax then None
          else
            Some(Object(map[
              "reward" := Number(GetResultFromDelta(minMax["min"].n, minMax["max"].n, o["delta"].n)),
              "reward_type" := minMax["reward_type"]]))
  }

  /** The rewards the loop of `update_new_used_by` collects, in event order. */
  function CollectRewards(eventRewards: seq<Value>, parsedRewards: seq<Value>): seq<Value>
  {
    if eventRewards == [] then []
    else
      var last := CalculateReward(eventRewards[|eventRewards| - 1], parsedRewards);
      CollectRewards(eventRewards[..|eventRewards| - 1], parsedRewards) + (if last.Some? then [last.value] else [])
  }

  /** Every collected reward comes, in order, from a collected event reward, and none is invented. */
  lemma {:induction false} CollectRewardsSound(eventRewards: seq<Value>, parsedRewards: seq<Value>)
    ensures |CollectRewards(eventRewards, parsedRewards)| <= |eventRewards|
    ensures forall x :: x in CollectRewards(eventRewards, parsedRewards) ==>
      exists i :: 0 <= i < |eventRewards| && CalculateReward(eventRewards[i], parsedRewards) == Some(x)
  {
    if eventRewards != [] {
      var front := eventRewards[..|eventRewards| - 1];
      CollectRewardsSound(front, parsedRewards);
      forall x | x in CollectRewards(eventRewards, parsedRewards)
        ensures exists i :: 0 <= i < |eventRewards| && CalculateReward(eventRewards[i], parsedRewards) == Some(x)
      {
        if x in CollectRewards(front, parsedRewards) {
          var i :| 0 <= i < |front| && CalculateReward(front[i], parsedRewards) == Some(x);
          assert eventRewards[i] == front[i];
        } else {
          assert CalculateReward(eventRewards[|eventRewards| - 1], parsedRewards) == Some(x);
        }
      }
    }
  }

  /** No event reward marked collected means no reward. */
  lemma {:induction false} CollectRewardsNoneCollected(eventRewards: seq<Value>, parsedRewards: seq<Value>)
    requires forall i :: 0 <= i < |eventRewards| ==> Get(eventRewards[i], "collected") != Some(Bool(true))
    ensures CollectRewards(eventRewards, parsedRewards) == []
  {
    if eventRewards != [] {
      CollectRewardsNoneCollected(eventRewards[..|eventRewards| - 1], parsedRewards);
    }
  }

  function Numbers(ids: seq<int>): (r: seq<Value>)
    ensures |r| == |ids| && forall i :: 0 <= i < |ids| ==> r[i] == Number(ids[i])
  {
    if ids == [] then [] else [Number(ids[0])] + Numbers(ids[1..])
  }

  /** The params object of a recalled character: pre_used_by, event_participant_ids, last_event_id and rewards. */
  function CreateParams(preKind: string, ids: seq<int>, rewards: seq<Value>, lastId: Option<int>): (r: Value)
    ensures r.Object? && r.fields.Keys == {"pre_used_by", "event_participant_ids", "last_event_id", "rewards"}
    ensures r.fields["pre_used_by"] == Str(preKind)
    ensures r.fields["event_participant_ids"].Array? && |r.fields["event_participant_ids"].items| == |ids|
    ensures forall i :: 0 <= i < |ids| ==> r.fields["event_participant_ids"].items[i] == Number(ids[i])
    ensures r.fields["last_event_id"] == if lastId.Some? then Number(lastId.value) else Null
    ensures r.fields["rewards"] == Array(rewards)
  {
    Object(map[
      "pre_used_by" := Str(preKind),
      "event_participant_ids" := Array(Numbers(ids)),
      "last_event_id" := (if lastId.Some? then Number(lastId.value) else Null),
      "rewards" := Array(rewards)])
  }

  predicate HasPubkeyPrefix(s: string)
  {
    |s| >= 7 && s[..7] == "pubkey:"
  }

  /** Where the loop of `update_new_used_by` finds its inputs: the mission's rewards and the event's rewards. */
  function RewardSources(accounts: map<Bytes, AccountRow>, tk: Toolkit, last: Option<HistoryRow>)
    : Result<Option<(seq<Value>, seq<Value>)>, TransformerError>
  {
    if last.None? then Ok(None)
    else
      var params := Params(last.value.eventData);
      if params.None? || !params.value.Object? then Ok(None)
      else
        var ps := params.value.fields;
        if "mission_id" !in ps || !ps["mission_id"].Str? then Ok(None)
        else
          var missionId := ps["mission_id"].s;
          if !HasPubkeyPrefix(missionId) then Err(ParsingError)
          else
            match tk.decodeBase58(missionId[7..])
            case None => Err(ParsingError)
            case Some(address) =>
              if address !in accounts then Err(StorageReadError)
              else if !accounts[address].parsedData.Object? then Err(ParsingError)
              else
                var mission := accounts[address].parsedData.fields;
                if "rewards" in mission && mission["rewards"].Array? && "rewards" in ps && ps["rewards"].Array?
                then Ok(Some((ps["rewards"].items, mission["rewards"].items)))
                else Ok(None)
  }

  /** The `used_by` value a recall logs: an Enum becomes `None` with the recall params; anything else is kept. */
  function RecalledUsedBy(accounts: map<Bytes, AccountRow>, tk: Toolkit, newUsedBy: Value, preKind: string,
                          ids: seq<int>, last: Option<HistoryRow>, lastId: Option<int>): Result<Value, TransformerError>
  {
    if !newUsedBy.Enum? then Ok(newUsedBy)
    else
      match RewardSources(accounts, tk, last)
      case Err(e) => Err(e)
      case Ok(None) => Ok(Enum("None", CreateParams(preKind, ids, [], lastId)))
      case Ok(Some(sources)) => Ok(Enum("None", CreateParams(preKind, ids, CollectRewards(sources.0, sources.1), lastId)))
  }

  /**
   * A recalled Enum is logged as `None` carrying the recall params: the previous variant,
   * the participation ids in order and the last id; a value of any other kind is kept.
   */
  lemma RecalledUsedByShape(accounts: map<Bytes, AccountRow>, tk: Toolkit, newUsedBy: Value, preKind: string,
                            ids: seq<int>, last: Option<HistoryRow>, lastId: Option<int>)
    ensures var r := RecalledUsedBy(accounts, tk, newUsedBy, preKind, ids, last, lastId);
      && (!newUsedBy.Enum? ==> r == Ok(newUsedBy))
      && (r.Ok? && newUsedBy.Enum? ==>
            && r.value.Enum? && r.value.kind == "None" && r.value.params.Object?
            && r.value.params.fields["pre_used_by"] == Str(preKind)
            && r.value.params.fields["event_participant_ids"] == Array(Numbers(ids))
            && r.value.params.fields["last_event_id"] == (if lastId.Some? then Number(lastId.value) else Null))
  {
  }

  method UpdateNewUsedBy(db: Db, tk: Toolkit, newUsedBy: Value, preKind: string, ids: seq<int>,
                         last: Option<HistoryRow>, lastId: Option<int>)
    returns (r: Result<Value, TransformerError>)
    ensures r == RecalledUsedBy(db.accounts, tk, newUsedBy, preKind, ids, last, lastId)
  {
    if !newUsedBy.Enum? {
      return Ok(newUsedBy);
    }
    var allRewards: seq<Value> := [];
    var sources := RewardSources(db.accounts, tk, last);
    if sources.Err? {
      return Err(sources.error);
    }
    if sources.value.Some? {
      var eventRewards := sources.value.value.0;
      var parsedRewards := sources.value.value.1;
      var i := 0;
      while i < |eventRewards|
        invariant 0 <= i <= |eventRewards|
        invariant allRewards == CollectRewards(eventRewards[..i], parsedRewards)
      {
        var reward := CalculateReward(eventRewards[i], parsedRewards);
        assert eventRewards[..i + 1][..i] == eventRewards[..i];
        if reward.Some? {
          allRewards := allRewards + [reward.value];
        }
        i := i + 1;
      }
      assert eventRewards[..i] == eventRewards;
    }
    r := Ok(Enum("None", CreateParams(preKind, ids, allRewards, lastId)));
  }

  /** `is_any_reward_collected` over the rewards array: some element is an object with `collected: true`. */
  function AnyCollected(rewards: seq<Value>): bool
  {
    rewards != [] && (Get(rewards[0], "collected") == Some(Bool(true)) || AnyCollected(rewards[1..]))
  }

  lemma {:induction false} AnyCollectedIff(rewards: seq<Value>)
    ensures AnyCollected(rewards) <==> exists i :: 0 <= i < |rewards| && Get(rewards[i], "collected") == Some(Bool(true))
  {
    if rewards != [] {
      AnyCollectedIff(rewards[1..]);
      if AnyCollected(rewards[1..]) {
        var i :| 0 <= i < |rewards[1..]| && Get(rewards[1..][i], "collected") == Some(Bool(true));
        assert rewards[i + 1] == rewards[1..][i];
      }
      if exists i :: 0 <= i < |rewards| && Get(rewards[i], "collected") == Some(Bool(true)) {
        var i :| 0 <= i < |rewards| && Get(rewards[i], "collected") == Some(Bool(true));
        if i > 0 {
          assert rewards[1..][i - 1] == rewards[i];
        }
      }
    }
  }

  function IsAnyRewardCollected(params: Value): bool
  {
    var rewards := Get(params, "rewards");
    rewards.Some? && rewards.value.Array? && AnyCollected(rewards.value.items)
  }

  /**
   * What `log_character_history` logs: nothing for a non-enum value or an
   * unlisted transition, an error from the recall lookup, or the event and
   * the value to log with it.
   */
  function HistoryDecision(h: seq<HistoryRow>, accounts: map<Bytes, AccountRow>, tk: Toolkit, pre: Value, post: Value)
    : Result<Option<(string, Value)>, TransformerError>
  {
    if !pre.Enum? || !post.Enum? then Ok(None)
    else
      match CharacterEvent(pre.kind, post.kind)
      case None => Ok(None)
      case Some(event) =>
        if event == "RecallFromMission" && IsAnyRewardCollected(pre.params) && pre.params.Object?
          && "participation_id" in pre.params.fields
        then
          var ids := ParticipationIds(h, pre.params.fields["participation_id"]);
          if |ids| == 0 then Err(StorageReadError)
          else
            var lastId := ids[|ids| - 1];
            match RecalledUsedBy(accounts, tk, post, pre.kind, ids, Some(h[lastId - 1]), Some(lastId))
            case Err(e) => Err(e)
            case Ok(v) => Ok(Some((event, v)))
        else Ok(Some((event, post)))
  }

  /** A non-enum `used_by` or an unlisted transition logs nothing and succeeds. */
  lemma HistoryDecisionSkips(h: seq<HistoryRow>, accounts: map<Bytes, AccountRow>, tk: Toolkit, pre: Value, post: Value)
    requires !pre.Enum? || !post.Enum? || CharacterEvent(pre.kind, post.kind).None?
    ensures HistoryDecision(h, accounts, tk, pre, post) == Ok(None)
  {
  }

  /** Every event other than a rewarded recall logs the new value unchanged. */
  lemma HistoryDecisionPlain(h: seq<HistoryRow>, accounts: map<Bytes, AccountRow>, tk: Toolkit, pre: Value, post: Value)
    requires pre.Enum? && post.Enum? && CharacterEvent(pre.kind, post.kind).Some?
    requires CharacterEvent(pre.kind, post.kind) != Some("RecallFromMission")
    ensures HistoryDecision(h, accounts, tk, pre, post) == Ok(Some((CharacterEvent(pre.kind, post.kind).value, post)))
  {
  }

  /** The effect of `log_character_history` on the history table, with its result. */
  function LogEffect(h: seq<HistoryRow>, accounts: map<Bytes, AccountRow>, writesFail: bool, tk: Toolkit,
                     characterId: Bytes, pre: Value, post: Value, slot: int): (Result<(), TransformerError>, seq<HistoryRow>)
  {
    match HistoryDecision(h, accounts, tk, pre, post)
    case Err(e) => (Err(e), h)
    case Ok(None) => (Ok(()), h)
    case Ok(Some(entry)) => InsertEvent(h, writesFail, HistoryRow(characterId, entry.0, entry.1, slot))
  }

  /** `log_character_history`: the decision, then the insert unless the same event is already recorded. */
  method LogCharacterHistory(db: Db, tk: Toolkit, characterId: Bytes, pre: Value, post: Value, slot: int)
    returns (r: Result<(), TransformerError>)
    modifies db`history
    ensures (r, db.history) == LogEffect(old(db.history), db.accounts, db.writesFail, tk, characterId, pre, post, slot)
  {
    var decision := DecideHistory(db, tk, pre, post);
    match decision {
      case Err(e) => return Err(e);
      case Ok(None) => return Ok(());
      case Ok(Some(entry)) => r := NewCharacterEvent(db, characterId, entry.1, entry.0, slot);
    }
  }

  /** The event `log_character_history` would record for a `used_by` change, and the data it records. */
  method DecideHistory(db: Db, tk: Toolkit, pre: Value, post: Value) returns (d: Result<Option<(string, Value)>, TransformerError>)
    ensures d == HistoryDecision(db.history, db.accounts, tk, pre, post)
  {
    if !pre.Enum? || !post.Enum? {
      return Ok(None);
    }
    var event := CharacterEvent(pre.kind, post.kind);
    if event.None? {
      return Ok(None);
    }
    var logged := post;
    if event.value == "RecallFromMission" && IsAnyRewardCollected(pre.params) && pre.params.Object?
      && "participation_id" in pre.params.fields
    {
      var ids := ParticipationIds(db.history, pre.params.fields["participation_id"]);
      if |ids| == 0 {
        return Err(StorageReadError);
      }
      var lastId := ids[|ids| - 1];
      var updated := UpdateNewUsedBy(db, tk, post, pre.kind, ids, Some(db.history[lastId - 1]), Some(lastId));
      if updated.Err? {
        return Err(updated.error);
      }
      logged := updated.value;
    }
    d := Ok(Some((event.value, logged)));
  }
}
