/**
 * The older compressed-leaf writer of `nft_ingester`: the same
 * `merkle_tree` and `compressed_data` tables, without the changelog and the
 * character history. Its patch places keys under a `V1` object when there
 * is one and re-serialises `raw_data` from the patched value.
 */
module LegacyCompressedData {
  import opened Wrappers
  import opened Bytes
  import opened Values
  import opened Store
  import opened IngesterErrors
  import CompressedData

  /** The older `CompressedDataEvent`: a tree announcement carries only the tree id and the schema. */
  datatype LegacyEvent =
    | LegacyTreeSchema(treeId: Pubkey, schema: CompressedData.Schema)
    | LegacyLeaf(slot: U64, treeId: Pubkey, leafIdx: U32, seqNo: U64, stream: CompressedData.Stream)

  /**
   * The row a first announcement inserts: the columns the insert leaves
   * unset take their column defaults (no discriminator bytes, no program,
   * canopy depth 0).
   */
  function AnnouncedTree(dataSchema: Bytes): TreeRow
  {
    TreeRow([], None, dataSchema, 0)
  }

  /** What a full leaf writes once the checks pass. */
  datatype LegacyFullLeaf = LegacyFullLeaf(schemaValidated: bool, data: Value, rawData: Bytes)

  /** The checks of the Full arm before its upsert; the tree's program is not looked at. */
  function CheckLegacyFullLeaf(trees: map<Bytes, TreeRow>, tk: CompressedData.Toolkit, treeId: Pubkey, data: Value)
    : (r: Result<LegacyFullLeaf, IngesterError>)
    ensures r.Ok? ==> (r.value.schemaValidated <==> treeId in trees)
    ensures r.Ok? ==> tk.encodeValue(r.value.data) == Some(r.value.rawData)
    ensures r.Ok? && treeId !in trees ==> r.value.data == data
    ensures treeId in trees ==>
      forall s :: tk.decodeSchema(trees[treeId].dataSchema) == Some(s) && tk.validate(s, data).None? ==>
        r == Err(CompressedDataParseError)
    ensures r.Err? ==> r.error == CompressedDataParseError
  {
    if treeId in trees then
      match tk.decodeSchema(trees[treeId].dataSchema)
      case None => Err(CompressedDataParseError)
      case Some(schema) =>
        match tk.validate(schema, data)
        case None => Err(CompressedDataParseError)
        case Some(validated) =>
          match tk.encodeValue(validated)
          case None => Err(CompressedDataParseError)
          case Some(raw) => Ok(LegacyFullLeaf(true, validated, raw))
    else
      match tk.encodeValue(data)
      case None => Err(CompressedDataParseError)
      case Some(raw) => Ok(LegacyFullLeaf(false, data, raw))
  }

  /**
   * The two writers agree on a full leaf whenever the newer one's extra
   * program checks pass: same flag, same stored value, same raw bytes.
   */
  lemma FullLeafAgreesWithCurrent(trees: map<Bytes, TreeRow>, tk: CompressedData.Toolkit, treeId: Pubkey, data: Value)
    requires treeId in trees ==> trees[treeId].program.Some? && |trees[treeId].program.value| == 32
    ensures var legacy := CheckLegacyFullLeaf(trees, tk, treeId, data);
      var current := CompressedData.CheckFullLeaf(trees, tk, treeId, data);
      && (legacy.Ok? <==> current.Ok?)
      && (legacy.Ok? ==>
            legacy.value.schemaValidated == current.value.schemaValidated
            && legacy.value.data == current.value.data && legacy.value.rawData == current.value.rawData)
  {
  }

  /**
   * The patch placement: into the `V1` object when the value has one (the
   * key is added if absent), else over an existing top-level key, else no
   * change.
   */
  function LegacyPatchValue(v: Value, key: string, data: Value): Value
  {
    if !v.Object? then v
    else if "V1" in v.fields && v.fields["V1"].Object? then Object(v.fields["V1" := Object(v.fields["V1"].fields[key := data])])
    else if key in v.fields then Object(v.fields[key := data])
    else v
  }

  lemma LegacyPatchValueShape(v: Value, key: string, data: Value)
    ensures var p := LegacyPatchValue(v, key, data);
      && (v.Object? && "V1" in v.fields && v.fields["V1"].Object? ==>
            p.Object? && p.fields.Keys == v.fields.Keys
            && p.fields["V1"].Object? && p.fields["V1"].fields.Keys == v.fields["V1"].fields.Keys + {key}
            && p.fields["V1"].fields[key] == data
            && (forall k :: k in v.fields["V1"].fields && k != key ==> p.fields["V1"].fields[k] == v.fields["V1"].fields[k])
            && (forall k :: k in v.fields && k != "V1" ==> p.fields[k] == v.fields[k]))
      && (v.Object? && !("V1" in v.fields && v.fields["V1"].Object?) ==>
            p == CompressedData.PatchValue(v, key, data))
      && (!v.Object? ==> p == v)
  {
  }

  /** The row after a legacy patch: parsed and raw data replaced together; seq and slot_updated untouched. */
  function LegacyPatchedRow(row: LeafRow, parsed: Value, raw: Bytes): (r: LeafRow)
    ensures r.seqNo == row.seqNo && r.slotUpdated == row.slotUpdated && r.schemaValidated == row.schemaValidated
    ensures r.parsedData == parsed && r.rawData == raw
  {
    row.(parsedData := parsed, rawData := raw)
  }

  /**
   * What a leaf event does to `compressed_data`, with the handler's result:
   * a Full leaf passes the checks and is upserted; a patch needs the stored
   * leaf, is placed by `LegacyPatchValue` and re-serialised; Empty writes
   * nothing.
   */
  function LegacyLeafEffect(trees: map<Bytes, TreeRow>, leaves: map<LeafKey, LeafRow>, writesFail: bool, tk: CompressedData.Toolkit,
                            slot: U64, treeId: Pubkey, leafIdx: U32, seqNo: U64, stream: CompressedData.Stream)
    : (Result<(), IngesterError>, map<LeafKey, LeafRow>)
  {
    var k := LeafKey(treeId, leafIdx);
    match stream
    case Full(data) =>
      (match CheckLegacyFullLeaf(trees, tk, treeId, data)
       case Err(e) => (Err(e), leaves)
       case Ok(c) =>
         if writesFail then (Err(StorageWriteError), leaves)
         else (Ok(()), leaves[k := LeafRow(AsI64(seqNo), c.schemaValidated, c.rawData, c.data, AsI64(slot))]))
    case PatchChunk(key, data) =>
      if k !in leaves then (Err(StorageReadError), leaves)
      else
        var patched := LegacyPatchValue(leaves[k].parsedData, key, data);
        (match tk.encodeValue(patched)
         case None => (Err(SerializationError), leaves)
         case Some(raw) =>
           if writesFail then (Err(StorageWriteError), leaves)
           else (Ok(()), leaves[k := LegacyPatchedRow(leaves[k], patched, raw)]))
    case Empty => (Ok(()), leaves)
  }

  /**
   * The result of the older `save_applicationdata_event` handler and the
   * `merkle_tree` and `compressed_data` tables after it, for the decoded
   * event (`None` when the bytes do not decode).
   */
  function LegacyEffect(trees: map<Bytes, TreeRow>, leaves: map<LeafKey, LeafRow>, writesFail: bool, tk: CompressedData.Toolkit,
                        event: Option<LegacyEvent>)
    : (Result<(), IngesterError>, map<Bytes, TreeRow>, map<LeafKey, LeafRow>)
  {
    match event
    case None => (Err(CompressedDataParseError), trees, leaves)
    case Some(LegacyTreeSchema(treeId, schema)) =>
      (match tk.encodeSchema(schema)
       case None => (Err(CompressedDataParseError), trees, leaves)
       case Some(dataSchema) =>
         if writesFail then (Err(StorageWriteError), trees, leaves)
         else (Ok(()), CompressedData.UpsertTree(trees, treeId, AnnouncedTree(dataSchema)), leaves))
    case Some(LegacyLeaf(slot, treeId, leafIdx, seqNo, stream)) =>
      var (r, l) := LegacyLeafEffect(trees, leaves, writesFail, tk, slot, treeId, leafIdx, seqNo, stream);
      (r, trees, l)
  }

  /**
   * The checks an event must pass before anything is written: the schema
   * encodes; a Full leaf passes `CheckLegacyFullLeaf`; a patch finds its
   * leaf and the patched value encodes.
   */
  predicate LegacyChecksPass(trees: map<Bytes, TreeRow>, leaves: map<LeafKey, LeafRow>, tk: CompressedData.Toolkit, e: LegacyEvent)
  {
    match e
    case LegacyTreeSchema(_, schema) => tk.encodeSchema(schema).Some?
    case LegacyLeaf(_, treeId, leafIdx, _, stream) =>
      match stream
      case Full(data) => CheckLegacyFullLeaf(trees, tk, treeId, data).Ok?
      case PatchChunk(key, data) =>
        LeafKey(treeId, leafIdx) in leaves
        && tk.encodeValue(LegacyPatchValue(leaves[LeafKey(treeId, leafIdx)].parsedData, key, data)).Some?
      case Empty => true
  }

  /** An event that writes nothing: a leaf event with an Empty stream. */
  predicate WritesNothing(e: LegacyEvent)
  {
    e.LegacyLeaf? && e.stream.Empty?
  }

  /**
   * A decodable event is handled exactly when its checks pass and the
   * connection works (an Empty stream needs the connection for nothing);
   * once the checks pass, a failing connection is `StorageWriteError`; an
   * undecodable event is a parse error. No error writes anything.
   */
  lemma LegacyEffectOutcome(trees: map<Bytes, TreeRow>, leaves: map<LeafKey, LeafRow>, writesFail: bool, tk: CompressedData.Toolkit,
                            event: Option<LegacyEvent>)
    ensures var r := LegacyEffect(trees, leaves, writesFail, tk, event);
      && (event.None? ==> r.0 == Err(CompressedDataParseError))
      && (event.Some? ==> (r.0.Ok? <==> LegacyChecksPass(trees, leaves, tk, event.value) && (!writesFail || WritesNothing(event.value))))
      && (event.Some? && LegacyChecksPass(trees, leaves, tk, event.value) && writesFail && !WritesNothing(event.value) ==>
            r.0 == Err(StorageWriteError))
      && (r.0.Err? ==> r.1 == trees && r.2 == leaves)
  {
  }

  /**
   * The tables a success leaves: a tree event upserts the announced row and
   * keeps `compressed_data`; a leaf event keeps `merkle_tree` and changes at
   * most its own leaf.
   */
  lemma LegacyEffectTouchesOneRow(trees: map<Bytes, TreeRow>, leaves: map<LeafKey, LeafRow>, writesFail: bool, tk: CompressedData.Toolkit,
                                  e: LegacyEvent)
    requires LegacyEffect(trees, leaves, writesFail, tk, Some(e)).0.Ok?
    ensures var r := LegacyEffect(trees, leaves, writesFail, tk, Some(e));
      && (e.LegacyTreeSchema? ==>
            r.2 == leaves && r.1 == CompressedData.UpsertTree(trees, e.treeId, AnnouncedTree(tk.encodeSchema(e.schema).value)))
      && (e.LegacyLeaf? ==>
            && r.1 == trees
            && r.2.Keys == leaves.Keys + (if e.stream.Empty? then {} else {LeafKey(e.treeId, e.leafIdx)})
            && forall k :: k in leaves && k != LeafKey(e.treeId, e.leafIdx) ==> r.2[k] == leaves[k])
  {
  }

  method InsertApplicationData(db: Db, tk: CompressedData.Toolkit, decode: Bytes -> Option<LegacyEvent>, applicationData: Bytes)
    returns (r: Result<(), IngesterError>)
    modifies db`trees, db`leaves
    ensures (r, db.trees, db.leaves) == LegacyEffect(old(db.trees), old(db.leaves), db.writesFail, tk, decode(applicationData))
    ensures decode(applicationData).None? ==>
      r == Err(CompressedDataParseError) && db.trees == old(db.trees) && db.leaves == old(db.leaves)
    ensures r.Err? ==> db.trees == old(db.trees) && db.leaves == old(db.leaves)
    ensures decode(applicationData).Some? && decode(applicationData).value.LegacyTreeSchema? ==>
      var e := decode(applicationData).value;
      && db.leaves == old(db.leaves)
      && (r.Ok? ==>
            tk.encodeSchema(e.schema).Some?
            && db.trees == CompressedData.UpsertTree(old(db.trees), e.treeId, AnnouncedTree(tk.encodeSchema(e.schema).value)))
    ensures decode(applicationData).Some? && decode(applicationData).value.LegacyLeaf? ==>
      var e := decode(applicationData).value;
      var k := LeafKey(e.treeId, e.leafIdx);
      && db.trees == old(db.trees)
      && (e.stream.Empty? ==> r == Ok(()) && db.leaves == old(db.leaves))
      && (e.stream.Full? && r.Ok? ==>
            var c := CheckLegacyFullLeaf(db.trees, tk, e.treeId, e.stream.data);
            c.Ok? && db.leaves == old(db.leaves)[k := LeafRow(AsI64(e.seqNo), c.value.schemaValidated, c.value.rawData, c.value.data, AsI64(e.slot))])
      && (e.stream.PatchChunk? && k !in old(db.leaves) ==> r == Err(StorageReadError))
      && (e.stream.PatchChunk? && r.Ok? ==>
            var patched := LegacyPatchValue(old(db.leaves)[k].parsedData, e.stream.key, e.stream.data);
            k in old(db.leaves) && tk.encodeValue(patched).Some?
            && db.leaves == old(db.leaves)[k := LegacyPatchedRow(old(db.leaves)[k], patched, tk.encodeValue(patched).value)])
  {
    var event := decode(applicationData);
    if event.None? {
      return Err(CompressedDataParseError);
    }
    match event.value {
      case LegacyTreeSchema(treeId, schema) =>
        var dataSchema := tk.encodeSchema(schema);
        if dataSchema.None? {
          return Err(CompressedDataParseError);
        }
        if db.writesFail {
          return Err(StorageWriteError);
        }
        db.trees := CompressedData.UpsertTree(db.trees, treeId, AnnouncedTree(dataSchema.value));
      case LegacyLeaf(slot, treeId, leafIdx, seqNo, stream) =>
        var k := LeafKey(treeId, leafIdx);
        match stream {
          case Full(data) =>
            var schemaValidated := false;
            var value := data;
            if treeId in db.trees {
              var schema := tk.decodeSchema(db.trees[treeId].dataSchema);
              if schema.None? {
                return Err(CompressedDataParseError);
              }
              var checked := tk.validate(schema.value, data);
              if checked.None? {
                return Err(CompressedDataParseError);
              }
              value := checked.value;
              schemaValidated := true;
            }
            var rawData := tk.encodeValue(value);
            if rawData.None? {
              return Err(CompressedDataParseError);
            }
            if db.writesFail {
              return Err(StorageWriteError);
            }
            db.leaves := db.leaves[k := LeafRow(AsI64(seqNo), schemaValidated, rawData.value, value, AsI64(slot))];
          case PatchChunk(key, data) =>
            if k !in db.leaves {
              return Err(StorageReadError);
            }
            var row := db.leaves[k];
            var patched := row.parsedData;
            if patched.Object? {
              if "V1" in patched.fields && patched.fields["V1"].Object? {
                var v1 := patched.fields["V1"].fields;
                patched := Object(patched.fields["V1" := Object(v1[key := data])]);
              } else if key in patched.fields {
                patched := Object(patched.fields[key := data]);
              }
            }
            var rawData := tk.encodeValue(patched);
            if rawData.None? {
              return Err(SerializationError);
            }
            if db.writesFail {
              return Err(StorageWriteError);
            }
            db.leaves := db.leaves[k := row.(parsedData := patched, rawData := rawData.value)];
          case Empty =>
        }
    }
    r := Ok(());
  }

  /** `save_applicationdata_event` of the older writer: the handler's error, or `Ok(0)`. */
  method SaveApplicationDataEvent(db: Db, tk: CompressedData.Toolkit, decode: Bytes -> Option<LegacyEvent>, applicationData: Bytes)
    returns (r: Result<nat, IngesterError>)
    modifies db`trees, db`leaves
    ensures var e := LegacyEffect(old(db.trees), old(db.leaves), db.writesFail, tk, decode(applicationData));
      && db.trees == e.1 && db.leaves == e.2
      && (e.0.Ok? ==> r == Ok(0)) && (e.0.Err? ==> r == Err(e.0.error))
    ensures r.Ok? ==> r.value == 0
    ensures decode(applicationData).None? ==> r == Err(CompressedDataParseError)
    ensures r.Err? ==> db.trees == old(db.trees) && db.leaves == old(db.leaves)
  {
    var inserted := InsertApplicationData(db, tk, decode, applicationData);
    if inserted.Err? {
      return Err(inserted.error);
    }
    r := Ok(0);
  }
}
