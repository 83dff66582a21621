/**
 * The bubblegum backfiller's planning and re-queueing steps (ops/src/bubblegum/backfiller.rs):
 * the list of crawl ranges a tree worker sends, and the message a fetched transaction is
 * turned into before it is pushed back onto the transaction stream.
 */
module Backfiller {
  import opened Wrappers
  import opened Bytes
  import opened TreeGaps

  // ---------------------------------------------------------------------------
  // The gap list of one tree (spawn_gap_worker)
  // ---------------------------------------------------------------------------

  /** The interior gaps converted in order; the first row that does not convert fails the list. */
  function Converted(rows: seq<TreeGapRow>): (r: Result<seq<TreeGapFill>, TreeError>)
    ensures r.Ok? ==> |r.value| == |rows|
  {
    if rows == [] then Ok([])
    else
      var last := |rows| - 1;
      match Converted(rows[..last])
      case Err(e) => Err(e)
      case Ok(prev) =>
        match GapFillOf(rows[last])
        case Err(e) => Err(e)
        case Ok(g) => Ok(prev + [g])
  }

  /** The list converts exactly when every row does, and then holds each row's conversion at its position. */
  lemma {:induction false} ConvertedExact(rows: seq<TreeGapRow>)
    ensures Converted(rows).Ok? <==> forall i :: 0 <= i < |rows| ==> GapFillOf(rows[i]).Ok?
    ensures Converted(rows).Ok? ==> forall i :: 0 <= i < |rows| ==> GapFillOf(rows[i]) == Ok(Converted(rows).value[i])
  {
    if rows != [] {
      var last := |rows| - 1;
      var prefix := rows[..last];
      ConvertedExact(prefix);
      assert forall i :: 0 <= i < last ==> prefix[i] == rows[i];
    }
  }

  /** A failed conversion reports the error of the first row that does not convert. */
  lemma {:induction false} ConvertedFirstError(rows: seq<TreeGapRow>)
    requires Converted(rows).Err?
    ensures exists i ::
      0 <= i < |rows| && GapFillOf(rows[i]) == Err(Converted(rows).error)
      && forall k :: 0 <= k < i ==> GapFillOf(rows[k]).Ok?
  {
    var last := |rows| - 1;
    var prefix := rows[..last];
    assert forall i :: 0 <= i < last ==> prefix[i] == rows[i];
    if Converted(prefix).Err? {
      ConvertedFirstError(prefix);
      var i :| 0 <= i < |prefix| && GapFillOf(prefix[i]) == Err(Converted(prefix).error)
        && forall k :: 0 <= k < i ==> GapFillOf(prefix[k]).Ok?;
      assert GapFillOf(rows[i]) == Err(Converted(rows).error);
    } else {
      ConvertedExact(prefix);
      assert GapFillOf(rows[last]) == Err(Converted(rows).error);
    }
  }

  /** The range above the highest recorded row, or the whole history when nothing is recorded and the tree has changed. */
  function UpperGap(tree: TreeResponse, rows: seq<AuditRow>): (r: Result<Option<TreeGapFill>, TreeError>)
    ensures |rows| > 0 ==>
      (r.Ok? <==> |rows[|rows| - 1].tx| == 64)
      && (r.Ok? ==> r.value.Some? && r.value.value.tree == tree.pubkey && r.value.value.before.None?
                    && r.value.value.until.Some? && r.value.value.until.value == rows[|rows| - 1].tx)
    ensures |rows| == 0 ==>
      r.Ok? && (r.value.Some? <==> tree.seqNo > 0)
      && (r.value.Some? ==> r.value.value == TreeGapFill(tree.pubkey, None, None))
    ensures r.Err? ==> r.error == TryFromSignature
  {
    if |rows| > 0 then
      var upper := rows[|rows| - 1];
      if |upper.tx| != 64 then Err(TryFromSignature)
      else Ok(Some(TreeGapFill(tree.pubkey, None, Some(upper.tx))))
    else if tree.seqNo > 0 then Ok(Some(TreeGapFill(tree.pubkey, None, None)))
    else Ok(None)
  }

  /** The range below the lowest recorded row, when that row is not the tree's first change. */
  function LowerGap(tree: TreeResponse, rows: seq<AuditRow>): (r: Result<Option<TreeGapFill>, TreeError>)
    ensures (|rows| == 0 || rows[0].seqNo <= 1) ==> r == Ok(None)
    ensures |rows| > 0 && rows[0].seqNo > 1 ==>
      (r.Ok? <==> |rows[0].tx| == 64)
      && (r.Ok? ==> r.value.Some? && r.value.value.tree == tree.pubkey && r.value.value.until.None?
                    && r.value.value.before.Some? && r.value.value.before.value == rows[0].tx)
    ensures r.Err? ==> r.error == TryFromSignature
  {
    if |rows| > 0 && rows[0].seqNo > 1 then
      var lower := rows[0];
      if |lower.tx| != 64 then Err(TryFromSignature)
      else Ok(Some(TreeGapFill(tree.pubkey, Some(lower.tx), None)))
    else Ok(None)
  }

  function OptionList<T>(o: Option<T>): (r: seq<T>)
    ensures |r| <= 1 && (r == [] <==> o.None?)
  {
    if o.Some? then [o.value] else []
  }

  /**
   * The crawl ranges of one tree, given its audit rows in ascending `seq` order (so the
   * highest recorded row is the last one and the lowest the first): the interior gaps,
   * then the upper range, then the lower range.
   */
  function PlannedGaps(tree: TreeResponse, rows: seq<AuditRow>): Result<seq<TreeGapFill>, TreeError>
  {
    match Converted(GapRows(tree.pubkey, rows))
    case Err(e) => Err(e)
    case Ok(interior) =>
      match UpperGap(tree, rows)
      case Err(e) => Err(e)
      case Ok(upper) =>
        match LowerGap(tree, rows)
        case Err(e) => Err(e)
        case Ok(lower) => Ok(interior + OptionList(upper) + OptionList(lower))
  }

  /** The gap rows always name the worker's own tree, so only a malformed signature can stop the list. */
  lemma PlannedGapsFailOnlyOnSignatures(tree: TreeResponse, rows: seq<AuditRow>)
    requires PlannedGaps(tree, rows).Err?
    ensures PlannedGaps(tree, rows).error == TryFromSignature
  {
    var gaps := GapRows(tree.pubkey, rows);
    var c := Converted(gaps);
    if c.Err? {
      ConvertedFirstError(gaps);
      var i :| 0 <= i < |gaps| && GapFillOf(gaps[i]) == Err(c.error);
      assert gaps[i] in gaps;
    }
  }

  /** Every planned range lies in the worker's own tree. */
  lemma PlannedGapsStayInTree(tree: TreeResponse, rows: seq<AuditRow>)
    requires PlannedGaps(tree, rows).Ok?
    ensures forall g :: g in PlannedGaps(tree, rows).value ==> g.tree == tree.pubkey
  {
    var gaps := GapRows(tree.pubkey, rows);
    ConvertedExact(gaps);
    var interior := Converted(gaps).value;
    forall i | 0 <= i < |interior|
      ensures interior[i].tree == tree.pubkey
    {
      assert gaps[i] in gaps;
    }
  }

  /**
   * With well-formed rows the list has one range per interior gap, then exactly one more
   * range when anything is recorded or the tree has changed, then one more when the lowest
   * recorded change is not the first.
   */
  lemma PlannedGapsCount(tree: TreeResponse, rows: seq<AuditRow>)
    requires forall k :: 0 <= k < |rows| ==> |rows[k].tx| == 64
    ensures PlannedGaps(tree, rows).Ok?
    ensures |PlannedGaps(tree, rows).value| ==
      |GapRows(tree.pubkey, rows)|
      + (if |rows| > 0 || tree.seqNo > 0 then 1 else 0)
      + (if |rows| > 0 && rows[0].seqNo > 1 then 1 else 0)
  {
    var gaps := GapRows(tree.pubkey, rows);
    forall g | g in gaps
      ensures GapFillOf(g).Ok?
    {
      GapsOfWellFormedRowsConvert(tree.pubkey, rows, g);
    }
    ConvertedExact(gaps);
    if |rows| > 0 {
      assert |rows[|rows| - 1].tx| == 64 && |rows[0].tx| == 64;
    }
  }

  /**
   * Every sequence number the indexer has not recorded, between the lowest and highest
   * recorded ones, is covered by an interior range of the list: one whose bounds are the
   * signatures of the recorded rows on either side of it.
   */
  lemma PlannedGapsCoverMissing(tree: TreeResponse, rows: seq<AuditRow>, s: int)
    requires SortedBySeq(rows) && |rows| > 0
    requires forall k :: 0 <= k < |rows| ==> |rows[k].tx| == 64
    requires rows[0].seqNo < s < rows[|rows| - 1].seqNo
    requires forall k :: 0 <= k < |rows| ==> rows[k].seqNo != s
    ensures PlannedGaps(tree, rows).Ok?
    ensures exists i, j ::
      0 <= i < |rows| - 1 && 0 <= j < |PlannedGaps(tree, rows).value|
      && rows[i].seqNo < s < rows[i + 1].seqNo
      && PlannedGaps(tree, rows).value[j].tree == tree.pubkey
      && PlannedGaps(tree, rows).value[j].before.Some? && PlannedGaps(tree, rows).value[j].before.value == rows[i + 1].tx
      && PlannedGaps(tree, rows).value[j].until.Some? && PlannedGaps(tree, rows).value[j].until.value == rows[i].tx
  {
    PlannedGapsCount(tree, rows);
    var gaps := GapRows(tree.pubkey, rows);
    MissingSeqLiesInGap(tree.pubkey, rows, s);
    var g :| g in gaps && g.gapStartSeq < s < g.gapEndSeq;
    var j :| 0 <= j < |gaps| && gaps[j] == g;
    GapRowsExact(tree.pubkey, rows, g);
    var i :| GapAt(rows, i) && g == GapOf(tree.pubkey, rows[i], rows[i + 1]);
    ConvertedExact(gaps);
    var interior := Converted(gaps).value;
    assert PlannedGaps(tree, rows).value[j] == interior[j];
    assert GapFillOf(gaps[j]) == Ok(interior[j]);
  }

  /** `collect::<Result<Vec<_>, _>>()` over the converted interior gaps. */
  method ConvertGaps(found: seq<TreeGapRow>) returns (r: Result<seq<TreeGapFill>, TreeError>)
    ensures r == Converted(found)
  {
    var gaps: seq<TreeGapFill> := [];
    for i := 0 to |found|
      invariant Converted(found[..i]) == Ok(gaps)
    {
      assert found[..i + 1][..i] == found[..i];
      assert found[..i + 1][i] == found[i];
      var fill := GapFillOf(found[i]);
      if fill.Err? {
        assert Converted(found[..i + 1]) == Err(fill.error);
        CollectStopsAtError(found, i + 1);
        return Err(fill.error);
      }
      gaps := gaps + [fill.value];
    }
    assert found[..|found|] == found;
    r := Ok(gaps);
  }

  /** `spawn_gap_worker`'s list construction: convert the interior gaps, then push the upper and lower ranges. */
  method CollectGaps(tree: TreeResponse, rows: seq<AuditRow>) returns (r: Result<seq<TreeGapFill>, TreeError>)
    ensures r == PlannedGaps(tree, rows)
  {
    var interior := ConvertGaps(GapRows(tree.pubkey, rows));
    if interior.Err? {
      return Err(interior.error);
    }
    var gaps := interior.value;
    if |rows| > 0 {
      var upper := rows[|rows| - 1];
      if |upper.tx| != 64 {
        return Err(TryFromSignature);
      }
      gaps := gaps + [TreeGapFill(tree.pubkey, None, Some(upper.tx))];
    } else if tree.seqNo > 0 {
      gaps := gaps + [TreeGapFill(tree.pubkey, None, None)];
    }
    assert gaps == interior.value + OptionList(UpperGap(tree, rows).value);
    if |rows| > 0 && rows[0].seqNo > 1 {
      var lower := rows[0];
      if |lower.tx| != 64 {
        return Err(TryFromSignature);
      }
      gaps := gaps + [TreeGapFill(tree.pubkey, Some(lower.tx), None)];
    }
    assert gaps == interior.value + OptionList(UpperGap(tree, rows).value) + OptionList(LowerGap(tree, rows).value);
    r := Ok(gaps);
  }

  /** A conversion error in a prefix is the error of the whole list. */
  lemma {:induction false} CollectStopsAtError(rows: seq<TreeGapRow>, n: nat)
    requires n <= |rows| && Converted(rows[..n]).Err?
    ensures Converted(rows) == Converted(rows[..n])
    decreases |rows| - n
  {
    if n < |rows| {
      assert rows[..n + 1][..n] == rows[..n];
      CollectStopsAtError(rows, n + 1);
    } else {
      assert rows[..n] == rows;
    }
  }

  /**
   * Send the ranges in order. `delivered(i)` says whether the `i`-th send succeeds; a failed
   * send is counted and the loop goes on.
   */
  method SendGaps(gaps: seq<TreeGapFill>, delivered: nat -> bool) returns (sent: seq<TreeGapFill>, failed: nat)
    ensures sent == Delivered(gaps, delivered, |gaps|)
    ensures failed == |gaps| - |sent|
  {
    sent := [];
    failed := 0;
    for i := 0 to |gaps|
      invariant sent == Delivered(gaps, delivered, i)
      invariant failed == i - |sent|
    {
      DeliveredBound(gaps, delivered, i);
      if delivered(i) {
        sent := sent + [gaps[i]];
      } else {
        failed := failed + 1;
      }
    }
  }

  /** The ranges among the first `n` whose send succeeds, in list order. */
  function Delivered(gaps: seq<TreeGapFill>, delivered: nat -> bool, n: nat): seq<TreeGapFill>
    requires n <= |gaps|
  {
    if n == 0 then []
    else Delivered(gaps, delivered, n - 1) + (if delivered(n - 1) then [gaps[n - 1]] else [])
  }

  lemma {:induction false} DeliveredBound(gaps: seq<TreeGapFill>, delivered: nat -> bool, n: nat)
    requires n <= |gaps|
    ensures |Delivered(gaps, delivered, n)| <= n
  {
    if n > 0 {
      DeliveredBound(gaps, delivered, n - 1);
    }
  }

  /** When every send succeeds, the ranges go out exactly as planned, in order, with no failures counted. */
  lemma {:induction false} AllDeliveredInOrder(gaps: seq<TreeGapFill>, delivered: nat -> bool, n: nat)
    requires n <= |gaps|
    requires forall i :: 0 <= i < n ==> delivered(i)
    ensures Delivered(gaps, delivered, n) == gaps[..n]
  {
    if n > 0 {
      AllDeliveredInOrder(gaps, delivered, n - 1);
      assert gaps[..n] == gaps[..n - 1] + [gaps[n - 1]];
    }
  }

  /** The outcome of one tree worker: the ranges sent and the failed sends, or the error that stopped it. */
  datatype WorkerOutcome = WorkerOutcome(result: Result<(), TreeError>, sent: seq<TreeGapFill>, failedSends: nat)

  /** A tree worker: plan the ranges, then send them; send failures never fail the worker. */
  method GapWorker(tree: TreeResponse, rows: seq<AuditRow>, delivered: nat -> bool) returns (out: WorkerOutcome)
    ensures PlannedGaps(tree, rows).Err? ==> out == WorkerOutcome(Err(PlannedGaps(tree, rows).error), [], 0)
    ensures PlannedGaps(tree, rows).Ok? ==>
      var gaps := PlannedGaps(tree, rows).value;
      out.result == Ok(()) && out.sent == Delivered(gaps, delivered, |gaps|) && out.failedSends == |gaps| - |out.sent|
  {
    var planned := CollectGaps(tree, rows);
    if planned.Err? {
      return WorkerOutcome(Err(planned.error), [], 0);
    }
    var sent, failed := SendGaps(planned.value, delivered);
    out := WorkerOutcome(Ok(()), sent, failed);
  }

  // ---------------------------------------------------------------------------
  // Re-queueing a fetched transaction (queue_transaction)
  // ---------------------------------------------------------------------------

  /** base58 and base64 decoding, which the source unwraps. */
  datatype Codec = Codec(base58: string -> Option<Bytes>, base64: string -> Option<Bytes>)

  /** The parts of `EncodedConfirmedTransactionWithStatusMeta` the mapping reads. */
  datatype UiInstruction =
    | UiCompiled(programIdIndex: U8, accounts: Bytes, data: string, stackHeight: Option<U32>)
    /** A parsed or partially decoded instruction, which the mapping does not handle. */
    | UiOther

  datatype UiInnerInstructions = UiInnerInstructions(index: U8, instructions: seq<UiInstruction>)

  datatype UiTokenBalance = UiTokenBalance(
    accountIndex: U8, mint: string, decimals: U8, amount: string, uiAmountString: string,
    owner: Option<string>, programId: Option<string>)

  datatype UiLoadedAddresses = UiLoadedAddresses(writable: seq<string>, readonly: seq<string>)

  datatype UiReturnData = UiReturnData(programId: string, data: string)

  datatype UiMeta = UiMeta(
    fee: U64,
    preBalances: seq<U64>,
    postBalances: seq<U64>,
    innerInstructions: Option<seq<UiInnerInstructions>>,
    logMessages: Option<seq<string>>,
    preTokenBalances: Option<seq<UiTokenBalance>>,
    postTokenBalances: Option<seq<UiTokenBalance>>,
    loadedAddresses: Option<UiLoadedAddresses>,
    returnData: Option<UiReturnData>,
    computeUnitsConsumed: Option<U64>)

  datatype MessageHeader = MessageHeader(numRequiredSignatures: U8, numReadonlySignedAccounts: U8, numReadonlyUnsignedAccounts: U8)

  datatype AddressTableLookup = AddressTableLookup(accountKey: Pubkey, writableIndexes: Bytes, readonlyIndexes: Bytes)

  datatype MessageInstruction = MessageInstruction(programIdIndex: U8, accounts: Bytes, data: Bytes)

  /** A decoded message; `addressTableLookups` is absent for a legacy message. */
  datatype DecodedMessage = DecodedMessage(
    header: MessageHeader, recentBlockhash: Bytes, staticAccountKeys: seq<Pubkey>,
    addressTableLookups: Option<seq<AddressTableLookup>>, instructions: seq<MessageInstruction>)

  datatype DecodedTransaction = DecodedTransaction(signatures: seq<Signature>, message: DecodedMessage)

  /** What `get_transaction` returns; `transaction` is `None` when the encoded transaction does not decode. */
  datatype FetchedTransaction = FetchedTransaction(slot: U64, transaction: Option<DecodedTransaction>, meta: Option<UiMeta>)

  /** The gRPC message pushed onto the transaction stream (`SubscribeUpdateTransaction`). */
  datatype GrpcInnerInstruction = GrpcInnerInstruction(programIdIndex: nat, accounts: Bytes, data: Bytes, stackHeight: Option<U32>)

  datatype GrpcInnerInstructions = GrpcInnerInstructions(index: nat, instructions: seq<GrpcInnerInstruction>)

  datatype GrpcTokenBalance = GrpcTokenBalance(
    accountIndex: nat, mint: string, decimals: nat, amount: string, uiAmountString: string,
    owner: string, programId: string)

  datatype GrpcReturnData = GrpcReturnData(data: Bytes, programId: Bytes)

  datatype GrpcMeta = GrpcMeta(
    err: Option<Bytes>,
    fee: U64,
    preBalances: seq<U64>,
    postBalances: seq<U64>,
    innerInstructionsNone: bool,
    innerInstructions: seq<GrpcInnerInstructions>,
    logMessagesNone: bool,
    logMessages: seq<string>,
    preTokenBalances: seq<GrpcTokenBalance>,
    postTokenBalances: seq<GrpcTokenBalance>,
    rewards: seq<Bytes>,
    loadedWritableAddresses: seq<Bytes>,
    loadedReadonlyAddresses: seq<Bytes>,
    returnDataNone: bool,
    returnData: Option<GrpcReturnData>,
    computeUnitsConsumed: Option<U64>)

  datatype GrpcHeader = GrpcHeader(numRequiredSignatures: nat, numReadonlySignedAccounts: nat, numReadonlyUnsignedAccounts: nat)

  datatype GrpcLookup = GrpcLookup(accountKey: Bytes, writableIndexes: Bytes, readonlyIndexes: Bytes)

  datatype GrpcInstruction = GrpcInstruction(programIdIndex: nat, accounts: Bytes, data: Bytes)

  datatype GrpcMessage = GrpcMessage(
    header: GrpcHeader, recentBlockhash: Bytes, accountKeys: seq<Bytes>, versioned: bool,
    addressTableLookups: seq<GrpcLookup>, instructions: seq<GrpcInstruction>)

  datatype GrpcTransaction = GrpcTransaction(signatures: seq<Bytes>, message: GrpcMessage)

  datatype GrpcTransactionInfo = GrpcTransactionInfo(
    signature: Bytes, isVote: bool, transaction: GrpcTransaction, meta: Option<GrpcMeta>, index: nat)

  datatype SubscribeUpdateTransaction = SubscribeUpdateTransaction(transaction: GrpcTransactionInfo, slot: U64)

  /** Apply a partial conversion to every element; `None` when any element fails. */
  function MapAll<A, B>(xs: seq<A>, f: A -> Option<B>): (r: Option<seq<B>>)
    ensures r.Some? <==> forall i :: 0 <= i < |xs| ==> f(xs[i]).Some?
    ensures r.Some? ==> |r.value| == |xs| && forall i :: 0 <= i < |xs| ==> f(xs[i]) == Some(r.value[i])
  {
    if xs == [] then Some([])
    else
      var last := |xs| - 1;
      match MapAll(xs[..last], f)
      case None => None
      case Some(prev) =>
        match f(xs[last])
        case None => None
        case Some(y) => Some(prev + [y])
  }

  function InnerInstructionOf(codec: Codec, ix: UiInstruction): (r: Option<GrpcInnerInstruction>)
    ensures r.Some? <==> ix.UiCompiled? && codec.base58(ix.data).Some?
    ensures r.Some? ==>
      r.value == GrpcInnerInstruction(ix.programIdIndex, ix.accounts, codec.base58(ix.data).value, ix.stackHeight)
  {
    match ix
    case UiOther => None
    case UiCompiled(programIdIndex, accounts, data, stackHeight) =>
      match codec.base58(data)
      case None => None
      case Some(bytes) => Some(GrpcInnerInstruction(programIdIndex, accounts, bytes, stackHeight))
  }

  function InnerInstructionsOf(codec: Codec, group: UiInnerInstructions): (r: Option<GrpcInnerInstructions>)
    ensures r.Some? ==> r.value.index == group.index && |r.value.instructions| == |group.instructions|
  {
    match MapAll(group.instructions, (ix: UiInstruction) => InnerInstructionOf(codec, ix))
    case None => None
    case Some(ixs) => Some(GrpcInnerInstructions(group.index, ixs))
  }

  function UnwrapOr(o: Option<string>): string
  {
    if o.Some? then o.value else ""
  }

  /** A token balance; the floating-point `ui_amount` is not part of this model. */
  function TokenBalanceOf(b: UiTokenBalance): (r: GrpcTokenBalance)
    ensures r.accountIndex == b.accountIndex && r.mint == b.mint && r.amount == b.amount
    ensures r.owner == (if b.owner.Some? then b.owner.value else "")
    ensures r.programId == (if b.programId.Some? then b.programId.value else "")
  {
    GrpcTokenBalance(b.accountIndex, b.mint, b.decimals, b.amount, b.uiAmountString, UnwrapOr(b.owner), UnwrapOr(b.programId))
  }

  function TokenBalancesOf(o: Option<seq<UiTokenBalance>>): (r: seq<GrpcTokenBalance>)
    ensures o.None? ==> r == []
    ensures o.Some? ==> |r| == |o.value| && forall i :: 0 <= i < |r| ==> r[i] == TokenBalanceOf(o.value[i])
  {
    if o.None? then [] else seq(|o.value|, i requires 0 <= i < |o.value| => TokenBalanceOf(o.value[i]))
  }

  /** The loaded addresses, base58-decoded; both lists are empty when the field is absent. */
  function LoadedAddressesOf(codec: Codec, o: Option<UiLoadedAddresses>): (r: Option<(seq<Bytes>, seq<Bytes>)>)
    ensures o.None? ==> r == Some(([], []))
    ensures o.Some? && r.Some? ==> |r.value.0| == |o.value.writable| && |r.value.1| == |o.value.readonly|
  {
    match o
    case None => Some(([], []))
    case Some(addresses) =>
      match MapAll(addresses.writable, codec.base58)
      case None => None
      case Some(writable) =>
        match MapAll(addresses.readonly, codec.base58)
        case None => None
        case Some(readonly) => Some((writable, readonly))
  }

  /**
   * The status metadata of the re-queued transaction: `err` cleared, rewards dropped, the
   * optional lists defaulted with a flag recording their absence. `None` when a decode the
   * source unwraps fails.
   */
  function MetaOf(codec: Codec, m: UiMeta): (r: Option<GrpcMeta>)
    ensures r.Some? ==>
      r.value.err.None? && r.value.rewards == []
      && r.value.fee == m.fee && r.value.preBalances == m.preBalances && r.value.postBalances == m.postBalances
      && (r.value.innerInstructionsNone <==> m.innerInstructions.None?)
      && (r.value.logMessagesNone <==> m.logMessages.None?)
      && (r.value.returnDataNone <==> m.returnData.None?)
      && (m.innerInstructions.None? ==> r.value.innerInstructions == [])
      && r.value.logMessages == (if m.logMessages.Some? then m.logMessages.value else [])
      && r.value.computeUnitsConsumed == m.computeUnitsConsumed
  {
    var inner := if m.innerInstructions.None? then Some([])
      else MapAll(m.innerInstructions.value, (g: UiInnerInstructions) => InnerInstructionsOf(codec, g));
    var loaded := LoadedAddressesOf(codec, m.loadedAddresses);
    var returnData := match m.returnData
      case None => Some(None)
      case Some(rd) =>
        (match codec.base64(rd.data)
         case None => None
         case Some(data) =>
           match codec.base58(rd.programId)
           case None => None
           case Some(programId) => Some(Some(GrpcReturnData(data, programId))));
    if inner.None? || loaded.None? || returnData.None? then None
    else
      Some(GrpcMeta(
        None,
        m.fee,
        m.preBalances,
        m.postBalances,
        m.innerInstructions.None?,
        inner.value,
        m.logMessages.None?,
        if m.logMessages.Some? then m.logMessages.value else [],
        TokenBalancesOf(m.preTokenBalances),
        TokenBalancesOf(m.postTokenBalances),
        [],
        loaded.value.0,
        loaded.value.1,
        m.returnData.None?,
        returnData.value,
        m.computeUnitsConsumed))
  }

  function LookupOf(l: AddressTableLookup): GrpcLookup
  {
    GrpcLookup(l.accountKey, l.writableIndexes, l.readonlyIndexes)
  }

  /** The message, copied field by field and always marked versioned. */
  function MessageOf(m: DecodedMessage): (r: GrpcMessage)
    ensures r.versioned
    ensures |r.accountKeys| == |m.staticAccountKeys| && forall i :: 0 <= i < |r.accountKeys| ==> r.accountKeys[i] == m.staticAccountKeys[i]
    ensures |r.instructions| == |m.instructions|
    ensures m.addressTableLookups.None? ==> r.addressTableLookups == []
  {
    var lookups := if m.addressTableLookups.None? then [] else m.addressTableLookups.value;
    GrpcMessage(
      GrpcHeader(m.header.numRequiredSignatures, m.header.numReadonlySignedAccounts, m.header.numReadonlyUnsignedAccounts),
      m.recentBlockhash,
      seq(|m.staticAccountKeys|, i requires 0 <= i < |m.staticAccountKeys| => m.staticAccountKeys[i]),
      true,
      seq(|lookups|, i requires 0 <= i < |lookups| => LookupOf(lookups[i])),
      seq(|m.instructions|, i requires 0 <= i < |m.instructions| =>
        GrpcInstruction(m.instructions[i].programIdIndex, m.instructions[i].accounts, m.instructions[i].data)))
  }

  /**
   * The message `queue_transaction` pushes for a fetched transaction, or the failure:
   * `RpcFailure` when the fetch failed, `Panicked` when an unwrap or the first-signature
   * index fails, `RedisPipe` when the stream write is rejected.
   */
  function QueuedTransaction(codec: Codec, fetched: Result<FetchedTransaction, TreeError>, pipeOk: bool): (r: Result<SubscribeUpdateTransaction, TreeError>)
    ensures fetched.Err? ==> r == Err(fetched.error)
    ensures r.Ok? ==>
      fetched.Ok? && fetched.value.transaction.Some? && |fetched.value.transaction.value.signatures| > 0
      && r.value.transaction.signature == fetched.value.transaction.value.signatures[0]
      && |r.value.transaction.transaction.signatures| == |fetched.value.transaction.value.signatures|
      && r.value.transaction.transaction.signatures[0] == fetched.value.transaction.value.signatures[0]
      && !r.value.transaction.isVote && r.value.transaction.index == 0
      && r.value.slot == fetched.value.slot
      && (r.value.transaction.meta.Some? <==> fetched.value.meta.Some?)
      && (r.value.transaction.meta.Some? ==> r.value.transaction.meta.value.err.None? && r.value.transaction.meta.value.rewards == [])
    ensures fetched.Ok? && fetched.value.transaction.Some? && fetched.value.transaction.value.signatures == [] ==> r == Err(Panicked)
    ensures fetched.Ok? && r.Err? ==> r.error == Panicked || r.error == RedisPipe
  {
    match fetched
    case Err(e) => Err(e)
    case Ok(f) =>
      match f.transaction
      case None => Err(Panicked)
      case Some(tx) =>
        if tx.signatures == [] then Err(Panicked)
        else
          var meta := match f.meta
            case None => Some(None)
            case Some(m) => (match MetaOf(codec, m) case None => None case Some(gm) => Some(Some(gm)));
          if meta.None? then Err(Panicked)
          else
            var signatures: seq<Bytes> := seq(|tx.signatures|, i requires 0 <= i < |tx.signatures| => tx.signatures[i]);
            var info := GrpcTransactionInfo(tx.signatures[0], false, GrpcTransaction(signatures, MessageOf(tx.message)), meta.value, 0);
            if !pipeOk then Err(RedisPipe)
            else Ok(SubscribeUpdateTransaction(info, f.slot))
  }

  /** A decoded, signed transaction without status metadata is queued exactly when the stream accepts the write. */
  lemma PlainTransactionQueues(codec: Codec, f: FetchedTransaction)
    requires f.transaction.Some? && |f.transaction.value.signatures| > 0 && f.meta.None?
    ensures QueuedTransaction(codec, Ok(f), true).Ok?
    ensures QueuedTransaction(codec, Ok(f), false) == Err(RedisPipe)
  {
  }
}
