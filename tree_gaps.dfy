/**
 * Gap detection and crawl planning for compressed trees (ops/src/bubblegum/tree.rs):
 * the gap query over a tree's recorded audit rows, the conversion of a gap row into
 * crawl bounds, the signature crawl, and the decoding of a tree account fetched over RPC.
 */
module TreeGaps {
  import opened Wrappers
  import opened Bytes

  /** The failures of this file: the `TreeErrorKind` variants it raises and the `anyhow` errors it passes on. */
  datatype TreeError =
    | TryFromPubkey
    | TryFromSignature
    | SerializeTreeResponse
    | RedisPipe
    /** A failed RPC call (`TreeErrorKind::Rpc`); the reason is not modelled. */
    | RpcFailure
    /** `Signature::from_str` rejected a signature returned by the RPC node. */
    | ParseSignature
    /** The signature channel's receiver is gone, so `send` fails. */
    | ChannelClosed
    /** Borsh decoding of the tree header failed. */
    | HeaderDecode
    /** `merkle_tree_get_size` rejected the header. */
    | TreeSize
    /** `assert_valid` rejected the header: its account type is not a concurrent Merkle tree. */
    | InvalidHeader
    /** `assert_valid_authority` failed for every accepted authority. */
    | IncorrectAuthority
    /** An out-of-range `split_at` or slice. */
    | Panicked

  // ---------------------------------------------------------------------------
  // The gap query (TREE_GAP_SQL)
  // ---------------------------------------------------------------------------

  /** The `seq` and `tx` columns of one `cl_audits_v2` row of the queried tree. */
  datatype AuditRow = AuditRow(seqNo: int, tx: Bytes)

  /** One result row of the gap query (`TreeGapModel`). */
  datatype TreeGapRow = TreeGapRow(tree: Bytes, gapStartSeq: int, gapEndSeq: int, lowerBoundTx: Bytes, upperBoundTx: Bytes)

  /** The audit rows in the order `ORDER BY seq ASC` gives them. */
  predicate SortedBySeq(rows: seq<AuditRow>)
  {
    forall i, j :: 0 <= i < j < |rows| ==> rows[i].seqNo <= rows[j].seqNo
  }

  /** The row the query emits for a row and the row `LEAD` pairs it with. */
  function GapOf(tree: Bytes, lo: AuditRow, hi: AuditRow): TreeGapRow
  {
    TreeGapRow(tree, lo.seqNo, hi.seqNo, lo.tx, hi.tx)
  }

  /** True when the consecutive rows `i` and `i + 1` are more than one sequence number apart. */
  predicate GapAt(rows: seq<AuditRow>, i: int)
  {
    0 <= i < |rows| - 1 && rows[i + 1].seqNo - rows[i].seqNo > 1
  }

  /**
   * The gap query on the audit rows of `tree`, already sorted by `seq`: pair every row
   * with the next one and keep the pairs whose sequence numbers are more than one apart.
   */
  function GapRows(tree: Bytes, rows: seq<AuditRow>): (r: seq<TreeGapRow>)
    ensures forall g :: g in r ==> g.tree == tree && g.gapEndSeq - g.gapStartSeq > 1
    ensures |r| <= |rows|
    decreases |rows|
  {
    if |rows| < 2 then []
    else
      var head := if rows[1].seqNo - rows[0].seqNo > 1 then [GapOf(tree, rows[0], rows[1])] else [];
      head + GapRows(tree, rows[1..])
  }

  /** A row is in the result exactly when it is the row of two consecutive audit rows with a gap between them. */
  lemma {:induction false} GapRowsExact(tree: Bytes, rows: seq<AuditRow>, g: TreeGapRow)
    ensures g in GapRows(tree, rows) <==> exists i :: GapAt(rows, i) && g == GapOf(tree, rows[i], rows[i + 1])
    decreases |rows|
  {
    if |rows| >= 2 {
      var tail := rows[1..];
      GapRowsExact(tree, tail, g);
      if g in GapRows(tree, rows) {
        if rows[1].seqNo - rows[0].seqNo > 1 && g == GapOf(tree, rows[0], rows[1]) {
          assert GapAt(rows, 0);
        } else {
          assert g in GapRows(tree, tail);
          var i :| GapAt(tail, i) && g == GapOf(tree, tail[i], tail[i + 1]);
          assert GapAt(rows, i + 1) && rows[i + 1] == tail[i] && rows[i + 2] == tail[i + 1];
        }
      }
      if exists i :: GapAt(rows, i) && g == GapOf(tree, rows[i], rows[i + 1]) {
        var i :| GapAt(rows, i) && g == GapOf(tree, rows[i], rows[i + 1]);
        if i > 0 {
          assert GapAt(tail, i - 1) && tail[i - 1] == rows[i] && tail[i] == rows[i + 1];
        }
      }
    }
  }

  /** Every gap of sorted rows starts at or after the first recorded sequence number. */
  lemma {:induction false} GapStartsAfterFirst(tree: Bytes, rows: seq<AuditRow>)
    requires SortedBySeq(rows) && |rows| > 0
    ensures forall g :: g in GapRows(tree, rows) ==> rows[0].seqNo <= g.gapStartSeq
    decreases |rows|
  {
    if |rows| >= 2 {
      GapStartsAfterFirst(tree, rows[1..]);
    }
  }

  /** Gap rows in ascending order of their start. */
  predicate StartsAscending(r: seq<TreeGapRow>)
  {
    forall i, j :: 0 <= i < j < |r| ==> r[i].gapStartSeq <= r[j].gapStartSeq
  }

  /** The query returns its rows ordered by `gap_start_seq`. */
  lemma {:induction false} GapRowsOrdered(tree: Bytes, rows: seq<AuditRow>)
    requires SortedBySeq(rows)
    ensures StartsAscending(GapRows(tree, rows))
    decreases |rows|
  {
    if |rows| >= 2 {
      var tail := rows[1..];
      assert SortedBySeq(tail) by {
        forall i, j | 0 <= i < j < |tail|
          ensures tail[i].seqNo <= tail[j].seqNo
        {
          assert tail[i] == rows[i + 1] && tail[j] == rows[j + 1];
        }
      }
      GapRowsOrdered(tree, tail);
      GapStartsAfterFirst(tree, tail);
      var r := GapRows(tree, rows);
      var t := GapRows(tree, tail);
      if rows[1].seqNo - rows[0].seqNo > 1 {
        assert r == [GapOf(tree, rows[0], rows[1])] + t;
        assert tail[0] == rows[1] && rows[0].seqNo <= rows[1].seqNo;
        forall i, j | 0 <= i < j < |r|
          ensures r[i].gapStartSeq <= r[j].gapStartSeq
        {
          assert r[j] == t[j - 1] && t[j - 1] in t;
          if i > 0 {
            assert r[i] == t[i - 1];
          } else {
            assert r[i].gapStartSeq == rows[0].seqNo;
          }
        }
      } else {
        assert r == [] + t;
      }
    }
  }

  /** A sequence number strictly inside the recorded range that no row carries lies strictly inside some gap. */
  lemma {:induction false} MissingSeqLiesInGap(tree: Bytes, rows: seq<AuditRow>, s: int)
    requires SortedBySeq(rows) && |rows| > 0
    requires rows[0].seqNo < s < rows[|rows| - 1].seqNo
    requires forall k :: 0 <= k < |rows| ==> rows[k].seqNo != s
    ensures exists g :: g in GapRows(tree, rows) && g.gapStartSeq < s < g.gapEndSeq
    decreases |rows|
  {
    if rows[1].seqNo > s {
      assert GapOf(tree, rows[0], rows[1]) in GapRows(tree, rows);
    } else {
      var tail := rows[1..];
      assert tail[|tail| - 1] == rows[|rows| - 1];
      MissingSeqLiesInGap(tree, tail, s);
      var g :| g in GapRows(tree, tail) && g.gapStartSeq < s < g.gapEndSeq;
      assert g in GapRows(tree, rows);
    }
  }

  /** Conversely, no recorded row carries a sequence number strictly inside a gap. */
  lemma GapInteriorUnrecorded(tree: Bytes, rows: seq<AuditRow>, g: TreeGapRow, s: int)
    requires SortedBySeq(rows)
    requires g in GapRows(tree, rows) && g.gapStartSeq < s < g.gapEndSeq
    ensures forall k :: 0 <= k < |rows| ==> rows[k].seqNo != s
  {
    GapRowsExact(tree, rows, g);
    var i :| GapAt(rows, i) && g == GapOf(tree, rows[i], rows[i + 1]);
    forall k | 0 <= k < |rows|
      ensures rows[k].seqNo != s
    {
      if k <= i {
        assert rows[k].seqNo <= rows[i].seqNo;
      } else {
        assert rows[i + 1].seqNo <= rows[k].seqNo;
      }
    }
  }

  // ---------------------------------------------------------------------------
  // Crawl bounds (TryFrom<TreeGapModel> for TreeGapFill)
  // ---------------------------------------------------------------------------

  /** A range of a tree's signature history to crawl: newer than `until`, older than `before`. */
  datatype TreeGapFill = TreeGapFill(tree: Pubkey, before: Option<Signature>, until: Option<Signature>)

  /** The crawl bounds of a gap row: crawl down from the upper bound to the lower bound. */
  function GapFillOf(row: TreeGapRow): (r: Result<TreeGapFill, TreeError>)
    ensures r.Ok? <==> |row.tree| == 32 && |row.upperBoundTx| == 64 && |row.lowerBoundTx| == 64
    ensures r.Ok? ==>
      r.value.tree == row.tree && r.value.before.Some? && r.value.until.Some?
      && r.value.before.value == row.upperBoundTx && r.value.until.value == row.lowerBoundTx
    ensures r.Err? ==> (r.error == TryFromPubkey <==> |row.tree| != 32)
    ensures r.Err? ==> r.error == TryFromPubkey || r.error == TryFromSignature
  {
    if |row.tree| != 32 then Err(TryFromPubkey)
    else if |row.upperBoundTx| != 64 then Err(TryFromSignature)
    else if |row.lowerBoundTx| != 64 then Err(TryFromSignature)
    else Ok(TreeGapFill(row.tree, Some(row.upperBoundTx), Some(row.lowerBoundTx)))
  }

  /** Audit rows of a 32-byte tree with 64-byte signatures give gaps that all convert, each bounded by its two rows. */
  lemma GapsOfWellFormedRowsConvert(tree: Bytes, rows: seq<AuditRow>, g: TreeGapRow)
    requires |tree| == 32
    requires forall k :: 0 <= k < |rows| ==> |rows[k].tx| == 64
    requires g in GapRows(tree, rows)
    ensures GapFillOf(g).Ok?
    ensures exists i ::
      GapAt(rows, i) && GapFillOf(g).value.before.value == rows[i + 1].tx
      && GapFillOf(g).value.until.value == rows[i].tx
  {
    GapRowsExact(tree, rows, g);
    var i :| GapAt(rows, i) && g == GapOf(tree, rows[i], rows[i + 1]);
    assert GapFillOf(g).value.before.value == rows[i + 1].tx;
  }

  // ---------------------------------------------------------------------------
  // The signature crawl (TreeGapFill::crawl)
  // ---------------------------------------------------------------------------

  /** The page size of `getSignaturesForAddress`. */
  const GET_SIGNATURES_FOR_ADDRESS_LIMIT: nat := 1000

  /** One entry of a `getSignaturesForAddress` page: the signature text and whether the transaction failed. */
  datatype SignatureStatus = SignatureStatus(signature: string, failed: bool)

  /**
   * What the crawl talks to: the RPC node's page of signatures for (tree, before, until),
   * signature parsing, and whether the receiving end of the signature channel is still there.
   */
  datatype CrawlEnv = CrawlEnv(
    getSignatures: (Pubkey, Option<Signature>, Option<Signature>) -> Result<seq<SignatureStatus>, TreeError>,
    parseSignature: string -> Option<Signature>,
    receiverOpen: bool)

  /** How a crawl ends; `OutOfFuel` is a crawl that had not finished within the pages the model allowed it. */
  datatype CrawlStatus = Finished | Failed(error: TreeError) | OutOfFuel

  /** The entries of a page whose transaction succeeded, in page order. */
  function Successful(page: seq<SignatureStatus>): (r: seq<SignatureStatus>)
    ensures |r| <= |page|
  {
    if page == [] then []
    else (if page[0].failed then [] else [page[0]]) + Successful(page[1..])
  }

  /** The successful entries are exactly the entries of the page that did not fail. */
  lemma {:induction false} SuccessfulMembers(page: seq<SignatureStatus>, x: SignatureStatus)
    ensures x in Successful(page) <==> x in page && !x.failed
  {
    if page != [] {
      SuccessfulMembers(page[1..], x);
      assert page == [page[0]] + page[1..];
    }
  }

  lemma {:induction false} SuccessfulAppend(a: seq<SignatureStatus>, b: seq<SignatureStatus>)
    ensures Successful(a + b) == Successful(a) + Successful(b)
  {
    if a != [] {
      assert (a + b)[0] == a[0];
      assert (a + b)[1..] == a[1..] + b;
      SuccessfulAppend(a[1..], b);
      var h := if a[0].failed then [] else [a[0]];
      assert Successful(a + b) == h + Successful(a[1..] + b);
      assert Successful(a) == h + Successful(a[1..]);
      assert h + (Successful(a[1..]) + Successful(b)) == (h + Successful(a[1..])) + Successful(b);
    } else {
      assert a + b == b;
    }
  }

  /**
   * The inner loop of one crawl turn: parse and send each successful signature in order,
   * moving `before` to it. Gives the final `before` (or the error that ended the loop)
   * and the signatures sent.
   */
  function SendAll(env: CrawlEnv, sigs: seq<SignatureStatus>, before: Option<Signature>): (r: (Result<Option<Signature>, TreeError>, seq<Signature>))
    ensures |r.1| <= |sigs|
    ensures r.0.Ok? ==> |r.1| == |sigs|
    ensures r.0.Ok? && sigs == [] ==> r.0.value == before
    ensures r.0.Ok? && sigs != [] ==> r.0.value == Some(r.1[|r.1| - 1])
    ensures r.0.Err? ==> r.0.error == ParseSignature || r.0.error == ChannelClosed
  {
    if sigs == [] then (Ok(before), [])
    else match env.parseSignature(sigs[0].signature)
      case None => (Err(ParseSignature), [])
      case Some(s) =>
        if !env.receiverOpen then (Err(ChannelClosed), [])
        else
          var rest := SendAll(env, sigs[1..], Some(s));
          (rest.0, [s] + rest.1)
  }

  /** Each signature sent is the parse of the entry at the same position. */
  lemma {:induction false} SendAllSendsParsed(env: CrawlEnv, sigs: seq<SignatureStatus>, before: Option<Signature>, i: nat)
    requires i < |SendAll(env, sigs, before).1|
    ensures env.parseSignature(sigs[i].signature) == Some(SendAll(env, sigs, before).1[i])
  {
    if i > 0 {
      SendAllSendsParsed(env, sigs[1..], env.parseSignature(sigs[0].signature), i - 1);
    }
  }

  /** `run` with `sent` sent before it. */
  function Prefixed(sent: seq<Signature>, run: (CrawlStatus, seq<Signature>)): (CrawlStatus, seq<Signature>)
  {
    (run.0, sent + run.1)
  }

  /**
   * The crawl from `before` as the source writes it, for at most `fuel` pages: fetch a page,
   * send its successful signatures, and stop after a page shorter than the limit.
   */
  function CrawlRun(env: CrawlEnv, gap: TreeGapFill, before: Option<Signature>, fuel: nat): (r: (CrawlStatus, seq<Signature>))
    decreases fuel
  {
    if fuel == 0 then (OutOfFuel, [])
    else match env.getSignatures(gap.tree, before, gap.until)
      case Err(e) => (Failed(e), [])
      case Ok(page) =>
        var turn := SendAll(env, Successful(page), before);
        if turn.0.Err? then (Failed(turn.0.error), turn.1)
        else if |page| < GET_SIGNATURES_FOR_ADDRESS_LIMIT then (Finished, turn.1)
        else Prefixed(turn.1, CrawlRun(env, gap, turn.0.value, fuel - 1))
  }

  /** The inner loop of one crawl turn. */
  method SendPage(env: CrawlEnv, ok: seq<SignatureStatus>, before0: Option<Signature>) returns (res: Result<Option<Signature>, TreeError>, sent: seq<Signature>)
    ensures (res, sent) == SendAll(env, ok, before0)
  {
    var before := before0;
    sent := [];
    for j := 0 to |ok|
      invariant SendAll(env, ok, before0).0 == SendAll(env, ok[j..], before).0
      invariant SendAll(env, ok, before0).1 == sent + SendAll(env, ok[j..], before).1
    {
      assert ok[j..][1..] == ok[j + 1..];
      var parsed := env.parseSignature(ok[j].signature);
      if parsed.None? {
        assert sent + [] == sent;
        return Err(ParseSignature), sent;
      }
      if !env.receiverOpen {
        assert sent + [] == sent;
        return Err(ChannelClosed), sent;
      }
      var s := parsed.value;
      assert sent + ([s] + SendAll(env, ok[j + 1..], Some(s)).1) == (sent + [s]) + SendAll(env, ok[j + 1..], Some(s)).1;
      sent := sent + [s];
      before := Some(s);
    }
    assert ok[|ok|..] == [];
    assert sent + [] == sent;
    res := Ok(before);
  }

  /** The crawl loop, fetching at most `fuel` pages. */
  method Crawl(env: CrawlEnv, gap: TreeGapFill, fuel: nat) returns (status: CrawlStatus, sent: seq<Signature>)
    ensures (status, sent) == CrawlRun(env, gap, gap.before, fuel)
  {
    var before := gap.before;
    var remaining := fuel;
    sent := [];
    assert [] + CrawlRun(env, gap, before, remaining).1 == CrawlRun(env, gap, before, remaining).1;
    while remaining > 0
      invariant CrawlRun(env, gap, gap.before, fuel) == Prefixed(sent, CrawlRun(env, gap, before, remaining))
      decreases remaining
    {
      var answer := env.getSignatures(gap.tree, before, gap.until);
      if answer.Err? {
        assert sent + [] == sent;
        return Failed(answer.error), sent;
      }
      var page := answer.value;
      var res, sentNow := SendPage(env, Successful(page), before);
      if res.Err? {
        return Failed(res.error), sent + sentNow;
      }
      if |page| < GET_SIGNATURES_FOR_ADDRESS_LIMIT {
        return Finished, sent + sentNow;
      }
      ghost var rest := CrawlRun(env, gap, res.value, remaining - 1);
      assert sent + (sentNow + rest.1) == (sent + sentNow) + rest.1;
      sent := sent + sentNow;
      before := res.value;
      remaining := remaining - 1;
    }
    assert sent + [] == sent;
    status := OutOfFuel;
  }

  /** Every signature the crawl sends is a successful entry of a page some call returned. */
  lemma {:induction false} CrawlSendsOnlySuccessful(env: CrawlEnv, gap: TreeGapFill, before: Option<Signature>, fuel: nat, s: Signature)
    requires s in CrawlRun(env, gap, before, fuel).1
    ensures exists b: Option<Signature>, x: SignatureStatus ::
      env.getSignatures(gap.tree, b, gap.until).Ok? && x in env.getSignatures(gap.tree, b, gap.until).value
      && !x.failed && env.parseSignature(x.signature) == Some(s)
    decreases fuel
  {
    var page := env.getSignatures(gap.tree, before, gap.until).value;
    var ok := Successful(page);
    var turn := SendAll(env, ok, before);
    if s in turn.1 {
      var i :| 0 <= i < |turn.1| && turn.1[i] == s;
      SendAllSendsParsed(env, ok, before, i);
      SuccessfulMembers(page, ok[i]);
    } else {
      CrawlSendsOnlySuccessful(env, gap, turn.0.value, fuel - 1, s);
    }
  }

  /** A page shorter than the limit ends the crawl once its signatures are sent. */
  lemma ShortPageFinishes(env: CrawlEnv, gap: TreeGapFill, before: Option<Signature>, fuel: nat, page: seq<SignatureStatus>)
    requires fuel > 0 && env.getSignatures(gap.tree, before, gap.until) == Ok(page)
    requires |page| < GET_SIGNATURES_FOR_ADDRESS_LIMIT
    requires SendAll(env, Successful(page), before).0.Ok?
    ensures CrawlRun(env, gap, before, fuel) == (Finished, SendAll(env, Successful(page), before).1)
  {
  }

  /** A full page whose transactions all failed sends nothing and leaves `before` where it was. */
  lemma FailedPageKeepsBefore(env: CrawlEnv, gap: TreeGapFill, before: Option<Signature>, fuel: nat, page: seq<SignatureStatus>)
    requires fuel > 0 && env.getSignatures(gap.tree, before, gap.until) == Ok(page)
    requires |page| == GET_SIGNATURES_FOR_ADDRESS_LIMIT
    requires forall x :: x in page ==> x.failed
    ensures CrawlRun(env, gap, before, fuel) == CrawlRun(env, gap, before, fuel - 1)
  {
    var ok := Successful(page);
    if ok != [] {
      SuccessfulMembers(page, ok[0]);
      assert false;
    }
    var rest := CrawlRun(env, gap, before, fuel - 1);
    assert [] + rest.1 == rest.1;
  }

  /**
   * Consequently the crawl repeats the same request on every turn: however many pages it
   * is allowed, it never finishes and never sends a signature.
   */
  lemma {:induction false} FailedPageStalls(env: CrawlEnv, gap: TreeGapFill, before: Option<Signature>, fuel: nat, page: seq<SignatureStatus>)
    requires env.getSignatures(gap.tree, before, gap.until) == Ok(page)
    requires |page| == GET_SIGNATURES_FOR_ADDRESS_LIMIT
    requires forall x :: x in page ==> x.failed
    ensures CrawlRun(env, gap, before, fuel) == (OutOfFuel, [])
    decreases fuel
  {
    if fuel > 0 {
      FailedPageKeepsBefore(env, gap, before, fuel, page);
      FailedPageStalls(env, gap, before, fuel - 1, page);
    }
  }

  // A tree's signature history as the RPC node pages it, newest first; a crawl position is
  // the number of entries already passed over.

  function Min(a: nat, b: nat): nat
  {
    if a <= b then a else b
  }

  /** The page the node returns for a request that starts at position `start`. */
  function PageAt(history: seq<SignatureStatus>, start: nat): (r: seq<SignatureStatus>)
    requires start <= |history|
    ensures |r| <= GET_SIGNATURES_FOR_ADDRESS_LIMIT
    ensures |r| < GET_SIGNATURES_FOR_ADDRESS_LIMIT ==> r == history[start..]
  {
    history[start..Min(start + GET_SIGNATURES_FOR_ADDRESS_LIMIT, |history|)]
  }

  /** One past the last successful entry of a page, or 0 when it has none. */
  function LastSuccessEnd(page: seq<SignatureStatus>): (r: nat)
    ensures r <= |page|
    ensures r > 0 ==> !page[r - 1].failed
    ensures forall k :: r <= k < |page| ==> page[k].failed
  {
    if page == [] then 0
    else if !page[|page| - 1].failed then |page|
    else LastSuccessEnd(page[..|page| - 1])
  }

  /** The position the as-written crawl asks for next: just past the last signature it sent. */
  function NextStartAsWritten(history: seq<SignatureStatus>, start: nat): (r: nat)
    requires start <= |history|
    ensures start <= r <= |history|
  {
    start + LastSuccessEnd(PageAt(history, start))
  }

  /** The as-written crawl moves on exactly when the page holds a successful transaction. */
  lemma AsWrittenProgressIffSuccess(history: seq<SignatureStatus>, start: nat)
    requires start <= |history|
    ensures NextStartAsWritten(history, start) > start <==> exists x :: x in PageAt(history, start) && !x.failed
  {
    var page := PageAt(history, start);
    if exists x :: x in page && !x.failed {
      var x :| x in page && !x.failed;
      var k :| 0 <= k < |page| && page[k] == x;
    }
  }

  /**
   * The crawl as evidently intended: after each full page, continue from the last entry of
   * the page, whether or not that transaction failed.
   */
  function CorrectedCrawl(history: seq<SignatureStatus>, start: nat): (r: seq<SignatureStatus>)
    requires start <= |history|
    decreases |history| - start
  {
    var page := PageAt(history, start);
    if |page| < GET_SIGNATURES_FOR_ADDRESS_LIMIT then Successful(page)
    else Successful(page) + CorrectedCrawl(history, start + GET_SIGNATURES_FOR_ADDRESS_LIMIT)
  }

  /** The corrected crawl always ends, and it sends every successful transaction of the history, in order. */
  lemma {:induction false} CorrectedCrawlSendsEverySuccess(history: seq<SignatureStatus>, start: nat)
    requires start <= |history|
    ensures CorrectedCrawl(history, start) == Successful(history[start..])
    decreases |history| - start
  {
    var page := PageAt(history, start);
    if |page| == GET_SIGNATURES_FOR_ADDRESS_LIMIT {
      var next := start + GET_SIGNATURES_FOR_ADDRESS_LIMIT;
      CorrectedCrawlSendsEverySuccess(history, next);
      assert history[start..] == page + history[next..];
      SuccessfulAppend(page, history[next..]);
    }
  }

  // The as-written crawl against a node that pages a fixed history: a request with
  // `before` answers the page that starts just past the entry whose signature is `before`.

  /** One past the first entry from `i` on whose signature parses to `s`, or the history's length. */
  function IndexAfter(history: seq<SignatureStatus>, parse: string -> Option<Signature>, s: Signature, i: nat): (r: nat)
    requires i <= |history|
    ensures i <= r <= |history|
    decreases |history| - i
  {
    if i == |history| then |history|
    else if parse(history[i].signature) == Some(s) then i + 1
    else IndexAfter(history, parse, s, i + 1)
  }

  /** The crawl position a `before` cursor stands for: 0 for none, else just past its entry. */
  function PositionAfter(history: seq<SignatureStatus>, parse: string -> Option<Signature>, before: Option<Signature>): (r: nat)
    ensures r <= |history|
  {
    match before
    case None => 0
    case Some(s) => IndexAfter(history, parse, s, 0)
  }

  /** A node that pages `history` by position, with the signature channel open. */
  function HistoryEnv(history: seq<SignatureStatus>, parse: string -> Option<Signature>): CrawlEnv
  {
    CrawlEnv((t: Pubkey, b: Option<Signature>, u: Option<Signature>) => Ok(PageAt(history, PositionAfter(history, parse, b))),
             parse, true)
  }

  /** Every entry's signature parses, and no two entries parse to the same signature. */
  predicate ParsesDistinctly(history: seq<SignatureStatus>, parse: string -> Option<Signature>)
  {
    && (forall i :: 0 <= i < |history| ==> parse(history[i].signature).Some?)
    && (forall i, j :: 0 <= i < |history| && 0 <= j < |history| && parse(history[i].signature) == parse(history[j].signature) ==> i == j)
  }

  lemma {:induction false} IndexAfterOf(history: seq<SignatureStatus>, parse: string -> Option<Signature>, j: nat, i: nat)
    requires ParsesDistinctly(history, parse)
    requires i <= j < |history|
    ensures IndexAfter(history, parse, parse(history[j].signature).value, i) == j + 1
    decreases j - i
  {
    if i < j {
      IndexAfterOf(history, parse, j, i + 1);
    }
  }

  /** The last successful entry of a page is the one `LastSuccessEnd` points past. */
  lemma {:induction false} SuccessfulLast(page: seq<SignatureStatus>)
    ensures Successful(page) == [] <==> LastSuccessEnd(page) == 0
    ensures LastSuccessEnd(page) > 0 ==> Successful(page)[|Successful(page)| - 1] == page[LastSuccessEnd(page) - 1]
    decreases |page|
  {
    if page != [] {
      var init := page[..|page| - 1];
      var x := page[|page| - 1];
      assert page == init + [x];
      SuccessfulAppend(init, [x]);
      assert Successful([x]) == (if x.failed then [] else [x]) + Successful([x][1..]);
      assert [x][1..] == [];
      if x.failed {
        SuccessfulLast(init);
        assert Successful(page) == Successful(init);
        if LastSuccessEnd(init) > 0 {
          assert page[LastSuccessEnd(init) - 1] == init[LastSuccessEnd(init) - 1];
        }
      }
    }
  }

  /** Sending a page never fails while every signature parses and the channel is open. */
  lemma {:induction false} SendAllOk(env: CrawlEnv, sigs: seq<SignatureStatus>, before: Option<Signature>)
    requires env.receiverOpen
    requires forall k :: 0 <= k < |sigs| ==> env.parseSignature(sigs[k].signature).Some?
    ensures SendAll(env, sigs, before).0.Ok?
    decreases |sigs|
  {
    if sigs != [] {
      assert forall k :: 0 <= k < |sigs[1..]| ==> sigs[1..][k] == sigs[k + 1];
      SendAllOk(env, sigs[1..], env.parseSignature(sigs[0].signature));
    }
  }

  /** Every successful entry of a page of the history parses. */
  lemma HistoryPageParses(history: seq<SignatureStatus>, parse: string -> Option<Signature>, start: nat, k: nat)
    requires ParsesDistinctly(history, parse)
    requires start <= |history|
    requires k < |Successful(PageAt(history, start))|
    ensures parse(Successful(PageAt(history, start))[k].signature).Some?
  {
    var page := PageAt(history, start);
    var ok := Successful(page);
    SuccessfulMembers(page, ok[k]);
    var m :| 0 <= m < |page| && page[m] == ok[k];
    assert page[m] == history[start + m];
  }

  /** After sending a page of the history, the cursor stands for the as-written next position. */
  lemma HistoryCursorMoves(history: seq<SignatureStatus>, parse: string -> Option<Signature>, before: Option<Signature>)
    requires ParsesDistinctly(history, parse)
    ensures var start := PositionAfter(history, parse, before);
      var turn := SendAll(HistoryEnv(history, parse), Successful(PageAt(history, start)), before);
      && turn.0.Ok?
      && PositionAfter(history, parse, turn.0.value) == NextStartAsWritten(history, start)
  {
    var env := HistoryEnv(history, parse);
    var start := PositionAfter(history, parse, before);
    var page := PageAt(history, start);
    var ok := Successful(page);
    forall k | 0 <= k < |ok|
      ensures env.parseSignature(ok[k].signature).Some?
    {
      HistoryPageParses(history, parse, start, k);
    }
    SendAllOk(env, ok, before);
    var turn := SendAll(env, ok, before);
    SuccessfulLast(page);
    var e := LastSuccessEnd(page);
    if e > 0 {
      var j := start + e - 1;
      assert page[e - 1] == history[j];
      SendAllSendsParsed(env, ok, before, |turn.1| - 1);
      IndexAfterOf(history, parse, j, 0);
    }
  }

  /**
   * `CrawlRun` against a node that pages a history: each turn fetches `PageAt` at the
   * cursor's position, sends the page's successful signatures in order, and the cursor it
   * moves to stands for `NextStartAsWritten`; a short page finishes the crawl.
   */
  lemma CrawlRunOverHistory(history: seq<SignatureStatus>, parse: string -> Option<Signature>, gap: TreeGapFill,
                            before: Option<Signature>, fuel: nat)
    requires ParsesDistinctly(history, parse)
    requires fuel > 0
    ensures var env := HistoryEnv(history, parse);
      var start := PositionAfter(history, parse, before);
      var page := PageAt(history, start);
      var turn := SendAll(env, Successful(page), before);
      && turn.0.Ok?
      && |turn.1| == |Successful(page)|
      && (forall k :: 0 <= k < |turn.1| ==> parse(Successful(page)[k].signature) == Some(turn.1[k]))
      && PositionAfter(history, parse, turn.0.value) == NextStartAsWritten(history, start)
      && CrawlRun(env, gap, before, fuel)
         == if |page| < GET_SIGNATURES_FOR_ADDRESS_LIMIT then (Finished, turn.1)
            else Prefixed(turn.1, CrawlRun(env, gap, turn.0.value, fuel - 1))
  {
    var env := HistoryEnv(history, parse);
    var start := PositionAfter(history, parse, before);
    var page := PageAt(history, start);
    var ok := Successful(page);
    HistoryCursorMoves(history, parse, before);
    var turn := SendAll(env, ok, before);
    forall k | 0 <= k < |turn.1|
      ensures parse(ok[k].signature) == Some(turn.1[k])
    {
      SendAllSendsParsed(env, ok, before, k);
    }
    assert env.getSignatures(gap.tree, before, gap.until) == Ok(page);
  }

  /**
   * The finding on the paged history: when the page at the cursor's position is full and
   * every transaction on it failed, the as-written crawl never finishes and sends nothing,
   * where `CorrectedCrawl` moves on to the next page.
   */
  lemma HistoryFailedPageStalls(history: seq<SignatureStatus>, parse: string -> Option<Signature>, gap: TreeGapFill,
                                before: Option<Signature>, fuel: nat)
    requires var page := PageAt(history, PositionAfter(history, parse, before));
      |page| == GET_SIGNATURES_FOR_ADDRESS_LIMIT && forall k :: 0 <= k < |page| ==> page[k].failed
    ensures CrawlRun(HistoryEnv(history, parse), gap, before, fuel) == (OutOfFuel, [])
  {
    var env := HistoryEnv(history, parse);
    var page := PageAt(history, PositionAfter(history, parse, before));
    assert env.getSignatures(gap.tree, before, gap.until) == Ok(page);
    FailedPageStalls(env, gap, before, fuel, page);
  }

  // ---------------------------------------------------------------------------
  // Tree accounts (TreeResponse::try_from_rpc, find)
  // ---------------------------------------------------------------------------

  /** `CONCURRENT_MERKLE_TREE_HEADER_SIZE_V1`: the account type and version bytes, then the 54-byte V1 header. */
  const HEADER_SIZE: nat := 56

  /** The byte range of the tree authority within the header. */
  const AUTHORITY_START: nat := 10
  const AUTHORITY_END: nat := 42

  /** The page of keys one `getMultipleAccounts` call asks for. */
  const FIND_BATCH_SIZE: nat := 100

  /** The fields of a decoded `ConcurrentMerkleTreeHeader` the backfiller reads; `valid` is what `assert_valid` checks. */
  datatype TreeHeader = TreeHeader(maxBufferSize: U32, maxDepth: U32, authority: Pubkey, creationSlot: U64, valid: bool)

  datatype Account = Account(owner: Pubkey, data: Bytes)

  /**
   * The chain as the tree decoder sees it: Borsh decoding of the header, `merkle_tree_get_size`,
   * the two program-derived authorities, and the `getAccount` / `getMultipleAccounts` calls.
   */
  datatype TreeChain = TreeChain(
    decodeHeader: Bytes -> Option<TreeHeader>,
    treeSize: TreeHeader -> Option<nat>,
    hiveControlVault: Pubkey,
    bubblegumAuthority: Pubkey -> Pubkey,
    getAccount: Pubkey -> Result<Option<Account>, TreeError>,
    getMultipleAccounts: seq<Pubkey> -> Result<seq<Option<Account>>, TreeError>)

  datatype TreeHeaderResponse = TreeHeaderResponse(maxDepth: U32, maxBufferSize: U32, creationSlot: U64, size: nat)

  datatype TreeResponse = TreeResponse(pubkey: Pubkey, treeHeader: TreeHeaderResponse, seqNo: U64)

  /** The tree's sequence number: the little-endian `u64` at the start of the tree region. */
  function SeqOfTree(treeBytes: Bytes): (r: Result<U64, TreeError>)
    ensures r.Ok? <==> |treeBytes| >= 8
    ensures r.Err? ==> r.error == Panicked
    ensures r.Ok? ==> LeBytes(r.value, 8) == treeBytes[..8]
  {
    if |treeBytes| < 8 then Err(Panicked)
    else
      var b := treeBytes[..8];
      LeValueBound(b);
      Pow256Eight();
      LeBytesOfValue(b);
      Ok(LeValue(b))
  }

  /** A tree region that starts with the encoding of a `u64` decodes to that number. */
  lemma SeqOfEncodedTree(v: U64, rest: Bytes)
    ensures SeqOfTree(LeBytes(v, 8) + rest) == Ok(v)
  {
    Pow256Eight();
    LeRoundTrip(v, 8);
    assert (LeBytes(v, 8) + rest)[..8] == LeBytes(v, 8);
  }

  /**
   * `assert_valid_authority` for one of the two derived authorities: the
   * header passes `assert_valid` (its account type) and names the vault,
   * or, unless `ignoreBgum`, the tree's bubblegum authority.
   */
  predicate KnownAuthority(chain: TreeChain, pubkey: Pubkey, header: TreeHeader, ignoreBgum: bool)
  {
    header.valid
    && (header.authority == chain.hiveControlVault
        || (!ignoreBgum && header.authority == chain.bubblegumAuthority(pubkey)))
  }

  /**
   * The authority check: the hive-control vault, else the bubblegum authority of the tree
   * unless `ignoreBgum`, else (when `programs` is non-empty) an authority account owned by
   * one of `programs`. A header that fails `assert_valid` fails every branch with the
   * account-type error.
   */
  function AuthorityCheck(chain: TreeChain, pubkey: Pubkey, header: TreeHeader, headerBytes: Bytes, programs: seq<Pubkey>, ignoreBgum: bool): (r: Result<(), TreeError>)
    requires |headerBytes| == HEADER_SIZE
    ensures r.Ok? <==>
      KnownAuthority(chain, pubkey, header, ignoreBgum)
      || (|programs| > 0 && header.valid
          && chain.getAccount(headerBytes[AUTHORITY_START..AUTHORITY_END]).Ok?
          && chain.getAccount(headerBytes[AUTHORITY_START..AUTHORITY_END]).value.Some?
          && chain.getAccount(headerBytes[AUTHORITY_START..AUTHORITY_END]).value.value.owner in programs)
    ensures !header.valid ==> r == Err(InvalidHeader)
    ensures r.Err? && header.valid && (|programs| == 0 || KnownAuthority(chain, pubkey, header, ignoreBgum)) ==> r.error == IncorrectAuthority
  {
    if !header.valid then Err(InvalidHeader)
    else if KnownAuthority(chain, pubkey, header, ignoreBgum) then Ok(())
    else if |programs| > 0 then
      var authority: Pubkey := headerBytes[AUTHORITY_START..AUTHORITY_END];
      match chain.getAccount(authority)
      case Err(e) => Err(e)
      case Ok(None) => Err(IncorrectAuthority)
      case Ok(Some(acc)) => if acc.owner in programs then Ok(()) else Err(IncorrectAuthority)
    else Err(IncorrectAuthority)
  }

  /** Decode a tree account fetched over RPC: header, sequence number and authority, in that order. */
  function TryFromRpc(chain: TreeChain, pubkey: Pubkey, account: Account, programs: seq<Pubkey>, ignoreBgum: bool): (r: Result<TreeResponse, TreeError>)
    ensures r.Ok? ==> r.value.pubkey == pubkey
    ensures r.Ok? ==>
      |account.data| >= HEADER_SIZE + 8
      && chain.decodeHeader(account.data[..HEADER_SIZE]).Some?
      && AuthorityCheck(chain, pubkey, chain.decodeHeader(account.data[..HEADER_SIZE]).value, account.data[..HEADER_SIZE], programs, ignoreBgum).Ok?
      && LeBytes(r.value.seqNo, 8) == account.data[HEADER_SIZE..HEADER_SIZE + 8]
    ensures |account.data| < HEADER_SIZE ==> r == Err(Panicked)
  {
    var data := account.data;
    if |data| < HEADER_SIZE then Err(Panicked)
    else
      var headerBytes := data[..HEADER_SIZE];
      var rest := data[HEADER_SIZE..];
      match chain.decodeHeader(headerBytes)
      case None => Err(HeaderDecode)
      case Some(header) =>
        match chain.treeSize(header)
        case None => Err(TreeSize)
        case Some(size) =>
          if |rest| < size then Err(Panicked)
          else match SeqOfTree(rest[..size])
            case Err(e) => Err(e)
            case Ok(seqNo) =>
              assert rest[..size][..8] == data[HEADER_SIZE..HEADER_SIZE + 8];
              match AuthorityCheck(chain, pubkey, header, headerBytes, programs, ignoreBgum)
              case Err(e) => Err(e)
              case Ok(_) =>
                Ok(TreeResponse(pubkey, TreeHeaderResponse(header.maxDepth, header.maxBufferSize, header.creationSlot, size), seqNo))
  }

  /** Without a program list, a tree whose authority is neither derived authority is rejected. */
  lemma UnknownAuthorityRejected(chain: TreeChain, pubkey: Pubkey, account: Account, ignoreBgum: bool)
    requires |account.data| >= HEADER_SIZE
    requires chain.decodeHeader(account.data[..HEADER_SIZE]).Some?
    requires !KnownAuthority(chain, pubkey, chain.decodeHeader(account.data[..HEADER_SIZE]).value, ignoreBgum)
    ensures TryFromRpc(chain, pubkey, account, [], ignoreBgum).Err?
  {
  }

  /**
   * A header of the wrong account type is rejected with the account-type
   * error once the tree region is read, whatever authority it names and
   * whatever programs are allowed.
   */
  lemma InvalidHeaderRejected(chain: TreeChain, pubkey: Pubkey, account: Account, programs: seq<Pubkey>, ignoreBgum: bool)
    requires |account.data| >= HEADER_SIZE
    requires chain.decodeHeader(account.data[..HEADER_SIZE]).Some?
    requires !chain.decodeHeader(account.data[..HEADER_SIZE]).value.valid
    ensures TryFromRpc(chain, pubkey, account, programs, ignoreBgum).Err?
    ensures var size := chain.treeSize(chain.decodeHeader(account.data[..HEADER_SIZE]).value);
      size.Some? && 8 <= size.value <= |account.data| - HEADER_SIZE ==>
        TryFromRpc(chain, pubkey, account, programs, ignoreBgum) == Err(InvalidHeader)
  {
  }

  /** `chunks(n)`: consecutive slices of `n` elements, the last one possibly shorter. */
  function Chunks<T>(xs: seq<T>, n: nat): (r: seq<seq<T>>)
    requires n > 0
    ensures forall i :: 0 <= i < |r| ==> 0 < |r[i]| <= n
    ensures forall i :: 0 <= i < |r| - 1 ==> |r[i]| == n
    decreases |xs|
  {
    if xs == [] then []
    else if |xs| <= n then [xs]
    else [xs[..n]] + Chunks(xs[n..], n)
  }

  function Flatten<T>(xss: seq<seq<T>>): seq<T>
  {
    if xss == [] then [] else xss[0] + Flatten(xss[1..])
  }

  /** The chunks put back together are the input. */
  lemma {:induction false} ChunksFlatten<T>(xs: seq<T>, n: nat)
    requires n > 0
    ensures Flatten(Chunks(xs, n)) == xs
    decreases |xs|
  {
    if |xs| > n {
      var r := Chunks(xs, n);
      assert r[1..] == Chunks(xs[n..], n);
      ChunksFlatten(xs[n..], n);
      assert xs == xs[..n] + xs[n..];
    }
  }

  /** `batch.iter().zip(accounts)`: pairs up to the shorter of the two. */
  function Zip(keys: seq<Pubkey>, accounts: seq<Option<Account>>): (r: seq<(Pubkey, Option<Account>)>)
    ensures |r| == Min(|keys|, |accounts|)
    ensures forall i :: 0 <= i < |r| ==> r[i] == (keys[i], accounts[i])
  {
    seq(Min(|keys|, |accounts|), i requires 0 <= i < Min(|keys|, |accounts|) => (keys[i], accounts[i]))
  }

  /** One `getMultipleAccounts` call per batch; the first failing batch fails the lookup. */
  function FetchBatches(chain: TreeChain, batches: seq<seq<Pubkey>>): (r: Result<seq<(Pubkey, Option<Account>)>, TreeError>)
  {
    if batches == [] then Ok([])
    else match chain.getMultipleAccounts(batches[0])
      case Err(e) => Err(e)
      case Ok(accounts) =>
        match FetchBatches(chain, batches[1..])
        case Err(e) => Err(e)
        case Ok(rest) => Ok(Zip(batches[0], accounts) + rest)
  }

  /** The keys of a list of pairs. */
  function KeysOf(pairs: seq<(Pubkey, Option<Account>)>): (r: seq<Pubkey>)
    ensures |r| == |pairs|
  {
    seq(|pairs|, i requires 0 <= i < |pairs| => pairs[i].0)
  }

  /** When every batch is answered with one entry per key, the fetched pairs carry exactly the batched keys, in order. */
  lemma {:induction false} FetchBatchesKeys(chain: TreeChain, batches: seq<seq<Pubkey>>)
    requires forall i :: 0 <= i < |batches| ==>
      chain.getMultipleAccounts(batches[i]).Ok? && |chain.getMultipleAccounts(batches[i]).value| == |batches[i]|
    ensures FetchBatches(chain, batches).Ok?
    ensures KeysOf(FetchBatches(chain, batches).value) == Flatten(batches)
  {
    if batches != [] {
      FetchBatchesKeys(chain, batches[1..]);
      var accounts := chain.getMultipleAccounts(batches[0]).value;
      var rest := FetchBatches(chain, batches[1..]).value;
      assert KeysOf(Zip(batches[0], accounts) + rest) == batches[0] + KeysOf(rest);
    }
  }

  /** The pairs whose account exists, keeping their order; missing accounts are skipped. */
  function Present(pairs: seq<(Pubkey, Option<Account>)>): (r: seq<(Pubkey, Account)>)
    ensures |r| <= |pairs|
    ensures forall p :: p in r <==> (p.0, Some(p.1)) in pairs
  {
    if pairs == [] then []
    else
      (match pairs[0].1
       case None => []
       case Some(a) => [(pairs[0].0, a)])
      + Present(pairs[1..])
  }

  /** Decode every present account; any failure fails the whole lookup with `SerializeTreeResponse`. */
  function DecodeAll(chain: TreeChain, present: seq<(Pubkey, Account)>, programs: seq<Pubkey>): (r: Result<seq<TreeResponse>, TreeError>)
    ensures r.Err? ==> r.error == SerializeTreeResponse
    ensures r.Err? <==> exists i :: 0 <= i < |present| && TryFromRpc(chain, present[i].0, present[i].1, programs, false).Err?
    ensures r.Ok? ==>
      |r.value| == |present|
      && forall i :: 0 <= i < |present| ==> Ok(r.value[i]) == TryFromRpc(chain, present[i].0, present[i].1, programs, false)
  {
    if present == [] then Ok([])
    else match TryFromRpc(chain, present[0].0, present[0].1, programs, false)
      case Err(_) => Err(SerializeTreeResponse)
      case Ok(t) =>
        match DecodeAll(chain, present[1..], programs)
        case Err(e) =>
          assert forall i :: 1 <= i < |present| ==> present[i] == present[1..][i - 1];
          Err(e)
        case Ok(ts) =>
          assert forall i :: 1 <= i < |present| ==> present[i] == present[1..][i - 1];
          Ok([t] + ts)
  }

  /** `TreeResponse::find`: fetch the keys in batches of 100, skip missing accounts, decode the rest with `ignore_bgum` off. */
  function Find(chain: TreeChain, pubkeys: seq<Pubkey>, programs: seq<Pubkey>): (r: Result<seq<TreeResponse>, TreeError>)
    ensures r.Ok? ==> forall t :: t in r.value ==> t.pubkey in pubkeys
  {
    match FetchBatches(chain, Chunks(pubkeys, FIND_BATCH_SIZE))
    case Err(e) => Err(e)
    case Ok(pairs) =>
      PresentKeysFetched(chain, pubkeys, pairs);
      DecodeAll(chain, Present(pairs), programs)
  }

  /** Every key of a fetched pair is one of the keys asked for. */
  lemma PresentKeysFetched(chain: TreeChain, pubkeys: seq<Pubkey>, pairs: seq<(Pubkey, Option<Account>)>)
    requires FetchBatches(chain, Chunks(pubkeys, FIND_BATCH_SIZE)) == Ok(pairs)
    ensures forall p :: p in Present(pairs) ==> p.0 in pubkeys
  {
    ChunksFlatten(pubkeys, FIND_BATCH_SIZE);
    FetchedKeysBatched(chain, Chunks(pubkeys, FIND_BATCH_SIZE));
  }

  lemma {:induction false} FetchedKeysBatched(chain: TreeChain, batches: seq<seq<Pubkey>>)
    requires FetchBatches(chain, batches).Ok?
    ensures forall p :: p in FetchBatches(chain, batches).value ==> p.0 in Flatten(batches)
  {
    if batches != [] {
      FetchedKeysBatched(chain, batches[1..]);
    }
  }

  /**
   * When the node answers every batch in full, `find` decodes exactly the keys whose account
   * exists, one response per such key, in the order the keys were given.
   */
  lemma FindDecodesPresentKeys(chain: TreeChain, pubkeys: seq<Pubkey>, programs: seq<Pubkey>)
    requires forall i :: 0 <= i < |Chunks(pubkeys, FIND_BATCH_SIZE)| ==>
      chain.getMultipleAccounts(Chunks(pubkeys, FIND_BATCH_SIZE)[i]).Ok?
      && |chain.getMultipleAccounts(Chunks(pubkeys, FIND_BATCH_SIZE)[i]).value| == |Chunks(pubkeys, FIND_BATCH_SIZE)[i]|
    ensures FetchBatches(chain, Chunks(pubkeys, FIND_BATCH_SIZE)).Ok?
    ensures KeysOf(FetchBatches(chain, Chunks(pubkeys, FIND_BATCH_SIZE)).value) == pubkeys
    ensures var present := Present(FetchBatches(chain, Chunks(pubkeys, FIND_BATCH_SIZE)).value);
      Find(chain, pubkeys, programs).Ok? ==> |Find(chain, pubkeys, programs).value| == |present|
  {
    var batches := Chunks(pubkeys, FIND_BATCH_SIZE);
    FetchBatchesKeys(chain, batches);
    ChunksFlatten(pubkeys, FIND_BATCH_SIZE);
  }
}
