/**
 * The management loop of the gRPC ingress (grpc-ingest/src/grpc.rs): updates from the
 * Geyser streams are filtered, de-duplicated through a bounded least-recently-used cache,
 * queued on a redis pipeline, and the pipeline is handed off when it is full or idle.
 */
module GrpcIngest {
  import opened Wrappers
  import opened Bytes

  /** Attempts of the streaming loop per endpoint. */
  const MAX_ATTEMPTS: nat := 10

  // ---------------------------------------------------------------------------
  // Cache keys: `format!("{}:{}", slot, hex(pubkey))` and `hex(signature)`
  // ---------------------------------------------------------------------------

  function Digit(n: nat): (c: char)
    requires n < 10
    ensures '0' <= c <= '9'
  {
    ('0' as int + n) as char
  }

  /** One lower-case hexadecimal digit, as `hex::encode` writes it. */
  function HexDigit(n: nat): (c: char)
    requires n < 16
    ensures c != ':'
    ensures c as int == if n < 10 then '0' as int + n else 'a' as int + n - 10
  {
    if n < 10 then ('0' as int + n) as char else ('a' as int + n - 10) as char
  }

  /** `hex::encode`: two digits per byte, high nibble first. */
  function Hex(bytes: Bytes): (s: string)
    ensures |s| == 2 * |bytes|
    ensures forall i :: 0 <= i < |s| ==> s[i] != ':'
  {
    if bytes == [] then []
    else [HexDigit(bytes[0] / 16), HexDigit(bytes[0] % 16)] + Hex(bytes[1..])
  }

  /** The decimal rendering of an unsigned slot, as `format!("{}")` writes it. */
  function Decimal(n: nat): (s: string)
    ensures |s| >= 1
    ensures n >= 10 ==> |s| >= 2
    ensures forall i :: 0 <= i < |s| ==> '0' <= s[i] <= '9'
  {
    if n < 10 then [Digit(n)] else Decimal(n / 10) + [Digit(n % 10)]
  }

  /** The de-duplication key of an account update. */
  function AccountKey(slot: U64, pubkey: Bytes): string
  {
    Decimal(slot) + [':'] + Hex(pubkey)
  }

  /** The de-duplication key of a transaction update: the signature alone. */
  function TransactionKey(signature: Bytes): string
  {
    Hex(signature)
  }

  lemma HexDigitInjective(a: nat, b: nat)
    requires a < 16 && b < 16 && HexDigit(a) == HexDigit(b)
    ensures a == b
  {
    assert HexDigit(a) as int == HexDigit(b) as int;
  }

  /** Different byte strings have different hexadecimal encodings. */
  lemma {:induction false} HexInjective(x: Bytes, y: Bytes)
    requires Hex(x) == Hex(y)
    ensures x == y
  {
    if x != [] {
      assert |y| == |x|;
      var hx := Hex(x);
      var hy := Hex(y);
      assert hx[0] == HexDigit(x[0] / 16) && hy[0] == HexDigit(y[0] / 16);
      assert hx[1] == HexDigit(x[0] % 16) && hy[1] == HexDigit(y[0] % 16);
      HexDigitInjective(x[0] / 16, y[0] / 16);
      HexDigitInjective(x[0] % 16, y[0] % 16);
      assert hx[2..] == Hex(x[1..]) && hy[2..] == Hex(y[1..]);
      HexInjective(x[1..], y[1..]);
      assert x == [x[0]] + x[1..] && y == [y[0]] + y[1..];
    }
  }

  /** Different slots have different decimal renderings. */
  lemma {:induction false} DecimalInjective(a: nat, b: nat)
    requires Decimal(a) == Decimal(b)
    ensures a == b
  {
    if a < 10 && b < 10 {
      assert Digit(a) as int == Digit(b) as int;
    } else if a >= 10 && b >= 10 {
      var da := Decimal(a);
      var db := Decimal(b);
      assert da[|da| - 1] == Digit(a % 10) && db[|db| - 1] == Digit(b % 10);
      assert Digit(a % 10) as int == Digit(b % 10) as int;
      assert da[..|da| - 1] == Decimal(a / 10) && db[..|db| - 1] == Decimal(b / 10);
      DecimalInjective(a / 10, b / 10);
    }
  }

  /** The first ':' of `a + [':'] + b` sits at `|a|` when `a` holds none. */
  lemma ColonNotBefore(a: string, b: string, c: string, d: string)
    requires forall i :: 0 <= i < |a| ==> a[i] != ':'
    requires a + [':'] + b == c + [':'] + d
    ensures |a| <= |c|
  {
    var s := a + [':'] + b;
    assert forall i :: 0 <= i < |a| ==> s[i] == a[i];
    assert s == c + [':'] + d && s[|c|] == ':';
  }

  /** Splitting at the first ':' recovers both halves when the left one holds none. */
  lemma SplitAtColon(a: string, b: string, c: string, d: string)
    requires forall i :: 0 <= i < |a| ==> a[i] != ':'
    requires forall i :: 0 <= i < |c| ==> c[i] != ':'
    requires a + [':'] + b == c + [':'] + d
    ensures a == c && b == d
  {
    ColonNotBefore(a, b, c, d);
    ColonNotBefore(c, d, a, b);
    var s := a + [':'] + b;
    assert a == s[..|a|] && c == s[..|c|];
    assert b == s[|a| + 1..] && d == s[|c| + 1..];
  }

  /** Two account updates share a key exactly when they have the same slot and pubkey. */
  lemma AccountKeyInjective(slot1: U64, pubkey1: Bytes, slot2: U64, pubkey2: Bytes)
    ensures AccountKey(slot1, pubkey1) == AccountKey(slot2, pubkey2) <==> slot1 == slot2 && pubkey1 == pubkey2
  {
    if AccountKey(slot1, pubkey1) == AccountKey(slot2, pubkey2) {
      var d1 := Decimal(slot1);
      var d2 := Decimal(slot2);
      assert forall i :: 0 <= i < |d1| ==> d1[i] != ':';
      assert forall i :: 0 <= i < |d2| ==> d2[i] != ':';
      SplitAtColon(d1, Hex(pubkey1), d2, Hex(pubkey2));
      DecimalInjective(slot1, slot2);
      HexInjective(pubkey1, pubkey2);
    }
  }

  /** An account key never equals a transaction key: only the former holds a ':'. */
  lemma AccountAndTransactionKeysDiffer(slot: U64, pubkey: Bytes, signature: Bytes)
    ensures AccountKey(slot, pubkey) != TransactionKey(signature)
  {
    var k := AccountKey(slot, pubkey);
    assert k[|Decimal(slot)|] == ':';
  }

  /** Transaction keys ignore the slot: the same signature at two slots is one key, distinct signatures two. */
  lemma TransactionKeyIsSignature(s1: Bytes, s2: Bytes)
    ensures TransactionKey(s1) == TransactionKey(s2) <==> s1 == s2
  {
    if TransactionKey(s1) == TransactionKey(s2) {
      HexInjective(s1, s2);
    }
  }

  // ---------------------------------------------------------------------------
  // The seen-event cache (`LruCache<String, ()>`), least recent first
  // ---------------------------------------------------------------------------

  predicate Distinct(xs: seq<string>)
  {
    forall i, j :: 0 <= i < j < |xs| ==> xs[i] != xs[j]
  }

  lemma DistinctSnoc(xs: seq<string>, k: string)
    requires Distinct(xs) && k !in xs
    ensures Distinct(xs + [k])
  {
    var ys := xs + [k];
    forall i, j | 0 <= i < j < |ys|
      ensures ys[i] != ys[j]
    {
      if j == |xs| {
        assert ys[i] == xs[i];
      } else {
        assert ys[i] == xs[i] && ys[j] == xs[j];
      }
    }
  }

  /** The cache without `k`. */
  function Remove(xs: seq<string>, k: string): (r: seq<string>)
    ensures forall x :: x in r <==> x in xs && x != k
    ensures Distinct(xs) ==> Distinct(r)
    ensures Distinct(xs) && k in xs ==> |r| == |xs| - 1
    ensures k !in xs ==> r == xs
  {
    if xs == [] then []
    else if xs[0] == k then Remove(xs[1..], k)
    else
      var rest := Remove(xs[1..], k);
      assert Distinct(xs) ==> Distinct(xs[1..]) && xs[0] !in rest;
      assert k !in xs ==> xs == [xs[0]] + xs[1..];
      assert forall i :: 1 <= i < |[xs[0]] + rest| ==> ([xs[0]] + rest)[i] == rest[i - 1];
      [xs[0]] + rest
  }

  /**
   * `get` followed, on a miss, by `put`: whether the key was already held, and the cache
   * afterwards, with the key most recent and the least recent one evicted when full.
   */
  function Lookup(cache: seq<string>, capacity: nat, key: string): (r: (bool, seq<string>))
    requires capacity >= 1
    ensures r.0 <==> key in cache
    ensures |r.1| >= 1 && r.1[|r.1| - 1] == key
    ensures forall x :: x in r.1 ==> x in cache || x == key
    ensures Distinct(cache) && |cache| <= capacity ==>
      Distinct(r.1) && |r.1| <= capacity
    ensures r.0 || |cache| < capacity ==> forall x :: x in cache ==> x in r.1
    ensures |cache| >= 1 ==> forall x :: x in cache[1..] ==> x in r.1
  {
    if key in cache then
      var rest := Remove(cache, key);
      assert Distinct(cache) ==> Distinct(rest) && key !in rest;
      assert Distinct(cache) ==> Distinct(rest + [key]) by {
        if Distinct(cache) {
          DistinctSnoc(rest, key);
        }
      }
      (true, rest + [key])
    else if |cache| < capacity then
      assert Distinct(cache) ==> Distinct(cache + [key]) by {
        if Distinct(cache) {
          DistinctSnoc(cache, key);
        }
      }
      (false, cache + [key])
    else
      var rest := cache[1..];
      assert Distinct(cache) ==> Distinct(rest + [key]) by {
        if Distinct(cache) {
          assert forall i, j :: 0 <= i < j < |rest| ==> rest[i] == cache[i + 1] && rest[j] == cache[j + 1];
          assert key !in rest;
          DistinctSnoc(rest, key);
        }
      }
      (false, rest + [key])
  }

  /** Once looked up, a key is seen by the next lookup of it: a repeated update is skipped. */
  lemma RepeatIsSeen(cache: seq<string>, capacity: nat, key: string)
    requires capacity >= 1
    ensures Lookup(Lookup(cache, capacity, key).1, capacity, key).0
  {
    var after := Lookup(cache, capacity, key).1;
    assert after[|after| - 1] in after;
  }

  // ---------------------------------------------------------------------------
  // Updates and what reaches the pipeline
  // ---------------------------------------------------------------------------

  datatype AccountPayload = AccountPayload(pubkey: Bytes)
  /** Transaction status meta; `err` is the encoded transaction error, if any. */
  datatype TxMeta = TxMeta(err: Option<Bytes>)
  datatype TxInfo = TxInfo(signature: Bytes, meta: Option<TxMeta>)

  /** `UpdateOneof` as the loop distinguishes it. */
  datatype Update =
    | AccountUpdate(slot: U64, account: Option<AccountPayload>)
    | TransactionUpdate(slot: U64, transaction: Option<TxInfo>)
    | OtherUpdate

  datatype Stream = AccountsStream | TransactionsStream

  /** One `xadd_maxlen` queued on the pipeline, carrying the encoded update. */
  datatype Entry = Entry(stream: Stream, update: Update)

  /** A pipeline handed off to a writer task, with the two counts it reports. */
  datatype Batch = Batch(entries: seq<Entry>, accounts: nat, transactions: nat)

  /**
   * The de-duplication key and the queued entry of an update, `None` when the loop drops
   * it before the cache: a transaction without payload, without meta or with an error,
   * and every kind of update other than accounts and transactions.
   */
  function Admission(u: Update): (r: Option<(string, Entry)>)
    ensures r.Some? ==> r.value.1.update == u
  {
    match u
    case AccountUpdate(slot, account) =>
      var pubkey := if account.Some? then account.value.pubkey else [];
      Some((AccountKey(slot, pubkey), Entry(AccountsStream, u)))
    case TransactionUpdate(_, transaction) =>
      if transaction.None? || transaction.value.meta.None? || transaction.value.meta.value.err.Some? then None
      else Some((TransactionKey(transaction.value.signature), Entry(TransactionsStream, u)))
    case OtherUpdate => None
  }

  /** Every account update reaches the cache, keyed on its slot and pubkey (empty when absent), bound for the accounts stream. */
  lemma AccountAdmission(u: Update)
    requires u.AccountUpdate?
    ensures Admission(u).Some?
    ensures Admission(u).value.1.stream == AccountsStream
    ensures u.account.Some? ==> Admission(u).value.0 == AccountKey(u.slot, u.account.value.pubkey)
    ensures u.account.None? ==> Admission(u).value.0 == AccountKey(u.slot, [])
  {
  }

  /** A transaction update reaches the cache exactly when it is present, has meta, and meta records no error. */
  lemma TransactionAdmission(u: Update)
    requires u.TransactionUpdate?
    ensures Admission(u).Some? <==>
      u.transaction.Some? && u.transaction.value.meta.Some? && u.transaction.value.meta.value.err.None?
    ensures Admission(u).Some? ==>
      Admission(u).value.0 == TransactionKey(u.transaction.value.signature)
      && Admission(u).value.1.stream == TransactionsStream
  {
  }

  /** Two admitted transactions with the same signature collide in the cache whatever their slots. */
  lemma SameSignatureSameKey(u: Update, v: Update)
    requires u.TransactionUpdate? && v.TransactionUpdate? && Admission(u).Some? && Admission(v).Some?
    ensures Admission(u).value.0 == Admission(v).value.0 <==>
      u.transaction.value.signature == v.transaction.value.signature
  {
    TransactionKeyIsSignature(u.transaction.value.signature, v.transaction.value.signature);
  }

  /** Two admitted account updates collide exactly when slot and pubkey agree. */
  lemma AccountKeysCollideOnlyOnRepeats(u: Update, v: Update)
    requires u.AccountUpdate? && v.AccountUpdate? && u.account.Some? && v.account.Some?
    ensures Admission(u).value.0 == Admission(v).value.0 <==>
      u.slot == v.slot && u.account.value.pubkey == v.account.value.pubkey
  {
    AccountKeyInjective(u.slot, u.account.value.pubkey, v.slot, v.account.value.pubkey);
  }

  /** The entries of a pipeline bound for one stream. */
  function Count(entries: seq<Entry>, stream: Stream): (n: nat)
    ensures n <= |entries|
  {
    if entries == [] then 0
    else (if entries[0].stream == stream then 1 else 0) + Count(entries[1..], stream)
  }

  lemma {:induction false} CountSnoc(entries: seq<Entry>, e: Entry, stream: Stream)
    ensures Count(entries + [e], stream) == Count(entries, stream) + (if e.stream == stream then 1 else 0)
  {
    if entries != [] {
      assert (entries + [e])[1..] == entries[1..] + [e];
      CountSnoc(entries[1..], e, stream);
    }
  }

  /** The two counters always add up to the pipeline's length. */
  lemma {:induction false} CountsPartition(entries: seq<Entry>)
    ensures Count(entries, AccountsStream) + Count(entries, TransactionsStream) == |entries|
  {
    if entries != [] {
      CountsPartition(entries[1..]);
    }
  }

  /** A batch reports its own contents, and is never empty. */
  predicate BatchValid(b: Batch)
  {
    |b.entries| >= 1
    && b.accounts == Count(b.entries, AccountsStream)
    && b.transactions == Count(b.entries, TransactionsStream)
  }

  /** Every entry handed off, in order. */
  function Written(batches: seq<Batch>): seq<Entry>
  {
    if batches == [] then [] else Written(batches[..|batches| - 1]) + batches[|batches| - 1].entries
  }

  lemma WrittenSnoc(batches: seq<Batch>, b: Batch)
    ensures Written(batches + [b]) == Written(batches) + b.entries
  {
    assert (batches + [b])[..|batches|] == batches;
  }

  predicate AllBatchesValid(batches: seq<Batch>)
  {
    forall i :: 0 <= i < |batches| ==> BatchValid(batches[i])
  }

  lemma AllBatchesValidSnoc(batches: seq<Batch>, b: Batch)
    requires AllBatchesValid(batches) && BatchValid(b)
    ensures AllBatchesValid(batches + [b])
  {
    assert forall i :: 0 <= i < |batches| ==> (batches + [b])[i] == batches[i];
  }

  // ---------------------------------------------------------------------------
  // The management loop's state
  // ---------------------------------------------------------------------------

  class Ingress {
    const cacheSize: nat
    const pipelineMaxSize: nat
    var seen: seq<string>
    var pipe: seq<Entry>
    var pipeAccounts: nat
    var pipeTransactions: nat
    var handedOff: seq<Batch>

    /**
     * The cache is within its capacity and holds each key once; the counters count the
     * pipeline; the pipeline stays below its maximum size unless it is empty; every
     * batch handed off reports its own contents.
     */
    ghost predicate Valid()
      reads this
    {
      Counted() && (pipe == [] || |pipe| < pipelineMaxSize)
    }

    /** Everything `Valid` asks except the pipeline's size bound. */
    ghost predicate Counted()
      reads this
    {
      cacheSize >= 1 && Distinct(seen) && |seen| <= cacheSize
      && pipeAccounts == Count(pipe, AccountsStream)
      && pipeTransactions == Count(pipe, TransactionsStream)
      && AllBatchesValid(handedOff)
    }

    /** The state before the first update; the cache size must be non-zero. */
    constructor(cacheSize: nat, pipelineMaxSize: nat)
      requires cacheSize >= 1
      ensures Valid()
      ensures this.cacheSize == cacheSize && this.pipelineMaxSize == pipelineMaxSize
      ensures seen == [] && pipe == [] && pipeAccounts == 0 && pipeTransactions == 0 && handedOff == []
    {
      this.cacheSize := cacheSize;
      this.pipelineMaxSize := pipelineMaxSize;
      seen := [];
      pipe := [];
      pipeAccounts := 0;
      pipeTransactions := 0;
      handedOff := [];
    }

    /** Hands the pipeline off as one batch and resets both counters. */
    method Flush()
      modifies this`pipe, this`pipeAccounts, this`pipeTransactions, this`handedOff
      requires Counted() && pipe != []
      ensures Valid()
      ensures handedOff == old(handedOff) + [Batch(old(pipe), old(pipeAccounts), old(pipeTransactions))]
      ensures pipe == [] && pipeAccounts == 0 && pipeTransactions == 0
      ensures Written(handedOff) + pipe == old(Written(handedOff) + pipe)
    {
      var batch := Batch(pipe, pipeAccounts, pipeTransactions);
      var batches := handedOff;
      WrittenSnoc(batches, batch);
      AllBatchesValidSnoc(batches, batch);
      handedOff := batches + [batch];
      pipe := [];
      pipeAccounts := 0;
      pipeTransactions := 0;
    }

    /**
     * Queues one entry and raises the counter of its stream; a pipeline that reaches its
     * maximum size is then handed off. Nothing is lost: the entries written or pending
     * grow by exactly the new entry.
     */
    method Enqueue(entry: Entry)
      modifies this`pipe, this`pipeAccounts, this`pipeTransactions, this`handedOff
      requires Valid()
      ensures Valid()
      ensures Written(handedOff) + pipe == old(Written(handedOff) + pipe) + [entry]
      ensures |old(pipe)| + 1 < pipelineMaxSize ==>
        pipe == old(pipe) + [entry] && handedOff == old(handedOff)
      ensures |old(pipe)| + 1 >= pipelineMaxSize ==>
        pipe == [] && handedOff == old(handedOff) + [Batch(old(pipe) + [entry],
                                                     Count(old(pipe) + [entry], AccountsStream),
                                                     Count(old(pipe) + [entry], TransactionsStream))]
    {
      CountSnoc(pipe, entry, AccountsStream);
      CountSnoc(pipe, entry, TransactionsStream);
      pipe := pipe + [entry];
      if entry.stream == AccountsStream {
        pipeAccounts := pipeAccounts + 1;
      } else {
        pipeTransactions := pipeTransactions + 1;
      }
      CountsPartition(pipe);
      if pipeAccounts + pipeTransactions >= pipelineMaxSize {
        Flush();
      }
    }

    /**
     * One update taken from the channel: an admitted update is looked up in the cache,
     * and queued only when its key was not held.
     */
    method OnUpdate(u: Update)
      modifies this
      requires Valid()
      ensures Valid()
      ensures Admission(u).None? ==>
        seen == old(seen) && pipe == old(pipe) && handedOff == old(handedOff)
      ensures Admission(u).Some? ==>
        seen == Lookup(old(seen), cacheSize, Admission(u).value.0).1
      ensures Admission(u).Some? && Admission(u).value.0 in old(seen) ==>
        pipe == old(pipe) && handedOff == old(handedOff)
      ensures Admission(u).Some? && Admission(u).value.0 !in old(seen) ==>
        Written(handedOff) + pipe == old(Written(handedOff) + pipe) + [Admission(u).value.1]
    ensures Admission(u).Some? && Admission(u).value.0 !in old(seen) && |old(pipe)| + 1 < pipelineMaxSize ==>
      pipe == old(pipe) + [Admission(u).value.1] && handedOff == old(handedOff)
    ensures Admission(u).Some? && Admission(u).value.0 !in old(seen) && |old(pipe)| + 1 >= pipelineMaxSize ==>
      var queued := old(pipe) + [Admission(u).value.1];
      pipe == [] && handedOff == old(handedOff) + [Batch(queued, Count(queued, AccountsStream), Count(queued, TransactionsStream))]
    {
      var admission := Admission(u);
      if admission.None? {
        return;
      }
      var key := admission.value.0;
      var lookup := Lookup(seen, cacheSize, key);
      seen := lookup.1;
      if !lookup.0 {
        Enqueue(admission.value.1);
      }
    }

    /** The idle deadline: a non-empty pipeline is handed off, an empty one left alone. */
    method OnDeadline()
      modifies this
      requires Valid()
      ensures Valid()
      ensures seen == old(seen)
      ensures old(pipeAccounts) + old(pipeTransactions) > 0 ==>
        pipe == [] && pipeAccounts == 0 && pipeTransactions == 0
        && handedOff == old(handedOff) + [Batch(old(pipe), old(pipeAccounts), old(pipeTransactions))]
      ensures old(pipeAccounts) + old(pipeTransactions) == 0 ==>
        pipe == old(pipe) && handedOff == old(handedOff)
      ensures Written(handedOff) + pipe == old(Written(handedOff) + pipe)
    {
      CountsPartition(pipe);
      if pipeAccounts + pipeTransactions > 0 {
        Flush();
      }
    }
  }

  /** After any update the pipeline is below its maximum size, given a maximum of at least one. */
  lemma PendingBelowMaximum(ingress: Ingress)
    requires ingress.Valid() && ingress.pipelineMaxSize >= 1
    ensures ingress.pipeAccounts + ingress.pipeTransactions < ingress.pipelineMaxSize
  {
    CountsPartition(ingress.pipe);
  }

  // ---------------------------------------------------------------------------
  // Per-endpoint retries
  // ---------------------------------------------------------------------------

  /** How one run of `try_streaming_grpc_loop` ended, as logged. */
  datatype SessionEnd = EndedUnexpectedly | FinalError(message: string)

  function SessionEndOf(outcome: Result<(), string>): SessionEnd
  {
    if outcome.Ok? then EndedUnexpectedly else FinalError(outcome.error)
  }

  /**
   * The spawned task of one endpoint: the streaming loop is run again however it ends,
   * and `MAX_ATTEMPTS` times in all; `session(i)` is how the i-th run ends.
   */
  method StreamWithRetries(session: nat -> Result<(), string>) returns (ends: seq<SessionEnd>)
    ensures |ends| == MAX_ATTEMPTS
    ensures forall i :: 0 <= i < |ends| ==> ends[i] == SessionEndOf(session(i))
  {
    var retryCount: nat := 0;
    ends := [];
    while retryCount < MAX_ATTEMPTS
      invariant retryCount <= MAX_ATTEMPTS && |ends| == retryCount
      invariant forall i :: 0 <= i < |ends| ==> ends[i] == SessionEndOf(session(i))
    {
      ends := ends + [SessionEndOf(session(retryCount))];
      retryCount := retryCount + 1;
    }
  }
}
