/**
 * Which stream messages the ingester acknowledges (nft_ingester/src/account_updates.rs
 * and nft_ingester/src/transaction_notifications.rs). A message whose id is acked is
 * removed from the stream; any other message is delivered again.
 */
module Acks {
  import opened Wrappers
  import opened Bytes
  import opened IngesterErrors

  /** `RecvData`: the stream id of a message, how often it was delivered before, and its payload. */
  datatype RecvData = RecvData(id: string, tries: nat, data: Bytes)

  /**
   * `handle_account`: the id to acknowledge, or `None` to leave the message for redelivery.
   * `decode` stands for `root_as_account_info` and `process` for the program transformer's
   * `handle_account_update`.
   */
  function HandleAccount<M>(decode: Bytes -> Option<M>, process: M -> Result<(), IngesterError>, item: RecvData): (r: Option<string>)
    ensures r.Some? ==> r.value == item.id && decode(item.data).Some?
  {
    match decode(item.data)
    case None => None
    case Some(update) =>
      match process(update)
      case Ok(_) => Some(item.id)
      case Err(NotImplemented) => Some(item.id)
      case Err(DeserializationError) => Some(item.id)
      case Err(ParsingError) => Some(item.id)
      case Err(_) => None
  }

  /**
   * `handle_transaction`: as for accounts, but only success and `NotImplemented` are acked.
   * `decode` stands for `root_as_transaction_info` and `process` for `handle_transaction`.
   */
  function HandleTransaction<M>(decode: Bytes -> Option<M>, process: M -> Result<(), IngesterError>, item: RecvData): (r: Option<string>)
    ensures r.Some? ==> r.value == item.id && decode(item.data).Some?
  {
    match decode(item.data)
    case None => None
    case Some(tx) =>
      match process(tx)
      case Ok(_) => Some(item.id)
      case Err(NotImplemented) => Some(item.id)
      case Err(_) => None
  }

  /** The errors after which an account message is still acked: they would fail again on redelivery. */
  predicate PermanentAccountError(e: IngesterError)
  {
    e == NotImplemented || e == DeserializationError || e == ParsingError
  }

  /**
   * A decoded account update is acked exactly when it was processed or failed with a
   * permanent error; every other error leaves it for redelivery, whatever its `tries`.
   */
  lemma AccountAckClassification<M>(decode: Bytes -> Option<M>, process: M -> Result<(), IngesterError>, item: RecvData)
    requires decode(item.data).Some?
    ensures HandleAccount(decode, process, item).Some? <==>
      var res := process(decode(item.data).value);
      res.Ok? || PermanentAccountError(res.error)
  {
  }

  /** A decoded transaction is acked exactly when it was processed or is not implemented. */
  lemma TransactionAckClassification<M>(decode: Bytes -> Option<M>, process: M -> Result<(), IngesterError>, item: RecvData)
    requires decode(item.data).Some?
    ensures HandleTransaction(decode, process, item).Some? <==>
      var res := process(decode(item.data).value);
      res.Ok? || res.error == NotImplemented
  {
  }

  /** A payload that does not decode is never acked, on either stream. */
  lemma UndecodableNeverAcked<M>(decode: Bytes -> Option<M>, process: M -> Result<(), IngesterError>, item: RecvData)
    requires decode(item.data).None?
    ensures HandleAccount(decode, process, item).None?
    ensures HandleTransaction(decode, process, item).None?
  {
  }

  /** The transaction stream acks no more than the account stream would for the same outcome. */
  lemma TransactionAcksAreAccountAcks<M>(decode: Bytes -> Option<M>, process: M -> Result<(), IngesterError>, item: RecvData)
    ensures HandleTransaction(decode, process, item).Some? ==> HandleAccount(decode, process, item).Some?
    ensures decode(item.data).Some? && process(decode(item.data).value) == Err(DeserializationError) ==>
      HandleAccount(decode, process, item).Some? && HandleTransaction(decode, process, item).None?
  {
  }

  /** The ids of the `Some` entries, in order. */
  function Somes(xs: seq<Option<string>>): (r: seq<string>)
    ensures |r| <= |xs|
  {
    if xs == [] then []
    else (if xs[|xs| - 1].Some? then Somes(xs[..|xs| - 1]) + [xs[|xs| - 1].value] else Somes(xs[..|xs| - 1]))
  }

  /** Every `Some(id)` is forwarded and nothing else is: `Somes` holds exactly the ids of the `Some` entries. */
  lemma {:induction false} SomesExact(xs: seq<Option<string>>)
    ensures forall i :: 0 <= i < |xs| && xs[i].Some? ==> xs[i].value in Somes(xs)
    ensures forall id :: id in Somes(xs) ==> Some(id) in xs
  {
    if xs != [] {
      var init := xs[..|xs| - 1];
      SomesExact(init);
      forall i | 0 <= i < |xs| && xs[i].Some?
        ensures xs[i].value in Somes(xs)
      {
        if i < |xs| - 1 {
          assert xs[i] == init[i];
        }
      }
      forall id | id in Somes(xs)
        ensures Some(id) in xs
      {
        if id in Somes(init) {
          assert Some(id) in init;
          var k :| 0 <= k < |init| && init[k] == Some(id);
          assert xs[k] == init[k];
        } else {
          assert xs[|xs| - 1] == Some(id);
        }
      }
    }
  }

  /** The number of the first `n` sends on the ack channel that failed. */
  function FailedSends(delivered: nat -> bool, n: nat): (r: nat)
    ensures r <= n
    ensures r == 0 <==> forall k :: 0 <= k < n ==> delivered(k)
    ensures r == n <==> forall k :: 0 <= k < n ==> !delivered(k)
  {
    if n == 0 then 0 else FailedSends(delivered, n - 1) + (if delivered(n - 1) then 0 else 1)
  }

  /**
   * The join loop of `account_worker` over one received batch: every acked id is sent on
   * the ack channel, in the order the handlers finish; a failed send is logged and counted.
   * `results` are the handlers' results in that order, `delivered(k)` whether the k-th send succeeds.
   */
  method ForwardAccountAcks(results: seq<Option<string>>, delivered: nat -> bool) returns (sent: seq<string>, ackErrors: nat)
    ensures sent == Somes(results)
    ensures ackErrors == FailedSends(delivered, |sent|)
  {
    sent := [];
    ackErrors := 0;
    var i := 0;
    while i < |results|
      invariant 0 <= i <= |results|
      invariant sent == Somes(results[..i])
      invariant ackErrors == FailedSends(delivered, |sent|)
    {
      assert results[..i + 1][..i] == results[..i];
      if results[i].Some? {
        if !delivered(|sent|) {
          ackErrors := ackErrors + 1;
        }
        sent := sent + [results[i].value];
      }
      i := i + 1;
    }
    assert results[..i] == results;
  }

  /**
   * The join loop of the transaction stream worker: each acked id is sent as a one-element
   * list on the acker.
   */
  method ForwardTransactionAcks(results: seq<Option<string>>, delivered: nat -> bool) returns (sent: seq<seq<string>>, ackErrors: nat)
    ensures |sent| == |Somes(results)|
    ensures forall k :: 0 <= k < |sent| ==> sent[k] == [Somes(results)[k]]
    ensures ackErrors == FailedSends(delivered, |sent|)
  {
    sent := [];
    ackErrors := 0;
    var i := 0;
    while i < |results|
      invariant 0 <= i <= |results|
      invariant |sent| == |Somes(results[..i])|
      invariant forall k :: 0 <= k < |sent| ==> sent[k] == [Somes(results[..i])[k]]
      invariant ackErrors == FailedSends(delivered, |sent|)
    {
      assert results[..i + 1][..i] == results[..i];
      if results[i].Some? {
        if !delivered(|sent|) {
          ackErrors := ackErrors + 1;
        }
        sent := sent + [[results[i].value]];
      }
      i := i + 1;
    }
    assert results[..i] == results;
  }

  function HandleAll<M>(decode: Bytes -> Option<M>, process: M -> Result<(), IngesterError>, items: seq<RecvData>): (r: seq<Option<string>>)
    ensures |r| == |items|
    ensures forall i :: 0 <= i < |items| ==> r[i] == HandleAccount(decode, process, items[i])
  {
    if items == [] then [] else [HandleAccount(decode, process, items[0])] + HandleAll(decode, process, items[1..])
  }

  /**
   * Over one batch of account messages: an item is acked when its handler returns its id,
   * and every id sent belongs to an item whose handler returned it.
   */
  lemma AccountBatchAcks<M>(decode: Bytes -> Option<M>, process: M -> Result<(), IngesterError>, items: seq<RecvData>)
    ensures forall i :: 0 <= i < |items| && HandleAccount(decode, process, items[i]).Some? ==>
      items[i].id in Somes(HandleAll(decode, process, items))
    ensures forall id :: id in Somes(HandleAll(decode, process, items)) ==>
      exists i :: 0 <= i < |items| && items[i].id == id && HandleAccount(decode, process, items[i]).Some?
  {
    var results := HandleAll(decode, process, items);
    SomesExact(results);
    forall id | id in Somes(results)
      ensures exists i :: 0 <= i < |items| && items[i].id == id && HandleAccount(decode, process, items[i]).Some?
    {
      assert Some(id) in results;
      var i :| 0 <= i < |results| && results[i] == Some(id);
      assert items[i].id == id && HandleAccount(decode, process, items[i]).Some?;
    }
  }
}
