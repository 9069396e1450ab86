/** The in-memory write-ahead log (agent/store/memwal/memwal.go). */
module MemWal {
  import opened Sequences
  import opened Messages
  import opened PathStrings

  type TxId = string

  datatype TxState<T> = TxState(ops: seq<T>, committed: bool, aborted: bool)

  type Txns<T> = map<TxId, TxState<T>>

  function TxName(n: nat): TxId {
    "tx-" + Digits(n)
  }

  lemma TxNameInjective(m: nat, n: nat)
    ensures TxName(m) == TxName(n) <==> m == n
  {
    assert TxName(m)[3..] == Digits(m) && TxName(n)[3..] == Digits(n);
    ParseDigitsOfDigits(m);
    ParseDigitsOfDigits(n);
  }

  // ---- the log as a value ----

  datatype WalOp<T> = BeginOp | AppendOp(id: TxId, op: T) | CommitOp(id: TxId) | AbortOp(id: TxId)

  /** What a call other than Begin does to the transactions; a call that fails leaves them alone. */
  function EffectOn<T>(txns: Txns<T>, call: WalOp<T>): Txns<T>
    requires !call.BeginOp?
  {
    if call.id !in txns then txns
    else
      var tx := txns[call.id];
      match call
      case AppendOp(id, op) => if tx.committed || tx.aborted then txns else txns[id := tx.(ops := tx.ops + [op])]
      case CommitOp(id) => if tx.aborted then txns else txns[id := tx.(committed := true)]
      case AbortOp(id) => txns[id := tx.(aborted := true)]
  }

  predicate Fails<T>(txns: Txns<T>, call: WalOp<T>)
    requires !call.BeginOp?
  {
    || call.id !in txns
    || (call.AppendOp? && (txns[call.id].committed || txns[call.id].aborted))
    || (call.CommitOp? && txns[call.id].aborted)
  }

  datatype WalState<T> = WalState(txns: Txns<T>, nextID: nat)

  /** What any call does; Begin enters an empty transaction under the next name, whatever is there. */
  function Effect<T>(w: WalState<T>, call: WalOp<T>): WalState<T> {
    if call.BeginOp? then WalState(w.txns[TxName(w.nextID + 1) := TxState([], false, false)], w.nextID + 1)
    else w.(txns := EffectOn(w.txns, call))
  }

  /** The operations of the committed transactions numbered 1 to `n`, in that order. */
  ghost function Log<T>(txns: Txns<T>, n: nat): seq<T> {
    if n == 0 then []
    else if TxName(n) in txns && txns[TxName(n)].committed then Log(txns, n - 1) + txns[TxName(n)].ops
    else Log(txns, n - 1)
  }

  /** Exactly the transactions numbered 1 to `n` exist. */
  ghost predicate Numbered<T>(txns: Txns<T>, n: nat) {
    forall id {:trigger IsTx(id, n)} :: id in txns <==> IsTx(id, n)
  }

  ghost predicate IsTx(id: TxId, n: nat) {
    exists i :: 1 <= i <= n && id == TxName(i)
  }

  lemma {:induction false} LogFrame<T>(txns: Txns<T>, txns': Txns<T>, n: nat)
    requires forall i | 0 < i <= n :: TxName(i) in txns <==> TxName(i) in txns'
    requires forall i | 0 < i <= n && TxName(i) in txns && TxName(i) in txns' :: txns'[TxName(i)] == txns[TxName(i)]
    ensures Log(txns', n) == Log(txns, n)
  {
    if n > 0 {
      LogFrame(txns, txns', n - 1);
    }
  }

  /** The next number is not taken, and does not show in the log before it is committed. */
  lemma BeginsNew<T>(txns: Txns<T>, n: nat, tx: TxState<T>)
    requires n > 0 && Numbered(txns, n - 1)
    ensures TxName(n) !in txns && Numbered(txns[TxName(n) := tx], n)
    ensures Log(txns[TxName(n) := tx], n) == if tx.committed then Log(txns, n - 1) + tx.ops else Log(txns, n - 1)
  {
    var txns' := txns[TxName(n) := tx];
    forall i | 0 < i < n ensures TxName(i) != TxName(n) {
      TxNameInjective(i, n);
    }
    assert TxName(n) !in txns by {
      assert !IsTx(TxName(n), n - 1);
    }
    forall id ensures id in txns' <==> IsTx(id, n) {
      assert id in txns <==> IsTx(id, n - 1);
    }
    LogFrame(txns, txns', n - 1);
  }

  /** What the log holds after Begin and one call more, and after Begin, Append and Commit. */
  lemma OneWrite<T>(txns: Txns<T>, id: TxId, op: T)
    ensures var begun := txns[id := TxState([], false, false)];
      && EffectOn(begun, AbortOp(id)) == txns[id := TxState([], false, true)]
      && !Fails(begun, AppendOp(id, op))
      && EffectOn(begun, AppendOp(id, op)) == txns[id := TxState([op], false, false)]
      && !Fails(EffectOn(begun, AppendOp(id, op)), CommitOp(id))
      && EffectOn(EffectOn(begun, AppendOp(id, op)), CommitOp(id)) == txns[id := TxState([op], true, false)]
  {
    assert [] + [op] == [op];
  }

  // ---- the log ----

  class Wal<T> {
    var txns: Txns<T>
    var nextID: nat

    ghost predicate Valid()
      reads this
    {
      Numbered(txns, nextID)
    }

    ghost function State(): WalState<T>
      reads this
    {
      WalState(txns, nextID)
    }

    /** What recovery reads back: committed operations in transaction order. */
    ghost function Recoverable(): seq<T>
      reads this
    {
      Log(txns, nextID)
    }

    constructor ()
      ensures Valid() && txns == map[] && nextID == 0
    {
      txns, nextID := map[], 0;
    }

    method Begin() returns (id: TxId)
      requires Valid()
      modifies this
      ensures Valid() && State() == Effect(old(State()), BeginOp) && id == TxName(nextID) && id !in old(txns)
    {
      nextID := nextID + 1;
      id := TxName(nextID);
      BeginsNew(txns, nextID, TxState([], false, false));
      txns := txns[id := TxState([], false, false)];
    }

    method Append(id: TxId, op: T) returns (ok: bool)
      modifies this`txns
      ensures ok <==> !Fails(old(txns), AppendOp(id, op))
      ensures State() == Effect(old(State()), AppendOp(id, op))
    {
      if id !in txns {
        return false;
      }
      var tx := txns[id];
      if tx.committed || tx.aborted {
        return false;
      }
      txns := txns[id := tx.(ops := tx.ops + [op])];
      return true;
    }

    method Commit(id: TxId) returns (ok: bool)
      modifies this`txns
      ensures ok <==> !Fails(old(txns), CommitOp(id))
      ensures State() == Effect(old(State()), CommitOp(id))
    {
      if id !in txns || txns[id].aborted {
        return false;
      }
      txns := txns[id := txns[id].(committed := true)];
      return true;
    }

    method Abort(id: TxId) returns (ok: bool)
      modifies this`txns
      ensures ok <==> !Fails(old(txns), AbortOp(id))
      ensures State() == Effect(old(State()), AbortOp(id))
    {
      if id !in txns {
        return false;
      }
      txns := txns[id := txns[id].(aborted := true)];
      return true;
    }

    /** Recover lists the committed transactions, each once, in no particular order. */
    method Recover() returns (committed: seq<TxId>)
      ensures Distinct(committed)
      ensures forall id :: id in committed <==> IsCommitted(txns, id)
    {
      committed := [];
      var todo := txns.Keys;
      while todo != {}
        invariant todo <= txns.Keys && Distinct(committed)
        invariant forall id :: id in committed <==> id !in todo && IsCommitted(txns, id)
        decreases |todo|
      {
        var id :| id in todo;
        if txns[id].committed {
          committed := committed + [id];
        }
        todo := todo - {id};
      }
    }

    /** Replay reads one transaction back; see RecoveredInOrder for what replaying all of them gives. */
    method Replay(id: TxId) returns (ops: Result<seq<T>, string>)
      ensures ops == if id in txns then Ok(txns[id].ops) else Err("unknown transaction")
    {
      if id !in txns {
        return Err("unknown transaction");
      }
      return Ok(txns[id].ops);
    }
  }

  // ---- recovery ----

  ghost predicate IsCommitted<T>(txns: Txns<T>, id: TxId) {
    id in txns && txns[id].committed
  }

  /** What Replay gives for all of `ids`, one after the other. */
  ghost function Replayed<T>(txns: Txns<T>, ids: seq<TxId>): seq<T>
    requires forall id | id in ids :: id in txns
  {
    if ids == [] then [] else Replayed(txns, ids[..|ids| - 1]) + txns[ids[|ids| - 1]].ops
  }

  /** `ids` are the names of ascending transaction numbers up to `n`. */
  ghost predicate InTxOrder(ids: seq<TxId>, numbers: seq<nat>, n: nat) {
    && |numbers| == |ids|
    && (forall i | 0 <= i < |ids| :: 1 <= numbers[i] <= n && ids[i] == TxName(numbers[i]))
    && (forall i, j | 0 <= i < j < |ids| :: numbers[i] < numbers[j])
  }

  /** Replaying what Recover lists, in transaction order, gives what is recoverable. */
  lemma {:induction false} RecoveredInOrder<T>(txns: Txns<T>, ids: seq<TxId>, numbers: seq<nat>, n: nat)
    requires InTxOrder(ids, numbers, n)
    requires forall i | 1 <= i <= n :: TxName(i) in ids <==> IsCommitted(txns, TxName(i))
    ensures forall id | id in ids :: id in txns
    ensures Replayed(txns, ids) == Log(txns, n)
    decreases n
  {
    forall id | id in ids ensures id in txns {
      var i :| 0 <= i < |ids| && ids[i] == id;
      assert IsCommitted(txns, TxName(numbers[i]));
    }
    if n > 0 && IsCommitted(txns, TxName(n)) {
      LastIsNumbered(ids, numbers, n);
      OthersBefore(txns, ids, numbers, n);
      RecoveredInOrder(txns, ids[..|ids| - 1], numbers[..|ids| - 1], n - 1);
    } else if n > 0 {
      forall i | 0 <= i < |ids| ensures numbers[i] <= n - 1 {
        assert ids[i] in ids && TxName(numbers[i]) in ids;
      }
      RecoveredInOrder(txns, ids, numbers, n - 1);
    }
  }

  lemma LastIsNumbered(ids: seq<TxId>, numbers: seq<nat>, n: nat)
    requires InTxOrder(ids, numbers, n) && TxName(n) in ids
    ensures ids != [] && numbers[|ids| - 1] == n
  {
    var j :| 0 <= j < |ids| && ids[j] == TxName(n);
    TxNameInjective(numbers[j], n);
  }

  lemma OthersBefore<T>(txns: Txns<T>, ids: seq<TxId>, numbers: seq<nat>, n: nat)
    requires n > 0 && ids != [] && InTxOrder(ids, numbers, n) && numbers[|ids| - 1] == n
    requires forall i | 1 <= i <= n :: TxName(i) in ids <==> IsCommitted(txns, TxName(i))
    ensures InTxOrder(ids[..|ids| - 1], numbers[..|ids| - 1], n - 1)
    ensures forall i | 1 <= i <= n - 1 :: TxName(i) in ids[..|ids| - 1] <==> IsCommitted(txns, TxName(i))
  {
    var front := ids[..|ids| - 1];
    forall i | 1 <= i <= n - 1 ensures TxName(i) in front <==> TxName(i) in ids {
      TxNameInjective(i, n);
      assert ids == front + [ids[|ids| - 1]];
    }
  }

  /** However Recover lists the committed transactions: put into transaction order and replayed, they
      give what is recoverable. */
  lemma ReplayIsRecoverable<T>(w: WalState<T>, listed: seq<TxId>, ids: seq<TxId>, numbers: seq<nat>)
    requires forall id :: id in listed <==> IsCommitted(w.txns, id)
    requires SameMembers(ids, listed) && InTxOrder(ids, numbers, w.nextID)
    ensures forall id | id in ids :: id in w.txns
    ensures Replayed(w.txns, ids) == Log(w.txns, w.nextID)
  {
    RecoveredInOrder(w.txns, ids, numbers, w.nextID);
  }

  ghost predicate SameMembers(a: seq<TxId>, b: seq<TxId>) {
    forall id :: id in a <==> id in b
  }

  /** And they can be put into that order. */
  lemma RecoveryOrder<T>(w: WalState<T>, listed: seq<TxId>) returns (ids: seq<TxId>, numbers: seq<nat>)
    requires Numbered(w.txns, w.nextID) && forall id :: id in listed <==> IsCommitted(w.txns, id)
    ensures SameMembers(ids, listed) && InTxOrder(ids, numbers, w.nextID)
  {
    ids, numbers := OrderExists(w.txns, w.nextID);
    forall id ensures id in ids <==> id in listed {
      if id in ids {
        var j :| 0 <= j < |ids| && ids[j] == id;
        assert IsCommitted(w.txns, TxName(numbers[j]));
      }
      if id in listed {
        assert IsTx(id, w.nextID);
        var i :| 1 <= i <= w.nextID && id == TxName(i);
        assert TxName(i) in ids;
      }
    }
  }

  lemma {:induction false} OrderExists<T>(txns: Txns<T>, n: nat) returns (ids: seq<TxId>, numbers: seq<nat>)
    ensures InTxOrder(ids, numbers, n)
    ensures forall i | 1 <= i <= n :: TxName(i) in ids <==> IsCommitted(txns, TxName(i))
  {
    if n == 0 {
      return [], [];
    }
    ids, numbers := OrderExists(txns, n - 1);
    forall j | 0 <= j < |ids| ensures ids[j] != TxName(n) {
      TxNameInjective(numbers[j], n);
    }
    if IsCommitted(txns, TxName(n)) {
      ids, numbers := ids + [TxName(n)], numbers + [n];
    }
  }

  // ---- durability ----

  /** Recoverable with operations `ops`. */
  ghost predicate Durable<T>(txns: Txns<T>, id: TxId, ops: seq<T>) {
    id in txns && txns[id].committed && txns[id].ops == ops
  }

  ghost predicate Dead<T>(txns: Txns<T>, id: TxId) {
    id in txns && txns[id].aborted && !txns[id].committed
  }

  ghost function EffectAll<T>(w: WalState<T>, calls: seq<WalOp<T>>): WalState<T> {
    if calls == [] then w else Effect(EffectAll(w, calls[..|calls| - 1]), calls[|calls| - 1])
  }

  /** Every call keeps the transactions those named so far. */
  lemma EffectKeepsNumbered<T>(w: WalState<T>, call: WalOp<T>)
    requires Numbered(w.txns, w.nextID)
    ensures Numbered(Effect(w, call).txns, Effect(w, call).nextID)
  {
    if call.BeginOp? {
      BeginsNew(w.txns, w.nextID + 1, TxState([], false, false));
    } else {
      forall id ensures id in Effect(w, call).txns <==> IsTx(id, w.nextID) {
        assert id in w.txns <==> IsTx(id, w.nextID);
      }
    }
  }

  /** After any calls from any state a log can be in, new transactions and aborts included, a
      committed transaction is recoverable with the same operations, and one aborted before it was
      committed is not. */
  lemma {:induction false} OutcomeIsFinal<T>(w: WalState<T>, calls: seq<WalOp<T>>, id: TxId, ops: seq<T>)
    requires Numbered(w.txns, w.nextID)
    ensures Numbered(EffectAll(w, calls).txns, EffectAll(w, calls).nextID)
    ensures Durable(w.txns, id, ops) ==> Durable(EffectAll(w, calls).txns, id, ops)
    ensures Dead(w.txns, id) ==> Dead(EffectAll(w, calls).txns, id)
    decreases |calls|
  {
    if calls != [] {
      var before, call := EffectAll(w, calls[..|calls| - 1]), calls[|calls| - 1];
      OutcomeIsFinal(w, calls[..|calls| - 1], id, ops);
      EffectKeepsNumbered(before, call);
      if call.BeginOp? {
        BeginsNew(before.txns, before.nextID + 1, TxState([], false, false));
      }
    }
  }
}
