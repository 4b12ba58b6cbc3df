/** The two persisted tables and the receive and issue actions that change
    them. Each action is one sequential step. */
module Database {
  import opened Records
  import opened Ledger

  datatype ReceiveResult = Added(id: nat) | MissingField

  /** Nothing is ever deleted, so the AUTOINCREMENT ids of the rows are
      1, 2, 3, ... in insertion order and the counter is the next one. */
  predicate IdsOrdered(meds: seq<Medicine>, nextMedicineId: nat) {
    && nextMedicineId == |meds| + 1
    && (forall i :: 0 <= i < |meds| ==> meds[i].id == i + 1)
  }

  /** Transaction ids are 1, 2, 3, ... likewise, and each transaction is for
      a positive quantity of a row id already handed out. */
  predicate LedgerRefs(ts: seq<Transaction>, nextMedicineId: nat, nextTransactionId: nat) {
    && nextTransactionId == |ts| + 1
    && (forall i :: 0 <= i < |ts| ==>
          ts[i].id == i + 1 && 1 <= ts[i].drugId < nextMedicineId && 1 <= ts[i].quantity)
  }

  /** The table invariant: ids are well formed and the stock is conserved. */
  predicate WellFormed(meds: seq<Medicine>, ts: seq<Transaction>, nextMedicineId: nat, nextTransactionId: nat) {
    && IdsOrdered(meds, nextMedicineId)
    && LedgerRefs(ts, nextMedicineId, nextTransactionId)
    && Conserved(meds, ts)
  }

  lemma AppendKeepsIdsOrdered(meds: seq<Medicine>, nextM: nat, m: Medicine)
    requires IdsOrdered(meds, nextM) && m.id == nextM
    ensures IdsOrdered(meds + [m], nextM + 1)
  {
  }

  lemma SetQuantityKeepsIdsOrdered(meds: seq<Medicine>, nextM: nat, id: nat, q: int)
    requires IdsOrdered(meds, nextM)
    ensures IdsOrdered(SetQuantity(meds, id, q), nextM)
  {
  }

  lemma AppendKeepsLedgerRefs(ts: seq<Transaction>, nextM: nat, nextT: nat, t: Transaction)
    requires LedgerRefs(ts, nextM, nextT)
    requires t.id == nextT && 1 <= t.drugId < nextM && 1 <= t.quantity
    ensures LedgerRefs(ts + [t], nextM, nextT + 1)
  {
  }

  lemma LedgerRefsMonotonic(ts: seq<Transaction>, nextM: nat, nextT: nat)
    requires LedgerRefs(ts, nextM, nextT)
    ensures LedgerRefs(ts, nextM + 1, nextT)
  {
  }

  /** A receive with a fresh row id and the next transaction id keeps the
      invariant. */
  lemma ReceiveKeepsWellFormed(meds: seq<Medicine>, ts: seq<Transaction>, nextM: nat, nextT: nat,
                               m: Medicine, t: Transaction)
    requires WellFormed(meds, ts, nextM, nextT)
    requires m.id == nextM && 1 <= m.quantity
    requires t == Transaction(nextT, t.clinic, m.id, In, m.quantity, t.patient, t.remarks)
    ensures WellFormed(meds + [m], ts + [t], nextM + 1, nextT + 1)
  {
    ReceiveConserves(meds, ts, m, t);
    AppendKeepsIdsOrdered(meds, nextM, m);
    LedgerRefsMonotonic(ts, nextM, nextT);
    AppendKeepsLedgerRefs(ts, nextM + 1, nextT, t);
  }

  /** An issue of 1..quantity units of row `k` under the next transaction id
      keeps the invariant. */
  lemma IssueKeepsWellFormed(meds: seq<Medicine>, ts: seq<Transaction>, nextM: nat, nextT: nat,
                             k: nat, n: int, id: nat, q: int, t: Transaction)
    requires WellFormed(meds, ts, nextM, nextT)
    requires k < |meds| && id == meds[k].id && 1 <= n <= meds[k].quantity && q == meds[k].quantity - n
    requires t == Transaction(nextT, t.clinic, id, Out, n, t.patient, t.remarks)
    ensures WellFormed(SetQuantity(meds, id, q), ts + [t], nextM, nextT + 1)
  {
    assert UniqueIds(meds);
    IssueConserves(meds, ts, k, n, t);
    SetQuantityKeepsIdsOrdered(meds, nextM, id, q);
    AppendKeepsLedgerRefs(ts, nextM, nextT, t);
  }

  class Inventory {
    var medicines: seq<Medicine>
    var transactions: seq<Transaction>
    /** The AUTOINCREMENT counters of the two tables. */
    var nextMedicineId: nat
    var nextTransactionId: nat

    ghost predicate Valid()
      reads this
    {
      WellFormed(medicines, transactions, nextMedicineId, nextTransactionId)
    }

    /** Fresh, empty tables. */
    constructor ()
      ensures Valid()
      ensures medicines == [] && transactions == []
    {
      medicines, transactions := [], [];
      nextMedicineId, nextTransactionId := 1, 1;
    }

    /** `add_transaction`: appends one ledger row with the next id. This raw
        insert does not keep `Valid()` by itself (an "in" row without the
        matching stock change breaks conservation); it keeps it exactly when
        the tables with the pending row appended are well formed, which is
        what `Receive` and `Issue` establish before calling it. */
    method AddTransaction(clinic: string, drugId: nat, kind: Kind, qty: int, patient: string, remarks: string)
      returns (t: Transaction)
      modifies this
      ensures Valid() <==>
        WellFormed(old(medicines), old(transactions) + [t], old(nextMedicineId), old(nextTransactionId) + 1)
      ensures t == Transaction(old(nextTransactionId), clinic, drugId, kind, qty, patient, remarks)
      ensures transactions == old(transactions) + [t]
      ensures nextTransactionId == old(nextTransactionId) + 1
      ensures medicines == old(medicines) && nextMedicineId == old(nextMedicineId)
    {
      t := Transaction(nextTransactionId, clinic, drugId, kind, qty, patient, remarks);
      transactions := transactions + [t];
      nextTransactionId := nextTransactionId + 1;
    }

    /** The receive form. A blank drug name or batch number is rejected and
        changes nothing; otherwise one new row with the next id is inserted
        and one "in" transaction for its quantity is recorded. The form
        itself only admits a quantity of at least 1 and an expiry date no
        earlier than today. */
    method Receive(clinic: string, drugName: string, genericName: string, strength: string,
                   batchNo: string, expiryDay: int, qty: int, threshold: int, today: int)
      returns (r: ReceiveResult)
      requires Valid()
      requires 1 <= qty && today <= expiryDay
      modifies this
      ensures Valid()
      ensures r == MissingField <==> drugName == "" || batchNo == ""
      ensures r == MissingField ==>
        medicines == old(medicines) && transactions == old(transactions) &&
        nextMedicineId == old(nextMedicineId) && nextTransactionId == old(nextTransactionId)
      ensures r.Added? ==>
        && r.id == old(nextMedicineId)
        && (forall i :: 0 <= i < |old(medicines)| ==> old(medicines)[i].id != r.id)
        && medicines == old(medicines) +
             [Medicine(r.id, clinic, drugName, genericName, strength, batchNo, expiryDay, qty, threshold)]
        && transactions == old(transactions) +
             [Transaction(old(nextTransactionId), clinic, r.id, In, qty, "", "Received " + batchNo)]
    {
      if drugName == "" || batchNo == "" {
        return MissingField;
      }
      var m := Medicine(nextMedicineId, clinic, drugName, genericName, strength, batchNo, expiryDay, qty, threshold);
      ReceiveKeepsWellFormed(medicines, transactions, nextMedicineId, nextTransactionId, m,
                             Transaction(nextTransactionId, clinic, m.id, In, qty, "", "Received " + batchNo));
      medicines := medicines + [m];
      nextMedicineId := nextMedicineId + 1;
      var t := AddTransaction(clinic, m.id, In, qty, "", "Received " + batchNo);
      r := Added(m.id);
    }

    /** The issue button: sets the selected row's quantity to its stock
        minus `issueQty` and records one "out" transaction. The quantity
        widget only admits 1..quantity. */
    method Issue(clinic: string, id: nat, issueQty: int, patient: string, remarks: string)
      returns (newQty: int)
      requires Valid()
      requires exists k :: 0 <= k < |medicines| && medicines[k].id == id && 1 <= issueQty <= medicines[k].quantity
      modifies this
      ensures Valid()
      ensures exists k :: 0 <= k < |old(medicines)| && old(medicines)[k].id == id &&
                          newQty == old(medicines)[k].quantity - issueQty
      ensures 0 <= newQty
      ensures medicines == SetQuantity(old(medicines), id, newQty)
      ensures transactions == old(transactions) +
        [Transaction(old(nextTransactionId), clinic, id, Out, issueQty, patient, remarks)]
      ensures nextMedicineId == old(nextMedicineId)
    {
      var k :| 0 <= k < |medicines| && medicines[k].id == id && 1 <= issueQty <= medicines[k].quantity;
      newQty := medicines[k].quantity - issueQty;
      ghost var t := Transaction(nextTransactionId, clinic, id, Out, issueQty, patient, remarks);
      IssueKeepsWellFormed(medicines, transactions, nextMedicineId, nextTransactionId, k, issueQty, id, newQty, t);
      medicines := SetQuantity(medicines, id, newQty);
      var added := AddTransaction(clinic, id, Out, issueQty, patient, remarks);
      assert added == t;
    }
  }
}
