/** The stock ledger as values: totals of the `transactions` table, the stock
    on hand in the `medicines` table, and the conservation law that every
    receive and issue keeps. */
module Ledger {
  import opened Records

  /** Sum of the quantities of `kind` transactions that reference `id`. */
  function Total(ts: seq<Transaction>, id: nat, kind: Kind): int
    decreases |ts|
  {
    if ts == [] then 0
    else (if ts[0].drugId == id && ts[0].kind == kind then ts[0].quantity else 0) + Total(ts[1..], id, kind)
  }

  /** Sum of the quantities of all `kind` transactions, whatever drug. */
  function GrandTotal(ts: seq<Transaction>, kind: Kind): int
    decreases |ts|
  {
    if ts == [] then 0
    else (if ts[0].kind == kind then ts[0].quantity else 0) + GrandTotal(ts[1..], kind)
  }

  /** Sum of the `quantity` column of the medicines table. */
  function OnHand(meds: seq<Medicine>): int
    decreases |meds|
  {
    if meds == [] then 0 else meds[0].quantity + OnHand(meds[1..])
  }

  /** The rows after `UPDATE medicines SET quantity = q WHERE id = id`. */
  function SetQuantity(meds: seq<Medicine>, id: nat, q: int): (r: seq<Medicine>)
    ensures |r| == |meds|
    ensures forall i :: 0 <= i < |meds| ==> r[i].id == meds[i].id
    ensures forall i :: 0 <= i < |meds| && meds[i].id != id ==> r[i] == meds[i]
    ensures forall i :: 0 <= i < |meds| && meds[i].id == id ==> r[i] == meds[i].(quantity := q)
    decreases |meds|
  {
    if meds == [] then []
    else [if meds[0].id == id then meds[0].(quantity := q) else meds[0]] + SetQuantity(meds[1..], id, q)
  }

  /** Every row's id is that of at most one row. */
  predicate UniqueIds(meds: seq<Medicine>) {
    forall i, j :: 0 <= i < j < |meds| ==> meds[i].id != meds[j].id
  }

  /** Stock conservation: every row's quantity is non-negative and equals what
      the ledger received for it minus what it issued, and the stock on hand
      is the ledger's total received minus its total issued. */
  predicate Conserved(meds: seq<Medicine>, ts: seq<Transaction>) {
    && (forall i :: 0 <= i < |meds| ==>
          0 <= meds[i].quantity == Total(ts, meds[i].id, In) - Total(ts, meds[i].id, Out))
    && OnHand(meds) == GrandTotal(ts, In) - GrandTotal(ts, Out)
  }

  lemma {:induction false} TotalAppend(ts: seq<Transaction>, t: Transaction, id: nat, kind: Kind)
    ensures Total(ts + [t], id, kind)
         == Total(ts, id, kind) + (if t.drugId == id && t.kind == kind then t.quantity else 0)
    decreases |ts|
  {
    if ts == [] {
      assert ts + [t] == [t];
    } else {
      assert (ts + [t])[1..] == ts[1..] + [t];
      TotalAppend(ts[1..], t, id, kind);
    }
  }

  lemma {:induction false} GrandTotalAppend(ts: seq<Transaction>, t: Transaction, kind: Kind)
    ensures GrandTotal(ts + [t], kind) == GrandTotal(ts, kind) + (if t.kind == kind then t.quantity else 0)
    decreases |ts|
  {
    if ts == [] {
      assert ts + [t] == [t];
    } else {
      assert (ts + [t])[1..] == ts[1..] + [t];
      GrandTotalAppend(ts[1..], t, kind);
    }
  }

  lemma {:induction false} OnHandAppend(meds: seq<Medicine>, m: Medicine)
    ensures OnHand(meds + [m]) == OnHand(meds) + m.quantity
    decreases |meds|
  {
    if meds == [] {
      assert meds + [m] == [m];
    } else {
      assert (meds + [m])[1..] == meds[1..] + [m];
      OnHandAppend(meds[1..], m);
    }
  }

  /** Updating the one row with id `meds[k].id` changes the stock on hand by
      the difference of the two quantities. */
  lemma {:induction false} OnHandSetQuantity(meds: seq<Medicine>, k: nat, q: int)
    requires k < |meds| && UniqueIds(meds)
    ensures OnHand(SetQuantity(meds, meds[k].id, q)) == OnHand(meds) - meds[k].quantity + q
    decreases |meds|
  {
    var id := meds[k].id;
    var r := SetQuantity(meds, id, q);
    assert r[1..] == SetQuantity(meds[1..], id, q);
    if k == 0 {
      assert forall i :: 0 <= i < |meds[1..]| ==> meds[1..][i].id != id;
      SetQuantityElsewhere(meds[1..], id, q);
    } else {
      assert meds[0].id != id;
      OnHandSetQuantity(meds[1..], k - 1, q);
    }
  }

  /** An update whose id no row has leaves the rows unchanged. */
  lemma SetQuantityElsewhere(meds: seq<Medicine>, id: nat, q: int)
    requires forall i :: 0 <= i < |meds| ==> meds[i].id != id
    ensures SetQuantity(meds, id, q) == meds
  {
  }

  /** A transaction for a drug no transaction referenced before starts that
      drug's totals from zero. */
  lemma {:induction false} TotalUnreferenced(ts: seq<Transaction>, id: nat, kind: Kind)
    requires forall i :: 0 <= i < |ts| ==> ts[i].drugId != id
    ensures Total(ts, id, kind) == 0
    decreases |ts|
  {
    if ts != [] {
      TotalUnreferenced(ts[1..], id, kind);
    }
  }

  lemma {:induction false} OnHandNonNegative(meds: seq<Medicine>)
    requires forall i :: 0 <= i < |meds| ==> 0 <= meds[i].quantity
    ensures 0 <= OnHand(meds)
    decreases |meds|
  {
    if meds != [] {
      OnHandNonNegative(meds[1..]);
    }
  }

  /** Receiving a new batch: appending a row whose id nothing refers to yet,
      together with one "in" transaction for its whole quantity, keeps the
      stock conserved. */
  lemma ReceiveConserves(meds: seq<Medicine>, ts: seq<Transaction>, m: Medicine, t: Transaction)
    requires Conserved(meds, ts)
    requires forall i :: 0 <= i < |meds| ==> meds[i].id != m.id
    requires forall i :: 0 <= i < |ts| ==> ts[i].drugId != m.id
    requires 0 <= m.quantity
    requires t.drugId == m.id && t.kind == In && t.quantity == m.quantity
    ensures Conserved(meds + [m], ts + [t])
  {
    var meds', ts' := meds + [m], ts + [t];
    forall i | 0 <= i < |meds'|
      ensures 0 <= meds'[i].quantity == Total(ts', meds'[i].id, In) - Total(ts', meds'[i].id, Out)
    {
      TotalAppend(ts, t, meds'[i].id, In);
      TotalAppend(ts, t, meds'[i].id, Out);
      if i == |meds| {
        TotalUnreferenced(ts, m.id, In);
        TotalUnreferenced(ts, m.id, Out);
      }
    }
    OnHandAppend(meds, m);
    GrandTotalAppend(ts, t, In);
    GrandTotalAppend(ts, t, Out);
  }

  /** Issuing `n` units of row `k`, with 1 <= n <= its stock: lowering that row
      by `n` and appending one "out" transaction of `n` keeps the stock
      conserved. */
  lemma IssueConserves(meds: seq<Medicine>, ts: seq<Transaction>, k: nat, n: int, t: Transaction)
    requires Conserved(meds, ts) && UniqueIds(meds)
    requires k < |meds| && 1 <= n <= meds[k].quantity
    requires t.drugId == meds[k].id && t.kind == Out && t.quantity == n
    ensures Conserved(SetQuantity(meds, meds[k].id, meds[k].quantity - n), ts + [t])
  {
    var id := meds[k].id;
    var meds' := SetQuantity(meds, id, meds[k].quantity - n);
    var ts' := ts + [t];
    forall i | 0 <= i < |meds'|
      ensures 0 <= meds'[i].quantity == Total(ts', meds'[i].id, In) - Total(ts', meds'[i].id, Out)
    {
      TotalAppend(ts, t, meds'[i].id, In);
      TotalAppend(ts, t, meds'[i].id, Out);
    }
    OnHandSetQuantity(meds, k, meds[k].quantity - n);
    GrandTotalAppend(ts, t, In);
    GrandTotalAppend(ts, t, Out);
  }

  /** While stock is conserved, no drug has been issued more than it received,
      and neither has the clinic network as a whole. */
  lemma IssuedNeverExceedsReceived(meds: seq<Medicine>, ts: seq<Transaction>)
    requires Conserved(meds, ts)
    ensures forall i :: 0 <= i < |meds| ==> Total(ts, meds[i].id, Out) <= Total(ts, meds[i].id, In)
    ensures GrandTotal(ts, Out) <= GrandTotal(ts, In)
  {
    OnHandNonNegative(meds);
  }
}
