/** The stock-status classifier of the "Current Stock" view and the three
    alert counts shown above the table. */
module Classifier {
  import opened Records

  datatype Status = Normal | LowStock | NearExpiry | Expired

  /** Items expiring within this many days (inclusive) are near expiry. */
  const NEAR_EXPIRY_DAYS: int := 90

  /** Whole days from today (normalised to midnight) to the expiry date;
      negative once the item has expired. A plain definition: what the
      number means for the status is stated by `Classify`. */
  function DaysToExpiry(expiryDay: int, today: int): (d: int)
    ensures d <= 0 <==> expiryDay <= today
    ensures expiryDay == today + d
  {
    expiryDay - today
  }

  /** The rule for each status stated on its own, without priorities: the
      reference the classifier is checked against. */
  predicate Meets(s: Status, quantity: int, threshold: int, days: int) {
    match s
    case Expired => days <= 0
    case NearExpiry => 0 < days <= NEAR_EXPIRY_DAYS
    case LowStock => NEAR_EXPIRY_DAYS < days && quantity <= threshold
    case Normal => NEAR_EXPIRY_DAYS < days && threshold < quantity
  }

  /** The status column: start from normal, then overwrite with low_stock,
      near_expiry and expired in that order, so the last matching rule wins. */
  function Classify(quantity: int, threshold: int, days: int): (s: Status)
    ensures s == Expired <==> days <= 0
    ensures s == NearExpiry <==> 0 < days <= NEAR_EXPIRY_DAYS
    ensures s == LowStock <==> NEAR_EXPIRY_DAYS < days && quantity <= threshold
    ensures s == Normal <==> NEAR_EXPIRY_DAYS < days && threshold < quantity
  {
    var initial := Normal;
    var afterStock := if quantity <= threshold then LowStock else initial;
    var afterNear := if days <= NEAR_EXPIRY_DAYS then NearExpiry else afterStock;
    if days <= 0 then Expired else afterNear
  }

  /** Exactly one status rule holds of every record, and it is the one the
      classifier picks. */
  lemma ClassifyIsUniqueRule(quantity: int, threshold: int, days: int, s: Status)
    ensures Meets(s, quantity, threshold, days) <==> s == Classify(quantity, threshold, days)
  {
  }

  /** The 0- and 90-day boundaries, and an expired item that is also low on
      stock. */
  lemma ClassifyBoundaries(quantity: int, threshold: int)
    ensures Classify(5, 20, -3) == Expired
    ensures Classify(quantity, threshold, NEAR_EXPIRY_DAYS) == NearExpiry
    ensures threshold < quantity ==> Classify(quantity, threshold, NEAR_EXPIRY_DAYS + 1) == Normal
    ensures Classify(quantity, threshold, 0) == Expired
    ensures Classify(quantity, threshold, 1) == NearExpiry
  {
  }

  /** A medicine record annotated with the two computed columns. */
  datatype StockRow = StockRow(record: Medicine, daysToExpiry: int, status: Status)

  function StatusOf(m: Medicine, today: int): Status {
    Classify(m.quantity, m.threshold, DaysToExpiry(m.expiryDay, today))
  }

  /** Adds `days_to_expiry` and `status` to every record, keeping the rows
      and their order. */
  function Annotate(recs: seq<Medicine>, today: int): (rows: seq<StockRow>)
    ensures |rows| == |recs|
    ensures forall i :: 0 <= i < |recs| ==>
      rows[i].record == recs[i] &&
      rows[i].daysToExpiry == recs[i].expiryDay - today &&
      Meets(rows[i].status, recs[i].quantity, recs[i].threshold, rows[i].daysToExpiry)
    decreases |recs|
  {
    if recs == [] then []
    else
      var d := DaysToExpiry(recs[0].expiryDay, today);
      ClassifyIsUniqueRule(recs[0].quantity, recs[0].threshold, d, Classify(recs[0].quantity, recs[0].threshold, d));
      [StockRow(recs[0], d, StatusOf(recs[0], today))] + Annotate(recs[1..], today)
  }

  /** Number of rows whose status column equals `s`. Its ensures is only a
      sanity bound; `CountStatusExtremes` and `CountStatusMeetsRule` say
      what the count means. */
  function CountStatus(rows: seq<StockRow>, s: Status): (n: nat)
    ensures n <= |rows|
    decreases |rows|
  {
    if rows == [] then 0
    else (if rows[0].status == s then 1 else 0) + CountStatus(rows[1..], s)
  }

  /** The count is zero exactly when no row has status `s`, and all rows
      exactly when every row has it. */
  lemma {:induction false} CountStatusExtremes(rows: seq<StockRow>, s: Status)
    ensures CountStatus(rows, s) == 0 <==> forall i :: 0 <= i < |rows| ==> rows[i].status != s
    ensures CountStatus(rows, s) == |rows| <==> forall i :: 0 <= i < |rows| ==> rows[i].status == s
    decreases |rows|
  {
    if rows != [] {
      CountStatusExtremes(rows[1..], s);
      assert forall i :: 1 <= i < |rows| ==> rows[i] == rows[1..][i - 1];
    }
  }

  /** Number of records that satisfy the rule for `s`, read off the record
      fields directly. */
  function CountMeeting(recs: seq<Medicine>, today: int, s: Status): nat
    decreases |recs|
  {
    if recs == [] then 0
    else
      (if Meets(s, recs[0].quantity, recs[0].threshold, recs[0].expiryDay - today) then 1 else 0)
      + CountMeeting(recs[1..], today, s)
  }

  /** The three metrics of the stock view. */
  datatype Metrics = Metrics(expired: nat, nearExpiry: nat, lowStock: nat)

  function StatusCounts(recs: seq<Medicine>, today: int): (r: Metrics)
    ensures recs == [] ==> r == Metrics(0, 0, 0)
    ensures r.expired + r.nearExpiry + r.lowStock <= |recs|
    ensures r.expired == CountMeeting(recs, today, Expired)
    ensures r.nearExpiry == CountMeeting(recs, today, NearExpiry)
    ensures r.lowStock == CountMeeting(recs, today, LowStock)
  {
    var rows := Annotate(recs, today);
    CountsPartition(recs, today);
    CountStatusMeetsRule(recs, today, Expired);
    CountStatusMeetsRule(recs, today, NearExpiry);
    CountStatusMeetsRule(recs, today, LowStock);
    Metrics(CountStatus(rows, Expired), CountStatus(rows, NearExpiry), CountStatus(rows, LowStock))
  }

  /** Each count is the number of records meeting that status's own rule:
      the expired count depends on the expiry dates alone. */
  lemma {:induction false} CountStatusMeetsRule(recs: seq<Medicine>, today: int, s: Status)
    ensures CountStatus(Annotate(recs, today), s) == CountMeeting(recs, today, s)
    decreases |recs|
  {
    if recs != [] {
      var rows := Annotate(recs, today);
      assert rows[1..] == Annotate(recs[1..], today);
      CountStatusMeetsRule(recs[1..], today, s);
      ClassifyIsUniqueRule(recs[0].quantity, recs[0].threshold, recs[0].expiryDay - today, s);
    }
  }

  /** The statuses partition the records: each record adds one to exactly one
      of the three metrics or to the normal rows. */
  lemma {:induction false} CountsPartition(recs: seq<Medicine>, today: int)
    ensures var rows := Annotate(recs, today);
      CountStatus(rows, Expired) + CountStatus(rows, NearExpiry) + CountStatus(rows, LowStock)
      + CountStatus(rows, Normal) == |recs|
    decreases |recs|
  {
    if recs != [] {
      var rows := Annotate(recs, today);
      assert rows[1..] == Annotate(recs[1..], today);
      CountsPartition(recs[1..], today);
    }
  }
}
