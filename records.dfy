/** The two persisted tables of the clinic inventory: medicine records and
    ledger transactions. Dates are whole day numbers; timestamps are not
    modelled. */
module Records {

  datatype Option<T> = None | Some(value: T)

  /** One row of the `medicines` table. `expiryDay` is the expiry date as a
      day number (midnight of that day). */
  datatype Medicine = Medicine(
    id: nat,
    clinic: string,
    drugName: string,
    genericName: string,
    strength: string,
    batchNo: string,
    expiryDay: int,
    quantity: int,
    threshold: int)

  /** The `type` column of the `transactions` table: "in" or "out". */
  datatype Kind = In | Out

  /** One row of the `transactions` table. */
  datatype Transaction = Transaction(
    id: nat,
    clinic: string,
    drugId: nat,
    kind: Kind,
    quantity: int,
    patient: string,
    remarks: string)
}
