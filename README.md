# Clinic inventory ledger and stock classifier

This project models the logic of a small clinic inventory tracker
(`streamlit_app.py`). Clinics receive batches of medicine. Each batch is a row
of the `medicines` table. They issue units from a batch, and every receive
and issue adds one row to an append-only `transactions` ledger. The
"Current Stock" view labels each batch `normal`, `low_stock`, `near_expiry`
or `expired` and counts the alerts. Logins come from a static credential
table.

Modules, one per part of the program:

- `Records`: the rows of the two tables (`Medicine`, `Transaction`, `Kind`).
- `Classifier`: days to expiry, the status rule with its priorities, the
  annotated view and the three alert counts.
- `ClinicFilter`: `get_df`'s clinic filter and the filter the main page
  passes to it.
- `Ledger`: the ledger totals as functions on values, the stock
  conservation law, and lemmas that one receive and one issue preserve it.
- `Database`: class `Inventory` holding the two tables and their
  AUTOINCREMENT counters. `Receive` and `Issue` change them in place and
  keep the table invariant `WellFormed`. `AddTransaction`, the raw ledger
  insert both of them call, only appends; it keeps the invariant exactly
  when the tables with the pending row are well formed, not by itself.
- `Auth`: the `USERS` table and the login check.

Dates are day numbers. "Today" is a parameter, already normalised to
midnight. The SQLite tables are sequences. The password hash is a function
parameter `hash: string -> string`. No lemma depends on what it computes.

Behaviour of the code that the model keeps as written:

- `get_df` tests `clinic_filter and clinic_filter != "All"`. Under Python's
  truthiness, `None`, the empty string and `"All"` all return every row
  (`ClinicFilter.Restricts`).
- A receive stores the clinic currently selected. For an admin viewing
  "All", that is the literal `"All"`. Both transactions record the selected
  clinic, not the row's own clinic.
- The receive form checks only that the drug name and batch number are
  non-empty. A name made only of spaces is accepted.
- Both queries of `get_df` (lines 79, 81) are plain `SELECT`s without
  `ORDER BY`. The model assumes SQLite returns their rows in rowid order,
  which is insertion order here.
- The issue action writes `UPDATE ... SET quantity = new WHERE id = id`,
  modelled by `Ledger.SetQuantity` over every row with that id. In the
  model, row ids are unique, so exactly one row changes. This assumes the id
  and the new quantity reach SQLite as integers (see "## Left out").
- The metric is labelled "Near Expiry (<90 days)" (line 132), but the code
  counts 1 to 90 days inclusive (lines 126-127). The model follows the code:
  90 days is near expiry.
- In the model, ids are exactly 1, 2, 3, ... in insertion order. The tables
  start empty (`init_db` on a new file) and nothing is ever deleted.

## Model

| member | source | states |
|---|---|---|
| `Classifier.DaysToExpiry` | streamlit_app.py:120-121 | whole days from today to expiry; non-positive exactly when the expiry day is today or earlier |
| `Classifier.Classify` | streamlit_app.py:124-127 | expired iff days <= 0; near_expiry iff 0 < days <= 90; low_stock iff days > 90 and quantity <= threshold; normal iff days > 90 and quantity > threshold |
| `Classifier.ClassifyIsUniqueRule` | streamlit_app.py:124-127 | the priority-free rule of a status holds exactly for the status the classifier picks, so each record gets exactly one label |
| `Classifier.ClassifyBoundaries` | streamlit_app.py:124-127 | quantity 5, threshold 20, -3 days is expired; 90 days is near_expiry; 91 days with stock above threshold is normal; 0 is expired; 1 is near_expiry |
| `Classifier.Annotate` | streamlit_app.py:120-127 | one row per record in the same order, with days_to_expiry = expiry - today and a status whose rule holds of the record |
| `Classifier.StatusCounts` | streamlit_app.py:115-133 | each metric is the number of records meeting that status's own rule (expired: days <= 0; near expiry: 1..90 days; low stock: over 90 days and quantity <= threshold); an empty view reports zeros; the three never exceed the number of records |
| `Classifier.CountStatusExtremes` | streamlit_app.py:131-133 | the `len(df[df["status"] == s])` count (`CountStatus`) is zero iff no row has status s, and equals the number of rows iff every row has it |
| `Classifier.CountStatusMeetsRule` | streamlit_app.py:131-133 | each metric equals the number of records meeting that status's own rule (the expired count depends on expiry dates alone) |
| `Classifier.CountsPartition` | streamlit_app.py:124-133 | expired + near_expiry + low_stock + normal rows = number of records, so each record is counted under exactly one status |
| `ClinicFilter.FilterClinic` | streamlit_app.py:78-79 | at most as many rows as stored, and every returned row has the requested clinic |
| `ClinicFilter.FilterClinicCounts` | streamlit_app.py:78-79 | each row of the clinic is returned as many times as it is stored; rows of other clinics never |
| `ClinicFilter.FilterClinicMembers` | streamlit_app.py:78-79 | a row is returned iff it is stored and belongs to the clinic |
| `ClinicFilter.FilterClinicConcat` | streamlit_app.py:78-79 | filtering distributes over concatenation, so the returned rows keep insertion order |
| `ClinicFilter.FilterClinicIdempotent` | streamlit_app.py:78-79 | filtering an already filtered view by the same clinic changes nothing |
| `ClinicFilter.GetDf` | streamlit_app.py:76-81 | the line-78 test is the predicate `Restricts`: `None`, `""` or `"All"` return all rows unchanged; any other clinic returns exactly `FilterClinic` of the table: every stored row of that clinic, in insertion order and with the same multiplicity, and no other row |
| `ClinicFilter.FilterClinicKeepsAll` | streamlit_app.py:78-79 | for all rows at once: each row of the clinic kept with its multiplicity, and membership iff stored and of the clinic |
| `ClinicFilter.ViewFilter` | streamlit_app.py:107 | the query is restricted exactly when the selected clinic is neither empty nor "All", and then to the selected clinic |
| `Ledger.SetQuantity` | streamlit_app.py:202 | same number of rows; rows with the id get the new quantity and no other field changes; all other rows unchanged |
| `Ledger.ReceiveConserves` | streamlit_app.py:167-175 | appending a fresh row and one "in" transaction for its quantity keeps per-drug and total stock conserved |
| `Ledger.IssueConserves` | streamlit_app.py:200-205 | lowering one row by n (1 <= n <= stock) and appending one "out" transaction of n keeps stock conserved |
| `Ledger.IssuedNeverExceedsReceived` | streamlit_app.py:167-205 | under conservation, no drug, and not the ledger as a whole, has issued more than it received |
| `Database.ReceiveKeepsWellFormed` | streamlit_app.py:167-175 | a receive with the next ids keeps the table invariant (dense ids, valid references, conservation) |
| `Database.IssueKeepsWellFormed` | streamlit_app.py:194-205 | an issue of 1..quantity units keeps the table invariant |
| `Database.Inventory.constructor` | streamlit_app.py:24-48 | new empty tables satisfy the invariant |
| `Database.Inventory.AddTransaction` | streamlit_app.py:87-92 | appends exactly one transaction with the next id and the given fields; medicines unchanged; the invariant holds afterwards exactly when the tables with that row appended are well formed |
| `Database.Inventory.Receive` | streamlit_app.py:163-175 | empty drug name or batch: nothing changes; otherwise exactly one new row with a fresh id and the given fields, and exactly one "in" transaction of qty for that id, remarks "Received <batch>"; earlier rows and transactions unchanged; invariant kept |
| `Database.Inventory.Issue` | streamlit_app.py:194-205 | new quantity = old - issueQty >= 0 on the row with that id, no other row or field changes, exactly one "out" transaction of issueQty appended; invariant kept |
| `Auth.Users` | streamlit_app.py:12-21 | the table has exactly the provisioned names, each with the hash of its password and its role and clinic |
| `Auth.Login` | streamlit_app.py:58-62 | succeeds only for a known name whose stored hash equals hash(password), and then takes role and clinic from that entry; fails otherwise |
| `Auth.LoginWithOwnPassword` | streamlit_app.py:58-62 | every provisioned account logs in with its own password and gets its own role and clinic |
| `Auth.LoginRejects` | streamlit_app.py:58-65 | an unknown name, or a password whose hash differs from the provisioned one, is rejected |
| `Auth.ProvisionedScopes` | streamlit_app.py:12-21 | only the admin is scoped to "All"; every other account's clinic restricts the stock query |
| `Auth.SessionView` | streamlit_app.py:97-107 | after login a clinic user's view is exactly the filter of the table by their clinic: every row of their clinic and no other; the admin viewing "All" sees every row |

## Left out

- The Streamlit UI is not modelled: sidebar, tabs, forms, metric widgets, `st.rerun`/`st.stop`, logout and row colouring. It is presentation only.
- SQLite connections, SQL text and pandas mechanics (`read_sql_query`, `to_datetime`, `strftime`) are replaced by sequences and day numbers.
- The CSV export (lines 212-214) is a pandas `to_csv` call plus a download button, a foreign library call.
- SHA-256 is not modelled. It is the parameter `hash`.
- Timestamps (`date_added`, `timestamp`, `CURRENT_TIMESTAMP`) are not modelled.
- The issue selector's label text (lines 186-190) is display text. The same goes for picking the first row with a matching label. `Issue` takes the selected row's id.
- Atomicity between the UPDATE and the transaction INSERT, which use separate connections, is not modelled. The same goes for concurrent users: each action is one sequential step.
- Rows that exist before the first run are not modelled: the tables start empty.
- The widget bounds are preconditions, not error paths. They are: receive quantity at least 1 (line 160), expiry no earlier than today (line 159), issue quantity between 1 and the stock (line 194). For a row whose stock is 0, the issue widget (`min_value=1`, `max_value=0`) raises an exception instead of limiting the input. The model does not capture that error: `Inventory.Issue` requires stock of at least 1.
- Inventory.Issue: assumes the selected row's id and the computed new quantity are bound to SQLite as integers, which is evidently intended. Both come out of a pandas row (lines 190, 200) and may be numpy integer scalars. If the driver binds those as BLOBs, the `UPDATE` at line 202 matches no row and the "out" transaction stores a non-integer `drug_id`. The model does not capture that type-dependent behaviour.
