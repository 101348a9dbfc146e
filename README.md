# Mobile-phone stock tracker: store operations and audit reconciliation

This project models the core of a small stock-tracking web application for
mobile phones (`app.py`). The application keeps two tables:

- `stock`: one row per device, keyed in practice by IMEI. A stored row has
  eleven columns: imei, product, company, model, specification,
  purchase_date, received_from, purchase_amount, status, sold_to, sold_date.
- `audit_log`: scans recorded in order, each `(id, imei, model, status, audit_date)`.

Three operations change the tables, and three only read them:

- recording a purchase appends a row with status "In Stock" and empty sale
  fields. The purchase amount column is never written, so it keeps its schema
  default, which the model takes to be NULL;
- recording a sale sets status "Sold", sold_to and sold_date on every row
  whose imei matches. Zero rows may match, and that is not an error;
- logging a scan appends one audit entry. The stock table is not checked;
- the stock report is its header followed by every stored row verbatim;
- the inventory listing is every stored row verbatim;
- the audit report is its header followed by one row per stock row. Each row
  drops the purchase amount and adds two audit cells.

The audit cells come from reconciliation:

- the entries whose imei equals the row's imei are collected in log order;
- if there are any, the **last** one in log order gives the status and the
  timestamp. Its date value plays no part in choosing it;
- otherwise an item still "In Stock" gets the missing sentinel and an empty
  timestamp;
- any other item gets two empty cells.

Files:

- `schema.dfy` (module `Schema`): the row types, the cell type (NULL or
  text), the two headers, the listing of a row as cells and its inverse.
- `reconciliation.dfy` (module `Reconciliation`): matching scans,
  reconciliation and the audit report row, with their lemmas.
- `inventory.dfy` (module `Inventory`): the sale as a function on the stock
  table with its lemmas, and class `Store`. The class holds the two tables
  as sequence fields. Its methods are the six operations.

`Store.Valid()` is the store's invariant. Every row has status "In Stock"
or "Sold" and a NULL purchase amount, so the stock report's "Purchase Amount"
column is empty in every row. A row in stock has empty sale fields.
Audit ids are 1, 2, 3, … in log order. The constructor gives empty tables.

The export methods have no `modifies` clause, so reconciliation provably
changes neither table.

The missing sentinel is one named constant, `Schema.MissingNotScanned`. The
source file holds it as a mis-decoded en dash, "Missing â€“ Not Scanned"; the
constant keeps those characters. No proof depends on them.

## Model

| member | source | states |
|---|---|---|
| `Inventory.Store.AddPurchase` | app.py:21-38 | the stock table is the old one plus exactly one row at the end: the seven form fields in order, NULL amount, status "In Stock", empty sold_to and sold_date; the log is unchanged; the invariant is kept |
| `Inventory.Store.AddSale` | app.py:47-56 | the row count is kept; every row whose imei matches is the old row with status "Sold", sold_to and sold_date set; every other row is unchanged; the log is unchanged; the invariant is kept |
| `Inventory.Store.LogAudit` | app.py:116-126 | the log is the old log plus exactly one entry at the end, with the next id and the given values; earlier entries and the stock table are unchanged |
| `Inventory.Store.ExportStock` | app.py:83-90 | the report is the 11-cell stock header, then the listing of every stored row in stock order; its length is the number of rows plus one; the "Purchase Amount" cell of every row is NULL |
| `Inventory.Store.ApiInventory` | app.py:208-210 | the listing has one element per stored row, in order, each the row's eleven cells |
| `Inventory.Store.ExportAudit` | app.py:156-188 | the report is the 12-cell audit header, then one row per stock row in stock order, each the reconciled audit row of that stock row |
| `Inventory.Store.AuditRowOf` | app.py:168-188 | the row has 12 cells: the stock columns 0-6 and 8-10, then the status and date of the item's last scan in log order if it was scanned; if never scanned, the missing sentinel and "" when "In Stock", two "" otherwise |
| `Reconciliation.AuditRowDetermined` | app.py:167-188 | any row with the stock columns without the amount and the audit cells chosen by last scan, sentinel or blanks is exactly the reconciled audit row, so the report rows are determined by the scans |
| `Inventory.Sale` | app.py:52-56 | the table after the sale UPDATE has as many rows as before; its row-by-row content is stated by `SaleAt` |
| `Inventory.SaleAt` | app.py:52-56 | the sale keeps the row count; a row with the imei becomes sold to the buyer on the date, and rows with another imei are untouched |
| `Inventory.SaleUpdatesMatchingRows` | app.py:52-56 | a matching row gets status "Sold" with the given sold_to and sold_date, and its other eight fields keep their values |
| `Inventory.SaleUnknownImei` | app.py:52-56 | a sale for an imei that no row holds leaves the table unchanged |
| `Inventory.SaleIdempotent` | app.py:52-56 | recording the same sale twice gives the same table as recording it once |
| `Inventory.SaleKeepsWellFormed` | app.py:52-56 | a sale keeps every row well formed: the status is one of the two values, the amount is NULL, and a row in stock has empty sale fields |
| `Schema.NewItem` | app.py:21-38 | the inserted row is well formed, has status "In Stock" and empty sold_to and sold_date, and its first seven columns are the form fields in order |
| `Schema.Sell` | app.py:52-56 | the sold row keeps the first eight columns, then holds "Sold", the buyer and the sale date; a well-formed row stays well formed |
| `Schema.StockCells` | app.py:89-90 | a listed row has one cell per stock-header column, and only the purchase amount can be NULL |
| `Schema.StockCellsRoundTrip` | app.py:89-90 | a listed row has one cell per stock-header column and reads back as the same row, so the listing loses nothing |
| `Schema.ParseStockCellsInverse` | app.py:89-90 | any cell row that reads back as a stock row is exactly that row's listing |
| `Reconciliation.Matches` | app.py:173 | the matches are at most as many as the log entries and every one scanned the imei; membership and order are stated by `MatchesMembers` and `MatchesLast` |
| `Reconciliation.MatchesMembers` | app.py:173 | an entry is among the matches of an imei if and only if it is in the log and scanned that imei |
| `Reconciliation.MatchesEmpty` | app.py:173-174 | there are no matches if and only if no log entry scanned the imei |
| `Reconciliation.MatchesAppend` | app.py:173 | appending an entry to the log appends it to the matches exactly when it scanned the imei |
| `Reconciliation.MatchesLast` | app.py:173-175 | if log[j] is the last entry that scanned the imei, it is the last of the matches |
| `Reconciliation.LastScanExists` | app.py:173-175 | a device scanned at all has a last scan, at or after any of its scans |
| `Reconciliation.Reconcile` | app.py:167-182 | a scanned item's audit cells are the status and date of one of its scans in the log; which one, and the unscanned cases, are stated by `ReconcileLastScan` and `ReconcileNotScanned` |
| `Reconciliation.ReconcileLastScan` | app.py:172-177 | a scanned item reports the status and date of its last scan in log order, whatever the dates are |
| `Reconciliation.ReconcileNotScanned` | app.py:169-182 | an item no entry scanned gets the missing sentinel and an empty timestamp if it is "In Stock", and two empty cells otherwise |
| `Reconciliation.ReconcileLatestWins` | app.py:173-177 | after a scan of the item is appended to the log, the item reports that scan, whatever its date |
| `Reconciliation.ReconcileOtherScan` | app.py:173 | appending a scan of another device leaves the item's audit cells unchanged |
| `Reconciliation.InsertionOrderBeatsDate` | app.py:174-177 | with an "Audited" scan dated later followed by a "Sold-Found" scan dated earlier, the report shows the second scan |
| `Reconciliation.AuditRow` | app.py:184-188 | an audit row has the audit header's 12 cells: the listed stock row without column 7 (the purchase amount), then the reconciled audit status and timestamp |

## Left out

- HTTP routing, form and JSON parsing, templates, redirects and JSON responses (app.py:13-15, 42, 60, 68, 111, 116-120, 129, 210) are web plumbing. The operations take the already-extracted values. A form field missing from the request, which the source rejects before any write, is not modelled.
- `Inventory.Store.LogAudit` takes each JSON value as an optional string, after JSON parsing. A left-out imei, status or audit date, or one sent as null, is NULL. A left-out model is "" (the source's default), and NULL only when sent as null; choosing that default is part of the JSON parsing, which is not modelled. JSON numbers or other types are not modelled.
- `view_stock` and `audit` (app.py:63-68, 106-111) only render all stock rows into a page. They are left out with the templates.
- SQLite connections, commits and closes (app.py:9-10 and each handler) are storage I/O. The tables are in-memory sequences, and each operation is one atomic step. Concurrent requests are not modelled.
- `SELECT *` has no ORDER BY. The model lists rows in insertion order, which is also the order that "last scan" depends on.
- The table schemas are not part of the repository's files. The purchase INSERT leaves the purchase amount column at its schema default; the model assumes that default is NULL. The audit id is modelled as the next row number, as SQLite assigns it when nothing is ever deleted. The stock table starts empty.
- Workbook serialisation, in-memory file buffers, downloads and MIME types (app.py:78-80, 92-102, 152-154, 190-200) belong to a foreign library and file I/O. A sheet is modelled as its sequence of rows.
- Timestamped file names from the wall clock (app.py:95, 193) are nondeterministic.
- The dictionary, key and lists in `export_audit` that never reach the output (app.py:143-149, 163, 165) are dead code.
- Starting the development server (app.py:213-214).
