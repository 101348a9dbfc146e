/**
 * The two tables of the stock system and the cells a report row is made of.
 *
 * A stored `stock` row has eleven columns (imei, product, company, model,
 * specification, purchase_date, received_from, purchase_amount, status,
 * sold_to, sold_date); an `audit_log` row has five (id, imei, model, status,
 * audit_date).
 */
module Schema {

  datatype Option<T> = None | Some(value: T)

  /** One cell of a report row or of the inventory listing: SQL NULL or text. */
  datatype Cell = Null | Text(text: string)

  const InStock: string := "In Stock"
  const Sold: string := "Sold"

  /**
   * The audit status written for an in-stock item that was never scanned.
   * The repository's file holds these characters (an en dash that was saved
   * through a wrong code page); nothing below depends on them.
   */
  const MissingNotScanned: string := "Missing \U{E2}\U{20AC}\U{201C} Not Scanned"

  /** One row of the `stock` table, in column order. */
  datatype StockRow = StockRow(
    imei: string,
    product: string,
    company: string,
    model: string,
    specification: string,
    purchaseDate: string,
    receivedFrom: string,
    purchaseAmount: Option<string>,  // never written by any operation: left at its default, taken to be NULL
    status: string,
    soldTo: string,
    soldDate: string)

  /** The seven fields of the purchase form. */
  datatype PurchaseForm = PurchaseForm(
    imei: string,
    product: string,
    company: string,
    model: string,
    specification: string,
    purchaseDate: string,
    receivedFrom: string)

  /**
   * One row of the `audit_log` table. The scan values come from a JSON body:
   * imei, status and audit date are NULL when the client leaves them out or
   * sends null; model is "" when left out and NULL only when sent as null.
   */
  datatype AuditEntry = AuditEntry(
    id: nat,
    imei: Option<string>,
    model: Option<string>,
    status: Option<string>,
    auditDate: Option<string>)

  /**
   * The row the purchase INSERT stores: the seven form fields in order, the
   * amount left NULL, then "In Stock" and empty sale fields.
   */
  function NewItem(f: PurchaseForm): (r: StockRow)
    ensures WellFormed(r)
    ensures r.status == InStock && r.soldTo == "" && r.soldDate == ""
    ensures StockCells(r)[..7] == [Text(f.imei), Text(f.product), Text(f.company), Text(f.model),
                                   Text(f.specification), Text(f.purchaseDate), Text(f.receivedFrom)]
  {
    StockRow(f.imei, f.product, f.company, f.model, f.specification,
             f.purchaseDate, f.receivedFrom, None, InStock, "", "")
  }

  /** The row after the sale UPDATE has set its three columns; the first eight are kept. */
  function Sell(r: StockRow, soldTo: string, soldDate: string): (s: StockRow)
    ensures WellFormed(r) ==> WellFormed(s)
    ensures StockCells(s)[..8] == StockCells(r)[..8]
    ensures StockCells(s)[8..] == [Text(Sold), Text(soldTo), Text(soldDate)]
  {
    r.(status := Sold, soldTo := soldTo, soldDate := soldDate)
  }

  /**
   * What every row written by the purchase and sale operations satisfies:
   * status is one of the two values, the purchase amount is NULL, and an item
   * still in stock has empty sale fields.
   */
  predicate WellFormed(r: StockRow)
  {
    && (r.status == InStock || r.status == Sold)
    && r.purchaseAmount == None
    && (r.status == InStock ==> r.soldTo == "" && r.soldDate == "")
  }

  function OptionCell(o: Option<string>): Cell
  {
    match o
    case None => Null
    case Some(s) => Text(s)
  }

  function CellOption(c: Cell): Option<string>
  {
    match c
    case Null => None
    case Text(s) => Some(s)
  }

  /** The header row of the stock report. */
  const StockHeader: seq<Cell> := [
    Text("IMEI"), Text("Product"), Text("Company"), Text("Model"), Text("Specification"),
    Text("Purchase Date"), Text("Purchase From"), Text("Purchase Amount"),
    Text("Status"), Text("Sold To"), Text("Sold Date")]

  /** The header row of the audit report: the stock columns without the amount, then two audit columns. */
  const AuditHeader: seq<Cell> := [
    Text("IMEI"), Text("Product"), Text("Company"), Text("Model"), Text("Specification"),
    Text("Purchase Date"), Text("Received From"), Text("Status"), Text("Sold To"), Text("Sold Date"),
    Text("Audit Status"), Text("Audit Timestamp")]

  /** A stored row listed verbatim, column by column; only the amount can be NULL. */
  function StockCells(r: StockRow): (c: seq<Cell>)
    ensures |c| == |StockHeader|
    ensures forall i :: 0 <= i < |c| && i != 7 ==> c[i].Text?
  {
    [Text(r.imei), Text(r.product), Text(r.company), Text(r.model),
     Text(r.specification), Text(r.purchaseDate), Text(r.receivedFrom),
     OptionCell(r.purchaseAmount),
     Text(r.status), Text(r.soldTo), Text(r.soldDate)]
  }

  /** Reads a listed row back; the inverse of `StockCells`. */
  function ParseStockCells(c: seq<Cell>): Option<StockRow>
  {
    if |c| == 11
       && c[0].Text? && c[1].Text? && c[2].Text? && c[3].Text? && c[4].Text?
       && c[5].Text? && c[6].Text? && c[8].Text? && c[9].Text? && c[10].Text?
    then Some(StockRow(c[0].text, c[1].text, c[2].text, c[3].text, c[4].text,
                       c[5].text, c[6].text, CellOption(c[7]),
                       c[8].text, c[9].text, c[10].text))
    else None
  }

  /** A listed row has one cell per header column, and nothing of the row is lost. */
  lemma StockCellsRoundTrip(r: StockRow)
    ensures |StockCells(r)| == |StockHeader|
    ensures ParseStockCells(StockCells(r)) == Some(r)
  {
    assert CellOption(OptionCell(r.purchaseAmount)) == r.purchaseAmount by {
      match r.purchaseAmount
      case None =>
      case Some(_) =>
    }
  }

  /** Every cell row that reads back as a stock row is exactly that row's listing. */
  lemma ParseStockCellsInverse(c: seq<Cell>, r: StockRow)
    requires ParseStockCells(c) == Some(r)
    ensures StockCells(r) == c
  {
    assert OptionCell(CellOption(c[7])) == c[7] by {
      match c[7]
      case Null =>
      case Text(_) =>
    }
  }
}
