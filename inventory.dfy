/**
 * The store: the `stock` table and the `audit_log` table as two sequences,
 * the three operations that change them, and the three read-only listings
 * (the stock report, the audit report and the inventory listing).
 */
module Inventory {
  import opened Schema
  import opened Reconciliation

  /** The stock table after the sale UPDATE: every row with that imei is sold. */
  function Sale(rows: seq<StockRow>, imei: string, soldTo: string, soldDate: string): (r: seq<StockRow>)
    ensures |r| == |rows|
  {
    if rows == [] then []
    else
      [if rows[0].imei == imei then Sell(rows[0], soldTo, soldDate) else rows[0]]
      + Sale(rows[1..], imei, soldTo, soldDate)
  }

  /**
   * The sale keeps the row count; a row with the imei gets status "Sold" and
   * the two sale fields, all its other fields unchanged; other rows are untouched.
   */
  lemma {:induction false} SaleAt(rows: seq<StockRow>, imei: string, soldTo: string, soldDate: string)
    ensures |Sale(rows, imei, soldTo, soldDate)| == |rows|
    ensures forall k :: 0 <= k < |rows| ==>
      Sale(rows, imei, soldTo, soldDate)[k] ==
        if rows[k].imei == imei then Sell(rows[k], soldTo, soldDate) else rows[k]
  {
    if rows != [] {
      SaleAt(rows[1..], imei, soldTo, soldDate);
    }
  }

  /** The updated rows as the source promises them, field by field. */
  lemma SaleUpdatesMatchingRows(rows: seq<StockRow>, imei: string, soldTo: string, soldDate: string, k: nat)
    requires k < |rows| && rows[k].imei == imei
    ensures k < |Sale(rows, imei, soldTo, soldDate)|
    ensures
      var r := Sale(rows, imei, soldTo, soldDate)[k];
      && r.status == Sold && r.soldTo == soldTo && r.soldDate == soldDate
      && r.imei == rows[k].imei && r.product == rows[k].product
      && r.company == rows[k].company && r.model == rows[k].model
      && r.specification == rows[k].specification
      && r.purchaseDate == rows[k].purchaseDate && r.receivedFrom == rows[k].receivedFrom
      && r.purchaseAmount == rows[k].purchaseAmount
  {
    SaleAt(rows, imei, soldTo, soldDate);
  }

  /** A sale for an imei no row holds changes nothing (and is no error). */
  lemma SaleUnknownImei(rows: seq<StockRow>, imei: string, soldTo: string, soldDate: string)
    requires forall k :: 0 <= k < |rows| ==> rows[k].imei != imei
    ensures Sale(rows, imei, soldTo, soldDate) == rows
  {
    SaleAt(rows, imei, soldTo, soldDate);
  }

  /** Recording the same sale twice is the same as recording it once. */
  lemma SaleIdempotent(rows: seq<StockRow>, imei: string, soldTo: string, soldDate: string)
    ensures Sale(Sale(rows, imei, soldTo, soldDate), imei, soldTo, soldDate) == Sale(rows, imei, soldTo, soldDate)
  {
    var once := Sale(rows, imei, soldTo, soldDate);
    SaleAt(rows, imei, soldTo, soldDate);
    SaleAt(once, imei, soldTo, soldDate);
  }

  /** A sale keeps every row well formed. */
  lemma SaleKeepsWellFormed(rows: seq<StockRow>, imei: string, soldTo: string, soldDate: string)
    requires forall k :: 0 <= k < |rows| ==> WellFormed(rows[k])
    ensures forall k :: 0 <= k < |Sale(rows, imei, soldTo, soldDate)| ==> WellFormed(Sale(rows, imei, soldTo, soldDate)[k])
  {
    SaleAt(rows, imei, soldTo, soldDate);
  }

  class Store {
    /** The `stock` table, in the order SELECT * lists it (insertion order). */
    var stock: seq<StockRow>
    /** The `audit_log` table, in insertion order. */
    var log: seq<AuditEntry>

    /** Rows are well formed and audit ids are the row numbers 1, 2, 3, ... */
    ghost predicate Valid()
      reads this
    {
      && (forall k :: 0 <= k < |stock| ==> WellFormed(stock[k]))
      && (forall k :: 0 <= k < |log| ==> log[k].id == k + 1)
    }

    constructor ()
      ensures Valid()
      ensures stock == [] && log == []
    {
      stock := [];
      log := [];
    }

    /** Stores a purchased item at the end of the stock table. */
    method AddPurchase(form: PurchaseForm)
      requires Valid()
      modifies this
      ensures Valid()
      ensures stock == old(stock) + [NewItem(form)]
      ensures stock[|stock| - 1].status == InStock
      ensures stock[|stock| - 1].soldTo == "" && stock[|stock| - 1].soldDate == ""
      ensures stock[|stock| - 1].purchaseAmount == None
      ensures log == old(log)
    {
      stock := stock + [NewItem(form)];
    }

    /**
     * Marks every row holding `imei` as sold to `soldTo` on `soldDate`.
     * Any number of rows may match, none included; this is never an error.
     */
    method AddSale(imei: string, soldTo: string, soldDate: string)
      requires Valid()
      modifies this
      ensures Valid()
      ensures |stock| == |old(stock)|
      ensures forall k :: 0 <= k < |stock| ==>
        stock[k] == if old(stock)[k].imei == imei then Sell(old(stock)[k], soldTo, soldDate) else old(stock)[k]
      ensures stock == Sale(old(stock), imei, soldTo, soldDate)
      ensures log == old(log)
    {
      ghost var before := stock;
      var i := 0;
      while i < |stock|
        invariant 0 <= i <= |stock| == |before|
        invariant forall k :: 0 <= k < i ==>
          stock[k] == if before[k].imei == imei then Sell(before[k], soldTo, soldDate) else before[k]
        invariant forall k :: i <= k < |stock| ==> stock[k] == before[k]
        invariant log == old(log)
      {
        if stock[i].imei == imei {
          stock := stock[i := Sell(stock[i], soldTo, soldDate)];
        }
        i := i + 1;
      }
      SaleAt(before, imei, soldTo, soldDate);
      SaleKeepsWellFormed(before, imei, soldTo, soldDate);
    }

    /** Appends one scan to the audit log; the stock table is neither read nor changed. */
    method LogAudit(imei: Option<string>, model: Option<string>, status: Option<string>, auditDate: Option<string>)
      requires Valid()
      modifies this
      ensures Valid()
      ensures log == old(log) + [AuditEntry(|old(log)| + 1, imei, model, status, auditDate)]
      ensures stock == old(stock)
    {
      log := log + [AuditEntry(|log| + 1, imei, model, status, auditDate)];
    }

    /**
     * The stock report: the header, then every stored row verbatim, in order.
     * The "Purchase Amount" column holds NULL in every row.
     */
    method ExportStock() returns (sheet: seq<seq<Cell>>)
      requires Valid()
      ensures |sheet| == |stock| + 1
      ensures sheet[0] == StockHeader
      ensures forall i :: 0 <= i < |stock| ==> sheet[i + 1] == StockCells(stock[i]) && sheet[i + 1][7] == Null
    {
      var header := StockHeader;
      sheet := [header];
      for i := 0 to |stock|
        invariant |sheet| == i + 1
        invariant sheet[0] == header
        invariant forall k :: 0 <= k < i ==> sheet[k + 1] == StockCells(stock[k])
      {
        var row := StockCells(stock[i]);
        sheet := sheet + [row];
      }
    }

    /** The inventory listing: every stored row verbatim, in order. */
    method ApiInventory() returns (rows: seq<seq<Cell>>)
      ensures |rows| == |stock|
      ensures forall i :: 0 <= i < |stock| ==> rows[i] == StockCells(stock[i])
    {
      rows := [];
      for i := 0 to |stock|
        invariant |rows| == i
        invariant forall k :: 0 <= k < i ==> rows[k] == StockCells(stock[k])
      {
        var row := StockCells(stock[i]);
        rows := rows + [row];
      }
    }

    /**
     * The audit report: the header, then one row per stock row in stock
     * order, each with its reconciled audit cells. Neither table changes.
     */
    method ExportAudit() returns (sheet: seq<seq<Cell>>)
      ensures |sheet| == |stock| + 1
      ensures sheet[0] == AuditHeader
      ensures forall i :: 0 <= i < |stock| ==> sheet[i + 1] == AuditRow(stock[i], log)
    {
      var header := AuditHeader;
      sheet := [header];
      for i := 0 to |stock|
        invariant |sheet| == i + 1
        invariant sheet[0] == header
        invariant forall k :: 0 <= k < i ==> sheet[k + 1] == AuditRow(stock[k], log)
      {
        var row := AuditRowOf(stock[i]);
        AuditRowDetermined(stock[i], log, row);
        sheet := sheet + [row];
      }
    }

    /**
     * One row of the audit report, decided as the export loop decides it: the
     * stock columns without the amount, then the status and date of the
     * item's last scan in log order, or, for an item never scanned, the
     * missing sentinel when it is in stock and two empty cells otherwise.
     */
    method AuditRowOf(s: StockRow) returns (row: seq<Cell>)
      ensures |row| == |AuditHeader|
      ensures row[..10] == StockCells(s)[..7] + StockCells(s)[8..]
      ensures forall j :: LastScanAt(log, s.imei, j) ==>
        row[10] == OptionCell(log[j].status) && row[11] == OptionCell(log[j].auditDate)
      ensures (forall k :: 0 <= k < |log| ==> !ScanOf(log[k], s.imei)) ==>
        row[10..] == if s.status == InStock then [Text(MissingNotScanned), Text("")] else [Text(""), Text("")]
    {
      var auditStatus, auditTimestamp := Text(""), Text("");
      var found := Matches(log, s.imei);
      MatchesEmpty(log, s.imei);
      forall j | LastScanAt(log, s.imei, j)
        ensures found != [] && found[|found| - 1] == log[j]
      {
        MatchesLast(log, s.imei, j);
      }
      if |found| > 0 {
        var entry := found[|found| - 1];
        auditStatus, auditTimestamp := OptionCell(entry.status), OptionCell(entry.auditDate);
      } else if s.status == InStock {
        auditStatus, auditTimestamp := Text(MissingNotScanned), Text("");
      }
      row := [
        Text(s.imei), Text(s.product), Text(s.company), Text(s.model),
        Text(s.specification), Text(s.purchaseDate), Text(s.receivedFrom),
        Text(s.status), Text(s.soldTo), Text(s.soldDate),
        auditStatus, auditTimestamp];
    }
  }
}
