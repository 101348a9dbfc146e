/**
 * Audit reconciliation: for one stock row, the audit status and timestamp the
 * audit report shows, derived from the stock row and the audit log. Nothing
 * here changes either table.
 */
module Reconciliation {
  import opened Schema

  /** Does `e` record a scan of the device `imei`? A NULL imei matches nothing. */
  predicate ScanOf(e: AuditEntry, imei: string)
  {
    e.imei == Some(imei)
  }

  /** The entries of `log` that scanned `imei`, in log order. */
  function Matches(log: seq<AuditEntry>, imei: string): (r: seq<AuditEntry>)
    ensures |r| <= |log|
    ensures forall i :: 0 <= i < |r| ==> ScanOf(r[i], imei)
  {
    if log == [] then []
    else
      var last := log[|log| - 1];
      Matches(log[..|log| - 1], imei) + (if ScanOf(last, imei) then [last] else [])
  }

  /** Membership in `Matches` is exactly "in the log and a scan of imei". */
  lemma {:induction false} MatchesMembers(log: seq<AuditEntry>, imei: string, e: AuditEntry)
    ensures e in Matches(log, imei) <==> e in log && ScanOf(e, imei)
  {
    if log != [] {
      var init := log[..|log| - 1];
      MatchesMembers(init, imei, e);
      assert log == init + [log[|log| - 1]];
    }
  }

  /** No entry matches if and only if no entry of the log scanned imei. */
  lemma {:induction false} MatchesEmpty(log: seq<AuditEntry>, imei: string)
    ensures Matches(log, imei) == [] <==> forall k :: 0 <= k < |log| ==> !ScanOf(log[k], imei)
  {
    if log != [] {
      var init := log[..|log| - 1];
      MatchesEmpty(init, imei);
      assert forall k :: 0 <= k < |init| ==> init[k] == log[k];
    }
  }

  /** Appending an entry extends the matches by that entry exactly when it scanned imei. */
  lemma MatchesAppend(log: seq<AuditEntry>, e: AuditEntry, imei: string)
    ensures Matches(log + [e], imei) == Matches(log, imei) + (if ScanOf(e, imei) then [e] else [])
  {
    assert (log + [e])[..|log|] == log;
  }

  /** log[j] scanned imei and no later entry did. */
  predicate LastScanAt(log: seq<AuditEntry>, imei: string, j: int)
  {
    && 0 <= j < |log|
    && ScanOf(log[j], imei)
    && forall k :: j < k < |log| ==> !ScanOf(log[k], imei)
  }

  /** A device scanned at all has a last scan, at or after any of its scans. */
  lemma {:induction false} LastScanExists(log: seq<AuditEntry>, imei: string, k: nat)
    requires k < |log| && ScanOf(log[k], imei)
    ensures exists j :: k <= j && LastScanAt(log, imei, j)
  {
    var n := |log| - 1;
    if ScanOf(log[n], imei) {
      assert LastScanAt(log, imei, n);
    } else {
      var init := log[..n];
      LastScanExists(init, imei, k);
      var j :| k <= j && LastScanAt(init, imei, j);
      assert LastScanAt(log, imei, j);
    }
  }

  /**
   * When log[j] is the last entry that scanned imei, it is the last match,
   * whatever the other entries hold.
   */
  lemma {:induction false} MatchesLast(log: seq<AuditEntry>, imei: string, j: nat)
    requires LastScanAt(log, imei, j)
    ensures Matches(log, imei) != []
    ensures Matches(log, imei)[|Matches(log, imei)| - 1] == log[j]
  {
    var init := log[..|log| - 1];
    if j == |log| - 1 {
    } else {
      assert forall k :: j < k < |init| ==> init[k] == log[k];
      MatchesLast(init, imei, j);
    }
  }

  /** The two audit cells of one report row. */
  datatype AuditCells = AuditCells(status: Cell, timestamp: Cell)

  const Blank: AuditCells := AuditCells(Text(""), Text(""))
  const Missing: AuditCells := AuditCells(Text(MissingNotScanned), Text(""))

  /** The status and date of a scan, as report cells. */
  function ScanCells(e: AuditEntry): AuditCells
  {
    AuditCells(OptionCell(e.status), OptionCell(e.auditDate))
  }

  /**
   * The reconciled audit cells of one stock row: the last matching scan in
   * log order if there is one; otherwise the missing sentinel for an item in
   * stock, and two empty cells for any other item.
   */
  function Reconcile(item: StockRow, log: seq<AuditEntry>): (r: AuditCells)
    ensures (exists k :: 0 <= k < |log| && ScanOf(log[k], item.imei)) ==>
      exists e :: e in log && ScanOf(e, item.imei) && r == ScanCells(e)
  {
    var found := Matches(log, item.imei);
    MatchesEmpty(log, item.imei);
    if |found| > 0 then
      MatchesMembers(log, item.imei, found[|found| - 1]);
      ScanCells(found[|found| - 1])
    else if item.status == InStock then Missing
    else Blank
  }

  /** A scanned item reports its last scan in log order; timestamps play no part. */
  lemma ReconcileLastScan(item: StockRow, log: seq<AuditEntry>, j: nat)
    requires LastScanAt(log, item.imei, j)
    ensures Reconcile(item, log) == ScanCells(log[j])
  {
    MatchesLast(log, item.imei, j);
  }

  /** An item no entry scanned is reported missing when in stock, and blank otherwise. */
  lemma ReconcileNotScanned(item: StockRow, log: seq<AuditEntry>)
    requires forall k :: 0 <= k < |log| ==> !ScanOf(log[k], item.imei)
    ensures item.status == InStock ==> Reconcile(item, log) == Missing
    ensures item.status != InStock ==> Reconcile(item, log) == Blank
  {
    MatchesEmpty(log, item.imei);
  }

  /** A scan appended to the log is what the item reports next, whatever its date. */
  lemma ReconcileLatestWins(item: StockRow, log: seq<AuditEntry>, e: AuditEntry)
    requires ScanOf(e, item.imei)
    ensures Reconcile(item, log + [e]) == ScanCells(e)
  {
    MatchesAppend(log, e, item.imei);
  }

  /** A scan of another device leaves the item's reconciliation as it was. */
  lemma ReconcileOtherScan(item: StockRow, log: seq<AuditEntry>, e: AuditEntry)
    requires !ScanOf(e, item.imei)
    ensures Reconcile(item, log + [e]) == Reconcile(item, log)
  {
    MatchesAppend(log, e, item.imei);
  }

  /**
   * Two scans of one device, the earlier one carrying the later date: the
   * report shows the second scan, not the one with the greatest date.
   */
  lemma InsertionOrderBeatsDate(item: StockRow)
    ensures
      var first := AuditEntry(1, Some(item.imei), None, Some("Audited"), Some("2024-02-01 10:00"));
      var second := AuditEntry(2, Some(item.imei), None, Some("Sold-Found"), Some("2024-01-01 09:00"));
      Reconcile(item, [first, second]) == AuditCells(Text("Sold-Found"), Text("2024-01-01 09:00"))
  {
    var first := AuditEntry(1, Some(item.imei), None, Some("Audited"), Some("2024-02-01 10:00"));
    var second := AuditEntry(2, Some(item.imei), None, Some("Sold-Found"), Some("2024-01-01 09:00"));
    ReconcileLatestWins(item, [first], second);
    assert [first] + [second] == [first, second];
  }

  /**
   * One row of the audit report: the listed stock row with column 7 (the
   * purchase amount) dropped, then the reconciled cells; it fits the audit header.
   */
  function AuditRow(s: StockRow, log: seq<AuditEntry>): (r: seq<Cell>)
    ensures |r| == |AuditHeader|
    ensures r == StockCells(s)[..7] + StockCells(s)[8..] + [Reconcile(s, log).status, Reconcile(s, log).timestamp]
  {
    var a := Reconcile(s, log);
    [Text(s.imei), Text(s.product), Text(s.company), Text(s.model),
     Text(s.specification), Text(s.purchaseDate), Text(s.receivedFrom),
     Text(s.status), Text(s.soldTo), Text(s.soldDate),
     a.status, a.timestamp]
  }

  /**
   * The audit row is determined by the scans: any row made of the stock
   * columns without the amount, followed by the last scan's cells for a
   * scanned item and by the sentinel or blanks for an unscanned one, is it.
   */
  lemma AuditRowDetermined(s: StockRow, log: seq<AuditEntry>, row: seq<Cell>)
    requires |row| == |AuditHeader|
    requires row[..10] == StockCells(s)[..7] + StockCells(s)[8..]
    requires forall j :: LastScanAt(log, s.imei, j) ==>
      row[10] == OptionCell(log[j].status) && row[11] == OptionCell(log[j].auditDate)
    requires (forall k :: 0 <= k < |log| ==> !ScanOf(log[k], s.imei)) ==>
      row[10..] == if s.status == InStock then [Text(MissingNotScanned), Text("")] else [Text(""), Text("")]
    ensures row == AuditRow(s, log)
  {
    var a := Reconcile(s, log);
    if k :| 0 <= k < |log| && ScanOf(log[k], s.imei) {
      LastScanExists(log, s.imei, k);
      var j :| k <= j && LastScanAt(log, s.imei, j);
      ReconcileLastScan(s, log, j);
    } else {
      ReconcileNotScanned(s, log);
      assert row[10] == row[10..][0] && row[11] == row[10..][1];
    }
    assert row == row[..10] + [row[10], row[11]];
  }
}
