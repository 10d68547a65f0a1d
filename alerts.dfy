/**
 * `/Student/Alerts`: the unread and read alert tables, parsed by the same
 * row rule.
 */
module Alerts {
  import opened Wrappers
  import opened Dom
  import opened Http

  /**
   * One `tr` of an alerts table: whether it has class `GrdAltRow`, the value
   * of its hidden `hdnIdcode` input, and the trimmed text of each labelled
   * element, each `None` when the row has no such element.
   */
  datatype AlertRow = AlertRow(
    isAltRow: bool,
    hiddenId: Option<string>,
    title: Option<string>,
    heading: Option<string>,
    description: Option<string>,
    readStatus: Option<string>,
    update: Option<string>,
    readMessage: Option<string>)

  datatype Alert = Alert(
    id: string, title: string, heading: string, description: string, readStatus: string, date: string)

  datatype AlertsData = AlertsData(unreadAlerts: seq<Alert>, readAlerts: seq<Alert>)

  /** The alert tables of a page, by id. */
  type AlertTables = map<string, seq<AlertRow>>

  const AlertsEndpoint := "/Student/Alerts"
  const UnreadTableId := "MCPH1_SCPH_gvAlerts"
  const ReadTableId := "MCPH1_SCPH_gvReadMessege"

  /** `table.querySelectorAll("tr.GrdAltRow")` */
  function GrdAltRows(rows: seq<AlertRow>): (alt: seq<AlertRow>)
    ensures |alt| <= |rows|
    ensures forall r :: r in alt ==> r.isAltRow
  {
    OnlyAltRowsSelected(rows);
    Select(rows, IsAltRow, Same)
  }

  predicate IsAltRow(row: AlertRow) {
    row.isAltRow
  }

  function Same(row: AlertRow): AlertRow {
    row
  }

  lemma OnlyAltRowsSelected(rows: seq<AlertRow>)
    ensures forall r :: r in Select(rows, IsAltRow, Same) ==> r.isAltRow
  {
    forall r | r in Select(rows, IsAltRow, Same) ensures r.isAltRow {
      SelectMembers(rows, IsAltRow, Same, r);
    }
  }

  /**
   * The date is the `lblUpdate` element's text whenever that element exists,
   * even when its text is empty; otherwise the `lblReadMessege` text; else `""`.
   */
  function AlertDate(row: AlertRow): (date: string)
    ensures row.update.Some? ==> date == row.update.value
    ensures row.update.None? && row.readMessage.Some? ==> date == row.readMessage.value
    ensures row.update.None? && row.readMessage.None? ==> date == ""
  {
    if row.update.Some? then row.update.value else row.readMessage.GetOr("")
  }

  /** The alert a row describes; a missing element reads as `""`. */
  function AlertOf(row: AlertRow): Alert {
    Alert(row.hiddenId.GetOr(""), row.title.GetOr(""), row.heading.GetOr(""),
          row.description.GetOr(""), row.readStatus.GetOr(""), AlertDate(row))
  }

  /** A row is an alert when its id, title, heading and description are all non-empty. */
  predicate IsComplete(row: AlertRow) {
    var a := AlertOf(row);
    a.id != "" && a.title != "" && a.heading != "" && a.description != ""
  }

  /** The alerts of a table, `[]` for a missing one. */
  function AlertsOf(table: Option<seq<AlertRow>>): (alerts: seq<Alert>)
    ensures table.None? ==> alerts == []
    ensures table.Some? ==> |alerts| <= |GrdAltRows(table.value)|
  {
    if table.None? then [] else Select(GrdAltRows(table.value), IsComplete, AlertOf)
  }

  /**
   * An alert is produced exactly by a `GrdAltRow` row whose id, title,
   * heading and description are all non-empty.
   */
  lemma AlertsMembers(rows: seq<AlertRow>, a: Alert)
    ensures a in AlertsOf(Some(rows))
      <==> exists i :: 0 <= i < |rows| && rows[i].isAltRow && IsComplete(rows[i]) && AlertOf(rows[i]) == a
  {
    var alt := GrdAltRows(rows);
    SelectMembers(alt, IsComplete, AlertOf, a);
    if exists k :: 0 <= k < |alt| && IsComplete(alt[k]) && AlertOf(alt[k]) == a {
      var k :| 0 <= k < |alt| && IsComplete(alt[k]) && AlertOf(alt[k]) == a;
      SelectMembers(rows, IsAltRow, Same, alt[k]);
    }
    if exists i :: 0 <= i < |rows| && rows[i].isAltRow && IsComplete(rows[i]) && AlertOf(rows[i]) == a {
      var i :| 0 <= i < |rows| && rows[i].isAltRow && IsComplete(rows[i]) && AlertOf(rows[i]) == a;
      SelectMembers(rows, IsAltRow, Same, rows[i]);
    }
  }

  /** Every alert has the four required fields. */
  lemma AlertsComplete(rows: seq<AlertRow>)
    ensures forall a :: a in AlertsOf(Some(rows)) ==> a.id != "" && a.title != "" && a.heading != "" && a.description != ""
  {
    forall a | a in AlertsOf(Some(rows))
      ensures a.id != "" && a.title != "" && a.heading != "" && a.description != ""
    {
      AlertsMembers(rows, a);
    }
  }

  /** A later row's alert comes after the earlier ones. */
  lemma AlertsInRowOrder(rows: seq<AlertRow>, row: AlertRow)
    ensures AlertsOf(Some(rows + [row]))
      == AlertsOf(Some(rows)) + (if row.isAltRow && IsComplete(row) then [AlertOf(row)] else [])
  {
    SelectConcat(rows, [row], IsAltRow, Same);
    SelectOne(row, IsAltRow, Same);
    SelectConcat(GrdAltRows(rows), GrdAltRows([row]), IsComplete, AlertOf);
    if row.isAltRow {
      SelectOne(row, IsComplete, AlertOf);
    }
  }

  /** `parseAlertsTable`: the `forEach` over the `GrdAltRow` rows. */
  method ParseAlertsTable(table: Option<seq<AlertRow>>) returns (alerts: seq<Alert>)
    ensures alerts == AlertsOf(table)
  {
    if table.None? {
      return [];
    }
    alerts := [];
    var rows := GrdAltRows(table.value);
    var i := 0;
    while i < |rows|
      invariant 0 <= i <= |rows|
      invariant alerts == Select(rows[..i], IsComplete, AlertOf)
    {
      var row := rows[i];
      var id := row.hiddenId.GetOr("");
      var title := row.title.GetOr("");
      var heading := row.heading.GetOr("");
      var description := row.description.GetOr("");
      var readStatus := row.readStatus.GetOr("");
      var date := if row.update.Some? then row.update.value else row.readMessage.GetOr("");
      SelectSnoc(rows, i, IsComplete, AlertOf);
      if id != "" && title != "" && heading != "" && description != "" {
        alerts := alerts + [Alert(id, title, heading, description, readStatus, date)];
      }
      i := i + 1;
    }
    assert rows[..i] == rows;
  }

  /** `fetchAlertsData`: load the page, then parse each table on its own. */
  method FetchAlertsData(response: Response<AlertTables>) returns (request: Request, result: Result<AlertsData, int>)
    ensures request == Get(AlertsEndpoint)
    ensures !response.Ok() ==> result == Failure(response.status)
    ensures response.Ok() ==> result == Success(AlertsData(
      AlertsOf(TableById(response.body, UnreadTableId)), AlertsOf(TableById(response.body, ReadTableId))))
  {
    request := Get(AlertsEndpoint);
    if !response.Ok() {
      return request, Failure(response.status);
    }
    var unreadAlerts := ParseAlertsTable(TableById(response.body, UnreadTableId));
    var readAlerts := ParseAlertsTable(TableById(response.body, ReadTableId));
    result := Success(AlertsData(unreadAlerts, readAlerts));
  }

  /** Changing the read table leaves the unread alerts as they were. */
  lemma UnreadIndependentOfRead(tables: AlertTables, rows: seq<AlertRow>)
    ensures AlertsOf(TableById(tables[ReadTableId := rows], UnreadTableId)) == AlertsOf(TableById(tables, UnreadTableId))
  {
  }
}
