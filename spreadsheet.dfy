// The spreadsheet side of the migration: how the rows of the mapping sheet become page
// records (page and column types read from their columns, the hierarchy, the visibility,
// the menu title and the URLs), and how the news sheet becomes update records.  The
// workbook is given by its worksheets; authentication and reading are not modelled.

module Spreadsheet {
  import opened Wrappers
  import opened PyStr
  import opened Collecting
  import opened HierarchyUtils
  import opened UrlUtils

  type Row = seq<string>

  /** A worksheet: its title and its rows of cell texts. */
  datatype Worksheet = Worksheet(title: string, rows: seq<Row>)

  /** The first worksheet whose lowercase title contains `word`, as `next(...)` picks it. */
  function SheetNamed(workbook: seq<Worksheet>, word: string): (r: Option<Worksheet>)
    ensures r.Some? ==> r.value in workbook && Contains(Lower(r.value.title), word)
    ensures r.None? <==> forall i :: 0 <= i < |workbook| ==> !Contains(Lower(workbook[i].title), word)
  {
    if workbook == [] then None
    else if Contains(Lower(workbook[0].title), word) then Some(workbook[0])
    else
      var r := SheetNamed(workbook[1..], word);
      assert forall i :: 1 <= i < |workbook| ==> workbook[i] == workbook[1..][i - 1];
      r
  }

  // ---------------------------------------------------------------- page types

  const PageTypes: set<string> := {"portlet", "node", "link_to_layout", "url"}
  const PagePrefix := "p\U{00E1}gina "

  /** Column 12, or `widget` when it is missing, blank or `-`. */
  function PageTypeCell(row: Row): string
  {
    if |row| > 12 && Strip(row[12]) != "" && Strip(row[12]) != "-" then row[12] else "widget"
  }

  /** The cell lowercased, without `página `, trimmed. */
  function FormatPageType(item: string): (r: string)
    ensures r == [] || (r[0] !in Whitespace && r[|r| - 1] !in Whitespace)
  {
    var s := Replace(Lower(item), PagePrefix, "");
    StripEnds(s, Whitespace);
    Strip(s)
  }

  /** The page type a formatted cell stands for; anything unknown is a widget page. */
  function PageTypeOf(item: string): (r: string)
    ensures r in PageTypes
    ensures r == "node" <==> item == "definida"
    ensures r == "link_to_layout" <==> item == "vincular a uma pagina desse site"
    ensures r == "url" <==> item == "vincular a uma url"
  {
    if item == "widget" then "portlet"
    else if item == "definida" then "node"
    else if item == "vincular a uma pagina desse site" then "link_to_layout"
    else if item == "vincular a uma url" then "url"
    else "portlet"
  }

  /** The `type` of the page of a row. */
  function PageTypeName(row: Row): string
  {
    PageTypeOf(FormatPageType(PageTypeCell(row)))
  }

  lemma WidgetFormatted()
    ensures FormatPageType("widget") == "widget"
  {
    assert Lower("widget") == "widget" by {
      LowerIs("widget", "widget");
    }
    ContainsLacking("widget", PagePrefix, 'p');
    ReplaceAbsent("widget", PagePrefix, "");
    StripUnchanged("widget", Whitespace);
  }

  /** A missing, blank or `-` page-type cell gives a widget (`portlet`) page. */
  lemma DefaultPageType(row: Row)
    requires |row| <= 12 || Strip(row[12]) == "" || Strip(row[12]) == "-"
    ensures PageTypeName(row) == "portlet"
  {
    assert PageTypeCell(row) == "widget";
    WidgetFormatted();
    var f := FormatPageType("widget");
    assert f == "widget";
    assert PageTypeOf(f) == "portlet";
  }

  /** `Lower(s) == t` when they agree character by character. */
  lemma LowerIs(s: string, t: string)
    requires |s| == |t| && forall i :: 0 <= i < |s| ==> LowerChar(s[i]) == t[i]
    ensures Lower(s) == t
  {
  }

  /** A leading `Página `, in whatever case, makes no difference. */
  lemma PagePrefixIgnored(w: string)
    ensures FormatPageType("P\U{00E1}gina " + w) == FormatPageType(w)
  {
    var p := "P\U{00E1}gina ";
    assert Lower(p) == PagePrefix by {
      LowerIs(p, PagePrefix);
    }
    assert Lower(p + w) == PagePrefix + Lower(w);
    ReplaceAfterPrefix(Lower(w));
  }

  lemma ReplaceAfterPrefix(t: string)
    ensures Replace(PagePrefix + t, PagePrefix, "") == Replace(t, PagePrefix, "")
  {
    var s := PagePrefix + t;
    assert s[..|PagePrefix|] == PagePrefix && s[|PagePrefix|..] == t;
  }

  /** A cell already in canonical form is read as it is. */
  lemma CanonicalPageType(item: string)
    requires Lower(item) == item && !Contains(item, PagePrefix)
    requires item == [] || (item[0] !in Whitespace && item[|item| - 1] !in Whitespace)
    ensures FormatPageType(item) == item
  {
    ReplaceAbsent(item, PagePrefix, "");
    StripUnchanged(item, Whitespace);
  }

  // ---------------------------------------------------------------- column types

  const ColumnTypes: set<string> := {"1_column", "2_columns_ii"}

  /** Column 16, or `1_column` when it is missing, blank or `-`. */
  function ColumnTypeCell(row: Row): string
  {
    if |row| > 16 && Strip(row[16]) != "" && Strip(row[16]) != "-" then row[16] else "1_column"
  }

  /** `1 coluna` is one column, `30/70` two columns; anything else one column. */
  function ColumnTypeOf(item: string): (r: string)
    ensures r in ColumnTypes
    ensures r == "2_columns_ii" <==> Lower(Strip(item)) == "30/70"
  {
    var t := Lower(Strip(item));
    if t == "1 coluna" then "1_column"
    else if t == "30/70" then "2_columns_ii"
    else "1_column"
  }

  /** The `column_type` of the page of a row. */
  function ColumnTypeName(row: Row): string
  {
    ColumnTypeOf(ColumnTypeCell(row))
  }

  /** A missing, blank or `-` column-type cell gives one column. */
  lemma DefaultColumnType(row: Row)
    requires |row| <= 16 || Strip(row[16]) == "" || Strip(row[16]) == "-"
    ensures ColumnTypeName(row) == "1_column"
  {
    assert "1_column"[0] != "30/70"[0];
    assert Lower(Strip("1_column"))[0] == LowerChar(Strip("1_column")[0]);
    StripUnchanged("1_column", Whitespace);
  }

  // ---------------------------------------------------------------- pages

  /** One page record of the mapping. */
  datatype Page = Page(
    title: string,
    url: string,
    destination: string,
    hierarchy: seq<string>,
    pageType: string,
    visible: bool,
    columnType: string,
    menuTitle: Option<string>,
    urlVincular: string)

  /** The cell `k`, stripped, or empty when it is missing or empty. */
  function Cell(row: Row, k: nat): string
  {
    if |row| > k && row[k] != "" then Strip(row[k]) else ""
  }

  /** Whether a row names a page: a source, at least nine cells, and a hierarchy. */
  predicate Selected(row: Row)
  {
    |row| > 8 && row[0] != "" && row[6] != ""
  }

  /** The page a row gives, or `None` when the row is skipped. */
  function PageOf(row: Row, baseDomain: string): (r: Option<Page>)
    ensures r.Some? <==>
              && Selected(row)
              && FilterHierarchy(row[6]) != []
              && Strip(FilterHierarchy(row[6])[|FilterHierarchy(row[6])| - 1]) != ""
    ensures r.Some? ==>
              && r.value.hierarchy == FilterHierarchy(row[6])
              && r.value.title == r.value.hierarchy[|r.value.hierarchy| - 1]
              && (r.value.visible <==> row[7] == "" || Lower(Strip(row[7])) == "menu")
              && (r.value.menuTitle.None? <==> row[8] == "")
              && r.value.pageType in PageTypes && r.value.columnType in ColumnTypes
  {
    if !Selected(row) then None
    else
      var hierarchy := FilterHierarchy(row[6]);
      if hierarchy == [] then None
      else
        var title := hierarchy[|hierarchy| - 1];
        var visibility := if row[7] != "" then Lower(Strip(row[7])) else "menu";
        var menuTitle := if row[8] != "" then Some(Strip(row[8])) else None;
        if Strip(title) == "" then None
        else Some(Page(title, Built(Cell(row, 0), baseDomain), Built(Cell(row, 1), baseDomain), hierarchy,
                       PageTypeName(row), visibility == "menu", ColumnTypeName(row), menuTitle, Cell(row, 15)))
  }

  /** The pages of the data rows, in row order. */
  function PagesOf(rows: seq<Row>, baseDomain: string): seq<Page>
  {
    Collected(rows, (row: Row) => PageOf(row, baseDomain))
  }

  /** The body of the row loop: the page of one row, with its URLs built. */
  method PageFromRow(row: Row, baseDomain: string) returns (page: Option<Page>)
    ensures page == PageOf(row, baseDomain)
  {
    if !Selected(row) {
      return None;
    }
    var hierarchy := FilterHierarchy(row[6]);
    if hierarchy == [] {
      return None;
    }
    var title := hierarchy[|hierarchy| - 1];
    var visibility := if row[7] != "" then Lower(Strip(row[7])) else "menu";
    var menuTitle := if row[8] != "" then Some(Strip(row[8])) else None;
    var source := BuildUrl(Cell(row, 0), baseDomain);
    var destination := BuildUrl(Cell(row, 1), baseDomain);
    if Strip(title) == "" {
      return None;
    }
    var visible := visibility == "menu";
    page := Some(Page(title, source, destination, hierarchy, PageTypeName(row), visible,
                      ColumnTypeName(row), menuTitle, Cell(row, 15)));
  }

  /** The row loop of `get_sheet_data` over the rows below the header. */
  method BuildPages(rows: seq<Row>, baseDomain: string) returns (pages: seq<Page>)
    ensures pages == PagesOf(rows, baseDomain)
  {
    var read := (row: Row) => PageOf(row, baseDomain);
    pages := [];
    for i := 0 to |rows|
      invariant pages == Collected(rows[..i], read)
    {
      CollectedSnoc(rows, i, read);
      var page := PageFromRow(rows[i], baseDomain);
      if page.Some? {
        pages := pages + [page.value];
      }
    }
    assert rows[..|rows|] == rows;
  }

  /**
   * `get_sheet_data` for the mapping: the first worksheet called `mapeamento`, its rows
   * without the header; `None` where `next` finds no such sheet and raises.
   */
  function SheetData(workbook: seq<Worksheet>, baseDomain: string): Option<seq<Page>>
  {
    match SheetNamed(workbook, "mapeamento")
    case None => None
    case Some(sheet) => Some(PagesOf(if sheet.rows == [] then [] else sheet.rows[1..], baseDomain))
  }

  /** Every page comes from a row that names it. */
  lemma PagesFromRows(rows: seq<Row>, baseDomain: string, k: nat)
    requires k < |PagesOf(rows, baseDomain)|
    ensures exists i :: 0 <= i < |rows| && PageOf(rows[i], baseDomain) == Some(PagesOf(rows, baseDomain)[k])
  {
    CollectedFrom(rows, (row: Row) => PageOf(row, baseDomain), k);
  }

  /** The pages of earlier rows come before those of later rows; a skipped row adds nothing. */
  lemma PagesInRowOrder(a: seq<Row>, b: seq<Row>, row: Row, baseDomain: string)
    ensures PagesOf(a + b, baseDomain) == PagesOf(a, baseDomain) + PagesOf(b, baseDomain)
    ensures PageOf(row, baseDomain).None? ==> PagesOf(a + [row], baseDomain) == PagesOf(a, baseDomain)
  {
    var read := (r: Row) => PageOf(r, baseDomain);
    CollectedConcat(a, b, read);
    CollectedConcat(a, [row], read);
    assert [row][..0] == [];
  }

  /** A row with fewer than nine cells, or without a source or a hierarchy, gives no page. */
  lemma ShortRowSkipped(row: Row, baseDomain: string)
    requires |row| <= 8 || row[0] == "" || row[6] == ""
    ensures PageOf(row, baseDomain).None?
  {
  }

  // ---------------------------------------------------------------- get_sheet_update_data

  /** One update record of the news sheet. */
  datatype UpdatePage = UpdatePage(title: string, articleId: string, destination: string)

  function UpdateRows(rows: seq<Row>): (r: Option<seq<UpdatePage>>)
    ensures r.Some? <==> forall i :: 0 <= i < |rows| ==> |rows[i]| >= 2
    ensures r.Some? ==> |r.value| == |rows| && forall i :: 0 <= i < |rows| ==>
              r.value[i] == UpdatePage(rows[i][0], rows[i][1], rows[i][1])
  {
    if rows == [] then Some([])
    else
      var front := UpdateRows(rows[..|rows| - 1]);
      var last := rows[|rows| - 1];
      assert forall i :: 0 <= i < |rows| - 1 ==> rows[..|rows| - 1][i] == rows[i];
      if front.None? || |last| < 2 then None
      else Some(front.value + [UpdatePage(last[0], last[1], last[1])])
  }

  /**
   * `get_sheet_update_data`: the rows of the first worksheet called `semob`, each read as
   * title, article ID and destination; nothing when there is no such sheet or a row has
   * fewer than two cells (both raise, and the error is logged).
   */
  function UpdateData(workbook: seq<Worksheet>): (r: seq<UpdatePage>)
  {
    match SheetNamed(workbook, "semob")
    case None => []
    case Some(sheet) => UpdateRows(sheet.rows).GetOr([])
  }

  /** The loop of `get_sheet_update_data`. */
  method GetSheetUpdateData(workbook: seq<Worksheet>) returns (pages: seq<UpdatePage>)
    ensures pages == UpdateData(workbook)
  {
    var sheet := SheetNamed(workbook, "semob");
    if sheet.None? {
      return [];
    }
    var rows := sheet.value.rows;
    pages := [];
    for i := 0 to |rows|
      invariant UpdateRows(rows[..i]) == Some(pages)
    {
      assert rows[..i + 1][..i] == rows[..i];
      if |rows[i]| < 2 {
        assert UpdateRows(rows).None?;
        return [];
      }
      pages := pages + [UpdatePage(rows[i][0], rows[i][1], rows[i][1])];
    }
    assert rows[..|rows|] == rows;
  }

  /**
   * With every row holding at least two cells, there is one record per row, in order,
   * whose article ID and destination are both the second cell; otherwise none at all.
   */
  lemma UpdateDataRows(workbook: seq<Worksheet>, sheet: Worksheet)
    requires SheetNamed(workbook, "semob") == Some(sheet)
    ensures (forall i :: 0 <= i < |sheet.rows| ==> |sheet.rows[i]| >= 2) ==>
              && |UpdateData(workbook)| == |sheet.rows|
              && forall i :: 0 <= i < |sheet.rows| ==>
                   UpdateData(workbook)[i] == UpdatePage(sheet.rows[i][0], sheet.rows[i][1], sheet.rows[i][1])
    ensures (exists i :: 0 <= i < |sheet.rows| && |sheet.rows[i]| < 2) ==> UpdateData(workbook) == []
  {
  }
}
