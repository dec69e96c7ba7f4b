/**
 * GET /api/export.csv (server.js:130-175): a header record, then one record
 * per order of the requested business date in store order, each field
 * quoted as needed and the records joined with line feeds.
 */
module Export {

  import opened Wrappers
  import opened Text
  import opened Orders
  import opened Reports
  import opened Csv

  const Header: seq<string> := ["id", "businessDate", "status", "orderType", "createdBy",
                                "createdAt", "acceptedAt", "doneAt", "notes", "items"]


  /**
   * `${qty}x ${name}`, then ` (note)` when there is a note and ` $price`
   * when the price is a number; `fixed2` renders a price with two decimals.
   */
  function ItemText(it: LineItem, fixed2: real -> string): string {
    IntToString(it.qty) + "x " + it.name
    + (if it.note != "" then " (" + it.note + ")" else "")
    + (match it.price case Some(p) => " $" + fixed2(p) case None => "")
  }

  /** `items.map(...)`: each line item's text, in order. */
  function ItemTexts(items: seq<LineItem>, fixed2: real -> string): (r: seq<string>)
    ensures |r| == |items|
    ensures forall i :: 0 <= i < |r| ==> r[i] == ItemText(items[i], fixed2)
    decreases |items|
  {
    if items == [] then [] else [ItemText(items[0], fixed2)] + ItemTexts(items[1..], fixed2)
  }

  /** The items column: the line items' texts joined with " | ". */
  function ItemsText(items: seq<LineItem>, fixed2: real -> string): string {
    Join(ItemTexts(items, fixed2), " | ")
  }

  /**
   * One more line item puts its text at the end of the column, after a
   * separator unless it is the first; no items give an empty column.
   */
  lemma ItemsTextAppend(items: seq<LineItem>, it: LineItem, fixed2: real -> string)
    ensures ItemsText([], fixed2) == ""
    ensures ItemsText(items + [it], fixed2)
            == if items == [] then ItemText(it, fixed2) else ItemsText(items, fixed2) + " | " + ItemText(it, fixed2)
  {
    var texts := ItemTexts(items, fixed2);
    assert ItemTexts(items + [it], fixed2) == texts + [ItemText(it, fixed2)];
    JoinAppend(texts, ItemText(it, fixed2), " | ");
  }

  /** When no item's text holds a `|`, the column holds one per separator. */
  lemma ItemsSeparatorCount(items: seq<LineItem>, fixed2: real -> string)
    requires |items| >= 1
    requires forall i :: 0 <= i < |items| ==> CountChar(ItemText(items[i], fixed2), '|') == 0
    ensures CountChar(ItemsText(items, fixed2), '|') == |items| - 1
  {
    CountCharJoin(ItemTexts(items, fixed2), " | ", '|');
    assert CountChar(" | ", '|') == 1 by {
      assert " | "[1..] == "| " && "| "[1..] == " " && " "[1..] == "";
    }
  }

  /** `(v ?? "").toString()` for a timestamp that may be null. */
  function StampText(t: Option<nat>): string {
    match t
    case Some(ms) => NatToString(ms)
    case None => ""
  }

  /** The values of one order's record, before quoting (canceledAt is not exported). */
  function RowFields(o: Order, fixed2: real -> string): (r: seq<string>)
    ensures |r| == |Header|
  {
    [IntToString(o.id), o.businessDate, StatusName(o.status), o.orderType, o.createdBy,
     NatToString(o.createdAt), StampText(o.acceptedAt), StampText(o.doneAt), o.notes,
     ItemsText(o.items, fixed2)]
  }

  /** The records of the listed orders, in order. */
  function Rows(list: seq<Order>, fixed2: real -> string): (r: seq<seq<string>>)
    ensures |r| == |list|
    decreases |list|
  {
    if list == [] then [] else [RowFields(list[0], fixed2)] + Rows(list[1..], fixed2)
  }

  /** Every exported record has as many fields as the header. */
  lemma {:induction false} RowsWidth(list: seq<Order>, fixed2: real -> string)
    ensures forall i :: 0 <= i < |list| ==> |Rows(list, fixed2)[i]| == |Header|
    ensures NoEmptyRecord(Rows(list, fixed2))
    decreases |list|
  {
    if list != [] {
      RowsWidth(list[1..], fixed2);
      var r := Rows(list, fixed2);
      assert r[1..] == Rows(list[1..], fixed2);
      forall i | 1 <= i < |list|
        ensures |r[i]| == |Header|
      {
        assert r[i] == r[1..][i - 1];
      }
    }
  }

  lemma {:induction false} RowsAppend(list: seq<Order>, o: Order, fixed2: real -> string)
    ensures Rows(list + [o], fixed2) == Rows(list, fixed2) + [RowFields(o, fixed2)]
    decreases |list|
  {
    if list != [] {
      assert (list + [o])[1..] == list[1..] + [o];
      RowsAppend(list[1..], o, fixed2);
    } else {
      assert list + [o] == [o];
    }
  }

  /** The header is written without quoting, which is what quoting would give. */
  lemma HeaderIsRenderedRow()
    ensures Join(Header, ",") == RenderRow(Header)
  {
    forall i | 0 <= i < |Header|
      ensures !NeedsQuotes(Header[i])
    {
    }
    QuoteAllPlain(Header);
  }

  /**
   * The export for `date` (today's when ""): the orders of that business
   * date in store order. It is the CSV document of the header and each
   * order's record, and read back it is those fields, unaltered by the quoting.
   */
  method ExportCsv(db: seq<Order>, date: string, today: string, fixed2: real -> string)
    returns (csv: string)
    ensures csv == RenderCsv([Header] + Rows(OnDate(db, EffectiveDate(date, today)), fixed2))
    ensures ParseCsv(csv) == Some([Header] + Rows(OnDate(db, EffectiveDate(date, today)), fixed2))
  {
    var list := OnDate(db, EffectiveDate(date, today));
    csv := RenderExport(list, fixed2);
  }

  /** The export: the header line, then one line per order, joined with line feeds. */
  method RenderExport(list: seq<Order>, fixed2: real -> string) returns (csv: string)
    ensures csv == RenderCsv([Header] + Rows(list, fixed2))
    ensures ParseCsv(csv) == Some([Header] + Rows(list, fixed2))
  {
    var body := RecordLines(list, fixed2);
    csv := Join([Join(Header, ",")] + body, "\n");
    ExportReadsBack(list, fixed2);
  }

  /** The loop over the listed orders: one rendered record per order, in order. */
  method RecordLines(list: seq<Order>, fixed2: real -> string) returns (lines: seq<string>)
    ensures lines == RenderLines(Rows(list, fixed2))
  {
    lines := [];
    for k := 0 to |list|
      invariant lines == RenderLines(Rows(list[..k], fixed2))
    {
      RenderNextRow(list, k, fixed2);
      lines := lines + [RenderRow(RowFields(list[k], fixed2))];
    }
    assert list[..|list|] == list;
  }

  /** One more order of the list adds its rendered record as one more line. */
  lemma RenderNextRow(list: seq<Order>, k: nat, fixed2: real -> string)
    requires k < |list|
    ensures RenderLines(Rows(list[..k + 1], fixed2))
            == RenderLines(Rows(list[..k], fixed2)) + [RenderRow(RowFields(list[k], fixed2))]
  {
    assert list[..k + 1] == list[..k] + [list[k]];
    RowsAppend(list[..k], list[k], fixed2);
    RenderLinesAppend(Rows(list[..k], fixed2), RowFields(list[k], fixed2));
  }

  /**
   * The header line and the rendered records are the document of the header
   * and the records, and read back as them.
   */
  lemma ExportReadsBack(list: seq<Order>, fixed2: real -> string)
    ensures Join([Join(Header, ",")] + RenderLines(Rows(list, fixed2)), "\n")
            == RenderCsv([Header] + Rows(list, fixed2))
    ensures ParseCsv(Join([Join(Header, ",")] + RenderLines(Rows(list, fixed2)), "\n"))
            == Some([Header] + Rows(list, fixed2))
  {
    var lines := [Join(Header, ",")] + RenderLines(Rows(list, fixed2));
    var rows := [Header] + Rows(list, fixed2);
    HeaderIsRenderedRow();
    assert rows[1..] == Rows(list, fixed2);
    RowsWidth(list, fixed2);
    assert NoEmptyRecord(rows);
    assert lines == RenderLines(rows);
    CsvRoundTrip(rows);
  }
}
