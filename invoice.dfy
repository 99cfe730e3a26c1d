// `generateInvoicePDF`: the draw calls the invoice makes on its jsPDF
// document, with the positions it computes, the running total and the file
// name it saves under. Drawing itself is not modelled: the document is the
// list of calls.

module Invoice {
  import opened Optional
  import opened Domain
  import opened JsText
  import Cart

  datatype Style = Bold | Normal

  /** One call on the document; a text call carries the lines it writes. */
  datatype Op =
    | FontSize(size: int)
    | Font(style: Style)
    | Text(lines: seq<string>, x: int, y: int, centered: bool)
    | Rule(x1: int, y1: int, x2: int, y2: int)

  /** `doc.splitTextToSize(text, width)`: the lines jsPDF wraps a text into. */
  type Splitter = (string, int) -> seq<string>

  /** Names longer than this many UTF-16 units are wrapped. */
  const WrapThreshold := 40

  /** Where the table header sits, and where the first row starts. */
  const TableHeaderY := 100
  const FirstRowY := 110

  function Label(s: string, x: int, y: int): Op {
    Text([s], x, y, false)
  }

  /** `if (orderData.address)`: present and not empty. */
  predicate HasAddress(d: OrderData) {
    d.address.Some? && d.address.value != ""
  }

  function OrderTypeText(t: OrderType): string {
    if t == Delivery then "Livraison à domicile" else "Retrait en magasin"
  }

  /** The shop's letterhead and the invoice number and date. */
  function LetterheadOps(orderNumber: string, today: string): seq<Op> {
    [ FontSize(22), Label("Patis't Délice", 20, 20),
      FontSize(10), Label("123 Rue de la Pâtisserie", 20, 27), Label("75001 Paris", 20, 32),
      Label("Tél: 01 23 45 67 89", 20, 37),
      FontSize(18), Label("FACTURE", 150, 20),
      FontSize(10), Label("N° " + orderNumber, 150, 27), Label("Date: " + today, 150, 32) ]
  }

  /** The customer block; the address line only when the address is truthy. */
  function CustomerOps(d: OrderData): seq<Op> {
    [ FontSize(12), Label("Client:", 20, 50),
      FontSize(10), Label(d.name, 20, 57), Label(d.email, 20, 62), Label(d.phone, 20, 67) ]
    + (if HasAddress(d) then [Label(d.address.value, 20, 72)] else [])
  }

  /** The order type, and the pickup date when one is set, whatever the type. */
  function OrderTypeOps(d: OrderData, formatDate: DateFormat): seq<Op> {
    [ FontSize(10), Label("Type: " + OrderTypeText(d.orderType), 20, 82) ]
    + (match d.pickupDate
       case Some(p) => [Label("Date de retrait: " + formatDate(p), 20, 87)]
       case None => [])
  }

  function TableHeaderOps(y: int): seq<Op> {
    [ FontSize(10), Font(Bold),
      Label("Article", 20, y), Label("Qté", 120, y), Label("Prix Unit.", 140, y), Label("Total", 170, y),
      Font(Normal), Rule(20, y + 2, 190, y + 2) ]
  }

  predicate IsWrapped(item: LineItem) {
    Utf16Length(item.product.name) > WrapThreshold
  }

  /** The height a wrapped name takes above the row's cells. */
  function NameHeight(item: LineItem, split: Splitter): nat {
    if IsWrapped(item) then |split(item.product.name, 90)| * 5 else 0
  }

  /** The y of a row's quantity, price and total cells. */
  function CellY(item: LineItem, y: int, split: Splitter): int {
    y + NameHeight(item, split)
  }

  /** The y at which the next row starts. */
  function NextRowY(item: LineItem, y: int, split: Splitter): int {
    CellY(item, y, split) + 7
  }

  function Euros(cents: int): string {
    FormatFixed2(cents) + " €"
  }

  /** The calls for one item row starting at `y`. */
  function RowOps(item: LineItem, y: int, split: Splitter): seq<Op> {
    var name := item.product.name;
    var cy := CellY(item, y, split);
    [ if IsWrapped(item) then Text(split(name, 90), 20, y, false) else Label(name, 20, y),
      Label(IntToString(item.quantity), 120, cy),
      Label(Euros(item.product.price), 140, cy),
      Label(Euros(LineTotal(item)), 170, cy) ]
  }

  /** The y after the rows for `items`, the first one starting at `y0`. */
  function RowsEnd(items: seq<LineItem>, y0: int, split: Splitter): int {
    if items == [] then y0
    else NextRowY(items[|items| - 1], RowsEnd(items[..|items| - 1], y0, split), split)
  }

  /** The calls for the rows of `items`, in order. */
  function RowsOps(items: seq<LineItem>, y0: int, split: Splitter): seq<Op> {
    if items == [] then []
    else
      var prefix := items[..|items| - 1];
      RowsOps(prefix, y0, split) + RowOps(items[|items| - 1], RowsEnd(prefix, y0, split), split)
  }

  /** The separator 5 below the last row and the TOTAL TTC row 10 below that. */
  function TotalOps(end: int, total: int): seq<Op> {
    [ Rule(20, end + 5, 190, end + 5),
      Font(Bold), FontSize(12),
      Label("TOTAL TTC", 120, end + 15), Label(Euros(total), 170, end + 15) ]
  }

  /** The notes block 15 below the TOTAL row at `y`, only for non-empty notes. */
  function NotesOps(notes: string, y: int, split: Splitter): seq<Op> {
    if notes == "" then []
    else
      [ Font(Normal), FontSize(10),
        Label("Notes:", 20, y + 15), Text(split(notes, 170), 20, y + 20, false) ]
  }

  function FooterOps(): seq<Op> {
    [ FontSize(8),
      Text(["Merci pour votre commande ! À très bientôt chez Patis't Délice"], 105, 280, true) ]
  }

  /** `facture_<number>_<name>.pdf`, each whitespace run of the name turned into one `_`. */
  function FileName(orderNumber: string, name: string): string {
    "facture_" + orderNumber + "_" + CollapseWhiteSpace(name) + ".pdf"
  }

  /** Everything the invoice draws, in order. */
  function InvoiceOps(d: OrderData, items: seq<LineItem>, orderNumber: string, today: string,
                      formatDate: DateFormat, split: Splitter): seq<Op>
  {
    var end := RowsEnd(items, FirstRowY, split);
    LetterheadOps(orderNumber, today) + CustomerOps(d) + OrderTypeOps(d, formatDate)
    + TableHeaderOps(TableHeaderY) + RowsOps(items, FirstRowY, split)
    + TotalOps(end, Cart.Total(items)) + NotesOps(d.notes, end + 15, split) + FooterOps()
  }

  /**
   * `generateInvoicePDF(orderData, cartItems, orderNumber)`. `today` is the
   * date the document is made, `formatDate` the French date format and
   * `split` jsPDF's line wrapping.
   */
  method GenerateInvoicePdf(d: OrderData, items: seq<LineItem>, orderNumber: string, today: string,
                            formatDate: DateFormat, split: Splitter)
    returns (doc: seq<Op>, fileName: string, total: int)
    ensures doc == InvoiceOps(d, items, orderNumber, today, formatDate, split)
    ensures total == Cart.Total(items)
    ensures fileName == FileName(orderNumber, d.name)
  {
    doc := LetterheadOps(orderNumber, today) + CustomerOps(d) + OrderTypeOps(d, formatDate);
    var y := TableHeaderY;
    doc := doc + TableHeaderOps(y);
    y := y + 10;
    var rows;
    rows, y, total := DrawItemRows(items, y, split);
    doc := doc + rows;
    ghost var upToRows := doc;
    var end := y;
    y := y + 5;
    doc := doc + [Rule(20, y, 190, y)];
    y := y + 10;
    doc := doc + [Font(Bold), FontSize(12), Label("TOTAL TTC", 120, y), Label(Euros(total), 170, y)];
    assert doc == upToRows + TotalOps(end, total);
    ghost var upToTotal := doc;
    if d.notes != "" {
      y := y + 15;
      doc := doc + [Font(Normal), FontSize(10), Label("Notes:", 20, y), Text(split(d.notes, 170), 20, y + 5, false)];
    }
    assert doc == upToTotal + NotesOps(d.notes, end + 15, split);
    doc := doc + FooterOps();
    fileName := "facture_" + orderNumber + "_" + CollapseWhiteSpace(d.name) + ".pdf";
  }

  /** The `cartItems.forEach` loop: the rows from `y0` down, the y after them and the running total. */
  method DrawItemRows(items: seq<LineItem>, y0: int, split: Splitter)
    returns (ops: seq<Op>, y: int, total: int)
    ensures ops == RowsOps(items, y0, split)
    ensures y == RowsEnd(items, y0, split)
    ensures total == Cart.Total(items)
  {
    ops := [];
    y := y0;
    total := 0;
    var i := 0;
    while i < |items|
      invariant 0 <= i <= |items|
      invariant y == RowsEnd(items[..i], y0, split)
      invariant total == Cart.Total(items[..i])
      invariant ops == RowsOps(items[..i], y0, split)
    {
      var item := items[i];
      RowsSnoc(items, i, y0, split);
      Cart.TotalOfPrefix(items, i);
      var itemTotal := LineTotal(item);
      total := total + itemTotal;
      var row;
      row, y := DrawRow(item, itemTotal, y, split);
      ops := ops + row;
      i := i + 1;
    }
    assert items[..i] == items;
  }

  /** One pass of the loop body: the row for `item` at `y`, and the y of the next row. */
  method DrawRow(item: LineItem, itemTotal: int, y: int, split: Splitter) returns (row: seq<Op>, next: int)
    requires itemTotal == LineTotal(item)
    ensures row == RowOps(item, y, split)
    ensures next == NextRowY(item, y, split)
  {
    var name := item.product.name;
    var cellY := y;
    var nameOp;
    if Utf16Length(name) > WrapThreshold {
      var lines := split(name, 90);
      nameOp := Text(lines, 20, y, false);
      cellY := cellY + |lines| * 5;
    } else {
      nameOp := Label(name, 20, y);
    }
    row := [nameOp, Label(IntToString(item.quantity), 120, cellY),
            Label(Euros(item.product.price), 140, cellY), Label(Euros(itemTotal), 170, cellY)];
    next := cellY + 7;
  }

  /** One more row: the rows of the first `i + 1` items. */
  lemma RowsSnoc(items: seq<LineItem>, i: nat, y0: int, split: Splitter)
    requires i < |items|
    ensures RowsOps(items[..i + 1], y0, split)
         == RowsOps(items[..i], y0, split) + RowOps(items[i], RowsEnd(items[..i], y0, split), split)
    ensures RowsEnd(items[..i + 1], y0, split)
         == NextRowY(items[i], RowsEnd(items[..i], y0, split), split)
  {
    assert items[..i + 1][..i] == items[..i];
  }

  // ------------------------------------------------------------------ layout

  /** The y-coordinate an op is drawn at, for texts and rules. */
  function OpY(op: Op): int
    requires op.Text? || op.Rule?
  {
    if op.Text? then op.y else op.y1
  }

  /** Every row moves the next one down by at least 7. */
  lemma {:induction false} RowsEndBelow(items: seq<LineItem>, y0: int, split: Splitter)
    ensures RowsEnd(items, y0, split) >= y0 + 7 * |items|
  {
    if items != [] {
      RowsEndBelow(items[..|items| - 1], y0, split);
    }
  }

  /** The row of item `i` starts where the rows before it end. */
  function RowStart(items: seq<LineItem>, i: nat, split: Splitter): int
    requires i <= |items|
  {
    RowsEnd(items[..i], FirstRowY, split)
  }

  /** Row starts advance: by 7 plus 5 per wrapped line for each row, so strictly. */
  lemma RowStartStep(items: seq<LineItem>, i: nat, split: Splitter)
    requires i < |items|
    ensures RowStart(items, i + 1, split)
         == RowStart(items, i, split) + 7
            + (if IsWrapped(items[i]) then 5 * |split(items[i].product.name, 90)| else 0)
  {
    assert items[..i + 1][..i] == items[..i];
  }

  /** Rows never go back up: row `j` starts at least 7 per row below row `i`. */
  lemma {:induction false} RowStartsIncrease(items: seq<LineItem>, i: nat, j: nat, split: Splitter)
    requires i <= j <= |items|
    ensures RowStart(items, j, split) >= RowStart(items, i, split) + 7 * (j - i)
  {
    if i < j {
      RowStartsIncrease(items, i, j - 1, split);
      RowStartStep(items, j - 1, split);
    }
  }

  /** A row's calls are all texts, between its start and 7 above the next row's start. */
  lemma RowOpsWithin(item: LineItem, y: int, split: Splitter)
    ensures forall op :: op in RowOps(item, y, split) ==>
      op.Text? && y <= op.y && op.y + 7 <= NextRowY(item, y, split)
  {
  }

  /** Every item call lies in the band from the first row to where the rows end. */
  lemma {:induction false} RowsOpsWithin(items: seq<LineItem>, y0: int, split: Splitter)
    ensures forall op :: op in RowsOps(items, y0, split) ==>
      op.Text? && y0 <= op.y < RowsEnd(items, y0, split)
  {
    if items != [] {
      var prefix := items[..|items| - 1];
      RowsOpsWithin(prefix, y0, split);
      RowsEndBelow(prefix, y0, split);
      RowOpsWithin(items[|items| - 1], RowsEnd(prefix, y0, split), split);
    }
  }

  /**
   * The page reads top to bottom: every item row lies below the table
   * header and above the separator drawn 5 below the last row.
   */
  lemma RowsBetweenHeaderAndTotal(items: seq<LineItem>, split: Splitter)
    ensures RowsEnd(items, FirstRowY, split) >= FirstRowY + 7 * |items|
    ensures forall op :: op in RowsOps(items, FirstRowY, split) ==>
      op.Text? && TableHeaderY < op.y < RowsEnd(items, FirstRowY, split) + 5
  {
    RowsEndBelow(items, FirstRowY, split);
    RowsOpsWithin(items, FirstRowY, split);
  }

  /** The separator sits 5 below the last row, and the TOTAL row 15 below it shows the sum. */
  lemma TotalBlock(end: int, total: int)
    ensures TotalOps(end, total)[0] == Rule(20, end + 5, 190, end + 5)
    ensures TotalOps(end, total)[3] == Label("TOTAL TTC", 120, end + 15)
    ensures TotalOps(end, total)[4] == Label(Euros(total), 170, end + 15)
  {
  }

  /** The notes block exists exactly for non-empty notes, its heading 15 below the TOTAL row. */
  lemma NotesBlock(notes: string, y: int, split: Splitter)
    ensures NotesOps(notes, y, split) == [] <==> notes == ""
    ensures notes != "" ==> NotesOps(notes, y, split)[2] == Label("Notes:", 20, y + 15)
    ensures notes != "" ==> NotesOps(notes, y, split)[3] == Text(split(notes, 170), 20, y + 20, false)
  {
  }

  /** The customer block has a line at y = 72 exactly when the address is truthy. */
  lemma AddressLine(d: OrderData)
    ensures (exists op :: op in CustomerOps(d) && op.Text? && op.y == 72) <==> HasAddress(d)
  {
    if HasAddress(d) {
      assert Label(d.address.value, 20, 72) in CustomerOps(d);
    }
  }

  /** The order-type block has a line at y = 87 exactly when a pickup date is set. */
  lemma PickupDateLine(d: OrderData, formatDate: DateFormat)
    ensures (exists op :: op in OrderTypeOps(d, formatDate) && op.Text? && op.y == 87) <==> d.pickupDate.Some?
  {
    if d.pickupDate.Some? {
      assert Label("Date de retrait: " + formatDate(d.pickupDate.value), 20, 87) in OrderTypeOps(d, formatDate);
    }
  }

  /** The file name keeps its fixed frame, and its name part holds no whitespace. */
  lemma FileNameShape(orderNumber: string, name: string)
    ensures var f := FileName(orderNumber, name);
      var n := |f| - |orderNumber| - 13;
      && |f| >= |orderNumber| + 13
      && f[..|orderNumber| + 9] == "facture_" + orderNumber + "_"
      && f[|f| - 4..] == ".pdf"
      && f[|orderNumber| + 9..|f| - 4] == CollapseWhiteSpace(name)
      && n == |CollapseWhiteSpace(name)|
      && forall i :: |orderNumber| + 9 <= i < |f| - 4 ==> !IsWhiteSpace(f[i])
  {
    var c := CollapseWhiteSpace(name);
    var f := FileName(orderNumber, name);
    var p := "facture_" + orderNumber + "_";
    assert f == p + c + ".pdf";
    CollapseHasNoWhiteSpace(name);
    forall i | |orderNumber| + 9 <= i < |f| - 4 ensures !IsWhiteSpace(f[i]) {
      assert f[i] == c[i - |p|];
    }
  }

  /** A name without whitespace goes into the file name as it is. */
  lemma FileNameOfPlainName(orderNumber: string, name: string)
    requires forall i :: 0 <= i < |name| ==> !IsWhiteSpace(name[i])
    ensures FileName(orderNumber, name) == "facture_" + orderNumber + "_" + name + ".pdf"
  {
    CollapseKeepsPlainText(name);
  }
}
