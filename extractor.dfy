/** The batch loop of the upload handler (app.py:41-88): parse the page
    count, walk the page batches, read a serial number from the first page and
    invoice numbers from the third, and append one spreadsheet row per batch
    that has a serial number.

    Rasterization and OCR are one input, `convert`: given a page range it
    returns either `Failed` (the conversion raised) or the OCR text of each
    image it produced, in page order. */
module Extractor {
  import opened Wrappers
  import opened Text
  import opened SerialScan
  import opened InvoiceScan
  import opened PageCount
  import opened InvoiceCell
  import opened Batching

  /** What rasterizing one batch and reading its images gives. */
  datatype Conversion = Failed | Converted(pageTexts: seq<string>)

  /** The structured result of one batch. */
  datatype Record = Record(serial: string, invoices: seq<string>)

  /** A spreadsheet row of two cells. */
  datatype Row = Row(serialCell: string, invoiceCell: string)

  const Header: Row := Row("Payment Serial Number", "Invoice Number(s)")

  const SheetTitle: string := "Check-Invoice Mapping"

  const OutputSuffix: string := "_output.xlsx"

  /** What the handler sends back: the workbook, or the message page shown
      when the page count cannot be read. */
  datatype Response =
    | CouldNotReadPdf
    | Workbook(fileName: string, title: string, sheet: seq<Row>)

  /** The record of one batch: the serial number from the first image if there
      is one, the invoice numbers from the third image if there is one, and a
      record only when the serial number is non-empty. */
  function BatchRecord(c: Conversion): (r: Option<Record>)
    ensures r.Some? <==> c.Converted? && |c.pageTexts| >= 1 && FindSerial(c.pageTexts[0]).Some?
    ensures r.Some? ==> r.value.serial != "" && AllDigits(r.value.serial)
    ensures r.Some? ==> forall w | w in r.value.invoices :: IsInvoiceNumber(w)
  {
    match c
    case Failed => None
    case Converted(texts) =>
      var serial := if |texts| >= 1 then FindSerial(texts[0]) else None;
      var invoices := if |texts| >= 3 then FindInvoices(texts[2]) else [];
      if serial.Some? && serial.value != "" then Some(Record(serial.value, invoices)) else None
  }

  /** The rows a batch appends: one for a record, none otherwise. */
  function BatchRows(c: Conversion): (rows: seq<Row>)
    ensures |rows| <= 1
  {
    match BatchRecord(c)
    case None => []
    case Some(rec) => [Row(rec.serial, Join(rec.invoices))]
  }

  /** The rows of a sequence of batch results, in batch order. */
  function Rows(cs: seq<Conversion>): (rows: seq<Row>)
    decreases |cs|
  {
    if cs == [] then [] else BatchRows(cs[0]) + Rows(cs[1..])
  }

  /** The conversion results of the batches, in order. */
  function Conversions(bs: seq<Batch>, convert: (nat, nat) -> Conversion): (cs: seq<Conversion>)
    ensures |cs| == |bs|
    ensures forall k | 0 <= k < |bs| :: cs[k] == convert(bs[k].first, bs[k].last)
    decreases |bs|
  {
    if bs == [] then [] else [convert(bs[0].first, bs[0].last)] + Conversions(bs[1..], convert)
  }

  /** The finished sheet for a document of `totalPages` pages. */
  function Sheet(totalPages: nat, convert: (nat, nat) -> Conversion): (sheet: seq<Row>) {
    [Header] + Rows(Conversions(Batches(totalPages), convert))
  }

  lemma AppendAssoc<T>(a: seq<T>, b: seq<T>, c: seq<T>)
    ensures (a + b) + c == a + (b + c)
  {
  }

  /** One turn of the loop consumes the first remaining batch. */
  lemma NextBatch(start: nat, totalPages: nat, convert: (nat, nat) -> Conversion)
    requires start <= totalPages
    ensures Rows(Conversions(BatchesFrom(start, totalPages), convert)) ==
            BatchRows(convert(start, Min(start + BatchSize - 1, totalPages)))
            + Rows(Conversions(BatchesFrom(start + BatchSize, totalPages), convert))
  {
    var cs := Conversions(BatchesFrom(start, totalPages), convert);
    assert cs[1..] == Conversions(BatchesFrom(start + BatchSize, totalPages), convert);
  }

  /** The loop of app.py:53-83, appending to the sheet that holds the header. */
  method ExtractRows(totalPages: nat, convert: (nat, nat) -> Conversion) returns (sheet: seq<Row>)
    ensures sheet == Sheet(totalPages, convert)
  {
    sheet := [Header];
    var start: nat := 1;
    while start <= totalPages
      invariant sheet + Rows(Conversions(BatchesFrom(start, totalPages), convert)) == Sheet(totalPages, convert)
      decreases totalPages + 1 - start
    {
      var end := Min(start + BatchSize - 1, totalPages);
      var conversion := convert(start, end);
      NextBatch(start, totalPages, convert);
      ghost var before := sheet;
      // A failed conversion skips the batch and the loop goes on.
      if conversion.Converted? {
        var texts := conversion.pageTexts;
        var serial: Option<string> := None;
        var invoices: seq<string> := [];
        if |texts| >= 1 {
          serial := FindSerial(texts[0]);
        }
        if |texts| >= 3 {
          invoices := FindInvoices(texts[2]);
        }
        assert BatchRecord(conversion) ==
               if serial.Some? && serial.value != "" then Some(Record(serial.value, invoices)) else None;
        if serial.Some? && serial.value != "" {
          sheet := sheet + [Row(serial.value, Join(invoices))];
        }
      }
      assert sheet == before + BatchRows(conversion);
      ghost var later := Rows(Conversions(BatchesFrom(start + BatchSize, totalPages), convert));
      assert sheet + later == Sheet(totalPages, convert) by {
        AppendAssoc(before, BatchRows(conversion), later);
      }
      start := start + BatchSize;
    }
  }

  /** The upload handler from the `pdfinfo` output on: `None` stands for the
      tool failing or its output not decoding as UTF-8. The file name is the upload's stem with `_output.xlsx`. */
  method Upload(stem: string, pdfInfo: Option<string>, convert: (nat, nat) -> Conversion)
    returns (r: Response)
    ensures r.CouldNotReadPdf? <==> pdfInfo.None? || ParsePageCount(pdfInfo.value).None?
    ensures r.Workbook? ==>
              r.fileName == stem + OutputSuffix && r.title == SheetTitle
              && r.sheet == Sheet(ParsePageCount(pdfInfo.value).value, convert)
  {
    if pdfInfo.None? {
      return CouldNotReadPdf;
    }
    var totalPages := ParsePageCount(pdfInfo.value);
    if totalPages.None? {
      return CouldNotReadPdf;
    }
    var sheet := ExtractRows(totalPages.value, convert);
    r := Workbook(stem + OutputSuffix, SheetTitle, sheet);
  }

  // ---- What the sheet holds ----

  lemma {:induction false} RowsAppend(a: seq<Conversion>, b: seq<Conversion>)
    ensures Rows(a + b) == Rows(a) + Rows(b)
    decreases |a|
  {
    if a == [] {
      assert a + b == b;
    } else {
      assert (a + b)[0] == a[0] && (a + b)[1..] == a[1..] + b;
      calc {
        Rows(a + b);
        BatchRows(a[0]) + Rows(a[1..] + b);
        { RowsAppend(a[1..], b); }
        BatchRows(a[0]) + (Rows(a[1..]) + Rows(b));
        { AppendAssoc(BatchRows(a[0]), Rows(a[1..]), Rows(b)); }
        Rows(a) + Rows(b);
      }
    }
  }

  /** A batch whose conversion fails adds no row, and the batches after it
      still add theirs, in order. */
  lemma FailedBatchIsSkipped(before: seq<Conversion>, after: seq<Conversion>)
    ensures Rows(before + [Failed] + after) == Rows(before) + Rows(after)
  {
    RowsAppend(before + [Failed], after);
    RowsAppend(before, [Failed]);
  }

  /** The sheet is the header and then, batch by batch, the row of each batch
      that has one: the rows of the first k batches come before the rest. */
  lemma SheetInBatchOrder(totalPages: nat, convert: (nat, nat) -> Conversion, k: nat)
    requires k <= |Batches(totalPages)|
    ensures var cs := Conversions(Batches(totalPages), convert);
            Sheet(totalPages, convert) == [Header] + Rows(cs[..k]) + Rows(cs[k..])
  {
    var cs := Conversions(Batches(totalPages), convert);
    assert cs == cs[..k] + cs[k..];
    RowsAppend(cs[..k], cs[k..]);
  }

  /** The sheet has at most one row per batch after the header. */
  lemma {:induction false} RowsAtMostOnePerBatch(cs: seq<Conversion>)
    ensures |Rows(cs)| <= |cs|
    decreases |cs|
  {
    if cs != [] {
      RowsAtMostOnePerBatch(cs[1..]);
    }
  }

  /** A batch adds a row exactly when a serial number is found on its first
      page, whatever its third page says; the row holds that serial number, and
      splitting its second cell on ", " gives back the invoice numbers of the
      third page, or none when the batch has fewer than three images. */
  lemma BatchRowIffSerial(c: Conversion)
    ensures |BatchRows(c)| == 1 <==> c.Converted? && |c.pageTexts| >= 1 && FindSerial(c.pageTexts[0]).Some?
    ensures |BatchRows(c)| == 1 ==>
              BatchRows(c)[0].serialCell == FindSerial(c.pageTexts[0]).value
              && ParseCell(BatchRows(c)[0].invoiceCell) ==
                 (if |c.pageTexts| >= 3 then FindInvoices(c.pageTexts[2]) else [])
  {
    if BatchRecord(c).Some? {
      var rec := BatchRecord(c).value;
      forall x | x in rec.invoices ensures x != "" && NoComma(x) {
        assert IsInvoiceNumber(x);
        forall k | 0 <= k < |x| ensures x[k] != ',' {
          assert IsDigit(x[k]);
        }
      }
      JoinParseRoundTrip(rec.invoices);
    }
  }

  /** A batch of fewer than three images never carries invoice numbers. */
  lemma ShortBatchHasNoInvoices(c: Conversion)
    requires c.Converted? && |c.pageTexts| < 3
    ensures BatchRecord(c).Some? ==> BatchRecord(c).value.invoices == []
    ensures forall row | row in BatchRows(c) :: row.invoiceCell == ""
  {
  }

  /** A 7-page document is read as the batches 1-3, 4-6 and 7-7. */
  lemma SevenPageBatches()
    ensures Batches(7) == [Batch(1, 3), Batch(4, 6), Batch(7, 7)]
  {
  }

  lemma ExampleSerial()
    ensures FindSerial("Payment Serial Number: 12345") == Some("12345")
  {
    var s := "Payment Serial Number: 12345";
    assert s[0..|Label|] == Label;
    assert RunEnd(s, 21, IsSpace) == 21;
    assert s[21] == ':';
    assert RunEnd(s, 22, IsSpace) == 23;
    assert RunEnd(s, 23, IsDigit) == 28;
    assert s[23..28] == "12345";
    assert SerialAt(s, 0) == Some("12345");
  }

  const InvoiceLine: string := "Invoice 98765 and 54321"

  lemma ExampleSkipsWord()
    ensures FindAllFrom(InvoiceLine, 0) == FindAllFrom(InvoiceLine, 8)
  {
    var s := InvoiceLine;
    RunEndUnique(s, 0, IsWordChar, 7);
    WordStartStep(s, 0);
    assert !IsDigit(s[0..7][0]);
    NonWordStep(s, 7);
  }

  lemma ExampleFirstInvoice()
    ensures FindAllFrom(InvoiceLine, 8) == ["98765"] + FindAllFrom(InvoiceLine, 14)
  {
    var s := InvoiceLine;
    RunEndUnique(s, 8, IsWordChar, 13);
    assert s[8..13] == "98765";
    assert IsInvoiceNumber("98765");
    WordStartStep(s, 8);
    NonWordStep(s, 13);
  }

  lemma ExampleSkipsAnd()
    ensures FindAllFrom(InvoiceLine, 14) == FindAllFrom(InvoiceLine, 18)
  {
    var s := InvoiceLine;
    RunEndUnique(s, 14, IsWordChar, 17);
    WordStartStep(s, 14);
    assert !IsDigit(s[14..17][0]);
    NonWordStep(s, 17);
  }

  lemma ExampleSecondInvoice()
    ensures FindAllFrom(InvoiceLine, 18) == ["54321"]
  {
    var s := InvoiceLine;
    RunEndUnique(s, 18, IsWordChar, 23);
    assert s[18..23] == "54321";
    assert IsInvoiceNumber("54321");
    WordStartStep(s, 18);
  }

  lemma ExampleInvoices()
    ensures FindInvoices(InvoiceLine) == ["98765", "54321"]
  {
    ExampleSkipsWord();
    ExampleFirstInvoice();
    ExampleSkipsAnd();
    ExampleSecondInvoice();
  }

  /** A batch whose first page names serial 12345 and whose third page lists
      98765 and 54321 gives the record ("12345", ["98765", "54321"]). */
  lemma ExampleRecord()
    ensures BatchRecord(Converted(["Payment Serial Number: 12345", "", InvoiceLine]))
            == Some(Record("12345", ["98765", "54321"]))
  {
    ExampleSerial();
    ExampleInvoices();
  }
}
