# Invoice OCR batch extractor — a Dafny model

The application takes an uploaded scanned PDF and returns a spreadsheet that
pairs payment serial numbers with invoice numbers. Its logic is in the
`upload` handler of `app.py`:

- It reads the page count from the digit run right after the first `Pages:`
  that is followed by whitespace and then a digit, anywhere in `pdfinfo`'s
  output (normally its own `Pages:` line). A `Pages:` followed by whitespace
  and no digit is passed over. The request ends with a "Could not read PDF"
  page when `pdfinfo` fails, when its output is not valid UTF-8, when there
  is no such `Pages:`, or when the digits are more than `int()` accepts (4300
  by default).
- It walks the pages in batches of three: 1-3, 4-6, …. The last batch is cut
  at the page count.
- It rasterizes each batch. A batch whose rasterization raises is skipped.
- It OCRs the first image and searches it for
  `Payment Serial Number\s*:\s*(\d+)`.
- It OCRs the third image, when there is one, and collects every
  `\b\d{5,}\b`.
- When a serial number was found, it appends the row
  `[serial, ", ".join(invoices)]` under the fixed header.
- It names the workbook `<stem>_output.xlsx`.

The model has one Dafny module per part of that logic:

- `Text`: the ASCII character classes, greedy runs and `re.search`'s leftmost
  choice of a match.
- `SerialScan` and `PageCount`: the two searches. Each is proved equal to the
  leftmost match of its pattern, with the pattern stated by positions.
- `InvoiceScan`: `findall` modelled position by position, the way the regex
  engine runs. It is proved to return exactly the maximal word-character runs
  that are all digits and at least five long, in textual order.
- `InvoiceCell`: the `", "` join and the split that reads a cell back.
- `Batching`: the batch ranges and the proof that they partition the pages.
- `Extractor`: the per-batch record rule, the loop as a method that appends to
  the sheet, and the upload handler from the `pdfinfo` output on.

Rasterization and OCR together are one input,
`convert: (nat, nat) -> Conversion`. Given a page range, it returns `Failed` or
`Converted(pageTexts)`, with one OCR text per image. The `pdfinfo` output is an
`Option<string>`, where `None` means the tool failed or its output could not
be decoded as UTF-8.

Three behaviours of the code are worth stating plainly, and the model keeps
all three:

- `Pages: 0` is accepted: the loop runs no batch and the workbook holds only
  the header.
- `\b` is a word boundary, so a digit run next to a letter or `_` is never
  captured as an invoice number.
- `pdfinfo` prints the document's title, subject and other metadata before
  its `Pages:` line, so a title holding `Pages: 2` sets the page count to 2
  whatever the real count is.

## Model

| member | source | states |
|---|---|---|
| Text.Leftmost | app.py:72 | the position returned has a match and no earlier position has one; `None` only when no position from the start through the end of the text matches (`re.search` scanning order) |
| Text.RunEndUnique | app.py:72 | a run that ends where the character class ends is the greedy run, so backtracking offers `\s*`, `\d+` no other end |
| SerialScan.FindSerial | app.py:72-74 | a serial number found is non-empty and all digits, so the truthiness test `if serial_number` passes whenever the search matched |
| SerialScan.SerialAtIsPatternMatch | app.py:72 | the anchored scanner succeeds exactly where `Payment Serial Number\s*:\s*(\d+)` matches, stated by positions, and then returns the maximal digit group |
| SerialScan.FindSerialIsLeftmostMatch | app.py:70-74 | no serial number exactly when the pattern matches nowhere; otherwise the digit group of the leftmost match |
| PageCount.PagesAtIsPatternMatch | app.py:42 | the anchored scanner succeeds exactly where `Pages:\s+(\d+)` matches, with at least one whitespace character, and returns the maximal digit run |
| PageCount.ParsePageCountIsLeftmostMatch | app.py:41-44 | `ParsePageCount` gives no page count (the request aborts) exactly when the pattern matches nowhere or the leftmost match has more than 4300 digits, which `int()` rejects; otherwise the decimal value of the leftmost match's digits |
| PageCount.PagesWithoutDigitsIsSkipped | app.py:42 | for output `Pages: x` followed by the line `Pages: 9`, the page count is 9: a `Pages:` with no digit after its whitespace does not match and the search moves on |
| PageCount.TitleBeforePagesLine | app.py:42 | for output whose title line reads `Title: Pages: 2` before the line `Pages: 9`, the page count is 2: the search takes the leftmost match anywhere in the output |
| InvoiceScan.InvoiceAt | app.py:79 | an anchored match spans at least five characters, all digits |
| InvoiceScan.InvoiceAtIsPatternMatch | app.py:79 | the anchored scanner succeeds exactly where `\b\d{5,}\b` can match at that position, stated by positions, and every end the pattern could accept is the one the scanner returns, so backtracking yields no other match |
| InvoiceScan.NoBoundaryInsideDigitRun | app.py:79 | no end inside a digit run satisfies the closing `\b`, so giving digits back to `\d{5,}` never yields a match |
| InvoiceScan.FindAllFrom | app.py:79 | every string `findall` returns is at least five characters long and all digits |
| InvoiceScan.FindInvoices | app.py:79 | every invoice number of a page text is at least five characters long and all digits |
| InvoiceScan.FindInvoicesIsInvoiceWords | app.py:79 | the scan equals the list of the text's maximal word-character runs, filtered to those that are all digits and at least five long, in textual order |
| InvoiceScan.InvoiceNumbersAreMaximalDigitRuns | app.py:79 | a string is captured if and only if it is all digits, at least five long and a maximal word-character run of the text; shorter runs and runs touching a letter or `_` are never captured |
| InvoiceCell.JoinParseRoundTrip | app.py:83 | splitting the cell that `Join` builds with `", "` recovers the list when no element is empty or holds a comma; the empty list gives the empty cell |
| Batching.BatchesShape | app.py:53-54 | `Batches(N)`, the ranges the loop visits, has ceil(N/3) elements and batch k is `[3k+1, min(3k+3, N)]` |
| Batching.BatchSizes | app.py:53-54 | every batch lies in `[1, N]` and holds one to three pages; every batch but the last holds exactly three |
| Batching.BatchesPartition | app.py:53-54 | page p lies in batch (p-1)/3 and in no other; the first batch starts at page 1, the last ends at page N, and consecutive batches are adjacent |
| Extractor.SevenPageBatches | app.py:53-54 | a 7-page document gives the batches 1-3, 4-6 and 7-7 |
| Extractor.BatchRecord | app.py:66-82 | a batch has a record if and only if it converted, has an image and a serial number is found on its first page; the record's serial is non-empty and all digits, and its invoices are all invoice numbers |
| Extractor.BatchRows | app.py:82-83 | a batch appends at most one row |
| Extractor.BatchRowIffSerial | app.py:66-83 | `BatchRows`: a batch adds a row exactly when a serial number is found on its first page, whatever the third page says; the row holds that serial, and splitting its second cell gives back the third page's invoice numbers, or none when there are fewer than three images |
| Extractor.ShortBatchHasNoInvoices | app.py:77-80 | a batch of fewer than three images carries no invoice numbers and its invoice cell is empty |
| Extractor.ExampleRecord | app.py:66-83 | first page "Payment Serial Number: 12345" and third page "Invoice 98765 and 54321" give the record ("12345", ["98765", "54321"]) |
| Extractor.RowsAppend | app.py:53-83 | the rows of consecutive runs of batches are the rows of each run, in order |
| Extractor.FailedBatchIsSkipped | app.py:55-64 | a batch whose conversion fails adds no row, and the batches after it still add theirs, in order |
| Extractor.SheetInBatchOrder | app.py:50-83 | the sheet is the header, then the rows of the first k batches, then the rows of the rest |
| Extractor.RowsAtMostOnePerBatch | app.py:82-83 | the sheet has at most one row per batch below the header |
| Extractor.ExtractRows | app.py:50-83 | the loop leaves exactly the header followed by the rows of the batches, in batch order, computed from the conversion of each page range `[s, min(s+2, N)]` |
| Extractor.Upload | app.py:39-88 | the request ends with "Could not read PDF" exactly when `pdfinfo` fails, its output is not valid UTF-8, or it has no page count that `int()` accepts (no match, or more than 4300 digits); otherwise, with OCR and saving taken as never failing, the workbook is named `<stem>_output.xlsx`, titled "Check-Invoice Mapping", and holds the sheet for that page count |

## Left out

- Flask routing, upload-file checks and template rendering (app.py:18-37, 90, 92-93): web I/O, outside the extraction logic.
- `secure_filename` and `os.path.splitext` (app.py:32, 86): library code whose source is not part of this model; the upload's stem is taken as given.
- The `pdfinfo` subprocess and the UTF-8 decoding of its output (app.py:41): an external tool, represented only by its decoded output text or a failure.
- `convert_from_path` and `pytesseract` (app.py:56-61, 71, 78): external engines, represented only by the OCR text of each image or a conversion failure. The model does not constrain how many images a conversion returns.
- Workbook creation, saving and `send_file` (app.py:47-49, 88-90): file I/O; the sheet is a sequence of rows.
- The diagnostic `print` on a failed conversion (app.py:63): logging only.
- Concurrent uploads of the same file name racing on the output path: a concurrency issue outside a sequential model.
- The limit on `int()` of a digit string is taken as CPython's default of 4300 digits (`MaxIntDigits`); an interpreter configured with another limit, or one older than the limit, is not modelled.
- Unicode semantics of `\d`, `\s` and `\w`: the model is faithful for ASCII text only; any other character counts as neither a digit, a word character nor whitespace, whereas Python's `str` patterns accept Unicode digits, letters and spaces.
- Extractor.Upload: an exception raised by OCR or by saving the workbook (app.py:71, 78, 88) is outside any `try`, so it leaves the handler and no workbook is sent; the model treats OCR and saving as total and has no such outcome.
- Extractor.Upload: the error page's text, which embeds the Python exception's message, is not modelled; the result only says that the PDF could not be read.
