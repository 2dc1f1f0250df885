# TotalEnergies bill scraper — a Dafny model of its data shaping

The connector logs into the TotalEnergies customer portal, fetches the bill
history page and turns it into bill records for the Cozy "save bills"
machinery. This project models the pure part of that pipeline in
`src/index.js`:

- the **amount normaliser** `normalizeAmount` (`amounts.dfy`, with the
  JavaScript string primitives it uses in `strings.dfy` and a whole-cents
  reading of its output in `numerals.dfy`);
- the **document extractor**: the reference parse `^N° (.*)$`, the
  instalment-table rows kept by `Payée le (.*)`, one fragment per billing
  block, and the post-filter on the `false` amount (`extractor.dfy`, with
  the order-preserving filter of `seqs.dfy`);
- the **record reconciler**: the `for` loop that flattens fragments into
  bill records, one per paid instalment for a fragment with a details panel
  and exactly one otherwise (`reconciler.dfy`);
- whole runs on one-block documents of the portal's two shapes
  (`scenarios.dfy`).

The DOM traversal is not modelled: a `Block` holds the texts and attributes
the selectors return for one `.detail-facture` block, and its `details`
field holds the `action__display-zone` panel reached from the block's first
`span:nth-child(1)` descendant, if any. Dates are kept as the `DD/MM/YYYY`
text `moment` reads; the date formatters and `toFixed(2)` are parameters
(`Reconciler.Formats`). An amount is the
cleaned text handed to `parseFloat`, or `NotApplicable` for the `false`
sentinel.

Behaviour of the code that is easy to misread:

- A reference that does not match `^N° (.*)$` makes `.pop()` throw inside
  `scrape`, outside any `try`, so the whole run fails with the first such
  block (`MalformedVendorRef`). It does not skip just that fragment.
- `subBills` is an array whenever a details panel is reached, and an empty
  array is truthy. A panel without any paid row therefore yields no record,
  not one.
- A sub-bill row is kept exactly when the payment expression matches: the
  `Date` object `moment` returns is truthy even for unreadable text.
- Instalment records take their amount from the row's second cell, so one
  can be `NotApplicable` when that cell holds a ratio. Records with a `false`
  amount are not all filtered out.
- A simple-invoice fragment whose amount is `false` reaches
  `amount.toFixed(2)` and throws (`AmountNotNumeric`). This happens for an
  instalment-flagged block with no details panel.
- A missing `href` is printed by the template literal as `undefined`.

## Model

| member | source | states |
|---|---|---|
| Strings.Includes | src/index.js:205 | `includes` holds exactly when the pattern occurs at some position of the text (used for `/` here and for `Remboursée` at line 180) |
| Strings.ReplaceFirst | src/index.js:207-210 | `replace` with a string pattern splices the replacement in at the first occurrence only, and returns a text without the pattern unchanged |
| Strings.ReplaceFirstChars | src/index.js:207-210 | replacing the first occurrence of a character removes exactly one copy of it and adds the replacement's characters; if it is absent, nothing changes |
| Strings.Trim | src/index.js:211 | `trim` yields the infix left after dropping all leading and trailing JavaScript white space, and nothing more |
| Strings.TakeLine | src/index.js:131 | the group `(.*)` captures the longest prefix without a line terminator |
| Amounts.Normalize | src/index.js:204-213 | the result is the not-applicable sentinel exactly when the text contains `/`; otherwise it is the cleaned text |
| Amounts.Unspaced | src/index.js:207-210 | the three edits shorten the text by one for a `€` and one for a space, when present; the comma is replaced in place |
| Amounts.UnspacedCharacters | src/index.js:207-210 | as a bag of characters, the cleaning removes one `€`, one `,` and one space (each when present) and adds a `.` for the comma; nothing else is added or lost |
| Amounts.FirstOfEachReplaced | src/index.js:204-212 | in `<a>,<b> €<c>`, it is the first `€`, the first `,` and the first space that are edited, in place, while later copies in `<c>` stay as they are; the result is `<a>.<b><c>`, trimmed, or the sentinel when a `/` occurs |
| Amounts.PlainTextOnlyTrimmed | src/index.js:206-212 | text without `€`, `,`, space or `/` is only trimmed |
| Amounts.EurosRoundTrip | src/index.js:204-213 | an amount printed as `<int>,<dd> €` normalises to `<int>.<dd>`, which reads back as the same number of cents |
| Numerals.Fixed2RoundTrip | src/index.js:206-212 | writing cents with two decimals and reading them back gives the same cents |
| Numerals.NatStrRoundTrip | src/index.js:206-212 | a decimal numeral reads back as the number it was written from |
| Extractor.VendorRef | src/index.js:93-96 | a match yields the text after `N° `, so that prefix plus the reference rebuilds the text |
| Extractor.VendorRefMatches | src/index.js:95 | the reference expression matches exactly the texts starting with `N° ` and continuing on one line |
| Extractor.VendorRefRoundTrip | src/index.js:95 | every single-line reference is recovered from `N° <ref>` |
| Extractor.PaidDate | src/index.js:128-132 | a date exists exactly when the cell contains `Payée le `; it is the rest of the line after its first occurrence |
| Extractor.PaidDateOfMarkedCell | src/index.js:128-132 | a cell reading `Payée le <date>` yields exactly that date |
| Extractor.KeepPaid | src/index.js:125-143 | the sub-bills number the paid rows, and all share the panel's one download link |
| Extractor.KeepPaidSelects | src/index.js:126-143 | the k-th sub-bill is built from the k-th paid row: unpaid rows never appear, table order is kept |
| Extractor.SubBillsOf | src/index.js:117-147 | `subBills` is `false` exactly when no details panel is reached from the block; otherwise it lists at most the panel's rows |
| Extractor.ExtractBlock | src/index.js:87-150 | a block fails exactly when its reference does not match; otherwise every field is carried over or parsed from the block |
| Extractor.Scrape | src/index.js:87-150 | the run succeeds exactly when every reference matches, giving one fragment per block in order; otherwise it fails on the first bad block |
| Extractor.PostFilter | src/index.js:151 | a fragment is dropped exactly when its amount is the sentinel and it is not an instalment plan |
| Extractor.PostFilterOrder | src/index.js:151 | the survivors keep their document order and none is lost |
| Seqs.FilterAtPositions | src/index.js:143 | an order-preserving filter keeps exactly the elements at the matching positions, in order |
| Reconciler.Qualify | src/index.js:166 | every download URL is the site origin followed by the relative link |
| Reconciler.InstalmentRecord | src/index.js:157-176 | an instalment record names the file `echeancier_…_TotalEnergies.pdf` and carries the constant vendor and carbon-copy flag |
| Reconciler.InvoiceRecord | src/index.js:179-198 | a simple invoice throws exactly when its amount is `false`; otherwise its file name ends in `EUR<vendorRef>.pdf` |
| Reconciler.Contribution | src/index.js:155-199 | a fragment with a panel gives one record per sub-bill with the parent's reference, label and plan date in the file name; any other gives exactly one, refund iff the status contains `Remboursée`, identified by `vendorRef` |
| Reconciler.Reconcile | src/index.js:153-201 | the loop succeeds exactly when no simple invoice has a `false` amount; it emits the sum of the per-fragment counts, every record with the vendor, the carbon-copy flag and a site URL |
| Reconciler.ReconcileAppend | src/index.js:153-201 | the output is the in-order concatenation of the per-fragment outputs, and the first failure wins |
| Reconciler.ReconcilePlacement | src/index.js:155-200 | each fragment's records sit as a block after all earlier fragments' records |
| Reconciler.ReconcileLoop | src/index.js:153-201 | the push-by-push loop computes the reconciliation |
| Reconciler.ParseBill | src/index.js:87-201 | a scraping failure ends the run; a successful run yields well-shaped records, as many as the surviving fragments contribute |
| Reconciler.ParseBillSucceeds | src/index.js:151-199 | with well-formed references and a details panel behind every instalment-flagged block, the run does not throw |
| Scenarios.InvoiceRun | src/index.js:178-198 | a simple invoice `<int>,<dd> €` gives one record with that amount, its reference, the refund flag and the file name ending `EUR<ref>.pdf` |
| Scenarios.PlanRun | src/index.js:156-177 | a plan with one paid and one unpaid row gives one record dated by the payment and named after the plan's date |
| Scenarios.UnpaidPlanRun | src/index.js:156-157 | a plan whose panel has no paid row gives no record |
| Scenarios.MalformedReferenceRun | src/index.js:95 | a block without `N° ` makes the whole run throw, after well-formed blocks too |

## Left out

- Authentication, the session, the page request and `saveBills` (src/index.js:13-72): network and persistence through a library that is not part of this model.
- The fetch-failure fallback that returns no bills (src/index.js:81-85), and all logging: I/O error policy, not data shaping.
- The cheerio selectors and the traversal `closest`/`next`/`hasClass`/`find`/`attr`: their results are the input `Block`. In particular the panel is looked up only from the block's first `span:nth-child(1)` descendant (src/index.js:118-124); a block without one gets `subBills = false` even when a display zone follows it, and `Block.details` is None for it.
- `moment` parsing and formatting and `utils.formatDate`: dates are kept as their text, formatters are parameters.
- Amounts.Normalize: stops at the text given to `parseFloat`; floating point is not modelled, and only the `<int>,<dd> €` shape is read back as exact cents.
- Reconciler.InvoiceRecord: the amount part of the file name (`toFixed(2)`) is a parameter, so its form is not stated.
