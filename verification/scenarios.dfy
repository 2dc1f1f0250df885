/** Whole runs of the scraper on one-block documents of the shapes the portal
    prints: a simple invoice, and an instalment plan with a details panel. */
module Scenarios {
  import opened Wrappers
  import opened Strings
  import opened Numerals
  import opened Amounts
  import opened Extractor
  import opened Reconciler

  /** A simple invoice block: reference "N° <ref>", amount "<int>,<dd> €". */
  function InvoiceBlock(ref: string, dateText: string, status: string, cents: nat, url: string): Block {
    Block("Facture", RefPrefix + ref, dateText, status, Euros(cents), false, Some(url), None)
  }

  /** The portal's amount text normalises to the two-decimal figure. */
  lemma EurosNormalize(cents: nat)
    ensures Normalize(Euros(cents)) == Value(Fixed2(cents))
  {
    EurosRoundTrip(cents);
  }

  /** The fragment a simple invoice block is parsed into. */
  function InvoiceFragment(ref: string, dateText: string, status: string, cents: nat, url: string): Fragment {
    Fragment("Facture", ref, Date(dateText), status, Value(Fixed2(cents)), false, Some(url), NoPanel)
  }

  lemma InvoiceParsed(ref: string, dateText: string, status: string, cents: nat, url: string, fmt: Formats)
    requires SingleLine(ref)
    ensures var f := InvoiceFragment(ref, dateText, status, cents, url);
            ParseBill([InvoiceBlock(ref, dateText, status, cents, url)], fmt) == Success([InvoiceRecord(f, fmt).value])
  {
    var b := InvoiceBlock(ref, dateText, status, cents, url);
    var f := InvoiceFragment(ref, dateText, status, cents, url);
    assert ExtractBlock(b) == Success(f) by {
      VendorRefRoundTrip(ref);
      EurosNormalize(cents);
    }
    ScrapeSingle(b);
    PostFilterSingle(f);
    ReconcileSingle(f, fmt);
    InvoiceContribution(f, fmt);
  }

  /** A simple invoice gives exactly one record: its amount with a decimal
      point, its reference, a refund flag set exactly when the status
      contains "Remboursée", and a file name ending in "EUR<ref>.pdf". */
  lemma InvoiceRun(ref: string, dateText: string, status: string, cents: nat, url: string, fmt: Formats)
    requires SingleLine(ref)
    ensures var r := ParseBill([InvoiceBlock(ref, dateText, status, cents, url)], fmt);
            && r.Success? && |r.value| == 1
            && r.value[0].amount == Value(Fixed2(cents))
            && r.value[0].vendorRef == ref
            && (r.value[0].isRefund == Some(true) <==> exists i :: OccursAt(status, RefundMarker, i))
            && r.value[0].fileIdAttributes == Some(["vendorRef"])
            && r.value[0].fileurl == Origin + url
            && r.value[0].filename
               == fmt.display(Date(dateText)) + "_TotalEnergies_" + fmt.fixed2(Fixed2(cents)) + "EUR" + ref + ".pdf"
  {
    InvoiceParsed(ref, dateText, status, cents, url, fmt);
  }

  /** A one-block document scrapes to the block's own fragment. */
  lemma ScrapeSingle(b: Block)
    requires ExtractBlock(b).Success?
    ensures Scrape([b]) == Success([ExtractBlock(b).value])
  {
    assert WellFormed([b][0]);
    var fs := Scrape([b]).value;
    assert ExtractBlock([b][0]) == Success(fs[0]);
    assert fs == [fs[0]];
  }

  /** A single surviving fragment passes the post-filter unchanged. */
  lemma PostFilterSingle(f: Fragment)
    requires Kept(f)
    ensures PostFilter([f]) == [f]
  {
    assert [f][..0] == [];
  }

  /** A plan block dated by dateText, with an instalment ratio such as "1/4"
      in its amount cell, whose details panel lists the rows. */
  function PlanBlock(ref: string, dateText: string, ratio: string, url: string, rows: seq<Row>): Block {
    Block("Echéancier", RefPrefix + ref, dateText, "", ratio, true, None, Some(Panel(Some(url), rows)))
  }

  /** A row paid on payDate for the given amount. */
  function PaidRow(cents: nat, payDate: string): Row {
    Row(Euros(cents), PaidMarker + payDate)
  }

  /** The plan block of PlanRun is parsed into a fragment with one paid instalment. */
  lemma PlanExtracted(ref: string, dateText: string, ratio: string, url: string, cents: nat, payDate: string,
                      pending: Row)
    requires SingleLine(ref) && SingleLine(payDate) && '/' in ratio && !IsPaid(pending)
    ensures var sub := SubBill(Value(Fixed2(cents)), Date(payDate), Some(url));
            ExtractBlock(PlanBlock(ref, dateText, ratio, url, [PaidRow(cents, payDate), pending]))
            == Success(Fragment("Echéancier", ref, Date(dateText), "", NotApplicable, true, None, Rows([sub])))
  {
    PaidThenPending(cents, payDate, pending, url);
    VendorRefRoundTrip(ref);
  }

  /** Of a paid row followed by an unpaid one, only the paid row is kept. */
  lemma PaidThenPending(cents: nat, payDate: string, pending: Row, url: string)
    requires SingleLine(payDate) && !IsPaid(pending)
    ensures KeepPaid([PaidRow(cents, payDate), pending], Some(url))
         == [SubBill(Value(Fixed2(cents)), Date(payDate), Some(url))]
  {
    var paid := PaidRow(cents, payDate);
    var rows := [paid, pending];
    assert KeepPaid([paid], Some(url)) == [SubBillOf(paid, Some(url))] by {
      PaidRowSub(cents, payDate, url);
      assert [paid][..0] == [];
    }
    assert rows[..1] == [paid] && rows[1] == pending;
    assert KeepPaid(rows, Some(url)) == KeepPaid([paid], Some(url));
    PaidRowSub(cents, payDate, url);
  }

  /** A row marked "Payée le <payDate>" for "<int>,<dd> €" is a paid sub-bill
      with that date and amount. */
  lemma PaidRowSub(cents: nat, payDate: string, url: string)
    requires SingleLine(payDate)
    ensures IsPaid(PaidRow(cents, payDate))
    ensures SubBillOf(PaidRow(cents, payDate), Some(url)) == SubBill(Value(Fixed2(cents)), Date(payDate), Some(url))
  {
    PaidDateOfMarkedCell(payDate);
    EurosNormalize(cents);
  }

  /** A one-block document whose block parses into a surviving fragment is
      reconciled into that fragment's contribution. */
  lemma SingleBlockRun(b: Block, f: Fragment, fmt: Formats)
    requires ExtractBlock(b) == Success(f) && Kept(f)
    ensures ParseBill([b], fmt) == Contribution(f, fmt)
  {
    ScrapeSingle(b);
    PostFilterSingle(f);
    ReconcileSingle(f, fmt);
  }

  /** A plan whose panel holds one paid row and then one row without a
      payment date gives one record: the paid row's amount and date, and a
      file name built from the plan's date, not the payment's. */
  lemma PlanRun(ref: string, dateText: string, ratio: string, url: string, cents: nat, payDate: string,
                pending: Row, fmt: Formats)
    requires SingleLine(ref) && SingleLine(payDate) && '/' in ratio && !IsPaid(pending)
    ensures var r := ParseBill([PlanBlock(ref, dateText, ratio, url, [PaidRow(cents, payDate), pending])], fmt);
            && r.Success? && |r.value| == 1
            && r.value[0].date == Date(payDate)
            && r.value[0].amount == Value(Fixed2(cents))
            && r.value[0].vendorRef == ref
            && r.value[0].isRefund.None?
            && r.value[0].fileurl == Origin + url
            && r.value[0].filename == "echeancier_" + fmt.ymd(Date(dateText)) + "_TotalEnergies.pdf"
  {
    var sub := SubBill(Value(Fixed2(cents)), Date(payDate), Some(url));
    var f := Fragment("Echéancier", ref, Date(dateText), "", NotApplicable, true, None, Rows([sub]));
    PlanExtracted(ref, dateText, ratio, url, cents, payDate, pending);
    SingleBlockRun(PlanBlock(ref, dateText, ratio, url, [PaidRow(cents, payDate), pending]), f, fmt);
    InstalmentAt(f, fmt, 0);
  }

  /** A details panel without any paid row still takes the instalment branch
      (an empty array is truthy), so the plan contributes no record at all. */
  lemma UnpaidPlanRun(ref: string, dateText: string, ratio: string, url: string, pending: Row, fmt: Formats)
    requires SingleLine(ref) && '/' in ratio && !IsPaid(pending)
    ensures ParseBill([PlanBlock(ref, dateText, ratio, url, [pending])], fmt) == Success([])
  {
    var b := PlanBlock(ref, dateText, ratio, url, [pending]);
    var f := Fragment("Echéancier", ref, Date(dateText), "", NotApplicable, true, None, Rows([]));
    assert ExtractBlock(b) == Success(f) by {
      VendorRefRoundTrip(ref);
      assert [pending][..0] == [];
    }
    ScrapeSingle(b);
    PostFilterSingle(f);
    ReconcileSingle(f, fmt);
  }

  /** A reference without the "N° " prefix anywhere makes the whole run throw,
      even after well-formed blocks. */
  lemma MalformedReferenceRun(good: Block, bad: Block, fmt: Formats)
    requires WellFormed(good) && !StartsWith(bad.refText, RefPrefix)
    ensures ParseBill([good, bad], fmt) == Failure(MalformedVendorRef(bad.refText))
  {
    var blocks := [good, bad];
    assert !WellFormed(blocks[1]);
    var r := Scrape(blocks);
    assert r.Failure?;
    var k :| FirstMalformed(blocks, k) && r.error == MalformedVendorRef(blocks[k].refText);
    assert k == 1;
  }
}
