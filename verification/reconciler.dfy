/** The record reconciler (the loop over the scraped fragments,
    src/index.js:153-201): every fragment is flattened into bill records,
    one per paid instalment for a plan with a details panel, and exactly one
    for any other fragment. */
module Reconciler {
  import opened Wrappers
  import opened Strings
  import opened Amounts
  import opened Extractor

  const Origin := "https://www.totalenergies.fr"
  const VendorName := "Total Energie"
  const RefundMarker := "Remboursée"
  const IdentityAttributes := ["vendorRef"]

  /** The formatting library calls, left uninterpreted: `moment(d).format('YYYYMMDD')`,
      `utils.formatDate(d)`, and `parseFloat(cleaned).toFixed(2)`. */
  datatype Formats = Formats(ymd: Date -> string, display: Date -> string, fixed2: string -> string)

  /** One bill handed to the persistence layer. `isRefund` and
      `fileIdAttributes` are None where the source object has no such property. */
  datatype BillRecord = BillRecord(
    vendorRef: string,
    labelText: string,
    amount: Amount,
    date: Date,
    isRefund: Option<bool>,
    fileurl: string,
    filename: string,
    fileIdAttributes: Option<seq<string>>,
    vendor: string,
    carbonCopy: bool)

  /** The template `https://www.totalenergies.fr${fileurl}`; a missing link
      is printed as "undefined". */
  function Qualify(h: Href): (u: string)
    ensures StartsWith(u, Origin)
    ensures h.Some? ==> u == Origin + h.value
  {
    Origin + match h case Some(p) => p case None => "undefined"
  }

  /** Properties every emitted record has, whichever branch built it. */
  predicate WellShaped(b: BillRecord) {
    b.vendor == VendorName && b.carbonCopy && StartsWith(b.fileurl, Origin)
  }

  /** A fragment takes the instalment branch exactly when `subBills` is truthy:
      any array, even an empty one. */
  predicate HasPanel(doc: Fragment) {
    doc.subBills.Rows?
  }

  /** The simple-invoice branch throws in `amount.toFixed` when the amount is `false`. */
  predicate Throws(doc: Fragment) {
    !HasPanel(doc) && doc.amount.NotApplicable?
  }

  /** How many records a fragment contributes, by the source's two-way branch. */
  function Size(doc: Fragment): nat {
    if HasPanel(doc) then |doc.subBills.bills| else 1
  }

  function TotalSize(docs: seq<Fragment>): nat {
    if |docs| == 0 then 0 else TotalSize(docs[..|docs| - 1]) + Size(docs[|docs| - 1])
  }

  /** The record for one paid instalment of plan `doc`. */
  function InstalmentRecord(doc: Fragment, sub: SubBill, fmt: Formats): (b: BillRecord)
    ensures WellShaped(b)
    ensures StartsWith(b.filename, "echeancier_") && EndsWith(b.filename, "_TotalEnergies.pdf")
  {
    var name := "echeancier_" + fmt.ymd(doc.date) + "_TotalEnergies.pdf";
    assert name[..|"echeancier_"|] == "echeancier_";
    assert name[|name| - |"_TotalEnergies.pdf"|..] == "_TotalEnergies.pdf";
    BillRecord(doc.vendorRef, doc.labelText, sub.amount, sub.date, None,
               Qualify(sub.fileurl), name, None, VendorName, true)
  }

  /** The record for a simple invoice, or the `toFixed` failure. */
  function InvoiceRecord(doc: Fragment, fmt: Formats): (r: Result<BillRecord, Failure>)
    ensures r.Failure? <==> doc.amount.NotApplicable?
    ensures r.Success? ==> WellShaped(r.value)
    ensures r.Success? ==> EndsWith(r.value.filename, "EUR" + doc.vendorRef + ".pdf")
    ensures r.Success? ==> StartsWith(r.value.filename, fmt.display(doc.date) + "_TotalEnergies_")
  {
    match doc.amount
    case NotApplicable => Failure(AmountNotNumeric(doc.vendorRef))
    case Value(cleaned) =>
      var name := fmt.display(doc.date) + "_TotalEnergies_" + fmt.fixed2(cleaned) + "EUR" + doc.vendorRef + ".pdf";
      assert StartsWith(name, fmt.display(doc.date) + "_TotalEnergies_") && EndsWith(name, "EUR" + doc.vendorRef + ".pdf") by {
        var head := fmt.display(doc.date) + "_TotalEnergies_";
        var tail := "EUR" + doc.vendorRef + ".pdf";
        assert name == head + fmt.fixed2(cleaned) + tail;
        assert name[..|head|] == head;
        assert name[|name| - |tail|..] == tail;
      }
      Success(BillRecord(doc.vendorRef, doc.labelText, doc.amount, doc.date,
                         Some(Includes(doc.status, RefundMarker)), Qualify(doc.fileurl),
                         name, Some(IdentityAttributes), VendorName, true))
  }

  /** What one fragment contributes to the output. */
  function Contribution(doc: Fragment, fmt: Formats): (r: Result<seq<BillRecord>, Failure>)
    ensures r.Failure? <==> Throws(doc)
    ensures r.Success? ==> |r.value| == Size(doc)
    ensures r.Success? ==> forall k :: 0 <= k < |r.value| ==> WellShaped(r.value[k])
    ensures HasPanel(doc) ==> r.Success? && forall k :: 0 <= k < |r.value| ==>
              var b, sub := r.value[k], doc.subBills.bills[k];
              && b.vendorRef == doc.vendorRef && b.labelText == doc.labelText
              && b.amount == sub.amount && b.date == sub.date
              && b.fileurl == Qualify(sub.fileurl)
              && b.filename == "echeancier_" + fmt.ymd(doc.date) + "_TotalEnergies.pdf"
              && b.isRefund.None? && b.fileIdAttributes.None?
    ensures !HasPanel(doc) && r.Success? ==>
              var b := r.value[0];
              && b.vendorRef == doc.vendorRef && b.labelText == doc.labelText
              && b.amount == doc.amount && b.date == doc.date
              && b.fileurl == Qualify(doc.fileurl)
              && (b.isRefund == Some(true) <==> exists i :: OccursAt(doc.status, RefundMarker, i))
              && b.isRefund.Some?
              && b.fileIdAttributes == Some(IdentityAttributes)
  {
    match doc.subBills
    case Rows(bills) =>
      Success(seq(|bills|, k requires 0 <= k < |bills| => InstalmentRecord(doc, bills[k], fmt)))
    case NoPanel =>
      match InvoiceRecord(doc, fmt)
      case Failure(e) => Failure(e)
      case Success(b) => Success([b])
  }

  /** Sequencing of two steps that may throw: the first failure wins,
      otherwise the records are concatenated in order. */
  function Then(x: Result<seq<BillRecord>, Failure>, y: Result<seq<BillRecord>, Failure>)
    : (r: Result<seq<BillRecord>, Failure>)
    ensures r.Success? <==> x.Success? && y.Success?
    ensures r.Success? ==> r.value == x.value + y.value
    ensures x.Failure? ==> r == x
  {
    if x.Failure? then x
    else if y.Failure? then y
    else Success(x.value + y.value)
  }

  /** The whole `for (const doc of docs)` loop: the contributions, in order. */
  function Reconcile(docs: seq<Fragment>, fmt: Formats): (r: Result<seq<BillRecord>, Failure>)
    ensures r.Success? <==> forall k :: 0 <= k < |docs| ==> !Throws(docs[k])
    ensures r.Success? ==> |r.value| == TotalSize(docs)
    ensures r.Success? ==> forall k :: 0 <= k < |r.value| ==> WellShaped(r.value[k])
  {
    if |docs| == 0 then Success([])
    else
      var init := docs[..|docs| - 1];
      assert forall k :: 0 <= k < |init| ==> init[k] == docs[k];
      Then(Reconcile(init, fmt), Contribution(docs[|docs| - 1], fmt))
  }

  /** A single fragment is reconciled into its own contribution. */
  lemma ReconcileSingle(doc: Fragment, fmt: Formats)
    ensures Reconcile([doc], fmt) == Contribution(doc, fmt)
  {
    assert [doc][..0] == [];
    var c := Contribution(doc, fmt);
    if c.Success? {
      assert [] + c.value == c.value;
    }
  }

  lemma ThenAssociative(x: Result<seq<BillRecord>, Failure>, y: Result<seq<BillRecord>, Failure>,
                        z: Result<seq<BillRecord>, Failure>)
    ensures Then(Then(x, y), z) == Then(x, Then(y, z))
  {
    if x.Success? && y.Success? && z.Success? {
      assert (x.value + y.value) + z.value == x.value + (y.value + z.value);
    }
  }

  /** Reconciliation is the in-order concatenation of its parts: the output
      for a + b is the output for a followed by the output for b, and the
      first failure is the one reported. */
  lemma {:induction false} ReconcileAppend(a: seq<Fragment>, b: seq<Fragment>, fmt: Formats)
    ensures Reconcile(a + b, fmt) == Then(Reconcile(a, fmt), Reconcile(b, fmt))
    decreases |b|
  {
    if |b| == 0 {
      assert a + b == a;
      var ra := Reconcile(a, fmt);
      if ra.Success? {
        assert ra.value + [] == ra.value;
      }
    } else {
      var b' := b[..|b| - 1];
      var c := Contribution(b[|b| - 1], fmt);
      assert (a + b)[..|a + b| - 1] == a + b';
      assert (a + b)[|a + b| - 1] == b[|b| - 1];
      assert Reconcile(a + b, fmt) == Then(Reconcile(a + b', fmt), c);
      assert Reconcile(b, fmt) == Then(Reconcile(b', fmt), c);
      ReconcileAppend(a, b', fmt);
      ThenAssociative(Reconcile(a, fmt), Reconcile(b', fmt), c);
    }
  }

  /** Each position of the output belongs to exactly one fragment: the
      records of docs[k] start after those of all earlier fragments. */
  lemma ReconcilePlacement(docs: seq<Fragment>, k: nat, fmt: Formats)
    requires k < |docs| && Reconcile(docs, fmt).Success?
    ensures var out := Reconcile(docs, fmt).value;
            var start := TotalSize(docs[..k]);
            && start + Size(docs[k]) <= |out|
            && out[start..start + Size(docs[k])] == Contribution(docs[k], fmt).value
  {
    var pre, mid, post := docs[..k], [docs[k]], docs[k + 1..];
    assert docs == pre + mid + post;
    ReconcileAppend(pre + mid, post, fmt);
    ReconcileAppend(pre, mid, fmt);
    ReconcileSingle(docs[k], fmt);
  }

  /** The k-th record of a plan's contribution is built from its k-th instalment. */
  lemma InstalmentAt(doc: Fragment, fmt: Formats, k: nat)
    requires HasPanel(doc) && k < |doc.subBills.bills|
    ensures Contribution(doc, fmt).Success?
    ensures k < |Contribution(doc, fmt).value|
    ensures Contribution(doc, fmt).value[k] == InstalmentRecord(doc, doc.subBills.bills[k], fmt)
  {
  }

  /** A simple invoice contributes its single record, or throws. */
  lemma InvoiceContribution(doc: Fragment, fmt: Formats)
    requires !HasPanel(doc)
    ensures InvoiceRecord(doc, fmt).Failure? ==> Contribution(doc, fmt) == Failure(InvoiceRecord(doc, fmt).error)
    ensures InvoiceRecord(doc, fmt).Success? ==> Contribution(doc, fmt) == Success([InvoiceRecord(doc, fmt).value])
  {
  }

  /** One more fragment extends the reconciliation of a prefix by its contribution. */
  lemma ReconcileStep(docs: seq<Fragment>, i: nat, fmt: Formats)
    requires i < |docs|
    ensures Reconcile(docs[..i + 1], fmt) == Then(Reconcile(docs[..i], fmt), Contribution(docs[i], fmt))
  {
    assert docs[..i + 1] == docs[..i] + [docs[i]];
    ReconcileAppend(docs[..i], [docs[i]], fmt);
    ReconcileSingle(docs[i], fmt);
  }

  /** Once a prefix throws, the whole loop throws the same failure. */
  lemma ReconcilePrefixFails(docs: seq<Fragment>, i: nat, fmt: Formats)
    requires i <= |docs| && Reconcile(docs[..i], fmt).Failure?
    ensures Reconcile(docs, fmt) == Reconcile(docs[..i], fmt)
  {
    assert docs == docs[..i] + docs[i..];
    ReconcileAppend(docs[..i], docs[i..], fmt);
  }

  /** The `for` loop as written, pushing one record at a time. */
  method ReconcileLoop(docs: seq<Fragment>, fmt: Formats) returns (r: Result<seq<BillRecord>, Failure>)
    ensures r == Reconcile(docs, fmt)
  {
    var bills: seq<BillRecord> := [];
    var i := 0;
    while i < |docs|
      invariant 0 <= i <= |docs|
      invariant Reconcile(docs[..i], fmt) == Success(bills)
    {
      var doc := docs[i];
      ReconcileStep(docs, i, fmt);
      ghost var before := bills;
      match doc.subBills {
        case Rows(subBills) =>
          var j := 0;
          while j < |subBills|
            invariant 0 <= j <= |subBills|
            invariant Contribution(doc, fmt).Success?
            invariant |Contribution(doc, fmt).value| == |subBills|
            invariant bills == before + Contribution(doc, fmt).value[..j]
          {
            InstalmentAt(doc, fmt, j);
            assert Contribution(doc, fmt).value[..j + 1]
                == Contribution(doc, fmt).value[..j] + [InstalmentRecord(doc, subBills[j], fmt)];
            bills := bills + [InstalmentRecord(doc, subBills[j], fmt)];
            j := j + 1;
          }
          assert Contribution(doc, fmt).value[..j] == Contribution(doc, fmt).value;
        case NoPanel =>
          var rec := InvoiceRecord(doc, fmt);
          InvoiceContribution(doc, fmt);
          if rec.Failure? {
            ReconcilePrefixFails(docs, i + 1, fmt);
            return Failure(rec.error);
          }
          bills := bills + [rec.value];
      }
      i := i + 1;
    }
    assert docs[..i] == docs;
    r := Success(bills);
  }

  /** The scraper end to end, from the blocks the selectors read: scrape,
      post-filter, reconcile. */
  function ParseBill(blocks: seq<Block>, fmt: Formats): (r: Result<seq<BillRecord>, Failure>)
    ensures Scrape(blocks).Failure? ==> r == Failure(Scrape(blocks).error)
    ensures r.Success? ==> forall k :: 0 <= k < |r.value| ==> WellShaped(r.value[k])
    ensures r.Success? ==> |r.value| == TotalSize(PostFilter(Scrape(blocks).value))
  {
    match Scrape(blocks)
    case Failure(e) => Failure(e)
    case Success(fs) => Reconcile(PostFilter(fs), fmt)
  }

  /** After the post-filter, only an instalment plan without a details panel
      can make reconciliation throw; with well-formed references everywhere
      and no such plan, the run succeeds. */
  lemma ParseBillSucceeds(blocks: seq<Block>, fmt: Formats)
    requires forall k :: 0 <= k < |blocks| ==> WellFormed(blocks[k])
    requires forall k :: 0 <= k < |blocks| ==> blocks[k].isEcheancier ==> blocks[k].details.Some?
    ensures ParseBill(blocks, fmt).Success?
  {
    var fs := Scrape(blocks).value;
    var kept := PostFilter(fs);
    forall k | 0 <= k < |kept| ensures !Throws(kept[k]) {
      var j :| 0 <= j < |fs| && fs[j] == kept[k];
      assert ExtractBlock(blocks[j]) == Success(fs[j]);
    }
  }
}
