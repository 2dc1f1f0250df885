/** The document extractor (src/index.js:87-151): one fragment per billing
    block, built from the texts and attributes the structural selectors read.
    The selectors themselves are not modelled; a Block holds what they return. */
module Extractor {
  import opened Wrappers
  import opened Strings
  import opened Seqs
  import opened Amounts

  /** A calendar date, held as the text `moment` reads with format DD/MM/YYYY. */
  datatype Date = Date(text: string)

  /** An `href` attribute; None is JavaScript's `undefined` for a missing link. */
  type Href = Option<string>

  /** One row of an instalment table: the texts of its second and fourth cells. */
  datatype Row = Row(amountCell: string, paymentCell: string)

  /** The details panel that follows a block when it is a display zone. */
  datatype Panel = Panel(fileurl: Href, rows: seq<Row>)

  /** What the selectors read from one `.detail-facture` block. `details` is
      the `action__display-zone` panel reached from the block's first
      `span:nth-child(1)` descendant through `closest(...).next()`; it is None
      when the block has no such span or when the sibling after it is not a
      display zone (src/index.js:118-124). */
  datatype Block = Block(
    labelText: string,
    refText: string,
    dateText: string,
    status: string,
    amountText: string,
    isEcheancier: bool,
    fileurl: Href,
    details: Option<Panel>)

  /** One paid instalment of an instalment plan. */
  datatype SubBill = SubBill(amount: Amount, date: Date, fileurl: Href)

  /** A fragment's `subBills`: `false` when no details panel is reached from the block,
      otherwise the paid rows, which may be none (an empty, yet truthy, array). */
  datatype SubBills = NoPanel | Rows(bills: seq<SubBill>)

  /** One billing block after parsing. */
  datatype Fragment = Fragment(
    labelText: string,
    vendorRef: string,
    date: Date,
    status: string,
    amount: Amount,
    isEcheancier: bool,
    fileurl: Href,
    subBills: SubBills)

  /** Why a scraping run throws: `.pop()` on a failed reference match, or
      `toFixed` called on the `false` amount of a simple invoice. */
  datatype Failure = MalformedVendorRef(text: string) | AmountNotNumeric(vendorRef: string)

  const RefPrefix := "N° "
  const PaidMarker := "Payée le "

  /** The reference regular expression `^N° (.*)$` and its capture group. */
  function VendorRef(text: string): (r: Option<string>)
    ensures r.Some? ==> text == RefPrefix + r.value
  {
    if StartsWith(text, RefPrefix) && SingleLine(text[|RefPrefix|..])
    then Some(text[|RefPrefix|..])
    else None
  }

  /** s holds no line terminator, so `.*$` can match all of it. */
  predicate SingleLine(s: string) {
    forall k :: 0 <= k < |s| ==> !IsLineTerminator(s[k])
  }

  /** The reference expression matches exactly the texts that start with
      "N° " and continue on a single line. */
  lemma VendorRefMatches(text: string)
    ensures VendorRef(text).Some? <==> StartsWith(text, RefPrefix)
                                       && forall k :: |RefPrefix| <= k < |text| ==> !IsLineTerminator(text[k])
  {
    if StartsWith(text, RefPrefix) {
      var rest := text[|RefPrefix|..];
      assert forall k :: |RefPrefix| <= k < |text| ==> text[k] == rest[k - |RefPrefix|];
    }
  }

  /** Every single-line reference is recovered from the text it is printed in. */
  lemma VendorRefRoundTrip(ref: string)
    requires SingleLine(ref)
    ensures VendorRef(RefPrefix + ref) == Some(ref)
  {
    var text := RefPrefix + ref;
    assert text[..|RefPrefix|] == RefPrefix;
    assert text[|RefPrefix|..] == ref;
  }

  /** The payment regular expression `Payée le (.*)` applied to a fourth cell:
      the line following the first "Payée le ", if there is one. */
  function PaidDate(cell: string): (r: Option<Date>)
    ensures r.Some? <==> Includes(cell, PaidMarker)
    ensures r.Some? ==> exists i :: FirstAt(cell, PaidMarker, i)
                                    && r.value.text == TakeLine(cell[i + |PaidMarker|..])
  {
    match IndexOf(cell, PaidMarker)
    case None => None
    case Some(i) =>
      assert FirstAt(cell, PaidMarker, i);
      Some(Date(TakeLine(cell[i + |PaidMarker|..])))
  }

  /** A cell reading "Payée le <date>" yields exactly that date. */
  lemma PaidDateOfMarkedCell(date: string)
    requires SingleLine(date)
    ensures PaidDate(PaidMarker + date) == Some(Date(date))
  {
    var cell := PaidMarker + date;
    assert cell[..|PaidMarker|] == PaidMarker;
    assert OccursAt(cell, PaidMarker, 0);
    assert cell[|PaidMarker|..] == date;
    var r := PaidDate(cell);
    var i :| FirstAt(cell, PaidMarker, i) && r.value.text == TakeLine(cell[i + |PaidMarker|..]);
    assert i == 0;
    TakeWholeLine(date);
  }

  /** A string without line terminators is captured whole by `(.*)`. */
  lemma TakeWholeLine(s: string)
    requires SingleLine(s)
    ensures TakeLine(s) == s
  {
  }

  /** A table row is kept exactly when its fourth cell matches the payment
      expression: `moment` always returns a (truthy) Date object, even for
      text it cannot read, so only the match decides. */
  predicate IsPaid(row: Row) {
    PaidDate(row.paymentCell).Some?
  }

  /** The sub-bill a paid row is mapped to. */
  function SubBillOf(row: Row, fileurl: Href): SubBill
    requires IsPaid(row)
  {
    SubBill(Normalize(row.amountCell), PaidDate(row.paymentCell).value, fileurl)
  }

  /** The rows' `.map(...).filter(bill => bill.date)`: the paid rows as sub-bills,
      all sharing the panel's download link. */
  function KeepPaid(rows: seq<Row>, fileurl: Href): (r: seq<SubBill>)
    ensures |r| == |Filter(IsPaid, rows)|
    ensures forall k :: 0 <= k < |r| ==> r[k].fileurl == fileurl
  {
    if |rows| == 0 then []
    else
      var last := rows[|rows| - 1];
      KeepPaid(rows[..|rows| - 1], fileurl) + (if IsPaid(last) then [SubBillOf(last, fileurl)] else [])
  }

  /** The sub-bills are exactly the paid rows, in table order: the k-th
      sub-bill comes from the k-th paid row, and no unpaid row contributes. */
  lemma {:induction false} KeepPaidSelects(rows: seq<Row>, fileurl: Href)
    ensures |KeepPaid(rows, fileurl)| == |Positions(IsPaid, rows)|
    ensures forall k :: 0 <= k < |Positions(IsPaid, rows)| ==>
              KeepPaid(rows, fileurl)[k] == SubBillOf(rows[Positions(IsPaid, rows)[k]], fileurl)
  {
    if |rows| > 0 {
      var rows' := rows[..|rows| - 1];
      KeepPaidSelects(rows', fileurl);
      var r, ps := KeepPaid(rows, fileurl), Positions(IsPaid, rows);
      var r', ps' := KeepPaid(rows', fileurl), Positions(IsPaid, rows');
      var last := rows[|rows| - 1];
      assert r == r' + (if IsPaid(last) then [SubBillOf(last, fileurl)] else []);
      assert ps == ps' + (if IsPaid(last) then [|rows| - 1] else []);
      forall k | 0 <= k < |ps| ensures r[k] == SubBillOf(rows[ps[k]], fileurl) {
        if k < |ps'| {
          assert r[k] == r'[k] == SubBillOf(rows'[ps'[k]], fileurl);
          assert rows'[ps'[k]] == rows[ps[k]];
        } else {
          assert IsPaid(last) && ps[k] == |rows| - 1 && r[k] == SubBillOf(last, fileurl);
        }
      }
    }
  }

  /** The `subBills` field of a block. */
  function SubBillsOf(details: Option<Panel>): (s: SubBills)
    ensures s.NoPanel? <==> details.None?
    ensures s.Rows? ==> |s.bills| <= |details.value.rows|
    ensures s.Rows? ==> forall k :: 0 <= k < |s.bills| ==> s.bills[k].fileurl == details.value.fileurl
  {
    match details
    case None => NoPanel
    case Some(p) => Rows(KeepPaid(p.rows, p.fileurl))
  }

  /** One block through the scraping specification: fails exactly when the
      reference expression does not match. */
  function ExtractBlock(b: Block): (r: Result<Fragment, Failure>)
    ensures r.Failure? <==> !WellFormed(b)
    ensures r.Failure? ==> r.error == MalformedVendorRef(b.refText)
    ensures r.Success? ==> b.refText == RefPrefix + r.value.vendorRef
    ensures r.Success? ==> r.value.labelText == b.labelText && r.value.status == b.status
                           && r.value.isEcheancier == b.isEcheancier && r.value.fileurl == b.fileurl
                           && r.value.date == Date(b.dateText)
    ensures r.Success? ==> r.value.amount == Normalize(b.amountText)
    ensures r.Success? ==> (r.value.amount.NotApplicable? <==> '/' in b.amountText)
    ensures r.Success? ==> r.value.subBills == SubBillsOf(b.details)
    ensures r.Success? ==> (r.value.subBills.NoPanel? <==> b.details.None?)
  {
    match VendorRef(b.refText)
    case None => Failure(MalformedVendorRef(b.refText))
    case Some(ref) =>
      Success(Fragment(b.labelText, ref, Date(b.dateText), b.status, Normalize(b.amountText),
                       b.isEcheancier, b.fileurl, SubBillsOf(b.details)))
  }

  /** The reference of block b matches, so extracting it does not throw. */
  predicate WellFormed(b: Block) {
    VendorRef(b.refText).Some?
  }

  /** `scrape` over all blocks, in document order. The first block whose
      reference does not match makes the whole run throw. */
  function Scrape(blocks: seq<Block>): (r: Result<seq<Fragment>, Failure>)
    ensures r.Success? <==> forall k :: 0 <= k < |blocks| ==> WellFormed(blocks[k])
    ensures r.Success? ==> |r.value| == |blocks|
    ensures r.Success? ==> forall k :: 0 <= k < |blocks| ==> ExtractBlock(blocks[k]) == Success(r.value[k])
    ensures r.Failure? ==> exists k :: FirstMalformed(blocks, k) && r.error == MalformedVendorRef(blocks[k].refText)
  {
    if |blocks| == 0 then Success([])
    else
      match ExtractBlock(blocks[0])
      case Failure(e) =>
        assert FirstMalformed(blocks, 0);
        Failure(e)
      case Success(f) =>
        match Scrape(blocks[1..])
        case Failure(e) =>
          ghost var k :| FirstMalformed(blocks[1..], k) && e == MalformedVendorRef(blocks[1..][k].refText);
          assert FirstMalformed(blocks, k + 1) by {
            MalformedShift(blocks, k);
          }
          Failure(e)
        case Success(fs) =>
          assert forall k :: 1 <= k < |blocks| ==> blocks[k] == blocks[1..][k - 1];
          Success([f] + fs)
  }

  /** Block k is the first whose reference does not match. */
  predicate FirstMalformed(blocks: seq<Block>, k: int) {
    0 <= k < |blocks| && !WellFormed(blocks[k]) && forall j :: 0 <= j < k ==> WellFormed(blocks[j])
  }

  lemma MalformedShift(blocks: seq<Block>, k: int)
    requires |blocks| > 0 && WellFormed(blocks[0]) && FirstMalformed(blocks[1..], k)
    ensures FirstMalformed(blocks, k + 1)
  {
    forall j | 0 <= j < k + 1 ensures WellFormed(blocks[j]) {
      if j > 0 { assert blocks[j] == blocks[1..][j - 1]; }
    }
    assert blocks[k + 1] == blocks[1..][k];
  }

  /** The post-filter's condition: a fragment survives unless its amount is
      the `false` sentinel and it is not an instalment plan. */
  predicate Kept(f: Fragment) {
    !(f.amount.NotApplicable? && !f.isEcheancier)
  }

  /** The filter after `scrape`: exactly the surviving fragments, in document order. */
  function PostFilter(fs: seq<Fragment>): (r: seq<Fragment>)
    ensures forall k :: 0 <= k < |fs| ==> (fs[k] in r <==> Kept(fs[k]))
    ensures forall k :: 0 <= k < |r| ==> Kept(r[k])
  {
    Filter(Kept, fs)
  }

  /** Survivors keep their relative document order and none is lost. */
  lemma PostFilterOrder(fs: seq<Fragment>)
    ensures |PostFilter(fs)| == |Positions(Kept, fs)|
    ensures forall k :: 0 <= k < |Positions(Kept, fs)| ==> PostFilter(fs)[k] == fs[Positions(Kept, fs)[k]]
  {
    FilterAtPositions(Kept, fs);
  }
}
