/** The retailer and sale rules of `pages/SalesRetailers.jsx`: the list source
    selection, the field validators of the change handlers, the gating of the add
    handlers, and the analytics `totalSales`, `topRetailer` and `salesByRetailer`. */
module SalesRetailers {
  import opened Wrappers
  import opened Seqs
  import opened JsText
  import opened Patterns

  /** A retailer record. Backend rows carry their sales as `total_sales`
      (`totalSalesColumn` here), local ones as `totalSales`; a missing field is 0,
      which JavaScript treats as falsy just like `undefined`. */
  datatype Retailer = Retailer(name: string, location: string, contact: string, totalSales: int, totalSalesColumn: int)

  datatype RetailerForm = RetailerForm(name: string, location: string, contact: string)
  datatype RetailerField = Name | Location | Contact

  datatype SaleForm = SaleForm(date: string, retailer: string, amount: string)
  datatype SaleField = Date | SaleRetailer | Amount

  const EmptyRetailerForm := RetailerForm("", "", "")
  const EmptySaleForm := SaleForm("", "", "")

  /** A context value seen through `Array.isArray`. */
  datatype ListSource<T> = NotAnArray | AnArray(items: seq<T>)

  /** The `retailers`/`sales` source selection: the backend list when it is an
      array, else the local list when that is one, else the empty list. */
  function ChooseList<T>(fromDb: ListSource<T>, local: ListSource<T>): seq<T>
  {
    match fromDb
    case AnArray(items) => items
    case NotAnArray => if local.AnArray? then local.items else []
  }

  const ContactDigitsOnly := "Only numbers, max 10 digits"
  const ContactTenDigits := "Contact must be 10 digits"
  const NumbersOnly := "Only numbers allowed"
  const NameExists := "Retailer name already exists"
  const ContactExists := "Contact number already registered"
  const NoRetailersYet := "No retailers yet"

  /** The name and location change validator: the empty string and every string of
      letters and whitespace are accepted, everything else is flagged. */
  function AlphaFieldError(value: string): (e: string)
    ensures e == "" || e == OnlyAlphabets
    ensures e == "" <==> forall k :: 0 <= k < |value| ==> IsAsciiLetter(value[k]) || IsWhitespace(value[k])
  {
    if !LettersAndSpaces(value) && value != "" then OnlyAlphabets else ""
  }

  /** The contact change validator: three outcomes, exactly one of which holds. */
  function ContactFieldError(value: string): (e: string)
    ensures e == ContactDigitsOnly <==> (|value| > 10 || exists k :: 0 <= k < |value| && !IsDigit(value[k]))
    ensures e == "" <==> (value == "" || DigitsExactly(value, 10))
    ensures e == ContactTenDigits <==> (0 < |value| < 10 && forall k :: 0 <= k < |value| ==> IsDigit(value[k]))
  {
    if !DigitsUpTo(value, 10) then ContactDigitsOnly
    else if |value| == 10 || |value| == 0 then ""
    else ContactTenDigits
  }

  /** The amount change validator: the empty string and digit strings pass. */
  function AmountFieldError(value: string): (e: string)
    ensures e == "" || e == NumbersOnly
    ensures e == "" <==> forall k :: 0 <= k < |value| ==> IsDigit(value[k])
  {
    if !AllDigits(value) && value != "" then NumbersOnly else ""
  }

  function RetailerFieldOf(f: RetailerForm, field: RetailerField): string {
    match field
    case Name => f.name
    case Location => f.location
    case Contact => f.contact
  }

  /** `{ ...retailerForm, [name]: value }`: only the named field changes. */
  function WithRetailerField(f: RetailerForm, field: RetailerField, value: string): (g: RetailerForm)
    ensures RetailerFieldOf(g, field) == value
    ensures forall other :: other != field ==> RetailerFieldOf(g, other) == RetailerFieldOf(f, other)
  {
    match field
    case Name => f.(name := value)
    case Location => f.(location := value)
    case Contact => f.(contact := value)
  }

  function SaleFieldOf(f: SaleForm, field: SaleField): string {
    match field
    case Date => f.date
    case SaleRetailer => f.retailer
    case Amount => f.amount
  }

  /** `{ ...saleForm, [name]: value }`: only the named field changes. */
  function WithSaleField(f: SaleForm, field: SaleField, value: string): (g: SaleForm)
    ensures SaleFieldOf(g, field) == value
    ensures forall other :: other != field ==> SaleFieldOf(g, other) == SaleFieldOf(f, other)
  {
    match field
    case Date => f.(date := value)
    case SaleRetailer => f.(retailer := value)
    case Amount => f.(amount := value)
  }

  /** Some retailer's name equals `name` ignoring case. */
  predicate NameTaken(retailers: seq<Retailer>, name: string) {
    exists k :: 0 <= k < |retailers| && ToLowerAscii(retailers[k].name) == ToLowerAscii(name)
  }

  /** Some retailer's contact is exactly `contact`. */
  predicate ContactTaken(retailers: seq<Retailer>, contact: string) {
    exists k :: 0 <= k < |retailers| && retailers[k].contact == contact
  }

  /** The final validation of `handleAddRetailer`. */
  predicate RetailerFormValid(f: RetailerForm) {
    LettersAndSpaces(f.name) && LettersAndSpaces(f.location) && DigitsExactly(f.contact, 10)
  }

  // ---------- analytics ----------

  /** `retailer.totalSales || retailer.total_sales || 0`. */
  function SalesOf(r: Retailer): (v: int)
    ensures r.totalSales != 0 ==> v == r.totalSales
    ensures v == 0 <==> r.totalSales == 0 && r.totalSalesColumn == 0
    ensures v == r.totalSales || v == r.totalSalesColumn
  {
    if r.totalSales != 0 then r.totalSales else r.totalSalesColumn
  }

  /** `totalSales`: the left-to-right sum of `SalesOf` over the retailers. */
  function TotalSales(rs: seq<Retailer>): (t: int)
    ensures (forall k :: 0 <= k < |rs| ==> SalesOf(rs[k]) == 0) ==> t == 0
    ensures (forall k :: 0 <= k < |rs| ==> SalesOf(rs[k]) >= 0) ==> t >= 0
  {
    if rs == [] then 0
    else
      var init := rs[..|rs| - 1];
      assert forall k :: 0 <= k < |init| ==> init[k] == rs[k];
      TotalSales(init) + SalesOf(rs[|rs| - 1])
  }

  lemma {:induction false} TotalSalesAppend(a: seq<Retailer>, b: seq<Retailer>)
    ensures TotalSales(a + b) == TotalSales(a) + TotalSales(b)
    decreases |b|
  {
    if b == [] {
      assert a + b == a;
    } else {
      assert (a + b)[..|a + b| - 1] == a + b[..|b| - 1];
      TotalSalesAppend(a, b[..|b| - 1]);
    }
  }

  /** With no negative sales the total is at least every retailer's sales. */
  lemma {:induction false} TotalSalesBounds(rs: seq<Retailer>)
    requires forall k :: 0 <= k < |rs| ==> SalesOf(rs[k]) >= 0
    ensures TotalSales(rs) >= 0
    ensures forall k :: 0 <= k < |rs| ==> SalesOf(rs[k]) <= TotalSales(rs)
  {
    if rs != [] {
      var init := rs[..|rs| - 1];
      TotalSalesBounds(init);
      assert forall k :: 0 <= k < |init| ==> rs[k] == init[k];
    }
  }

  /** The index `reduce((a, b) => Number(aSales) > Number(bSales) ? a : b)` ends on:
      a retailer with maximal sales, and the LAST such one, since a tie keeps `b`. */
  function TopIndex(rs: seq<Retailer>): (k: nat)
    requires |rs| > 0
    ensures k < |rs|
    ensures forall j :: 0 <= j < |rs| ==> SalesOf(rs[j]) <= SalesOf(rs[k])
    ensures forall j :: k < j < |rs| ==> SalesOf(rs[j]) < SalesOf(rs[k])
  {
    if |rs| == 1 then 0
    else
      var init := rs[..|rs| - 1];
      var a := TopIndex(init);
      assert forall j :: 0 <= j < |init| ==> rs[j] == init[j];
      if SalesOf(rs[a]) > SalesOf(rs[|rs| - 1]) then a else |rs| - 1
  }

  /** `topRetailer`: the name of the last retailer with maximal sales, or
      "No retailers yet" for an empty list. */
  function TopRetailer(rs: seq<Retailer>): (name: string)
    ensures rs == [] ==> name == NoRetailersYet
    ensures rs != [] ==> exists k :: (
      && 0 <= k < |rs| && name == rs[k].name
      && (forall j :: 0 <= j < |rs| ==> SalesOf(rs[j]) <= SalesOf(rs[k]))
      && (forall j :: k < j < |rs| ==> SalesOf(rs[j]) < SalesOf(rs[k])))
  {
    if rs == [] then NoRetailersYet else rs[TopIndex(rs)].name
  }

  /** A bar of the sales-by-retailer chart. */
  datatype ChartPoint = ChartPoint(name: string, sales: int)

  /** `{ name: retailer.name || 'Unknown', sales: Number(...) }`. */
  function PointOf(r: Retailer): (p: ChartPoint)
    ensures p.sales == SalesOf(r)
    ensures p.name != "" && (p.name == r.name || (r.name == "" && p.name == "Unknown"))
  {
    ChartPoint(if r.name == "" then "Unknown" else r.name, SalesOf(r))
  }

  /** A retailer the sales chart shows. */
  predicate HasSales(r: Retailer) { SalesOf(r) > 0 }

  /** The `map` step of `salesByRetailer`: each retailer's chart point, in order. */
  function Points(rs: seq<Retailer>): (points: seq<ChartPoint>)
    ensures |points| == |rs|
    ensures forall k :: 0 <= k < |rs| ==> points[k] == PointOf(rs[k])
  {
    if rs == [] then [] else [PointOf(rs[0])] + Points(rs[1..])
  }

  /** `salesByRetailer`: the retailers with positive sales, in their order, as
      chart points. */
  function SalesByRetailer(rs: seq<Retailer>): (points: seq<ChartPoint>)
    ensures |points| == Count(rs, HasSales) <= |rs|
    ensures forall k :: 0 <= k < |points| ==> points[k].sales > 0
  {
    Points(Filter(rs, HasSales))
  }

  lemma {:induction false} PointsAppend(a: seq<Retailer>, b: seq<Retailer>)
    ensures Points(a + b) == Points(a) + Points(b)
  {
    if a == [] {
      assert a + b == b;
    } else {
      assert (a + b)[1..] == a[1..] + b;
      PointsAppend(a[1..], b);
    }
  }

  /** The chart of two lists joined is the chart of the first followed by the
      chart of the second: the bars keep the retailers' order. */
  lemma SalesByRetailerAppend(a: seq<Retailer>, b: seq<Retailer>)
    ensures SalesByRetailer(a + b) == SalesByRetailer(a) + SalesByRetailer(b)
  {
    FilterAppend(a, b, HasSales);
    PointsAppend(Filter(a, HasSales), Filter(b, HasSales));
  }

  /** A single retailer gives its own point when it has sales and no bar otherwise.
      With `SalesByRetailerAppend` this fixes the whole chart: the bars are the
      points of the retailers with positive sales, in order, and nothing else. */
  lemma SalesByRetailerSingle(r: Retailer)
    ensures SalesByRetailer([r]) == if HasSales(r) then [PointOf(r)] else []
  {
    assert [r][1..] == [];
  }

  /** Adding a retailer at the end of the list adds its bar, if any, at the end
      of the chart. */
  lemma SalesByRetailerSnoc(rs: seq<Retailer>, r: Retailer)
    ensures SalesByRetailer(rs + [r]) == SalesByRetailer(rs) + (if HasSales(r) then [PointOf(r)] else [])
  {
    SalesByRetailerAppend(rs, [r]);
    SalesByRetailerSingle(r);
  }

  /** Every retailer with positive sales has its point on the chart. */
  lemma SalesByRetailerComplete(rs: seq<Retailer>)
    ensures forall k :: 0 <= k < |rs| && HasSales(rs[k]) ==> PointOf(rs[k]) in SalesByRetailer(rs)
  {
    var kept := Filter(rs, HasSales);
    forall k | 0 <= k < |rs| && HasSales(rs[k])
      ensures PointOf(rs[k]) in SalesByRetailer(rs)
    {
      var j :| 0 <= j < |kept| && kept[j] == rs[k];
      assert SalesByRetailer(rs)[j] == PointOf(rs[k]);
    }
  }

  /** The sum of the chart's bars. */
  function PointsTotal(points: seq<ChartPoint>): int {
    if points == [] then 0 else points[0].sales + PointsTotal(points[1..])
  }

  lemma TotalSalesCons(r: Retailer, rest: seq<Retailer>)
    ensures TotalSales([r] + rest) == SalesOf(r) + TotalSales(rest)
  {
    TotalSalesAppend([r], rest);
    assert [r][..0] == [];
  }

  /** The bars of all retailers add up to `totalSales`. */
  lemma {:induction false} PointsAddUp(rs: seq<Retailer>)
    ensures PointsTotal(Points(rs)) == TotalSales(rs)
  {
    if rs != [] {
      var tail := rs[1..];
      PointsAddUp(tail);
      TotalSalesCons(rs[0], tail);
      assert [rs[0]] + tail == rs;
      var p := [PointOf(rs[0])] + Points(tail);
      assert p[0] == PointOf(rs[0]) && p[1..] == Points(tail);
    }
  }

  /** With no negative sales, leaving out the retailers without sales keeps the total. */
  lemma {:induction false} ZeroSalesDropOut(rs: seq<Retailer>)
    requires forall k :: 0 <= k < |rs| ==> SalesOf(rs[k]) >= 0
    ensures TotalSales(Filter(rs, HasSales)) == TotalSales(rs)
  {
    if rs != [] {
      ZeroSalesDropOut(rs[1..]);
      TotalSalesCons(rs[0], rs[1..]);
      assert [rs[0]] + rs[1..] == rs;
      if HasSales(rs[0]) {
        TotalSalesCons(rs[0], Filter(rs[1..], HasSales));
      }
    }
  }

  /** With no negative sales, the chart's bars add up to `totalSales`: only
      retailers with zero sales are left off it. */
  lemma ChartAddsUpToTotal(rs: seq<Retailer>)
    requires forall k :: 0 <= k < |rs| ==> SalesOf(rs[k]) >= 0
    ensures PointsTotal(SalesByRetailer(rs)) == TotalSales(rs)
  {
    PointsAddUp(Filter(rs, HasSales));
    ZeroSalesDropOut(rs);
  }

  /** The state of the sales and retailers page. */
  class SalesRetailersPage {
    var retailerForm: RetailerForm
    var saleForm: SaleForm
    var nameError: string
    var locationError: string
    var contactError: string
    var amountError: string

    constructor ()
      ensures retailerForm == EmptyRetailerForm && saleForm == EmptySaleForm
      ensures nameError == "" && locationError == "" && contactError == "" && amountError == ""
    {
      retailerForm, saleForm := EmptyRetailerForm, EmptySaleForm;
      nameError, locationError, contactError, amountError := "", "", "", "";
    }

    /** `handleRetailerChange`: re-validates the changed field only and stores the value. */
    method HandleRetailerChange(field: RetailerField, value: string)
      modifies this
      ensures retailerForm == WithRetailerField(old(retailerForm), field, value)
      ensures nameError == (if field == Name then AlphaFieldError(value) else old(nameError))
      ensures locationError == (if field == Location then AlphaFieldError(value) else old(locationError))
      ensures contactError == (if field == Contact then ContactFieldError(value) else old(contactError))
      ensures saleForm == old(saleForm) && amountError == old(amountError)
    {
      match field {
        case Name => nameError := AlphaFieldError(value);
        case Location => locationError := AlphaFieldError(value);
        case Contact => contactError := ContactFieldError(value);
      }
      retailerForm := WithRetailerField(retailerForm, field, value);
    }

    /** `handleAddRetailer`: a name already taken (ignoring case) is refused first, then
        a contact already taken; otherwise all three fields are validated and the form
        goes to `addRetailerToDB` only if all pass. The form is reset only when that
        call completes. `retailers` is the list on screen. */
    method HandleAddRetailer(retailers: seq<Retailer>, outcome: CallOutcome) returns (submitted: Option<RetailerForm>)
      modifies this
      ensures saleForm == old(saleForm) && amountError == old(amountError)
      ensures NameTaken(retailers, old(retailerForm).name) ==>
        && submitted == None && nameError == NameExists
        && retailerForm == old(retailerForm) && locationError == old(locationError) && contactError == old(contactError)
      ensures !NameTaken(retailers, old(retailerForm).name) && ContactTaken(retailers, old(retailerForm).contact) ==>
        && submitted == None && contactError == ContactExists
        && retailerForm == old(retailerForm) && nameError == old(nameError) && locationError == old(locationError)
      ensures !NameTaken(retailers, old(retailerForm).name) && !ContactTaken(retailers, old(retailerForm).contact) ==>
        var f := old(retailerForm);
        && nameError == (if LettersAndSpaces(f.name) then "" else OnlyAlphabets)
        && locationError == (if LettersAndSpaces(f.location) then "" else OnlyAlphabets)
        && contactError == (if DigitsExactly(f.contact, 10) then "" else ContactTenDigits)
        && submitted == (if RetailerFormValid(f) then Some(f) else None)
        && retailerForm == (if RetailerFormValid(f) && outcome == Completed then EmptyRetailerForm else f)
    {
      if NameTaken(retailers, retailerForm.name) {
        nameError := NameExists;
        return None;
      }
      if ContactTaken(retailers, retailerForm.contact) {
        contactError := ContactExists;
        return None;
      }
      var nameValid := LettersAndSpaces(retailerForm.name);
      var locationValid := LettersAndSpaces(retailerForm.location);
      var contactValid := DigitsExactly(retailerForm.contact, 10);
      nameError := if nameValid then "" else OnlyAlphabets;
      locationError := if locationValid then "" else OnlyAlphabets;
      contactError := if contactValid then "" else ContactTenDigits;
      submitted := None;
      if nameValid && locationValid && contactValid {
        submitted := Some(retailerForm);
        if outcome == Completed {
          retailerForm := EmptyRetailerForm;
        }
      }
    }

    /** `handleSaleChange`: only the amount is validated. */
    method HandleSaleChange(field: SaleField, value: string)
      modifies this
      ensures saleForm == WithSaleField(old(saleForm), field, value)
      ensures amountError == (if field == Amount then AmountFieldError(value) else old(amountError))
      ensures retailerForm == old(retailerForm) && nameError == old(nameError)
      ensures locationError == old(locationError) && contactError == old(contactError)
    {
      if field == Amount {
        amountError := AmountFieldError(value);
      }
      saleForm := WithSaleField(saleForm, field, value);
    }

    /** `handleAddSale`: a sale goes to `addSaleToDB` only with a date, a retailer and
        an all-digit amount; the form is reset only when that call completes. */
    method HandleAddSale(outcome: CallOutcome) returns (submitted: Option<SaleForm>)
      modifies this
      ensures amountError == (if AllDigits(old(saleForm).amount) then "" else NumbersOnly)
      ensures var f := old(saleForm);
        submitted == (if f.date != "" && f.retailer != "" && AllDigits(f.amount) then Some(f) else None)
      ensures saleForm == (if submitted.Some? && outcome == Completed then EmptySaleForm else old(saleForm))
      ensures retailerForm == old(retailerForm) && nameError == old(nameError)
      ensures locationError == old(locationError) && contactError == old(contactError)
    {
      var amountValid := AllDigits(saleForm.amount);
      amountError := if amountValid then "" else NumbersOnly;
      submitted := None;
      if saleForm.date != "" && saleForm.retailer != "" && amountValid {
        submitted := Some(saleForm);
        if outcome == Completed {
          saleForm := EmptySaleForm;
        }
      }
    }
  }
}
