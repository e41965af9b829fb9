/** Strike-price roundness, candidate capture and product selection of the
    purchase script, plus the read of the carried investment amount. */
module Pricing {

  import opened Opt
  import opened Text

  // ---------------------------------------------------------------------
  // Roundness of a displayed strike price
  // ---------------------------------------------------------------------

  /** The price text with every `,` and space removed, then stripped. */
  function CleanPrice(price: string): string {
    Strip(RemoveAll(RemoveAll(price, ','), ' '))
  }

  predicate AllZeros(s: string) {
    forall i :: 0 <= i < |s| ==> s[i] == '0'
  }

  /** Reference reading of a round price: the digits before position `i` form a
      multiple of 5, and `i` is either the end of the text or a single `.`
      followed only by zeros (possibly none). */
  predicate RoundAt(t: string, i: int) {
    && 0 <= i <= |t|
    && IsDigits(t[..i])
    && DigitsValue(t[..i]) % 5 == 0
    && (i == |t| || (t[i] == '.' && AllZeros(t[i + 1..])))
  }

  /** The decision on an already cleaned price, branch for branch as written. */
  function QualifiesClean(t: string): bool {
    if '.' in t then
      var parts := SplitOn(t, '.');
      if |parts| == 2 then
        if !AllZeros(parts[1]) then false
        else if IsDigits(parts[0]) then DigitsValue(parts[0]) % 5 == 0
        else false
      else false
    else
      IsDigits(t) && DigitsValue(t) % 5 == 0
  }

  /** A price the code accepts has a round reading. */
  lemma QualifiedIsRound(t: string)
    requires QualifiesClean(t)
    ensures exists i :: RoundAt(t, i)
  {
    if '.' in t {
      var parts := SplitOn(t, '.');
      SplitOnTwo(t, '.');
      var k := |parts[0]|;
      assert t[..k] == parts[0];
      assert t[k + 1..] == parts[1];
      assert RoundAt(t, k);
    } else {
      assert t[..|t|] == t;
      assert RoundAt(t, |t|);
    }
  }

  /** A price with a round reading is accepted by the code. */
  lemma RoundIsQualified(t: string, i: int)
    requires RoundAt(t, i)
    ensures QualifiesClean(t)
  {
    if i == |t| {
      assert t[..i] == t;
      assert forall j :: 0 <= j < |t| ==> t[j] != '.' by {
        assert forall j :: 0 <= j < |t| ==> IsDigit(t[..i][j]);
      }
    } else {
      var head, tail := t[..i], t[i + 1..];
      assert forall j :: 0 <= j < |head| ==> head[j] != '.';
      assert forall j :: 0 <= j < |tail| ==> tail[j] != '.';
      SplitOnOne(t, '.', i);
      assert SplitOn(t, '.')[0] == t[..i];
    }
  }

  lemma QualifiesCleanIff(t: string)
    ensures QualifiesClean(t) <==> exists i :: RoundAt(t, i)
  {
    if QualifiesClean(t) {
      QualifiedIsRound(t);
    }
    if i :| RoundAt(t, i) {
      RoundIsQualified(t, i);
    }
  }

  /** `is_price_multiple_of_5`: total on every string; true exactly for
      "digits, optionally followed by one dot and only zeros", whose integer
      value is a multiple of 5, after separators are removed. */
  function IsPriceMultipleOf5(price: string): (r: bool)
    ensures r <==> exists i :: RoundAt(CleanPrice(price), i)
  {
    QualifiesCleanIff(CleanPrice(price));
    QualifiesClean(CleanPrice(price))
  }

  /** A price text with no separators and no surrounding whitespace is already clean. */
  lemma CleanPriceUnchanged(price: string)
    requires ',' !in price && ' ' !in price
    requires |price| > 0 ==> !IsSpace(price[0]) && !IsSpace(price[|price| - 1])
    ensures CleanPrice(price) == price
  {
    RemoveAllAbsent(price, ',');
    RemoveAllAbsent(price, ' ');
    StripUnchanged(price);
  }

  // One small lemma per worked example keeps each literal evaluation cheap.

  lemma PlainRoundPrice()
    ensures IsPriceMultipleOf5("25")
  {
    CleanPriceUnchanged("25");
    assert QualifiesClean("25");
  }

  lemma NotMultipleOf5()
    ensures !IsPriceMultipleOf5("23")
  {
    CleanPriceUnchanged("23");
  }

  lemma CleanZeroFraction()
    ensures CleanPrice("25.00") == "25.00"
  {
    CleanPriceUnchanged("25.00");
  }

  lemma ZeroFractionRoundPrice()
    ensures IsPriceMultipleOf5("25.00")
  {
    CleanZeroFraction();
    var t := "25.00";
    assert t[..2] == "25" && t[3..] == "00";
    assert DigitsValue("25") == 25 by { assert "25"[..1] == "2"; }
    assert RoundAt(t, 2);
  }

  lemma NonZeroFractionRejected()
    ensures !IsPriceMultipleOf5("25.50")
  {
    CleanPriceUnchanged("25.50");
    SplitOnOne("25.50", '.', 2);
    assert !AllZeros("50");
  }

  lemma CommaRemoved()
    ensures RemoveAll("30,000", ',') == "30000"
  {
    assert "30,000" == "30" + "," + "000";
    RemoveAllAppend("30" + ",", "000", ',');
    RemoveAllAppend("30", ",", ',');
    RemoveAllAbsent("30", ',');
    RemoveAllAbsent("000", ',');
  }

  lemma CleanThirty()
    ensures CleanPrice("30000") == "30000"
  {
    CleanPriceUnchanged("30000");
  }

  lemma SeparatorsRemoved()
    ensures CleanPrice("30,000") == "30000"
  {
    CommaRemoved();
    CleanThirty();
  }

  lemma ThirtyThousand()
    ensures DigitsValue("30000") == 30000
  {
    assert "30000"[..4] == "3000";
    assert "3000"[..3] == "300";
    assert "300"[..2] == "30";
    assert "30"[..1] == "3";
  }

  lemma SeparatedRoundPrice()
    ensures IsPriceMultipleOf5("30,000")
  {
    SeparatorsRemoved();
    ThirtyThousand();
    assert "30000"[..5] == "30000";
    assert RoundAt("30000", 5);
  }

  lemma TextPriceRejected()
    ensures !IsPriceMultipleOf5("abc")
  {
    CleanPriceUnchanged("abc");
    assert !IsDigit("abc"[0]);
  }

  lemma EmptyPriceRejected()
    ensures !IsPriceMultipleOf5("")
  {
    CleanPriceUnchanged("");
  }

  lemma NegativePriceRejected()
    ensures !IsPriceMultipleOf5("-5")
  {
    CleanPriceUnchanged("-5");
    assert !IsDigit("-5"[0]);
  }

  lemma MissingIntegerPartRejected()
    ensures !IsPriceMultipleOf5(".00")
  {
    CleanPriceUnchanged(".00");
    SplitOnOne(".00", '.', 0);
  }

  lemma MultiDotPriceRejected()
    ensures !IsPriceMultipleOf5("25.0.0")
  {
    CleanPriceUnchanged("25.0.0");
    assert IndexOf("25.0.0", '.') == 2;
    assert "25.0.0"[3..] == "0.0";
    assert IndexOf("0.0", '.') == 1;
    assert "0.0"[2..] == "0";
    assert |SplitOn("25.0.0", '.')| == 3;
  }

  /** The worked examples of the roundness rule, in one place. */
  lemma RoundPriceExamples()
    ensures IsPriceMultipleOf5("25") && IsPriceMultipleOf5("25.00") && IsPriceMultipleOf5("30,000")
    ensures !IsPriceMultipleOf5("25.50") && !IsPriceMultipleOf5("23")
    ensures !IsPriceMultipleOf5("abc") && !IsPriceMultipleOf5("") && !IsPriceMultipleOf5("-5")
    ensures !IsPriceMultipleOf5(".00") && !IsPriceMultipleOf5("25.0.0")
  {
    PlainRoundPrice();
    ZeroFractionRoundPrice();
    SeparatedRoundPrice();
    NonZeroFractionRejected();
    NotMultipleOf5();
    TextPriceRejected();
    EmptyPriceRejected();
    NegativePriceRejected();
    MissingIntegerPartRejected();
    MultiDotPriceRejected();
  }

  // ---------------------------------------------------------------------
  // Candidate capture from the product table
  // ---------------------------------------------------------------------

  /** What the script reads from one product-table row: whether it carries a
      VIP tag, the state of its Buy Now button, and the raw cell texts. */
  datatype RowObs = RowObs(
    vipTag: bool, buyVisible: bool, buyEnabled: bool,
    price: string, offset: string, settlement: string, duration: string, apr: string)

  /** A captured candidate product; `index` counts from 1 in scan order and
      `rowIndex` points back into the scanned rows. */
  datatype Product = Product(
    index: nat, targetPrice: string, priceOffset: string, settlementDate: string,
    duration: string, apr: string, isVip: bool, rowIndex: nat)

  /** A row becomes a candidate when it has no VIP tag and a visible Buy Now button. */
  predicate Listed(row: RowObs) {
    !row.vipTag && row.buyVisible
  }

  function ProductOf(row: RowObs, index: nat, rowIndex: nat): Product {
    Product(index, Strip(row.price), Strip(row.offset), Strip(row.settlement),
            Strip(row.duration), Strip(row.apr), false, rowIndex)
  }

  /** The non-VIP candidates among the first `n` scanned rows, in scan order. */
  function CandidatesUpTo(rows: seq<RowObs>, n: nat): (cands: seq<Product>)
    requires n <= |rows|
    ensures |cands| <= n
    ensures forall k :: 0 <= k < |cands| ==> cands[k].index == k + 1 && !cands[k].isVip
    ensures forall k :: 0 <= k < |cands| ==> cands[k].rowIndex < n && Listed(rows[cands[k].rowIndex])
    ensures forall k, m :: 0 <= k < m < |cands| ==> cands[k].rowIndex < cands[m].rowIndex
  {
    if n == 0 then []
    else
      var prev := CandidatesUpTo(rows, n - 1);
      if Listed(rows[n - 1]) then prev + [ProductOf(rows[n - 1], |prev| + 1, n - 1)] else prev
  }

  /** The candidates of a whole table scan: VIP rows are never candidates,
      indices run 1..n in scan order. */
  function Candidates(rows: seq<RowObs>): (cands: seq<Product>)
    ensures |cands| <= |rows|
    ensures forall k :: 0 <= k < |cands| ==> cands[k].index == k + 1 && !cands[k].isVip
    ensures forall k :: 0 <= k < |cands| ==>
      cands[k].rowIndex < |rows| && Listed(rows[cands[k].rowIndex])
    ensures forall k, m :: 0 <= k < m < |cands| ==> cands[k].rowIndex < cands[m].rowIndex
  {
    CandidatesUpTo(rows, |rows|)
  }

  /** Every listed row is captured. */
  lemma {:induction false} CandidatesComplete(rows: seq<RowObs>, n: nat, i: nat)
    requires n <= |rows| && i < n && Listed(rows[i])
    ensures exists k :: 0 <= k < |CandidatesUpTo(rows, n)| && CandidatesUpTo(rows, n)[k].rowIndex == i
  {
    var prev := CandidatesUpTo(rows, n - 1);
    if i == n - 1 {
      assert CandidatesUpTo(rows, n)[|prev|].rowIndex == i;
    } else {
      CandidatesComplete(rows, n - 1, i);
      var k :| 0 <= k < |prev| && prev[k].rowIndex == i;
      assert CandidatesUpTo(rows, n)[k] == prev[k];
    }
  }

  /** Each candidate carries the stripped texts of the row it came from. */
  lemma {:induction false} CandidatesContent(rows: seq<RowObs>, n: nat, k: nat)
    requires n <= |rows| && k < |CandidatesUpTo(rows, n)|
    ensures var p := CandidatesUpTo(rows, n)[k];
      p == ProductOf(rows[p.rowIndex], k + 1, p.rowIndex)
  {
    var prev := CandidatesUpTo(rows, n - 1);
    var cands := CandidatesUpTo(rows, n);
    if k < |prev| {
      CandidatesContent(rows, n - 1, k);
      assert cands[k] == prev[k];
    } else {
      assert cands == prev + [ProductOf(rows[n - 1], |prev| + 1, n - 1)];
    }
  }

  // ---------------------------------------------------------------------
  // Selection
  // ---------------------------------------------------------------------

  predicate Round(p: Product) {
    IsPriceMultipleOf5(p.targetPrice)
  }

  /** Picks the first candidate with a round price, otherwise the first
      candidate; `None` when there is nothing to pick. */
  function SelectIndex(cands: seq<Product>): (r: Option<nat>)
    ensures r.None? <==> |cands| == 0
    ensures r.Some? ==> r.value < |cands|
    ensures r.Some? ==> forall j :: 0 <= j < r.value ==> !Round(cands[j])
    ensures r.Some? && (exists j :: 0 <= j < |cands| && Round(cands[j])) ==> Round(cands[r.value])
    ensures r.Some? && !Round(cands[r.value]) ==> r.value == 0
  {
    if |cands| == 0 then None
    else
      match FirstWhere(cands, Round)
      case Some(k) => Some(k)
      case None => Some(0)
  }

  /** Worked examples of the selection rule. */
  lemma SelectionExamples(p23: Product, p25: Product)
    requires p23.targetPrice == "23" && p25.targetPrice == "25"
    ensures SelectIndex([p23, p25]) == Some(1)
    ensures SelectIndex([p23]) == Some(0)
    ensures SelectIndex([]) == None
  {
    PlainRoundPrice();
    NotMultipleOf5();
    assert Round(p25) && !Round(p23);
    var both := [p23, p25];
    assert both[1..] == [p25];
    assert FirstWhere([p25], Round) == Some(0);
    assert FirstWhere(both, Round) == Some(1);
    assert FirstWhere([p23], Round) == None;
  }

  // ---------------------------------------------------------------------
  // Re-selection after a price change
  // ---------------------------------------------------------------------

  /** A row whose Buy Now button may be clicked during a retry. */
  predicate Buyable(row: RowObs) {
    !row.vipTag && row.buyVisible && row.buyEnabled
  }

  /** The retry path clicks the first non-VIP row with a usable Buy Now
      button; price roundness plays no part. */
  function FirstBuyable(rows: seq<RowObs>): (r: Option<nat>)
    ensures r.Some? ==> r.value < |rows| && Buyable(rows[r.value])
    ensures r.Some? ==> forall j :: 0 <= j < r.value ==> !Buyable(rows[j])
    ensures r.None? <==> forall j :: 0 <= j < |rows| ==> !Buyable(rows[j])
  {
    FirstWhere(rows, Buyable)
  }

  /** Two listed rows are captured as candidates 1 and 2. */
  lemma TwoListedRows(r0: RowObs, r1: RowObs)
    requires Listed(r0) && Listed(r1)
    ensures Candidates([r0, r1]) == [ProductOf(r0, 1, 0), ProductOf(r1, 2, 1)]
  {
    var rows := [r0, r1];
    assert CandidatesUpTo(rows, 0) == [];
    assert CandidatesUpTo(rows, 1) == [ProductOf(r0, 1, 0)];
  }

  /** The retry path and the initial selection can pick different rows from
      the same table: a round price in the second row wins the initial
      selection but not the re-selection. */
  lemma ReselectionIgnoresRoundness()
    ensures var rows := [RowObs(false, true, true, "23", "", "", "", ""),
                         RowObs(false, true, true, "25", "", "", "", "")];
      && SelectIndex(Candidates(rows)) == Some(1)
      && Candidates(rows)[1].rowIndex == 1
      && FirstBuyable(rows) == Some(0)
  {
    var r0 := RowObs(false, true, true, "23", "", "", "", "");
    var r1 := RowObs(false, true, true, "25", "", "", "", "");
    TwoListedRows(r0, r1);
    StripUnchanged("23");
    StripUnchanged("25");
    SelectionExamples(ProductOf(r0, 1, 0), ProductOf(r1, 2, 1));
  }

  // ---------------------------------------------------------------------
  // Carried investment amount
  // ---------------------------------------------------------------------

  /** `get_actual_investment_amount`: the stripped content of the carried-amount
      file when it is a non-empty digit string, otherwise the configured
      amount. `file` is `None` when the file is absent or unreadable. */
  function ReadCarriedAmount(file: Option<string>, configured: string): (r: string)
    ensures r == configured || IsDigits(r)
    ensures file.Some? && IsDigits(Strip(file.value)) ==> r == Strip(file.value)
    ensures file.None? || !IsDigits(Strip(file.value)) ==> r == configured
  {
    match file
    case Some(content) =>
      var amount := Strip(content);
      if |amount| > 0 && IsDigits(amount) then amount else configured
    case None => configured
  }

  /** What the redemption stage persists (the decimal rendering of a
      non-negative integer) is read back unchanged, and denotes that integer. */
  lemma CarriedAmountRoundTrip(n: nat, configured: string)
    ensures ReadCarriedAmount(Some(NatToString(n)), configured) == NatToString(n)
    ensures DigitsValue(ReadCarriedAmount(Some(NatToString(n)), configured)) == n
  {
    var s := NatToString(n);
    StripUnchanged(s);
    NatToStringRoundTrip(n);
  }
}
