/** The order-dialog part of the purchase script: the bounded price-change
    retry, the amount, agreement, Order Now and confirmation steps, and the
    three-tier classification of the result. Every UI probe is an input. */
module OrderFlow {

  import opened Opt
  import opened Text
  import opened Stage
  import opened Pricing

  /** `max_retries`: dialog checks that may show the price-changed notice. */
  const MaxRetries: nat := 3

  // ---------------------------------------------------------------------
  // Price-change retry loop
  // ---------------------------------------------------------------------

  /** Whether dialog check `k` found the price-changed notice. A check past
      the end of the observed stream found nothing. */
  predicate DriftAt(drift: seq<bool>, k: nat) {
    k < |drift| && drift[k]
  }

  /** The product rows re-scanned for re-selection number `k`; none when the
      stream has no such scan. */
  function RescanAt(rescans: seq<seq<RowObs>>, k: nat): seq<RowObs> {
    if k < |rescans| then rescans[k] else []
  }

  predicate ReselectOk(rescans: seq<seq<RowObs>>, k: nat) {
    FirstBuyable(RescanAt(rescans, k)).Some?
  }

  /** Checks 0..k-1 all saw the notice and each was followed by a successful
      re-selection, so check `k` takes place. */
  predicate Survives(drift: seq<bool>, rescans: seq<seq<RowObs>>, k: nat) {
    forall j :: 0 <= j < k ==> DriftAt(drift, j) && ReselectOk(rescans, j)
  }

  /** How the loop ends: the number of dialog checks made and the rows
      clicked by the re-selections, in order. */
  datatype DriftEnd =
    | Proceeded(checks: nat, reselected: seq<nat>)
    | Unresolved(checks: nat, reselected: seq<nat>)

  /** One pass of the loop body when `retries` notices have been seen so far. */
  function DriftStep(drift: seq<bool>, rescans: seq<seq<RowObs>>, retries: nat, reselected: seq<nat>): (r: DriftEnd)
    requires retries < MaxRetries && |reselected| == retries
    ensures retries < r.checks <= MaxRetries
    ensures |r.reselected| == r.checks - 1
    ensures r.reselected[..retries] == reselected
    ensures forall j :: retries <= j < r.checks - 1 ==>
              DriftAt(drift, j) && FirstBuyable(RescanAt(rescans, j)) == Some(r.reselected[j])
    ensures r.Proceeded? <==> !DriftAt(drift, r.checks - 1)
    ensures r.Unresolved? ==> r.checks == MaxRetries || !ReselectOk(rescans, r.checks - 1)
    decreases MaxRetries - retries
  {
    if !DriftAt(drift, retries) then
      Proceeded(retries + 1, reselected)
    else if retries + 1 < MaxRetries then
      match FirstBuyable(RescanAt(rescans, retries))
      case None => Unresolved(retries + 1, reselected)
      case Some(row) => DriftStep(drift, rescans, retries + 1, reselected + [row])
    else
      Unresolved(retries + 1, reselected)
  }

  /** The retry loop: at most three dialog checks and two re-selections; it
      proceeds exactly when some check within the bound is clean after every
      earlier check saw the notice and was re-selected successfully, and
      three notices in a row end it unresolved. */
  function PriceDriftLoop(drift: seq<bool>, rescans: seq<seq<RowObs>>): (r: DriftEnd)
    ensures 1 <= r.checks <= MaxRetries
    ensures |r.reselected| == r.checks - 1
    ensures forall j :: 0 <= j < |r.reselected| ==>
              FirstBuyable(RescanAt(rescans, j)) == Some(r.reselected[j])
    ensures r.Proceeded? <==> exists k :: 0 <= k < MaxRetries && Survives(drift, rescans, k) && !DriftAt(drift, k)
    ensures DriftAt(drift, 0) && DriftAt(drift, 1) && DriftAt(drift, 2) ==> r.Unresolved?
  {
    var r := DriftStep(drift, rescans, 0, []);
    assert Survives(drift, rescans, r.checks - 1);
    assert r.Proceeded? ==> exists k :: 0 <= k < MaxRetries && Survives(drift, rescans, k) && !DriftAt(drift, k) by {
      if r.Proceeded? {
        assert Survives(drift, rescans, r.checks - 1) && !DriftAt(drift, r.checks - 1);
      }
    }
    assert (exists k :: 0 <= k < MaxRetries && Survives(drift, rescans, k) && !DriftAt(drift, k)) ==> r.Proceeded? by {
      if k: nat :| k < MaxRetries && Survives(drift, rescans, k) && !DriftAt(drift, k) {
        var c: nat := r.checks - 1;
        assert c < k ==> DriftAt(drift, c) && ReselectOk(rescans, c);
        assert k < c ==> DriftAt(drift, k);
      }
    }
    r
  }

  /** Three consecutive notices leave the loop unresolved, without a
      fourth check, after exactly two re-selections. */
  lemma ThreeNoticesExhaust(drift: seq<bool>, rescans: seq<seq<RowObs>>)
    requires DriftAt(drift, 0) && DriftAt(drift, 1) && DriftAt(drift, 2)
    requires ReselectOk(rescans, 0) && ReselectOk(rescans, 1)
    ensures PriceDriftLoop(drift, rescans) == Unresolved(3, [FirstBuyable(rescans[0]).value, FirstBuyable(rescans[1]).value])
  {
  }

  // ---------------------------------------------------------------------
  // Amount, agreement, Order Now, confirmation
  // ---------------------------------------------------------------------

  /** An amount input box found in the dialog. */
  datatype AmountInput = AmountInput(visible: bool, value: string)

  /** The box that was filled and the boxes afterwards. */
  datatype Filled = Filled(at: nat, inputs: seq<AmountInput>)

  predicate InputVisible(i: AmountInput) {
    i.visible
  }

  /** The first visible box is cleared and refilled with `amount`, whatever
      it held before; no visible box is the "amount field not found" error. */
  function FillAmount(inputs: seq<AmountInput>, amount: string): (r: Option<Filled>)
    ensures r.None? <==> forall j :: 0 <= j < |inputs| ==> !inputs[j].visible
    ensures r.Some? ==> r.value.at < |inputs| && inputs[r.value.at].visible
    ensures r.Some? ==> forall j :: 0 <= j < r.value.at ==> !inputs[j].visible
    ensures r.Some? ==> (
      && |r.value.inputs| == |inputs|
      && r.value.inputs[r.value.at] == AmountInput(true, amount)
      && forall j :: 0 <= j < |inputs| && j != r.value.at ==> r.value.inputs[j] == inputs[j])
  {
    match FirstWhere(inputs, InputVisible)
    case None => None
    case Some(k) => Some(Filled(k, inputs[k := AmountInput(true, amount)]))
  }

  /** Filling again with the same amount finds the same box and changes nothing. */
  lemma FillAmountIdempotent(inputs: seq<AmountInput>, amount: string)
    requires FillAmount(inputs, amount).Some?
    ensures FillAmount(FillAmount(inputs, amount).value.inputs, amount) == FillAmount(inputs, amount)
  {
    var f := FillAmount(inputs, amount).value;
    var g := FillAmount(f.inputs, amount);
    assert g.Some? by { assert f.inputs[f.at].visible; }
    assert g.value.at == f.at;
    assert f.inputs[f.at := AmountInput(true, amount)] == f.inputs;
  }

  /** The agreement checkbox as probed by `is_visible()` / `is_checked()`. */
  datatype Checkbox = Checkbox(visible: bool, checked: bool)

  /** The checkbox used, the boxes afterwards, and whether it was clicked. */
  datatype Accepted = Accepted(at: nat, boxes: seq<Checkbox>, toggled: bool)

  predicate BoxVisible(b: Checkbox) {
    b.visible
  }

  /** The first visible checkbox is checked if, and only if, it is unchecked;
      both cases succeed. No visible box is the "checkbox not found" error. */
  function AcceptAgreement(boxes: seq<Checkbox>): (r: Option<Accepted>)
    ensures r.None? <==> forall j :: 0 <= j < |boxes| ==> !boxes[j].visible
    ensures r.Some? ==> r.value.at < |boxes| && boxes[r.value.at].visible
    ensures r.Some? ==> forall j :: 0 <= j < r.value.at ==> !boxes[j].visible
    ensures r.Some? ==> (r.value.toggled <==> !boxes[r.value.at].checked)
    ensures r.Some? ==> (
      && |r.value.boxes| == |boxes| && r.value.boxes[r.value.at].checked
      && forall j :: 0 <= j < |boxes| && j != r.value.at ==> r.value.boxes[j] == boxes[j])
    ensures r.Some? && !r.value.toggled ==> r.value.boxes == boxes
  {
    match FirstWhere(boxes, BoxVisible)
    case None => None
    case Some(k) =>
      if boxes[k].checked then Some(Accepted(k, boxes, false))
      else Some(Accepted(k, boxes[k := Checkbox(true, true)], true))
  }

  /** Accepting twice is the same as accepting once: the second pass finds
      the box checked and leaves it alone. */
  lemma AcceptAgreementIdempotent(boxes: seq<Checkbox>)
    requires AcceptAgreement(boxes).Some?
    ensures var a := AcceptAgreement(boxes).value;
      AcceptAgreement(a.boxes) == Some(Accepted(a.at, a.boxes, false))
  {
    var a := AcceptAgreement(boxes).value;
    assert a.boxes[a.at].visible;
    var b := AcceptAgreement(a.boxes);
    assert b.Some? && b.value.at == a.at;
  }

  /** An Order Now candidate: visible, `is_enabled()`, and whether it carries
      a `disabled` attribute. */
  datatype OrderButton = OrderButton(visible: bool, enabled: bool, disabledAttr: bool)

  predicate Clickable(b: OrderButton) {
    b.visible && b.enabled && !b.disabledAttr
  }

  /** Order Now is clicked on the first visible, enabled button without a
      `disabled` attribute; if there is none the order fails. */
  function PressOrderNow(buttons: seq<OrderButton>): (r: Option<nat>)
    ensures r.Some? ==> r.value < |buttons| && Clickable(buttons[r.value])
    ensures r.Some? ==> forall j :: 0 <= j < r.value ==> !Clickable(buttons[j])
    ensures r.None? <==> forall j :: 0 <= j < |buttons| ==> !Clickable(buttons[j])
  {
    FirstWhere(buttons, Clickable)
  }

  /** The optional confirmation: the first usable confirm-like button is
      clicked; finding none is not an error. */
  function Confirm(buttons: seq<Button>): (r: Option<nat>)
    ensures r.Some? ==> r.value < |buttons| && Usable(buttons[r.value])
    ensures r.Some? ==> forall j :: 0 <= j < r.value ==> !Usable(buttons[j])
    ensures r.None? <==> forall j :: 0 <= j < |buttons| ==> !Usable(buttons[j])
  {
    FirstWhere(buttons, Usable)
  }

  // ---------------------------------------------------------------------
  // Result classification
  // ---------------------------------------------------------------------

  const SuccessMarker: string := "Your order is successful"

  /** A candidate result surface (modal body, title, icon) and its text. */
  datatype ResultSurface = ResultSurface(visible: bool, text: string)

  /** Which signal confirmed the order. */
  datatype Tier = ModalTier | PageTier | UrlTier

  predicate SurfaceShowsSuccess(s: ResultSurface) {
    s.visible && Contains(s.text, SuccessMarker)
  }

  predicate AnySurfaceShowsSuccess(surfaces: seq<ResultSurface>) {
    exists j :: 0 <= j < |surfaces| && SurfaceShowsSuccess(surfaces[j])
  }

  predicate UrlShowsSuccess(url: string) {
    Contains(Lower(url), "success") || Contains(Lower(url), "complete")
  }

  /** Tiered classification: a result surface, then the page content, then
      the URL; `None` means the outcome could not be confirmed. */
  function ClassifyOutcome(surfaces: seq<ResultSurface>, page: string, url: string): (r: Option<Tier>)
    ensures r == Some(ModalTier) <==> AnySurfaceShowsSuccess(surfaces)
    ensures r == Some(PageTier) <==> !AnySurfaceShowsSuccess(surfaces) && Contains(page, SuccessMarker)
    ensures r == Some(UrlTier) <==>
      !AnySurfaceShowsSuccess(surfaces) && !Contains(page, SuccessMarker) && UrlShowsSuccess(url)
    ensures r.None? <==>
      !AnySurfaceShowsSuccess(surfaces) && !Contains(page, SuccessMarker) && !UrlShowsSuccess(url)
  {
    match FirstWhere(surfaces, SurfaceShowsSuccess)
    case Some(_) => Some(ModalTier)
    case None =>
      if Contains(page, SuccessMarker) then Some(PageTier)
      else if UrlShowsSuccess(url) then Some(UrlTier)
      else None
  }

  /** `purchase_info["status"]` after the result check. */
  function StatusOf(tier: Option<Tier>): (s: Status)
    ensures s == Success <==> tier.Some?
    ensures s != Failed
  {
    if tier.Some? then Success else Unknown
  }

  // ---------------------------------------------------------------------
  // The whole purchase stage
  // ---------------------------------------------------------------------

  /** Everything the purchase script observes on the page during one run. */
  datatype PurchaseObs = PurchaseObs(
    rows: seq<RowObs>,
    drift: seq<bool>,
    rescans: seq<seq<RowObs>>,
    amountInputs: seq<AmountInput>,
    checkboxes: seq<Checkbox>,
    orderButtons: seq<OrderButton>,
    confirmButtons: seq<Button>,
    surfaces: seq<ResultSurface>,
    page: string,
    url: string)

  /** The module-level `purchase_info` record the scheduler copies. */
  datatype PurchaseInfo = PurchaseInfo(
    productList: seq<Product>, selected: Product, investmentAmount: string, status: Status)

  /** The row the initial selection picked has an enabled Buy Now button. */
  predicate BuyNowReady(rows: seq<RowObs>) {
    var cands := Candidates(rows);
    cands != [] && rows[cands[SelectIndex(cands).value].rowIndex].buyEnabled
  }

  /** Whether each step of the purchase script succeeds, in the script's
      order: some candidate is listed, the chosen row's Buy Now is enabled,
      the price-drift loop proceeds, an amount box is filled, the agreement
      is accepted, and Order Now is pressed. */
  datatype Steps = Steps(listed: bool, buyNow: bool, drift: bool, amount: bool, agreement: bool, order: bool)

  /** The steps as the page lets them go. */
  function StepsOf(o: PurchaseObs, amount: string): Steps {
    Steps(Candidates(o.rows) != [],
          BuyNowReady(o.rows),
          PriceDriftLoop(o.drift, o.rescans).Proceeded?,
          FillAmount(o.amountInputs, amount).Some?,
          AcceptAgreement(o.checkboxes).Some?,
          PressOrderNow(o.orderButtons).Some?)
  }

  /** The fault of the step that fails first; `None` when every step
      succeeds. */
  function FirstFailedStep(s: Steps): (f: Option<Fault>)
    ensures f == Some(NoProductsAvailable) <==> !s.listed
    ensures f == Some(BuyNowUnavailable) <==> s.listed && !s.buyNow
    ensures f == Some(PriceDriftUnresolved) <==> s.listed && s.buyNow && !s.drift
    ensures f == Some(AmountFieldNotFound) <==> s.listed && s.buyNow && s.drift && !s.amount
    ensures f == Some(AgreementCheckboxNotFound) <==>
      s.listed && s.buyNow && s.drift && s.amount && !s.agreement
    ensures f == Some(OrderButtonUnavailable) <==>
      s.listed && s.buyNow && s.drift && s.amount && s.agreement && !s.order
    ensures f.None? <==> s.listed && s.buyNow && s.drift && s.amount && s.agreement && s.order
  {
    if !s.listed then Some(NoProductsAvailable)
    else if !s.buyNow then Some(BuyNowUnavailable)
    else if !s.drift then Some(PriceDriftUnresolved)
    else if !s.amount then Some(AmountFieldNotFound)
    else if !s.agreement then Some(AgreementCheckboxNotFound)
    else if !s.order then Some(OrderButtonUnavailable)
    else None
  }

  /** A whole run of the purchase script, in the order of its steps. The
      amount is `INVESTMENT_AMOUNT`, fixed when the module was imported.
      The stage raises the fault of the first step that fails, and returns
      exactly when every step succeeds. */
  function PurchaseStage(o: PurchaseObs, amount: string): (r: Outcome<PurchaseInfo>)
    ensures r.Raised? <==> FirstFailedStep(StepsOf(o, amount)).Some?
    ensures r.Raised? ==> r.fault == FirstFailedStep(StepsOf(o, amount)).value
    ensures r.Returned? ==> (
      && r.info.productList == Candidates(o.rows)
      && r.info.selected == Candidates(o.rows)[SelectIndex(Candidates(o.rows)).value]
      && !r.info.selected.isVip)
    ensures r.Returned? ==> r.info.investmentAmount == amount
    ensures r.Returned? ==> (r.info.status == Success || r.info.status == Unknown)
    ensures r.Returned? ==>
      (r.info.status == Success <==> ClassifyOutcome(o.surfaces, o.page, o.url).Some?)
  {
    match FirstFailedStep(StepsOf(o, amount))
    case Some(f) => Raised(f)
    case None =>
      var cands := Candidates(o.rows);
      var chosen := cands[SelectIndex(cands).value];
      Returned(PurchaseInfo(cands, chosen, amount, StatusOf(ClassifyOutcome(o.surfaces, o.page, o.url))))
  }

  /** The confirmation step is optional: what it finds never changes the
      stage's outcome. */
  lemma ConfirmationOptional(o: PurchaseObs, buttons: seq<Button>, amount: string)
    ensures PurchaseStage(o.(confirmButtons := buttons), amount) == PurchaseStage(o, amount)
  {
  }

  /** The record keeps the product chosen by the initial selection even when
      a price change led to a different row being clicked. */
  lemma ReportedProductIsInitialSelection(o: PurchaseObs, amount: string)
    requires PurchaseStage(o, amount).Returned?
    requires |PriceDriftLoop(o.drift, o.rescans).reselected| > 0
    ensures PurchaseStage(o, amount).info.selected ==
      Candidates(o.rows)[SelectIndex(Candidates(o.rows)).value]
  {
  }
}
