/** How a stage script ends, as the scheduler sees it, and the UI controls
    both stage scripts probe. */
module Stage {

  /** Why a stage script raised. Each names an `exit_with_error` call site,
      except `Unexpected`, which stands for any other exception (a browser
      timeout, say). The modelled scripts never raise it; only an arbitrary
      `Scheduler.Stages` value can, which the scheduler must survive. */
  datatype Fault =
    | NoProductsAvailable
    | BuyNowUnavailable
    | PriceDriftUnresolved
    | AmountFieldNotFound
    | AgreementCheckboxNotFound
    | OrderButtonUnavailable
    | NoRedeemableSources
    | InsufficientFunds
    | NothingRedeemed
    | Unexpected(message: string)

  /** The `status` field of a stage's record. */
  datatype Status = Pending | Success | Unknown | Failed

  /** A stage's `main()` either returns (leaving its module-level record
      behind) or raises. */
  datatype Outcome<+T> = Returned(info: T) | Raised(fault: Fault)

  /** A button as probed by `is_visible()` / `is_enabled()`. */
  datatype Button = Button(visible: bool, enabled: bool)

  /** The scripts click a button only when it is both visible and enabled. */
  predicate Usable(b: Button) {
    b.visible && b.enabled
  }
}
