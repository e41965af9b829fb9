# Bybit dual-currency purchase automation: a Dafny model of its decisions

The system is a small set of Python scripts that drive the Bybit web UI.
The scheduler starts a process that first redeems USDT from flexible
savings and then buys a "Buy Low" dual-currency product. It repeats this
every interval, sends one combined notification per run, and survives
errors in the loop. This project models the decisions those scripts take,
and leaves out the browser automation itself:

- **Purchase script** (`Pricing`, `OrderFlow`):
  - the roundness test on a strike price;
  - which table rows become candidates, and which one is chosen;
  - the price-changed retry loop, bounded at three dialog checks;
  - the amount, agreement, Order Now and confirmation gates;
  - the three-tier check of whether the order went through;
  - the read of the carried amount at import time.
- **Redemption script** (`Redemption`):
  - which rows count as USDT sources, and the selector fallback;
  - the target adjustment against the total available, with the 20-USDT
    minimum;
  - the stable descending sort;
  - the redemption loop and its accounting;
  - the record that survives between runs in one process;
  - the carried-amount file.
- **Scheduler** (`Scheduler`):
  - startup, which fixes the purchase amount once;
  - one run: redemption, then purchase whatever happened to redemption,
    then a single report;
  - the main loop's event handling and exit codes.
- **Configuration and logging** (`EnvFile`, `LogPrefix`):
  - the env-file line format and `get_config`;
  - the prefix table that picks a log level;
  - the level-method fallback;
  - the guard against duplicate handlers.

Every UI probe is an input: a row's VIP tag, a button's visibility, a box's
read-back value, the page text. Each stage is a pure function of what it
observes. A stage that raises returns `Raised(fault)` (module `Stage`).
`Opt` and `Text` hold the option type and Python's string operations
(`strip`, `isdigit`, `split`, `in`, `upper`/`lower`, `str(int)`).

The scheduler takes its two stages as function values (`Scheduler.Stages`),
so the loop's properties are proved for any stages. `Scheduler.Scripts`
instantiates them with `Redemption.RunRedemption` and
`OrderFlow.PurchaseStage`. The lemmas that need the real stages' behaviour
use `Scripts`.

The model follows the code as written; in particular:

- A redemption records the adjusted target, not the source's balance. A
  positive target is therefore met by the first successful source, with
  exactly one record.
- The 20-USDT minimum applies only when the balance is below the target.
  A run can succeed having redeemed less than 20.
- The amount the redemption writes out is read only when the purchase
  module is imported. Later runs in the same scheduler process keep buying
  with the startup amount.
- During the price-change retries, the script re-selects the first usable
  non-VIP row without regard to roundness. The purchase record keeps the
  initially chosen product.
- The run's footer is binary: complete success or partial failure.

## Model

| member | source | states |
|---|---|---|
| Pricing.IsPriceMultipleOf5 | dual_buy.py:17-49 | After commas and spaces are removed and the text stripped, the price qualifies exactly when it has a round reading: digits whose value is a multiple of 5, optionally followed by one `.` and only zeros. |
| Pricing.QualifiesCleanIff | dual_buy.py:24-44 | The code's branch-by-branch decision (split on `.`, two parts, zero fraction, digit integer part) agrees in both directions with the reference reading `RoundAt`. |
| Pricing.RoundIsQualified | dual_buy.py:24-44 | Every text with a round reading passes the code's branches. |
| Pricing.QualifiedIsRound | dual_buy.py:24-44 | Every text the code's branches accept has a round reading. |
| Pricing.RoundPriceExamples | dual_buy.py:17-49 | "25", "25.00" and "30,000" qualify. "25.50", "23", "abc", "", "-5", ".00" and "25.0.0" do not. |
| Pricing.CandidatesUpTo | dual_buy.py:386-489 | Candidates are numbered 1..n in scan order. None is VIP. Each points back to a listed row, and the row indices increase. |
| Pricing.Candidates | dual_buy.py:386-495 | The product list of a whole scan: at most one candidate per row, each from a non-VIP row with a visible Buy Now button, in row order. |
| Pricing.CandidatesComplete | dual_buy.py:386-399 | Every non-VIP row with a visible Buy Now button is captured. |
| Pricing.CandidatesContent | dual_buy.py:468-477 | Each candidate holds the stripped cell texts of its row, its 1-based position and its row index. |
| Pricing.SelectIndex | dual_buy.py:497-514 | The choice is the first candidate with a round price when one exists, else the first candidate. There is no choice exactly when the list is empty. |
| Pricing.SelectionExamples | dual_buy.py:500-511 | With prices 23 and 25 the second is chosen; with only 23 the first is chosen; with none, nothing is chosen. |
| Pricing.FirstBuyable | dual_buy.py:662-735 | Re-selection takes the first row without a VIP tag whose Buy Now button is visible and enabled. It fails exactly when there is no such row. |
| Pricing.ReselectionIgnoresRoundness | dual_buy.py:497-511 | On the same two rows (23, then 25), the initial selection picks the round second row and re-selection picks the first row. |
| Pricing.ReadCarriedAmount | dual_buy.py:59-73 | Gives the stripped file content when that is a non-empty digit string. Otherwise, or when the file is missing, gives the configured amount. |
| Pricing.CarriedAmountRoundTrip | redeem_usdt.py:502-505 | Any whole amount the redemption writes as `str(int(total))` is read back unchanged at the next import, and its digits denote the same number. |
| OrderFlow.DriftStep | dual_buy.py:549-747 | One pass of the retry loop: a clean dialog check proceeds; a notice re-selects and loops while fewer than three checks were made; a failed re-selection ends the loop unresolved. |
| OrderFlow.PriceDriftLoop | dual_buy.py:545-750 | At most three dialog checks and two re-selections. The loop proceeds exactly when some check within the bound is clean and every earlier check saw the notice and was followed by a successful re-selection. Three notices in a row end it unresolved. |
| OrderFlow.ThreeNoticesExhaust | dual_buy.py:545-750 | Three notices with two successful re-selections end unresolved after three checks, having clicked the two re-selected rows. |
| OrderFlow.FillAmount | dual_buy.py:802-836 | The first visible amount box is refilled with the amount whatever it held, and nothing else changes. No visible box is the amount-field error. |
| OrderFlow.FillAmountIdempotent | dual_buy.py:816-820 | Filling again finds the same box and changes nothing. |
| OrderFlow.AcceptAgreement | dual_buy.py:849-884 | The first visible checkbox is clicked if and only if it was unchecked, and is checked afterwards. No visible box is the checkbox error. |
| OrderFlow.AcceptAgreementIdempotent | dual_buy.py:857-870 | A second pass finds the box already checked and leaves it alone. |
| OrderFlow.PressOrderNow | dual_buy.py:917-947 | Order Now is clicked on the first visible, enabled button without a `disabled` attribute. With none, the order fails. |
| OrderFlow.Confirm | dual_buy.py:994-1026 | The first visible, enabled confirm-like button is clicked: no earlier button is usable. Finding none is not an error. |
| OrderFlow.ClassifyOutcome | dual_buy.py:1045-1119 | Success is confirmed by a visible result surface containing the success text; failing that, by the page content; failing that, by the lower-cased URL containing "success" or "complete". Each tier is stated as an if-and-only-if. |
| OrderFlow.StatusOf | dual_buy.py:1121-1123 | The status is `Success` exactly when some tier confirmed the order, else `Unknown`. A completed run is never `Failed`. |
| OrderFlow.FirstFailedStep | dual_buy.py:497-947 | Over the steps in the script's order, each fault is raised exactly when its step is the first to fail. The steps are: a candidate listed, the chosen row's Buy Now enabled, the price drift resolved, an amount box found, the agreement checkbox found, Order Now available. No step fails exactly when all of them succeed. `StepsOf` reads each step's success off the page observations. |
| OrderFlow.PurchaseStage | dual_buy.py:497-1203 | The stage raises exactly when some step of `StepsOf` fails, with the first failing step's fault, and otherwise returns. A returned record lists all candidates, carries the initial selection (never VIP) and the import-time amount, and is `Success` exactly when the outcome was confirmed. |
| OrderFlow.ConfirmationOptional | dual_buy.py:994-1028 | What the confirmation step finds never changes the stage's outcome. |
| OrderFlow.ReportedProductIsInitialSelection | dual_buy.py:514 | After re-selections, the record still names the initially selected product. |
| Redemption.SourcesUpTo | redeem_usdt.py:161-218 | Sources are numbered from 1 in row order and have positive amounts. There are none exactly when no row qualifies. |
| Redemption.SourcesOf | redeem_usdt.py:161-218 | A row is a source when its upper-cased text mentions USDT, it holds a redeem button and a positive amount was extracted. |
| Redemption.SourcesOfAmounts | redeem_usdt.py:200-209 | The sources carry exactly the qualifying rows' amounts, in row order. |
| Redemption.CollectSources | redeem_usdt.py:143-225 | Selectors are tried in order. The result is the sources of the first selector that yields any, and is empty exactly when no selector yields a source. |
| Redemption.TotalPositive | redeem_usdt.py:209 | A non-empty total of positive amounts is positive and at least each amount. |
| Redemption.Trunc | redeem_usdt.py:243 | `int()` on a float truncates toward zero. |
| Redemption.AdjustTarget | redeem_usdt.py:240-256 | It fails exactly when the total is below both the target and 20. A covered target is truncated. Otherwise the truncated total is used, and it is at least 20. The result never exceeds a non-negative target. |
| Redemption.MinimumOnlyBelowTarget | redeem_usdt.py:240-256 | (100, 5) gives 5; (19.5, 25) fails; (37.9, 50) gives 37. |
| Redemption.InsertDesc | redeem_usdt.py:259 | Insertion keeps the ranked order, and the result is a permutation of the input plus the new source. |
| Redemption.SortDesc | redeem_usdt.py:259 | The sort result is a permutation of the sources in which amounts never increase and equal amounts keep discovery order (Python's sort is stable). |
| Redemption.RankedPairwise | redeem_usdt.py:259 | In a ranked list, any earlier source has an amount at least as large, and equal amounts are in discovery order. |
| Redemption.RedeemFrom | redeem_usdt.py:262-493 | Every record carries the target amount. The loop stops once the target is met, so a positive target gives at most one record. There is no record exactly when no remaining attempt succeeds, and otherwise the record belongs to the first source whose attempt succeeds. |
| Redemption.Settle | redeem_usdt.py:495-512 | The run succeeds exactly when something was redeemed, with total equal to the target. Otherwise it fails with `NothingRedeemed` and total 0. The file is written exactly on success when writing works, and holds `str(int(total))`. |
| Redemption.RunRedemption | redeem_usdt.py:151-512 | No sources leaves the record untouched. `InsufficientFunds` is raised exactly when `AdjustTarget` fails, and leaves the record untouched. Otherwise the record's target becomes the adjusted target, which the next run starts from, and the loop's records over the sorted sources are appended. The run returns exactly when that loop redeemed something. Success means total = target > 0. The target never grows, and earlier records are kept. |
| Redemption.TargetRecordedPerSource | redeem_usdt.py:475-482 | With target 20 and sources of 12 and 9, one record of 20 is made for the first source. |
| Redemption.SuccessBelowMinimum | redeem_usdt.py:251-256 | A covered target of 5 is redeemed and the run succeeds, writing "5". |
| Redemption.TargetNeverGrows | redeem_usdt.py:240-256 | Over any number of runs in one process, the target stays between 0 and the configured one. |
| EnvFile.Unquote | load_env.py:35-38 | One pair of matching double or single quotes is removed. A lone quote character becomes empty. Anything else is unchanged. |
| EnvFile.UnquoteRoundTrip | load_env.py:35-38 | Quoting a value and unquoting it gives the value back. |
| EnvFile.ClassifyLine | load_env.py:22-44 | Blank and `#` lines are skipped. A line with `=` is split at its first `=`, both sides stripped and the value unquoted. Any other line is malformed. |
| EnvFile.AssignmentRoundTrip | load_env.py:22-38 | A `key=value` line built from a key and value the format can carry classifies back to the same pair. |
| EnvFile.LoadLines | load_env.py:19-49 | Keys are never removed. A new key comes from some assignment. A load that runs to the end met only settable assignments. |
| EnvFile.LoadEnv | load_env.py:13-17 | A missing file leaves the environment unchanged. |
| EnvFile.GetConfig | load_env.py:52-54 | The environment's value, else the default. |
| EnvFile.UntouchedKeysKept | load_env.py:41 | A key the file never assigns keeps its value. |
| EnvFile.LastAssignmentWins | load_env.py:21-41 | A load that runs to the end gives a key its last assigned value. |
| EnvFile.NonAssignmentsIgnored | load_env.py:25-26 | Blank, comment and malformed lines change nothing. |
| EnvFile.LoadOverrides | load_env.py:19-49 | A load overrides the environment with a map that depends only on the file's lines. |
| EnvFile.LoadEnvIdempotent | load_env.py:13-49 | Loading the same file a second time, as each imported script does, changes nothing. |
| EnvFile.LineExamples | load_env.py:22-44 | `# note` and a blank line are skipped; `NO_EQUALS` is malformed; ` A = "x=y" ` assigns `x=y` to `A`. |
| LogPrefix.MatchIndex | logger_config.py:146-147 | The first table entry, in declaration order, whose prefix starts the message. |
| LogPrefix.RouteMessage | logger_config.py:136-152 | A matching prefix sets the level. A bracketed tag is cut off and the rest stripped, while an emoji stays. Without a match, message and level pass through. |
| LogPrefix.LevelMethod | logger_config.py:155 | The method is the lower-cased level when the logger has one of that name, else `info`. |
| LogPrefix.TableLevelsAreMethods | logger_config.py:103-133 | Every level in the table names a real logger method. |
| LogPrefix.NumericLevel | logger_config.py:39 | Maps the level names to 10, 20, 30, 40, 50 or 0, with names that are not attributes of `logging` giving 20. |
| LogPrefix.SetupLogger | logger_config.py:27-68 | A logger that has handlers is returned untouched. Otherwise it gets its level and two handlers. Other loggers are unchanged. |
| LogPrefix.GetLogger | logger_config.py:71-81 | Leaves a configured logger under the name and changes no other logger. |
| LogPrefix.SetupIdempotent | logger_config.py:34-36 | Setting a logger up again with any level changes nothing. |
| LogPrefix.SetupBoundsHandlers | logger_config.py:34-66 | No logger ever collects more than the two handlers. |
| LogPrefix.SetupAllCovers | logger_config.py:85-99 | Every module in the list ends up with a configured logger. |
| LogPrefix.KeepsConfigured | logger_config.py:34-36 | A configured logger keeps its state through later setups. |
| LogPrefix.ModuleLoggersCreated | logger_config.py:85-99 | `create_module_loggers` configures all five module loggers. |
| LogPrefixExamples.TableShape | logger_config.py:103-133 | The first 18 entries are bracketed tags; the rest are emoji and are never cut off. |
| LogPrefixExamples.UnmatchedPassesThrough | logger_config.py:145-152 | A message opening with neither a bracket nor an emoji keeps its text and level. |
| LogPrefixExamples.TagStripped | logger_config.py:147-151 | "[OK]  done" logs "done" at INFO. |
| LogPrefixExamples.EmojiKept | logger_config.py:147-152 | A message starting with the check-mark emoji logs at INFO with its text unchanged. |
| Scheduler.Startup | dual_buy.py:52-75 | The redemption record starts from the configured target. The purchase amount is the carried file's digits when present, else the configured amount, else "20". |
| Scheduler.LineFor | scheduler.py:102-130 | A stage is summarised exactly when its status is success. Otherwise its error is shown, or the default text when it has none. |
| Scheduler.ResultOf | scheduler.py:66-86 | For either stage: an error is recorded exactly when the stage raised, and then the status is `failed`; a returned record keeps its own status. |
| Scheduler.RunCompleteFlow | scheduler.py:55-147 | Redemption runs on the process's record. Purchase runs with the startup amount whatever redemption did. The footer is complete success exactly when both stages succeeded. The record carries over and the amount does not change. |
| Scheduler.PurchaseIsolated | scheduler.py:75-86 | The purchase result does not depend on what the redemption page showed. |
| Scheduler.CarriedAmountNotReread | scheduler.py:79-81 | After a redemption writes an amount, the next run in the same process still buys with the startup amount. |
| Scheduler.UnconfirmedOrderReported | scheduler.py:116-139 | An order whose result could not be confirmed is reported with the default error and a partial-failure footer. |
| Scheduler.ExitOf | scheduler.py:251-287 | The exit status is that of the first Ctrl-C (0) or escaping exception (1); there is none while neither has happened. |
| Scheduler.Drive | scheduler.py:223-287 | The loop's exit is `ExitOf`. The last notice is the stop or critical notice matching the code. The amount never changes. The target never grows when the stages keep it down. |
| Scheduler.ScriptsKeepTargetDown | redeem_usdt.py:240-256 | The real redemption stage never raises the target. |
| Scheduler.RunsStep | scheduler.py:190-195 | A sequence of runs is the first run's report followed by the rest from the state it left. |
| Scheduler.DriveDueStep | scheduler.py:226-228 | A due run's report comes before all later ones. |
| Scheduler.DriveReports | scheduler.py:223-249 | The loop reports exactly the due runs before it ends, in order, each from the state the previous one left. Loop errors and idle minutes add no report. |
| Scheduler.RunsUseStartupAmount | scheduler.py:79-81 | Every run buys with the amount the process started with. |
| Scheduler.Serve | scheduler.py:187-287 | The startup notice comes first, then the immediate run's report. The reports are those of the immediate run and the due runs, and the exit is `ExitOf`. |
| Scheduler.SchedulerMain | scheduler.py:167-287 | `main()`: startup, then the same guarantees as `Serve`. |
| Scheduler.SessionUsesStartupAmount | scheduler.py:219-228 | One report per run, each for a purchase with the amount read at startup. |
| Scheduler.SessionTargetNeverGrows | scheduler.py:219-228 | Over a whole session, the redemption target stays between 0 and the configured one. |
| Scheduler.LoopErrorsSurvived | scheduler.py:229-249 | A loop error is reported and the next due run still happens. |
| Scheduler.InterruptStops | scheduler.py:251-267 | After Ctrl-C the stop notice is sent, the exit is 0 and nothing else runs. |

## Left out

- Browser automation is not modelled. Every locator, click, wait and
  screenshot is replaced by the observation it yields. Page navigation,
  login state and dialog discovery before the product table are not
  modelled.
- Telegram delivery, console output and the log files are left out, as are
  timestamps and durations. Notifications are modelled as the data they
  carry, not their Markdown text.
- Fault messages are left out: the wording of `exit_with_error`, the
  re-wrapping by the outer handlers, and float formatting. A fault is a
  constructor of `Stage.Fault`.
- Amount extraction from a source row's text (the regular expressions and
  `float()`) is an input (`SourceRow.amount`). The price and offset
  extraction in the purchase table is also an input, through the
  JavaScript/regex fallback.
- Amounts are reals. Floating-point rounding in the running total and in
  `float(target)` is not modelled, and the configured target is handed to
  the model already parsed.
- `Text.IsDigit`, `Text.Upper` and `Text.Lower` are ASCII only. Python's
  `isdigit`, `upper` and `lower` also accept or map other Unicode
  characters.
- The env file arrives as a list of lines. Reading and decoding it, and
  other I/O errors, are left out.
- Redemption.CollectSources: a selector that raises after some sources were
  found is treated as yielding nothing.
- The cells the purchase script reads are modelled as stripped texts.
  "N/A" fallbacks for missing cells arrive as inputs.
- `PurchaseStage` checks only `buyEnabled` for the chosen row's Buy Now
  button. Visibility was already required when the row was listed, and a
  change between the two probes is not modelled.
- `available_products`, `timestamp` and the other display-only fields of
  the records are left out.
- In `log_with_emoji`, a level naming a logger attribute that is not a
  logging method is left out. `setup_logger(None)` looks up the caller's
  module name, and that branch is left out too.
- A Ctrl-C during the immediate first run, before the loop's handler is
  installed, ends the process without the stop notice. This is left out.
- `SCHEDULE_INTERVAL` parsing and the `schedule` library's timing are left
  out. The loop sees one event per minute, and a due run is one of those
  events.
- EnvFile.GetConfig: environment keys are case-sensitive, as on POSIX. On
  Windows, where the scripts' hard-coded paths point, `os.environ`
  upper-cases keys on both set and get, so a line
  `bybit_investment_amount=30` would satisfy
  `get_config('BYBIT_INVESTMENT_AMOUNT', '20')`. The model returns the
  default there.
- LogPrefix.NumericLevel: an upper-case name of a `logging` attribute that
  is not a level (`BASIC_FORMAT`, say) makes `setLevel` raise. Every caller
  passes "INFO", so this case is left out.
