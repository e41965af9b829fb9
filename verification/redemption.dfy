/** The decision logic of the redemption script: which rows count as
    redeemable USDT sources, how the target is adjusted against what is
    available, the order sources are tried in, and when the run counts as a
    success. Every UI probe is an input. */
module Redemption {

  import opened Opt
  import opened Text
  import opened Stage

  /** Below the configured target, a balance under this cannot be redeemed. */
  const MinimumRedeemable: real := 20.0

  // ---------------------------------------------------------------------
  // Source discovery
  // ---------------------------------------------------------------------

  /** A product row as one selector returns it: its text, whether it holds a
      redeem button, and the amount the text patterns extract, if any. */
  datatype SourceRow = SourceRow(text: string, hasRedeemButton: bool, amount: Option<real>)

  /** A redeemable source: its 1-based discovery index and its amount. */
  datatype Source = Source(index: nat, amount: real)

  predicate MentionsUsdt(text: string) {
    Contains(Upper(text), "USDT")
  }

  /** A row is a source when its upper-cased text mentions USDT, it holds a
      redeem button and a positive amount was extracted. */
  predicate IsSource(row: SourceRow) {
    MentionsUsdt(row.text) && row.hasRedeemButton && row.amount.Some? && row.amount.value > 0.0
  }

  /** Sources among the first `n` rows of one selector's result. */
  function SourcesUpTo(rows: seq<SourceRow>, n: nat): (s: seq<Source>)
    requires n <= |rows|
    ensures |s| <= n
    ensures forall k :: 0 <= k < |s| ==> s[k].index == k + 1 && s[k].amount > 0.0
    ensures (s == []) <==> forall i :: 0 <= i < n ==> !IsSource(rows[i])
  {
    if n == 0 then []
    else
      var prev := SourcesUpTo(rows, n - 1);
      if IsSource(rows[n - 1]) then prev + [Source(|prev| + 1, rows[n - 1].amount.value)] else prev
  }

  function SourcesOf(rows: seq<SourceRow>): (s: seq<Source>)
    ensures forall k :: 0 <= k < |s| ==> s[k].index == k + 1 && s[k].amount > 0.0
    ensures (s == []) <==> forall i :: 0 <= i < |rows| ==> !IsSource(rows[i])
  {
    SourcesUpTo(rows, |rows|)
  }

  /** The amounts of the qualifying rows, in row order. */
  function QualifyingAmounts(rows: seq<SourceRow>): seq<real> {
    if rows == [] then []
    else
      var prev := QualifyingAmounts(rows[..|rows| - 1]);
      var last := rows[|rows| - 1];
      if IsSource(last) then prev + [last.amount.value] else prev
  }

  /** Sources keep the amounts of the qualifying rows, in row order. */
  lemma {:induction false} SourcesOfAmounts(rows: seq<SourceRow>, n: nat)
    requires n <= |rows|
    ensures var s := SourcesUpTo(rows, n);
      |s| == |QualifyingAmounts(rows[..n])|
      && forall k :: 0 <= k < |s| ==> s[k].amount == QualifyingAmounts(rows[..n])[k]
  {
    if n > 0 {
      SourcesOfAmounts(rows, n - 1);
      assert rows[..n][..n - 1] == rows[..n - 1];
    }
  }

  predicate YieldsSources(rows: seq<SourceRow>) {
    SourcesOf(rows) != []
  }

  /** The selectors are tried in order and the first that yields a source
      wins; a selector that fails yields nothing. */
  function CollectSources(bySelector: seq<seq<SourceRow>>): (s: seq<Source>)
    ensures s == [] <==> forall j :: 0 <= j < |bySelector| ==> SourcesOf(bySelector[j]) == []
    ensures s != [] ==> exists j :: 0 <= j < |bySelector| && s == SourcesOf(bySelector[j])
                                    && forall i :: 0 <= i < j ==> SourcesOf(bySelector[i]) == []
    ensures forall k :: 0 <= k < |s| ==> s[k].index == k + 1 && s[k].amount > 0.0
  {
    match FirstWhere(bySelector, YieldsSources)
    case None => []
    case Some(j) => SourcesOf(bySelector[j])
  }

  /** Sum of the amounts; `total_available`. */
  function Total(s: seq<Source>): real {
    if s == [] then 0.0 else Total(s[..|s| - 1]) + s[|s| - 1].amount
  }

  lemma {:induction false} TotalPositive(s: seq<Source>)
    requires s != [] && forall k :: 0 <= k < |s| ==> s[k].amount > 0.0
    ensures Total(s) > 0.0
    ensures forall k :: 0 <= k < |s| ==> s[k].amount <= Total(s)
  {
    if |s| > 1 {
      TotalPositive(s[..|s| - 1]);
    }
  }

  // ---------------------------------------------------------------------
  // Target adjustment
  // ---------------------------------------------------------------------

  /** Python's `int()` on a float: truncation toward zero. */
  function Trunc(x: real): (r: int)
    ensures 0.0 <= x ==> 0 <= r && r as real <= x < r as real + 1.0
    ensures x < 0.0 ==> r <= 0 && r as real - 1.0 < x <= r as real
  {
    if x >= 0.0 then x.Floor else -((-x).Floor)
  }

  /** The amount to redeem per source: the truncated target when the total
      covers it; otherwise the truncated total when that is at least the
      minimum; otherwise `None`, the insufficient-balance error. */
  function AdjustTarget(total: real, target: real): (r: Option<int>)
    ensures r.None? <==> total < target && total < MinimumRedeemable
    ensures total >= target ==> r == Some(Trunc(target))
    ensures r.Some? && total < target ==> 20 <= r.value && r.value as real <= total < r.value as real + 1.0
    ensures r.Some? && 0.0 <= target ==> 0 <= r.value && r.value as real <= target
  {
    if total < target then
      if total >= MinimumRedeemable then Some(Trunc(total)) else None
    else Some(Trunc(target))
  }

  /** The minimum only applies below the target: a covered target under 20
      is accepted as it is. */
  lemma MinimumOnlyBelowTarget()
    ensures AdjustTarget(100.0, 5.0) == Some(5)
    ensures AdjustTarget(19.5, 25.0).None?
    ensures AdjustTarget(37.9, 50.0) == Some(37)
  {
  }

  // ---------------------------------------------------------------------
  // Redemption order
  // ---------------------------------------------------------------------

  /** `a` is tried before `b`: larger amount first, and among equal amounts
      the earlier-discovered source (the sort is stable). */
  predicate Before(a: Source, b: Source) {
    a.amount > b.amount || (a.amount == b.amount && a.index < b.index)
  }

  predicate Ranked(s: seq<Source>) {
    forall k :: 0 <= k < |s| - 1 ==> Before(s[k], s[k + 1])
  }

  function InsertDesc(x: Source, s: seq<Source>): (r: seq<Source>)
    requires Ranked(s)
    requires forall k :: 0 <= k < |s| ==> x.index < s[k].index
    ensures Ranked(r)
    ensures multiset(r) == multiset(s) + multiset{x}
    ensures |r| == |s| + 1
    ensures r[0] == x || (s != [] && r[0] == s[0])
  {
    if s == [] || x.amount >= s[0].amount then [x] + s
    else
      var rest := InsertDesc(x, s[1..]);
      assert s == [s[0]] + s[1..];
      [s[0]] + rest
  }

  /** `found_products.sort(key=amount, reverse=True)`: a stable sort by
      descending amount. */
  function SortDesc(s: seq<Source>): (r: seq<Source>)
    requires forall k :: 0 <= k < |s| - 1 ==> s[k].index < s[k + 1].index
    ensures Ranked(r)
    ensures multiset(r) == multiset(s)
  {
    if s == [] then []
    else
      var rest := SortDesc(s[1..]);
      FirstBelowSorted(s, rest);
      assert s == [s[0]] + s[1..];
      InsertDesc(s[0], rest)
  }

  /** The first source's index is below every index of a rearrangement of the rest. */
  lemma FirstBelowSorted(s: seq<Source>, rest: seq<Source>)
    requires forall k :: 0 <= k < |s| - 1 ==> s[k].index < s[k + 1].index
    requires s != [] && multiset(rest) == multiset(s[1..])
    ensures forall k :: 0 <= k < |rest| ==> s[0].index < rest[k].index
  {
    forall k | 0 <= k < |rest|
      ensures s[0].index < rest[k].index
    {
      assert rest[k] in multiset(s[1..]);
      IncreasingIndices(s);
    }
  }

  /** The first source's index is below every later one's. */
  lemma IncreasingIndices(s: seq<Source>)
    requires forall k :: 0 <= k < |s| - 1 ==> s[k].index < s[k + 1].index
    requires s != []
    ensures forall y :: y in s[1..] ==> s[0].index < y.index
  {
    forall y | y in s[1..]
      ensures s[0].index < y.index
    {
      var m :| 0 <= m < |s[1..]| && s[1..][m] == y;
      IndicesBelow(s, m + 1);
    }
  }

  lemma {:induction false} IndicesBelow(s: seq<Source>, m: nat)
    requires forall k :: 0 <= k < |s| - 1 ==> s[k].index < s[k + 1].index
    requires 0 < m < |s|
    ensures s[0].index < s[m].index
  {
    if m > 1 {
      IndicesBelow(s, m - 1);
    }
  }

  /** Ranked order holds pairwise, not only between neighbours: amounts never
      increase along the order, and equal amounts keep discovery order. */
  lemma {:induction false} RankedPairwise(s: seq<Source>, i: nat, j: nat)
    requires Ranked(s) && i < j < |s|
    ensures s[i].amount >= s[j].amount
    ensures s[i].amount == s[j].amount ==> s[i].index < s[j].index
  {
    if j > i + 1 {
      RankedPairwise(s, i, j - 1);
      assert Before(s[j - 1], s[j]);
    }
  }

  // ---------------------------------------------------------------------
  // Redemption loop
  // ---------------------------------------------------------------------

  /** What one attempt on a source observes: whether its redeem button is
      usable, the read-back of each visible amount box after filling, the
      confirm candidates, and whether a success modal appeared. */
  datatype AttemptObs = AttemptObs(
    buttonUsable: bool, readBacks: seq<string>, confirmButtons: seq<Button>, successModal: bool)

  /** A redeemed-products record. */
  datatype Redeemed = Redeemed(index: nat, amount: int, successModal: bool)

  /** The attempt made on the i-th source tried; a missing observation is an
      attempt that found nothing usable. */
  function AttemptAt(attempts: seq<AttemptObs>, i: nat): AttemptObs {
    if i < |attempts| then attempts[i] else AttemptObs(false, [], [], false)
  }

  /** An attempt succeeds when the button is usable, some box reads back
      exactly `str(target)`, and a usable confirm button is found. */
  predicate AttemptSucceeds(a: AttemptObs, target: int) {
    && a.buttonUsable
    && (exists j :: 0 <= j < |a.readBacks| && a.readBacks[j] == IntToString(target))
    && (exists j :: 0 <= j < |a.confirmButtons| && Usable(a.confirmButtons[j]))
  }

  /** The loop from the i-th sorted source on, with `redeemed` already done.
      It stops as soon as `redeemed` reaches the target; each success is
      recorded with the target amount, not the source's own amount. */
  function RedeemFrom(sorted: seq<Source>, attempts: seq<AttemptObs>, target: int, i: nat, redeemed: int): (recs: seq<Redeemed>)
    requires i <= |sorted|
    ensures forall k :: 0 <= k < |recs| ==> recs[k].amount == target
    ensures redeemed >= target ==> recs == []
    ensures 0 < target && 0 <= redeemed ==> |recs| <= 1
    ensures redeemed < target ==>
      (recs == [] <==> forall j :: i <= j < |sorted| ==> !AttemptSucceeds(AttemptAt(attempts, j), target))
    ensures redeemed < target && recs != [] ==>
              exists j :: i <= j < |sorted|
                          && AttemptSucceeds(AttemptAt(attempts, j), target)
                          && (forall l :: i <= l < j ==> !AttemptSucceeds(AttemptAt(attempts, l), target))
                          && recs[0] == Redeemed(sorted[j].index, target, AttemptAt(attempts, j).successModal)
    decreases |sorted| - i
  {
    if i == |sorted| || redeemed >= target then []
    else
      var a := AttemptAt(attempts, i);
      if AttemptSucceeds(a, target) then
        [Redeemed(sorted[i].index, target, a.successModal)] + RedeemFrom(sorted, attempts, target, i + 1, redeemed + target)
      else
        RedeemFrom(sorted, attempts, target, i + 1, redeemed)
  }

  /** Total recorded as redeemed: `total_redeemed`. */
  function RedeemedSum(recs: seq<Redeemed>): int {
    if recs == [] then 0 else recs[0].amount + RedeemedSum(recs[1..])
  }

  // ---------------------------------------------------------------------
  // One run
  // ---------------------------------------------------------------------

  /** The module-level `redeem_info` record; it survives between runs in the
      scheduler's process. */
  datatype RedeemState = RedeemState(target: real, redeemedProducts: seq<Redeemed>, totalRedeemed: int, status: Status)

  /** What one run observes: each selector's rows, each attempt, and whether
      writing the carried-amount file works. */
  datatype RedeemObs = RedeemObs(rowsBySelector: seq<seq<SourceRow>>, attempts: seq<AttemptObs>, persistOk: bool)

  /** A run's record afterwards, how the script ended, and what it wrote to
      the carried-amount file, if anything. */
  datatype RedeemRun = RedeemRun(state: RedeemState, outcome: Outcome<RedeemState>, carried: Option<string>)

  /** The end of a run once the loop has produced `recs` for the adjusted
      target `t`: the record is updated, and the run succeeds exactly when
      something was redeemed, in which case the amount is carried over. */
  function Settle(st: RedeemState, t: int, recs: seq<Redeemed>, persistOk: bool): (r: RedeemRun)
    requires |recs| <= 1 && forall k :: 0 <= k < |recs| ==> recs[k].amount == t
    requires recs != [] ==> 0 < t
    ensures r.state.target == t as real
    ensures r.state.redeemedProducts == st.redeemedProducts + recs
    ensures r.outcome.Returned? <==> recs != []
    ensures r.outcome.Returned? ==>
              r.outcome.info == r.state && r.state.status == Success && r.state.totalRedeemed == t
    ensures r.outcome.Raised? ==>
              r.outcome == Raised(NothingRedeemed) && r.state.status == Failed && r.state.totalRedeemed == 0
    ensures r.carried.Some? <==> r.outcome.Returned? && persistOk
    ensures r.carried.Some? ==> r.carried.value == IntToString(r.state.totalRedeemed)
  {
    var redeemed := RedeemedSum(recs);
    assert redeemed == if recs == [] then 0 else t by {
      if recs != [] {
        assert recs[1..] == [];
        assert RedeemedSum(recs) == recs[0].amount + RedeemedSum([]);
      }
    }
    var next := st.(target := t as real, redeemedProducts := st.redeemedProducts + recs, totalRedeemed := redeemed);
    if redeemed > 0 then
      var done := next.(status := Success);
      RedeemRun(done, Returned(done), if persistOk then Some(IntToString(redeemed)) else None)
    else
      RedeemRun(next.(status := Failed), Raised(NothingRedeemed), None)
  }

  /** The script's `main()` against the record left by earlier runs. */
  function RunRedemption(st: RedeemState, o: RedeemObs): (r: RedeemRun)
    ensures CollectSources(o.rowsBySelector) == [] ==> r == RedeemRun(st, Raised(NoRedeemableSources), None)
    ensures r.outcome == Raised(InsufficientFunds) <==>
      CollectSources(o.rowsBySelector) != []
      && AdjustTarget(Total(CollectSources(o.rowsBySelector)), st.target).None?
    ensures r.outcome == Raised(InsufficientFunds) ==> r.state == st
    ensures r.outcome.Raised? ==> r.outcome.fault in {NoRedeemableSources, InsufficientFunds, NothingRedeemed}
    ensures var sources := CollectSources(o.rowsBySelector);
      var t := AdjustTarget(Total(sources), st.target);
      sources != [] && t.Some? ==>
        && r.state.target == t.value as real
        && r.state.redeemedProducts == st.redeemedProducts + RedeemFrom(SortDesc(sources), o.attempts, t.value, 0, 0)
    ensures var sources := CollectSources(o.rowsBySelector);
      var t := AdjustTarget(Total(sources), st.target);
      r.outcome.Returned? <==>
        sources != [] && t.Some? && RedeemFrom(SortDesc(sources), o.attempts, t.value, 0, 0) != []
    ensures r.outcome.Returned? ==> r.outcome.info == r.state && r.state.status == Success
    ensures r.outcome.Returned? ==> 0 < r.state.totalRedeemed && r.state.totalRedeemed as real == r.state.target
    ensures r.outcome == Raised(NothingRedeemed) ==> r.state.status == Failed && r.state.totalRedeemed == 0
    ensures r.carried.Some? <==> r.outcome.Returned? && o.persistOk
    ensures r.carried.Some? ==> r.carried.value == IntToString(r.state.totalRedeemed)
    ensures 0.0 <= st.target ==> 0.0 <= r.state.target <= st.target
    ensures |st.redeemedProducts| <= |r.state.redeemedProducts|
    ensures r.state.redeemedProducts[..|st.redeemedProducts|] == st.redeemedProducts
  {
    var sources := CollectSources(o.rowsBySelector);
    if sources == [] then RedeemRun(st, Raised(NoRedeemableSources), None)
    else
      match AdjustTarget(Total(sources), st.target)
      case None => RedeemRun(st, Raised(InsufficientFunds), None)
      case Some(t) =>
        var recs := RedeemFrom(SortDesc(sources), o.attempts, t, 0, 0);
        var r := Settle(st, t, recs, o.persistOk);
        assert r.state.redeemedProducts[..|st.redeemedProducts|] == st.redeemedProducts;
        r
  }

  /** Only the first successful source is redeemed, and the amount recorded
      is the whole target, whatever that source held: a target of 20 over
      sources of 12 and 9 records one redemption of 20. */
  lemma TargetRecordedPerSource()
    ensures var st := RedeemState(20.0, [], 0, Pending);
      var rows := [SourceRow("12 USDT", true, Some(12.0)), SourceRow("9 USDT", true, Some(9.0))];
      var ok := AttemptObs(true, ["20"], [Button(true, true)], true);
      var r := RunRedemption(st, RedeemObs([rows], [ok, ok], true));
      r.state.redeemedProducts == [Redeemed(1, 20, true)] && r.state.totalRedeemed == 20
  {
    var rows := [SourceRow("12 USDT", true, Some(12.0)), SourceRow("9 USDT", true, Some(9.0))];
    UsdtMentioned("12 USDT");
    UsdtMentioned("9 USDT");
    assert SourcesOf(rows) == [Source(1, 12.0), Source(2, 9.0)];
    assert CollectSources([rows]) == [Source(1, 12.0), Source(2, 9.0)];
    assert Total([Source(1, 12.0), Source(2, 9.0)]) == 21.0;
    assert IntToString(20) == "20";
    var ok := AttemptObs(true, ["20"], [Button(true, true)], true);
    assert AttemptSucceeds(ok, 20) by {
      assert ok.readBacks[0] == IntToString(20);
      assert Usable(ok.confirmButtons[0]);
    }
    var sorted := SortDesc([Source(1, 12.0), Source(2, 9.0)]);
    assert sorted == [Source(1, 12.0), Source(2, 9.0)] by {
      assert SortDesc([Source(2, 9.0)]) == [Source(2, 9.0)];
    }
  }

  lemma UsdtMentioned(text: string)
    requires text == "12 USDT" || text == "9 USDT"
    ensures MentionsUsdt(text)
  {
    var u := Upper(text);
    assert u[|u| - 4..] == "USDT";
    assert OccursAt(u, "USDT", |u| - 4);
  }

  /** A success below the minimum is possible: when the balance covers a
      target of 5, five is redeemed and the run succeeds. */
  lemma SuccessBelowMinimum(rows: seq<SourceRow>, attempts: seq<AttemptObs>)
    requires CollectSources([rows]) != [] && Total(CollectSources([rows])) >= 5.0
    requires forall k :: 0 <= k < |attempts| ==> AttemptSucceeds(attempts[k], 5)
    requires |attempts| >= |CollectSources([rows])|
    ensures var r := RunRedemption(RedeemState(5.0, [], 0, Pending), RedeemObs([rows], attempts, true));
      r.outcome.Returned? && r.state.totalRedeemed == 5 && r.carried == Some("5")
  {
    var s := CollectSources([rows]);
    assert AdjustTarget(Total(s), 5.0) == Some(5);
    var sorted := SortDesc(s);
    assert |sorted| == |s| by { assert |multiset(sorted)| == |multiset(s)|; }
    assert AttemptSucceeds(AttemptAt(attempts, 0), 5);
    assert RedeemFrom(sorted, attempts, 5, 0, 0) != [];
    assert IntToString(5) == "5";
  }

  /** Across runs in one process the target never grows, so a carried-over
      reduction persists. */
  lemma {:induction false} TargetNeverGrows(st: RedeemState, runs: seq<RedeemObs>)
    requires 0.0 <= st.target
    ensures 0.0 <= RunAll(st, runs).target <= st.target
    decreases |runs|
  {
    if runs != [] {
      var next := RunRedemption(st, runs[0]).state;
      TargetNeverGrows(next, runs[1..]);
    }
  }

  /** The record after several runs in sequence. */
  function RunAll(st: RedeemState, runs: seq<RedeemObs>): RedeemState
    decreases |runs|
  {
    if runs == [] then st else RunAll(RunRedemption(st, runs[0]).state, runs[1..])
  }
}
