/**
 The churn limiter of the validator manager: weight may change by at most a percentage of the weight that was
 present when the current window opened.

 `CheckAndUpdate` is the contract's bookkeeping. Beside it stands an independent account of the same run, in which
 the windows are read off the times of the accepted changes alone (`WindowStart`), and the theorems connect the two.
 */
module ChurnTracker {
  import opened Wrappers
  import opened Numeric

  datatype Limit = Limit(periodSeconds: nat, maximumPercentage: nat)

  datatype Tracker = Tracker(startedAt: nat, initialWeight: nat, totalWeight: nat, churnAmount: nat)

  /** One validator's weight going from `oldWeight` to `newWeight` at block time `now`. */
  datatype Change = Change(now: nat, newWeight: nat, oldWeight: nat)

  datatype ChurnError = Panic | MaxChurnRateExceeded | InvalidTotalWeight

  /** `_checkAndUpdateChurnTracker`: the new tracker, or the reason to revert. */
  function CheckAndUpdate(limit: Limit, tracker: Tracker, change: Change): Result<Tracker, ChurnError> {
    var weightChange := AbsDiff(change.newWeight, change.oldWeight);
    var t :-
      if tracker.startedAt == 0 || change.now >= tracker.startedAt + limit.periodSeconds then
        Ok(tracker.(churnAmount := weightChange, startedAt := change.now, initialWeight := tracker.totalWeight))
      else
        var churn :- Checked64(tracker.churnAmount + weightChange, Panic);
        Ok(tracker.(churnAmount := churn));
    var allowed :- Checked64(limit.maximumPercentage * t.initialWeight, Panic);
    var used :- Checked64(t.churnAmount * 100, Panic);
    var _ :- Require(allowed >= used, MaxChurnRateExceeded);
    var raised :- Checked64(t.totalWeight + change.newWeight, Panic);
    var total :- Checked64(raised - change.oldWeight, Panic);
    var scaled :- Checked64(total * limit.maximumPercentage, Panic);
    var _ :- Require(scaled >= 100, InvalidTotalWeight);
    Ok(t.(totalWeight := total))
  }

  /** The tracker right after the initial validator set was stored. */
  function Fresh(totalWeight: nat): Tracker {
    Tracker(0, 0, totalWeight, 0)
  }

  /** The tracker after the first `n` of a run of changes, if each of them was accepted. */
  function Replay(limit: Limit, total: nat, changes: seq<Change>, n: nat): Result<Tracker, ChurnError>
    requires n <= |changes|
  {
    if n == 0 then Ok(Fresh(total))
    else
      var t :- Replay(limit, total, changes, n - 1);
      CheckAndUpdate(limit, t, changes[n - 1])
  }

  // ----- The independent account -----

  /** Sum of the absolute weight changes number `i` up to but not including `n`. */
  function Churned(changes: seq<Change>, i: nat, n: nat): nat
    requires i <= n <= |changes|
  {
    if i == n then 0
    else Churned(changes, i, n - 1) + AbsDiff(changes[n - 1].newWeight, changes[n - 1].oldWeight)
  }

  /** Total weight after the first `n` changes. */
  function NetTotal(total: nat, changes: seq<Change>, n: nat): int
    requires n <= |changes|
  {
    if n == 0 then total
    else NetTotal(total, changes, n - 1) + changes[n - 1].newWeight - changes[n - 1].oldWeight
  }

  /**
   Which change opened the window that change number `i` belongs to: the first change opens a window, and so does
   every change that comes a full period after the current window was opened.
   */
  function WindowStart(period: nat, changes: seq<Change>, i: nat): (w: nat)
    requires i < |changes|
    ensures w <= i
  {
    if i == 0 then 0
    else
      var w := WindowStart(period, changes, i - 1);
      if changes[i].now >= changes[w].now + period then i else w
  }

  /** Total weight at the opening of the window that change number `i` belongs to. */
  function WindowWeight(period: nat, total: nat, changes: seq<Change>, i: nat): int
    requires i < |changes|
  {
    NetTotal(total, changes, WindowStart(period, changes, i))
  }

  /** Block times are positive and never go back. */
  ghost predicate Chronological(changes: seq<Change>) {
    && (forall i :: 0 <= i < |changes| ==> changes[i].now > 0)
    && (forall i, j :: 0 <= i <= j < |changes| ==> changes[i].now <= changes[j].now)
  }

  /**
   When a change is accepted: the absolute changes of its window, with it, stay within the percentage of the weight at
   the opening of the window, the total stays large enough to be changed by one, and every number within 64 bits.
   */
  ghost predicate Accepts(limit: Limit, t: Tracker, c: Change) {
    var opens := t.startedAt == 0 || c.now >= t.startedAt + limit.periodSeconds;
    var churned := AbsDiff(c.newWeight, c.oldWeight) + if opens then 0 else t.churnAmount;
    var initial := if opens then t.totalWeight else t.initialWeight;
    var total := t.totalWeight + c.newWeight - c.oldWeight;
    && churned * 100 <= limit.maximumPercentage * initial <= MAX_UINT64
    && t.totalWeight + c.newWeight <= MAX_UINT64 && total >= 0
    && 100 <= total * limit.maximumPercentage <= MAX_UINT64
  }

  lemma AcceptedIff(limit: Limit, t: Tracker, c: Change)
    ensures CheckAndUpdate(limit, t, c).Ok? <==> Accepts(limit, t, c)
  {
  }

  /** When a change is refused, for each reason. */
  ghost predicate Refuses(limit: Limit, t: Tracker, c: Change, e: ChurnError) {
    var opens := t.startedAt == 0 || c.now >= t.startedAt + limit.periodSeconds;
    var churned := AbsDiff(c.newWeight, c.oldWeight) + if opens then 0 else t.churnAmount;
    var initial := if opens then t.totalWeight else t.initialWeight;
    var total := t.totalWeight + c.newWeight - c.oldWeight;
    match e
    case MaxChurnRateExceeded => churned * 100 > limit.maximumPercentage * initial
    case InvalidTotalWeight => total >= 0 && total * limit.maximumPercentage < 100
    case Panic =>
      || churned * 100 > MAX_UINT64 || limit.maximumPercentage * initial > MAX_UINT64
      || t.totalWeight + c.newWeight > MAX_UINT64 || total < 0 || total * limit.maximumPercentage > MAX_UINT64
  }

  lemma RefusedForChurn(limit: Limit, t: Tracker, c: Change)
    requires CheckAndUpdate(limit, t, c) == Revert(MaxChurnRateExceeded)
    ensures Refuses(limit, t, c, MaxChurnRateExceeded)
  {
  }

  lemma RefusedForTotal(limit: Limit, t: Tracker, c: Change)
    requires CheckAndUpdate(limit, t, c) == Revert(InvalidTotalWeight)
    ensures Refuses(limit, t, c, InvalidTotalWeight)
  {
  }

  lemma RefusedForOverflowOpening(limit: Limit, t: Tracker, c: Change)
    requires t.startedAt == 0 || c.now >= t.startedAt + limit.periodSeconds
    requires CheckAndUpdate(limit, t, c) == Revert(Panic)
    ensures Refuses(limit, t, c, Panic)
  {
    var total := t.totalWeight + c.newWeight - c.oldWeight;
    var allowed, scaled := limit.maximumPercentage * t.totalWeight, total * limit.maximumPercentage;
    if allowed <= MAX_UINT64 && t.totalWeight + c.newWeight <= MAX_UINT64 && total >= 0 {
      assert AbsDiff(c.newWeight, c.oldWeight) * 100 > MAX_UINT64 || scaled > MAX_UINT64;
    }
  }

  lemma RefusedForOverflowWithin(limit: Limit, t: Tracker, c: Change)
    requires t.startedAt != 0 && c.now < t.startedAt + limit.periodSeconds
    requires CheckAndUpdate(limit, t, c) == Revert(Panic)
    ensures Refuses(limit, t, c, Panic)
  {
  }

  /** The reason for which a change is refused is a true one. */
  lemma RefusedFor(limit: Limit, t: Tracker, c: Change)
    requires CheckAndUpdate(limit, t, c).Revert?
    ensures Refuses(limit, t, c, CheckAndUpdate(limit, t, c).error)
  {
    match CheckAndUpdate(limit, t, c).error {
      case MaxChurnRateExceeded => RefusedForChurn(limit, t, c);
      case InvalidTotalWeight => RefusedForTotal(limit, t, c);
      case Panic =>
        if t.startedAt == 0 || c.now >= t.startedAt + limit.periodSeconds {
          RefusedForOverflowOpening(limit, t, c);
        } else {
          RefusedForOverflowWithin(limit, t, c);
        }
    }
  }

  /** What an accepted change does to the tracker. */
  lemma AcceptedChange(limit: Limit, t: Tracker, c: Change)
    requires CheckAndUpdate(limit, t, c).Ok?
    ensures var t' := CheckAndUpdate(limit, t, c).value;
            && t'.totalWeight == t.totalWeight + c.newWeight - c.oldWeight
            && 100 * t'.churnAmount <= limit.maximumPercentage * t'.initialWeight
            && limit.maximumPercentage * t'.totalWeight >= 100
            && if t.startedAt == 0 || c.now >= t.startedAt + limit.periodSeconds then
                 && t'.startedAt == c.now && t'.initialWeight == t.totalWeight
                 && t'.churnAmount == AbsDiff(c.newWeight, c.oldWeight)
               else
                 && t'.startedAt == t.startedAt && t'.initialWeight == t.initialWeight
                 && t'.churnAmount == t.churnAmount + AbsDiff(c.newWeight, c.oldWeight)
  {
  }

  /** The tracker agrees with the independent account of the changes up to and including number `i`. */
  ghost predicate Describes(limit: Limit, total: nat, changes: seq<Change>, i: nat, t: Tracker)
    requires i < |changes|
  {
    var w := WindowStart(limit.periodSeconds, changes, i);
    && t.startedAt == changes[w].now
    && t.initialWeight == NetTotal(total, changes, w)
    && t.churnAmount == Churned(changes, w, i + 1)
    && t.totalWeight == NetTotal(total, changes, i + 1)
  }

  /**
   The tracker holds exactly what the independent account says: when the window opened, the weight present then, the
   sum of the absolute changes since, and the net total.
   */
  lemma {:induction false} TrackerMeaning(limit: Limit, total: nat, changes: seq<Change>, i: nat)
    requires i < |changes| && Chronological(changes)
    requires Replay(limit, total, changes, i + 1).Ok?
    ensures Describes(limit, total, changes, i, Replay(limit, total, changes, i + 1).value)
  {
    var t := Replay(limit, total, changes, i).value;
    AcceptedChange(limit, t, changes[i]);
    assert Churned(changes, i, i + 1) == AbsDiff(changes[i].newWeight, changes[i].oldWeight) by {
      assert Churned(changes, i, i) == 0;
    }
    if i == 0 {
      assert NetTotal(total, changes, 0) == total;
    } else {
      TrackerMeaning(limit, total, changes, i - 1);
      assert changes[WindowStart(limit.periodSeconds, changes, i - 1)].now > 0;
    }
  }

  lemma {:induction false} ChurnedSplit(changes: seq<Change>, i: nat, k: nat, n: nat)
    requires i <= k <= n <= |changes|
    ensures Churned(changes, i, n) == Churned(changes, i, k) + Churned(changes, k, n)
  {
    if k < n {
      ChurnedSplit(changes, i, k, n - 1);
    }
  }

  lemma {:induction false} Drift(total: nat, changes: seq<Change>, i: nat, n: nat)
    requires i <= n <= |changes|
    ensures AbsInt(NetTotal(total, changes, n) - NetTotal(total, changes, i)) <= Churned(changes, i, n)
  {
    if i < n {
      Drift(total, changes, i, n - 1);
    }
  }

  function AbsInt(x: int): nat {
    if x < 0 then -x else x
  }

  /**
   The limit as the documentation states it: within a window the absolute changes stay within the percentage of the
   weight at its start, so the total never drifts further than that, and it stays large enough to be changed by one.
   */
  lemma WindowBound(limit: Limit, total: nat, changes: seq<Change>, i: nat)
    requires i < |changes| && Chronological(changes)
    requires Replay(limit, total, changes, i + 1).Ok?
    ensures var initial := WindowWeight(limit.periodSeconds, total, changes, i);
            var churned := Churned(changes, WindowStart(limit.periodSeconds, changes, i), i + 1);
            && initial >= 0
            && 100 * churned <= limit.maximumPercentage * initial
            && AbsInt(NetTotal(total, changes, i + 1) - initial) <= churned
            && limit.maximumPercentage * NetTotal(total, changes, i + 1) >= 100
  {
    TrackerMeaning(limit, total, changes, i);
    AcceptedChange(limit, Replay(limit, total, changes, i).value, changes[i]);
    Drift(total, changes, WindowStart(limit.periodSeconds, changes, i), i + 1);
  }

  lemma {:induction false} ReplayPrefix(limit: Limit, total: nat, changes: seq<Change>, n: nat, m: nat)
    requires n <= m <= |changes| && Replay(limit, total, changes, m).Ok?
    ensures Replay(limit, total, changes, n).Ok?
  {
    if n < m {
      ReplayPrefix(limit, total, changes, n, m - 1);
    }
  }

  /** Every change between the opening of a window and a later change of the same window belongs to that window. */
  lemma {:induction false} SameWindow(period: nat, changes: seq<Change>, i: nat, j: nat)
    requires i <= j < |changes| && WindowStart(period, changes, j) <= i
    ensures WindowStart(period, changes, i) == WindowStart(period, changes, j)
  {
    if i < j {
      SameWindow(period, changes, i, j - 1);
    }
  }

  /** A window opens a full period after the one before it. */
  lemma {:induction false} WindowSpacing(period: nat, changes: seq<Change>, j: nat)
    requires j < |changes|
    ensures var w := WindowStart(period, changes, j);
            w > 0 ==> changes[w].now >= changes[WindowStart(period, changes, w - 1)].now + period
  {
    if 0 < j && WindowStart(period, changes, j) < j {
      WindowSpacing(period, changes, j - 1);
    }
  }

  /**
   A stretch shorter than one period that reaches into the window opened at `w` meets only one window before it: the
   one of the change `i` it starts with.
   */
  lemma TwoWindows(period: nat, changes: seq<Change>, i: nat, j: nat)
    requires i <= j < |changes| && Chronological(changes)
    requires changes[j].now < changes[i].now + period
    requires i < WindowStart(period, changes, j)
    ensures WindowStart(period, changes, WindowStart(period, changes, j) - 1) == WindowStart(period, changes, i)
  {
    var w := WindowStart(period, changes, j);
    WindowSpacing(period, changes, j);
    var w' := WindowStart(period, changes, w - 1);
    assert w' <= i by {
      if w' > i {
        assert false;
      }
    }
    SameWindow(period, changes, i, w - 1);
  }

  /** What the limiter allows in the window of change number `i`, in hundredths of a unit of weight. */
  function Allowance(limit: Limit, total: nat, changes: seq<Change>, i: nat): int
    requires i < |changes|
  {
    limit.maximumPercentage * WindowWeight(limit.periodSeconds, total, changes, i)
  }

  lemma ChurnedUpTo(limit: Limit, total: nat, changes: seq<Change>, i: nat, j: nat)
    requires j < |changes| && Chronological(changes) && Replay(limit, total, changes, j + 1).Ok?
    requires WindowStart(limit.periodSeconds, changes, j) <= i <= j
    ensures 0 <= 100 * Churned(changes, i, j + 1) <= Allowance(limit, total, changes, j)
  {
    WindowBound(limit, total, changes, j);
    ChurnedSplit(changes, WindowStart(limit.periodSeconds, changes, j), i, j + 1);
  }

  /** Two stretches that follow one another, each within what its window allows. */
  lemma Joined(limit: Limit, total: nat, changes: seq<Change>, i: nat, w: nat, j: nat, before: int, after: int)
    requires i <= w <= j < |changes|
    requires before == Allowance(limit, total, changes, i) && after == Allowance(limit, total, changes, j)
    requires 100 * Churned(changes, i, w) <= before && 100 * Churned(changes, w, j + 1) <= after
    ensures 100 * Churned(changes, i, j + 1)
            <= Allowance(limit, total, changes, i) + Allowance(limit, total, changes, j)
  {
    AddStretches(changes, i, w, j + 1, before, after);
  }

  lemma AcrossTwoWindows(limit: Limit, total: nat, changes: seq<Change>, i: nat, j: nat)
    requires i <= j < |changes| && Chronological(changes)
    requires Replay(limit, total, changes, j + 1).Ok?
    requires changes[j].now < changes[i].now + limit.periodSeconds
    requires i < WindowStart(limit.periodSeconds, changes, j)
    ensures 100 * Churned(changes, i, j + 1)
            <= Allowance(limit, total, changes, i) + Allowance(limit, total, changes, j)
  {
    var w := WindowStart(limit.periodSeconds, changes, j);
    TwoWindows(limit.periodSeconds, changes, i, j);
    BeforeWindow(limit, total, changes, i, w, j);
    ChurnedUpTo(limit, total, changes, w, j);
    Joined(limit, total, changes, i, w, j, Allowance(limit, total, changes, i), Allowance(limit, total, changes, j));
  }

  lemma SameAllowance(limit: Limit, total: nat, changes: seq<Change>, i: nat, j: nat)
    requires i < |changes| && j < |changes|
    requires WindowStart(limit.periodSeconds, changes, i) == WindowStart(limit.periodSeconds, changes, j)
    ensures Allowance(limit, total, changes, i) == Allowance(limit, total, changes, j)
  {
  }

  lemma WithinWindow(limit: Limit, total: nat, changes: seq<Change>, i: nat, j: nat)
    requires i <= j < |changes| && Chronological(changes) && Replay(limit, total, changes, j + 1).Ok?
    requires WindowStart(limit.periodSeconds, changes, j) == WindowStart(limit.periodSeconds, changes, i)
    ensures 100 * Churned(changes, i, j + 1) <= Allowance(limit, total, changes, i)
  {
    SameAllowance(limit, total, changes, i, j);
    ChurnedUpTo(limit, total, changes, i, j);
  }

  /** The part of a stretch before the window opened at `w`. */
  lemma BeforeWindow(limit: Limit, total: nat, changes: seq<Change>, i: nat, w: nat, j: nat)
    requires i < w <= j < |changes| && Chronological(changes) && Replay(limit, total, changes, j + 1).Ok?
    requires WindowStart(limit.periodSeconds, changes, w - 1) == WindowStart(limit.periodSeconds, changes, i)
    ensures 100 * Churned(changes, i, w) <= Allowance(limit, total, changes, i)
  {
    ReplayPrefix(limit, total, changes, w, j + 1);
    WithinWindow(limit, total, changes, i, w - 1);
  }

  lemma AddStretches(changes: seq<Change>, i: nat, k: nat, n: nat, a: int, b: int)
    requires i <= k <= n <= |changes|
    requires 100 * Churned(changes, i, k) <= a && 100 * Churned(changes, k, n) <= b
    ensures 100 * Churned(changes, i, n) <= a + b
  {
    ChurnedSplit(changes, i, k, n);
  }

  /**
   Any stretch of accepted changes shorter than one period, wherever it lies, is covered by the bounds of at most two
   windows: the one its first change belongs to and the one its last change belongs to.
   */
  lemma SlidingBound(limit: Limit, total: nat, changes: seq<Change>, i: nat, j: nat)
    requires i <= j < |changes| && Chronological(changes)
    requires Replay(limit, total, changes, j + 1).Ok?
    requires changes[j].now < changes[i].now + limit.periodSeconds
    ensures 100 * Churned(changes, i, j + 1)
            <= Allowance(limit, total, changes, i) + Allowance(limit, total, changes, j)
  {
    if WindowStart(limit.periodSeconds, changes, j) <= i {
      ChurnedUpTo(limit, total, changes, i, j);
      ReplayPrefix(limit, total, changes, i + 1, j + 1);
      ChurnedUpTo(limit, total, changes, i, i);
    } else {
      AcrossTwoWindows(limit, total, changes, i, j);
    }
  }
}
