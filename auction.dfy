/**
 * The talent auction (src/pages/Auction/Auction.tsx): the eligibility gate,
 * the lobby countdown, the stage engine (four stages, three companies taking
 * turns), bid recording and the rules of the results screen.
 *
 * The page keeps its state in React hooks and drives it with `setInterval`.
 * Here the hooks are the fields of `AuctionPage`, and one second of wall-clock
 * time is one call of `CountdownTick` (lobby) or `Tick` (stage engine). The
 * pure functions `LobbyTick` and `TickTimers` say what one second does; the
 * lemmas about `Ticks` say what many seconds do.
 */
module Auction {
  import Text
  import Listing
  import opened Optional

  /** `stages.length`: salary, equity, benefits, position. */
  const StageCount := 4
  /** `useState(60)` and the reset value of the stage clock. */
  const StageSeconds := 60
  /** `mockCompanies.length`. */
  const CompanyCount := 3
  /** `useState(10)` and the reset value of the turn clock. */
  const TurnSeconds := 10
  /** `useState(30)` for the lobby countdown. */
  const LobbySeconds := 30
  /** The gate `applicationCount >= 3`. */
  const RequiredApplications := 3

  const SalaryStage := 0
  const EquityStage := 1
  const BenefitsStage := 2
  const PositionStage := 3

  /** The `level` names of `positionLevels`, in rank order. */
  const PositionLevels: seq<string> :=
    ["Intern", "Junior", "Middle", "Senior", "Lead", "Head", "Director", "VP", "CTO"]

  /** `mockCompanies[i].id`. */
  function CompanyId(i: int): string
    requires 0 <= i < CompanyCount
  {
    if i == 0 then "1" else if i == 1 then "2" else "3"
  }

  /** Each company card bids under its own id. */
  lemma CompanyIdsDistinct(i: int, j: int)
    requires 0 <= i < CompanyCount && 0 <= j < CompanyCount
    ensures CompanyId(i) == CompanyId(j) <==> i == j
  {
  }

  predicate IsEligible(applicationCount: int) {
    applicationCount >= RequiredApplications
  }

  // ---------------------------------------------------------------------
  // Bids

  /** A bid amount: what `parseInt` gives for typed text (a number or NaN),
      or a count or level index for the benefits and position stages. */
  type Amount = Text.ParsedInt

  datatype Bid = Bid(companyId: string, amount: Amount, timestamp: int)

  /** The `bids` state object: one list per stage, in the order the bids were made. */
  datatype BidLog = BidLog(salary: seq<Bid>, equity: seq<Bid>, benefits: seq<Bid>, position: seq<Bid>)
  {
    /** `getCurrentStageBids()` for `currentStage == stage`. */
    function StageBids(stage: int): seq<Bid> {
      if stage == SalaryStage then salary
      else if stage == EquityStage then equity
      else if stage == BenefitsStage then benefits
      else if stage == PositionStage then position
      else []
    }

    /** `setBids(prev => ({ ...prev, <stage>: [...prev.<stage>, bid] }))`;
        outside the four stages the `switch` has no case and nothing changes. */
    function Append(stage: int, bid: Bid): (r: BidLog)
      ensures forall k {:trigger r.StageBids(k)} ::
        r.StageBids(k) == if k == stage && 0 <= k < StageCount then StageBids(k) + [bid] else StageBids(k)
    {
      if stage == SalaryStage then this.(salary := salary + [bid])
      else if stage == EquityStage then this.(equity := equity + [bid])
      else if stage == BenefitsStage then this.(benefits := benefits + [bid])
      else if stage == PositionStage then this.(position := position + [bid])
      else this
    }
  }

  const NoBids := BidLog([], [], [], [])

  lemma GetCurrentStageBids(log: BidLog, stage: int)
    ensures 0 <= stage < StageCount ==>
      log.StageBids(stage) == [log.salary, log.equity, log.benefits, log.position][stage]
    ensures !(0 <= stage < StageCount) ==> log.StageBids(stage) == []
  {
  }

  // ---------------------------------------------------------------------
  // Lobby countdown

  datatype Lobby = Lobby(countdown: int, started: bool)

  const LobbyStart := Lobby(LobbySeconds, false)

  /** One second in the lobby. The countdown effect arms an interval only while
      the user is eligible, the tutorial is completed, `countdown > 0` and the
      auction has not started; the interval subtracts one. When the effect runs
      again with `countdown === 0` and the auction not started, it starts the
      auction. */
  function LobbyTick(l: Lobby, eligible: bool, tutorialDone: bool): (r: Lobby)
    ensures 0 <= l.countdown ==> 0 <= r.countdown <= l.countdown
    ensures r.countdown < l.countdown ==>
      eligible && tutorialDone && !l.started && r.countdown == l.countdown - 1
    ensures r.started <==> l.started || r.countdown == 0
    ensures !(eligible && tutorialDone) && l.countdown != 0 ==> r == l
  {
    var armed := eligible && tutorialDone && l.countdown > 0 && !l.started;
    var c := if armed then l.countdown - 1 else l.countdown;
    var rearmed := eligible && tutorialDone && c > 0 && !l.started;
    Lobby(c, l.started || (!rearmed && c == 0))
  }

  function LobbyTicks(l: Lobby, eligible: bool, tutorialDone: bool, k: nat): Lobby
    decreases k
  {
    if k == 0 then l else LobbyTicks(LobbyTick(l, eligible, tutorialDone), eligible, tutorialDone, k - 1)
  }

  /** Once the gate is open the lobby counts 30, 29, ..., 0 and the auction
      starts on the thirtieth second, not before. */
  lemma {:induction false} LobbyCountsDown(l: Lobby, k: nat)
    requires !l.started && 0 < k <= l.countdown
    decreases k
    ensures LobbyTicks(l, true, true, k) == Lobby(l.countdown - k, k == l.countdown)
  {
    var next := LobbyTick(l, true, true);
    if k > 1 {
      LobbyCountsDown(next, k - 1);
    }
  }

  lemma AuctionStartsAfterThirtySeconds()
    ensures LobbyTicks(LobbyStart, true, true, LobbySeconds) == Lobby(0, true)
    ensures forall k :: 0 < k < LobbySeconds ==> !LobbyTicks(LobbyStart, true, true, k).started
  {
    LobbyCountsDown(LobbyStart, LobbySeconds);
    forall k | 0 < k < LobbySeconds ensures !LobbyTicks(LobbyStart, true, true, k).started {
      LobbyCountsDown(LobbyStart, k);
    }
  }

  // ---------------------------------------------------------------------
  // Stage engine

  /** The four numbers the two clocks change: `currentStage`, `stageTime`,
      `companyTurn` and `companyTime`. */
  datatype Timers = Timers(stage: int, stageTime: int, turn: int, turnTime: int)

  const TimersStart := Timers(0, StageSeconds, 0, TurnSeconds)

  /** The ranges the engine keeps: `currentStage` in [0, 4] (4 means finished),
      the clocks within their budgets and `companyTurn` a company index. */
  ghost predicate InRange(t: Timers) {
    0 <= t.stage <= StageCount && 0 <= t.stageTime <= StageSeconds &&
    0 <= t.turn < CompanyCount && 0 <= t.turnTime <= TurnSeconds
  }

  /** The stage clock's updater `setStageTime(prev => ...)`: at `prev <= 0`
      it moves to the next stage and resets both clocks and the turn. The
      updater returns 0, but the `setStageTime(60)` it queued is applied after
      it, so the stage clock ends at 60. */
  function StageUpdate(t: Timers): Timers {
    if t.stageTime <= 0 then Timers(t.stage + 1, StageSeconds, 0, TurnSeconds)
    else t.(stageTime := t.stageTime - 1)
  }

  /** The company clock's updater `setCompanyTime(prev => ...)`: at `prev <= 0`
      the turn passes to the next company (after the last, back to the first). */
  function TurnUpdate(t: Timers): Timers {
    if t.turnTime <= 0 then
      t.(turn := if t.turn >= CompanyCount - 1 then 0 else t.turn + 1, turnTime := TurnSeconds)
    else t.(turnTime := t.turnTime - 1)
  }

  /** One second of a started auction. The page runs the stage clock and the
      company clock as two separate intervals, armed only while
      `currentStage < stages.length`; this model lets the stage clock fire
      first and the company clock second within the same second. That
      ordering is a modelling choice: the browser gives none. */
  function TickTimers(t: Timers): (r: Timers)
    ensures InRange(t) ==> InRange(r)
    ensures t.stage >= StageCount ==> r == t
    ensures t.stage < StageCount && t.stageTime > 0 ==> r.stage == t.stage && r.stageTime == t.stageTime - 1
    ensures t.stage < StageCount && t.stageTime <= 0 ==>
      r == Timers(t.stage + 1, StageSeconds, 0, TurnSeconds - 1)
  {
    if t.stage < StageCount then TurnUpdate(StageUpdate(t)) else t
  }

  function Ticks(t: Timers, k: nat): Timers
    decreases k
  {
    if k == 0 then t else Ticks(TickTimers(t), k - 1)
  }

  lemma {:induction false} TicksCompose(t: Timers, a: nat, b: nat)
    ensures Ticks(t, a + b) == Ticks(Ticks(t, a), b)
    decreases a
  {
    if a > 0 {
      TicksCompose(TickTimers(t), a - 1, b);
    }
  }

  lemma {:induction false} TicksInRange(t: Timers, k: nat)
    requires InRange(t)
    ensures InRange(Ticks(t, k))
    decreases k
  {
    if k > 0 {
      TicksInRange(TickTimers(t), k - 1);
    }
  }

  lemma OneTick(t: Timers)
    ensures Ticks(t, 1) == TickTimers(t)
  {
  }

  /** While neither clock has run out, both count down together. */
  lemma {:induction false} ClocksRunDown(t: Timers, k: nat)
    requires t.stage < StageCount && k <= t.stageTime && k <= t.turnTime
    ensures Ticks(t, k) == t.(stageTime := t.stageTime - k, turnTime := t.turnTime - k)
    decreases k
  {
    if k > 0 {
      ClocksRunDown(TickTimers(t), k - 1);
    }
  }

  /** Within a stage the stage clock counts down one per second whatever the
      turns do. */
  lemma {:induction false} StageClockRunsDown(t: Timers, k: nat)
    requires InRange(t) && t.stage < StageCount && k <= t.stageTime
    ensures Ticks(t, k).stage == t.stage && Ticks(t, k).stageTime == t.stageTime - k
    ensures InRange(Ticks(t, k))
    decreases k
  {
    if k > 0 {
      StageClockRunsDown(TickTimers(t), k - 1);
    }
  }

  /** A full turn lasts eleven seconds (10 down to 0, then the change) and
      hands the turn to the next company in cyclic order 0, 1, 2, 0, ... */
  lemma TurnRotates(t: Timers)
    requires InRange(t) && t.stage < StageCount && t.turnTime == TurnSeconds && t.stageTime > TurnSeconds
    ensures Ticks(t, TurnSeconds + 1) ==
      Timers(t.stage, t.stageTime - TurnSeconds - 1, if t.turn == CompanyCount - 1 then 0 else t.turn + 1, TurnSeconds)
  {
    TurnEnds(t, TurnSeconds);
  }

  /** A turn clock showing `k` runs out after `k + 1` seconds, inside the stage. */
  lemma TurnEnds(t: Timers, k: nat)
    requires t.stage < StageCount && t.turnTime == k && t.stageTime > k
    ensures Ticks(t, k + 1) ==
      Timers(t.stage, t.stageTime - k - 1, if t.turn >= CompanyCount - 1 then 0 else t.turn + 1, TurnSeconds)
  {
    var x := t.(stageTime := t.stageTime - k, turnTime := 0);
    ClocksRunDown(t, k);
    TicksCompose(t, k, 1);
    OneTick(x);
    assert StageUpdate(x) == x.(stageTime := x.stageTime - 1);
  }

  /** A stage that starts with a full clock lasts 61 seconds: the clock shows
      60 down to 0 and the stage changes on the second after 0, whatever turn
      and turn clock it had reached. The next stage starts with the first
      company, whose clock has already run one second. */
  lemma StageLasts(t: Timers)
    requires InRange(t) && t.stage < StageCount && t.stageTime == StageSeconds
    ensures Ticks(t, StageSeconds + 1) == Timers(t.stage + 1, StageSeconds, 0, TurnSeconds - 1)
  {
    StageEnds(t, StageSeconds);
  }

  /** A stage clock showing `n` runs out after `n + 1` seconds. */
  lemma StageEnds(t: Timers, n: nat)
    requires InRange(t) && t.stage < StageCount && t.stageTime == n
    ensures Ticks(t, n + 1) == Timers(t.stage + 1, StageSeconds, 0, TurnSeconds - 1)
  {
    StageClockRunsDown(t, n);
    TicksCompose(t, n, 1);
    OneTick(Ticks(t, n));
  }

  lemma {:induction false} StagesAfter(k: nat)
    requires k <= StageCount
    ensures Ticks(TimersStart, (StageSeconds + 1) * k) ==
      if k == 0 then TimersStart else Timers(k, StageSeconds, 0, TurnSeconds - 1)
  {
    if k > 0 {
      StagesAfter(k - 1);
      var done := (StageSeconds + 1) * (k - 1);
      assert (StageSeconds + 1) * k == done + (StageSeconds + 1);
      var before := Ticks(TimersStart, done);
      assert InRange(before) && before.stage == k - 1 && before.stageTime == StageSeconds;
      TicksCompose(TimersStart, done, StageSeconds + 1);
      StageEnds(before, StageSeconds);
    }
  }

  /** From the start the engine is in stage `j / 61` after `j` seconds: the
      four stages take 244 seconds, after which the stage is 4 (finished) and
      stays 4. */
  lemma StageAt(j: nat)
    requires j <= (StageSeconds + 1) * StageCount
    ensures Ticks(TimersStart, j).stage == j / (StageSeconds + 1)
  {
    var q := j / (StageSeconds + 1);
    var r := j % (StageSeconds + 1);
    assert j == (StageSeconds + 1) * q + r;
    StagesAfter(q);
    TicksCompose(TimersStart, (StageSeconds + 1) * q, r);
    if r > 0 {
      StageClockRunsDown(Ticks(TimersStart, (StageSeconds + 1) * q), r);
    }
  }

  lemma {:induction false} FinishedStaysFinished(t: Timers, k: nat)
    requires t.stage >= StageCount
    ensures Ticks(t, k) == t
    decreases k
  {
    if k > 0 {
      FinishedStaysFinished(TickTimers(t), k - 1);
    }
  }

  // ---------------------------------------------------------------------
  // The render that follows a second

  /** What the page shows for a clock state and the `showResults` flag: the
      results screen when the flag is set, otherwise the bidding screen, whose
      progress bar and amount placeholder look up `stages[currentStage]`.
      Past the fourth stage the list has no entry, and reading its `name`
      throws. */
  datatype Screen = ResultsScreen | BiddingScreen(stage: nat) | StageLookupError

  function Render(t: Timers, showResults: bool): (r: Screen)
    ensures r == ResultsScreen <==> showResults
    ensures r == StageLookupError <==> !showResults && !(0 <= t.stage < StageCount)
    ensures r.BiddingScreen? ==> r.stage as int == t.stage
  {
    if showResults then ResultsScreen
    else if 0 <= t.stage < StageCount then BiddingScreen(t.stage)
    else StageLookupError
  }

  /** As written, `showResults` is set only by the effect's re-run once
      `currentStage` has reached 4, and that re-run comes after the render
      that follows the stage clock's last callback. So every render of the
      auction has the flag unset up to that one, and among them exactly the
      render at second 244 (four stages of 61 seconds) looks up a fifth stage.
      The lookup throws, nothing catches it, and the page is gone before the
      effect could show the results. */
  lemma LastStageRenderFails(j: nat)
    requires j <= (StageSeconds + 1) * StageCount
    ensures Render(Ticks(TimersStart, j), false) == StageLookupError <==> j == (StageSeconds + 1) * StageCount
  {
    StageAt(j);
  }

  // ---------------------------------------------------------------------
  // formatTime

  /** `formatTime(seconds)`: minutes, a colon, and seconds padded to two
      digits. The clock text loses nothing: it reads back as the seconds. */
  function FormatTime(seconds: nat): (s: string)
    ensures ReadClock(s) == Some(seconds)
  {
    var minutes, secs := seconds / 60, seconds % 60;
    ClockRoundTrip(minutes, secs);
    Clock(minutes, secs)
  }

  function Clock(minutes: nat, secs: nat): string {
    Text.Show(minutes) + ":" + Text.PadTwo(Text.Show(secs))
  }

  /** Reads a clock `m:ss` back as a number of seconds: decimal minutes
      without a leading zero, a colon, two decimal digits below 60. */
  function ReadClock(s: string): Option<nat> {
    if |s| < 4 || s[|s| - 3] != ':' then None
    else
      var m, p := s[..|s| - 3], s[|s| - 2..];
      if Text.AllDigits(m) && Text.AllDigits(p) && (|m| == 1 || m[0] != '0') && Text.DigitsValue(p) < 60 then
        Some(Text.DigitsValue(m) * 60 + Text.DigitsValue(p))
      else None
  }

  lemma ShowNat(n: nat)
    ensures Text.Show(n) == Text.NatToDigits(n)
    ensures |Text.Show(n)| >= 1 && Text.AllDigits(Text.Show(n)) && Text.DigitsValue(Text.Show(n)) == n
  {
    Text.DigitsRoundTrip(n);
  }

  lemma ShowSmall(n: nat)
    requires n < 60
    ensures var p := Text.PadTwo(Text.Show(n)); |p| == 2 && Text.AllDigits(p) && Text.DigitsValue(p) == n
  {
    var d := Text.Show(n);
    ShowNat(n);
    if n < 10 {
      assert d == [Text.DigitChar(n)];
      assert Text.PadTwo(d) == "0" + d;
      assert ("0" + d)[..1] == "0";
    } else {
      assert Text.NatToDigits(n / 10) == [Text.DigitChar(n / 10)];
    }
  }

  /** Reading `m:ss` splits at the colon three characters from the end. */
  lemma SplitClock(m: string, p: string)
    requires |m| >= 1 && |p| == 2
    ensures var s := m + ":" + p; |s| >= 4 && s[|s| - 3] == ':' && s[..|s| - 3] == m && s[|s| - 2..] == p
  {
    var s := m + ":" + p;
    assert s[..|s| - 3] == m;
    assert s[|s| - 2..] == p;
    assert s[|s| - 3] == ':';
  }

  lemma ClockRoundTrip(minutes: nat, secs: nat)
    requires secs < 60
    ensures ReadClock(Clock(minutes, secs)) == Some(minutes * 60 + secs)
  {
    var m := Text.Show(minutes);
    var p := Text.PadTwo(Text.Show(secs));
    assert |m| >= 1 && Text.AllDigits(m) && Text.DigitsValue(m) == minutes && (|m| == 1 || m[0] != '0') by {
      ShowNat(minutes);
    }
    assert |p| == 2 && Text.AllDigits(p) && Text.DigitsValue(p) == secs by {
      ShowSmall(secs);
    }
    ReadSplit(m, p);
  }

  /** A clock text made of digits, a colon and two digits reads back as its
      two numbers. */
  lemma ReadSplit(m: string, p: string)
    requires |m| >= 1 && |p| == 2 && Text.AllDigits(m) && Text.AllDigits(p) && Text.DigitsValue(p) < 60
    requires |m| == 1 || m[0] != '0'
    ensures ReadClock(m + ":" + p) == Some(Text.DigitsValue(m) * 60 + Text.DigitsValue(p))
  {
    SplitClock(m, p);
  }

  /** A clock text that reads back as `n` shows `n / 60` minutes and
      `n % 60` seconds, and is the text `formatTime(n)` prints: no other
      text reads back as the same time. */
  lemma ReadClockParts(s: string, n: nat)
    requires ReadClock(s) == Some(n)
    ensures |s| >= 4 && Text.DigitsValue(s[..|s| - 3]) == n / 60 && Text.DigitsValue(s[|s| - 2..]) == n % 60
    ensures s == FormatTime(n)
  {
    var m, p := s[..|s| - 3], s[|s| - 2..];
    assert s == m + ":" + p;
    ShowNat(n / 60);
    Text.DigitsCanonical(m);
    TwoDigitsShown(p);
  }

  /** Two decimal digits are the padded text of their value. */
  lemma TwoDigitsShown(p: string)
    requires |p| == 2 && Text.AllDigits(p)
    ensures p == Text.PadTwo(Text.Show(Text.DigitsValue(p)))
  {
    var d0, d1 := p[0] as int - '0' as int, p[1] as int - '0' as int;
    assert p[..1][..0] == [];
    assert Text.DigitsValue(p[..1]) == d0;
    var v := Text.DigitsValue(p);
    assert v == d0 * 10 + d1;
    assert p[0] == Text.DigitChar(d0) && p[1] == Text.DigitChar(d1);
    if v < 10 {
      assert d0 == 0 && d1 == v;
      assert Text.Show(v) == [Text.DigitChar(v)];
      assert p == "0" + [Text.DigitChar(v)];
    } else {
      assert v / 10 == d0 && v % 10 == d1;
      assert Text.NatToDigits(v / 10) == [Text.DigitChar(d0)];
      assert Text.Show(v) == [Text.DigitChar(d0)] + [Text.DigitChar(d1)];
      assert p == [p[0]] + [p[1]];
    }
  }

  // ---------------------------------------------------------------------
  // Results

  /** `bids.filter(bid => bid.companyId === id).pop()`: the company's most
      recent bid in the list. */
  function LatestBid(bids: seq<Bid>, id: string): Option<Bid> {
    var mine := Listing.Keep(bids, (b: Bid) => b.companyId == id);
    if mine == [] then None else Some(mine[|mine| - 1])
  }

  /** `bids.find(b => b.companyId === id)`: the company's earliest bid. */
  function FirstBid(bids: seq<Bid>, id: string): Option<Bid> {
    if bids == [] then None
    else if bids[0].companyId == id then Some(bids[0])
    else FirstBid(bids[1..], id)
  }

  /** Last write wins: a new bid becomes its company's standing and leaves
      every other company's standing as it was. */
  lemma LatestBidAppend(bids: seq<Bid>, b: Bid, id: string)
    ensures LatestBid(bids + [b], id) == if b.companyId == id then Some(b) else LatestBid(bids, id)
  {
    assert (bids + [b])[..|bids + [b]| - 1] == bids;
  }

  /** The standing is the company's bid with no later bid by the same company;
      there is none exactly when the company never bid. */
  lemma {:induction false} LatestBidIsLast(bids: seq<Bid>, id: string)
    ensures LatestBid(bids, id).None? <==> forall i :: 0 <= i < |bids| ==> bids[i].companyId != id
    ensures LatestBid(bids, id).Some? ==>
      exists i :: (0 <= i < |bids| && bids[i] == LatestBid(bids, id).value &&
                   bids[i].companyId == id && forall j :: i < j < |bids| ==> bids[j].companyId != id)
  {
    if bids != [] {
      var init := bids[..|bids| - 1];
      var b := bids[|bids| - 1];
      assert bids == init + [b];
      LatestBidIsLast(init, id);
      LatestBidAppend(init, b, id);
      if b.companyId != id && LatestBid(init, id).Some? {
        var i :| 0 <= i < |init| && init[i] == LatestBid(init, id).value &&
          init[i].companyId == id && forall j :: i < j < |init| ==> init[j].companyId != id;
        assert bids[i] == init[i];
      }
      if b.companyId != id && LatestBid(init, id).None? {
        assert forall i :: 0 <= i < |init| ==> bids[i] == init[i];
      }
    }
  }

  /** The earliest bid is the company's bid with no earlier bid by it. */
  lemma {:induction false} FirstBidIsFirst(bids: seq<Bid>, id: string)
    ensures FirstBid(bids, id).None? <==> forall i :: 0 <= i < |bids| ==> bids[i].companyId != id
    ensures FirstBid(bids, id).Some? ==>
      exists i :: (0 <= i < |bids| && bids[i] == FirstBid(bids, id).value &&
                   bids[i].companyId == id && forall j :: 0 <= j < i ==> bids[j].companyId != id)
  {
    if bids != [] && bids[0].companyId != id {
      FirstBidIsFirst(bids[1..], id);
      if FirstBid(bids[1..], id).Some? {
        var i :| 0 <= i < |bids[1..]| && bids[1..][i] == FirstBid(bids[1..], id).value &&
          bids[1..][i].companyId == id && forall j :: 0 <= j < i ==> bids[1..][j].companyId != id;
        assert bids[i + 1] == bids[1..][i];
        assert forall j :: 1 <= j < i + 1 ==> bids[j] == bids[1..][j - 1];
      } else {
        assert forall i :: 1 <= i < |bids| ==> bids[i] == bids[1..][i - 1];
      }
    } else if bids != [] {
      assert bids[0] == FirstBid(bids, id).value;
    }
  }

  /** Once a company has bid, later bids never change its earliest bid. */
  lemma {:induction false} FirstBidAppend(bids: seq<Bid>, b: Bid, id: string)
    ensures FirstBid(bids + [b], id) ==
      if FirstBid(bids, id).Some? then FirstBid(bids, id)
      else if b.companyId == id then Some(b) else None
  {
    if bids == [] {
      assert (bids + [b])[1..] == [];
    } else {
      assert (bids + [b])[1..] == bids[1..] + [b];
      FirstBidAppend(bids[1..], b, id);
    }
  }

  /** A company's standing in a stage: `latestBid`, or "No bid". */
  function Standing(log: BidLog, stage: int, id: string): Option<Amount> {
    match LatestBid(log.StageBids(stage), id)
    case None => None
    case Some(b) => Some(b.amount)
  }

  /** `positionLevels[amount - 1]?.level || 'Unknown'`. */
  function PositionLabel(amount: Amount): string {
    match amount
    case Int(n) => if 1 <= n <= |PositionLevels| then PositionLevels[n - 1] else "Unknown"
    case NaN => "Unknown"
  }

  /** A bid made with the level button at index `level` (amount `level + 1`)
      is shown as that level's name. */
  lemma PositionLabelOfLevelButton(level: int)
    requires 0 <= level < |PositionLevels|
    ensures PositionLabel(Text.Int(level + 1)) == PositionLevels[level]
  {
  }

  /** `<bid>?.amount || 0` as a number: a missing bid and NaN both count as 0. */
  function AmountOrZero(b: Option<Bid>): (r: real)
    ensures b.None? || b.value.amount.NaN? ==> r == 0.0
    ensures b.Some? && b.value.amount.Int? ==> r == b.value.amount.value as real
  {
    match b
    case Some(Bid(_, Int(n), _)) => n as real
    case _ => 0.0
  }

  /** The recommendation text chosen from the score. */
  datatype Recommendation = Excellent | Good | Decent | Consider
  {
    function Rank(): nat {
      match this
      case Consider => 0
      case Decent => 1
      case Good => 2
      case Excellent => 3
    }
  }

  /** `score > 15`, `> 10`, `> 5`, else. */
  function RecommendationFor(score: real): (r: Recommendation)
    ensures r == Excellent <==> score > 15.0
    ensures r == Good <==> 10.0 < score <= 15.0
    ensures r == Decent <==> 5.0 < score <= 10.0
    ensures r == Consider <==> score <= 5.0
  {
    if score > 15.0 then Excellent
    else if score > 10.0 then Good
    else if score > 5.0 then Decent
    else Consider
  }

  /** A higher score never gives a lower recommendation. */
  lemma RecommendationMonotone(a: real, b: real)
    requires a <= b
    ensures RecommendationFor(a).Rank() <= RecommendationFor(b).Rank()
  {
  }

  /** `salary / 100000 + equity * 2 + benefits / 3 + position * 2`. */
  function Score(salary: real, equity: real, benefits: real, position: real): real {
    salary / 100000.0 + equity * 2.0 + benefits / 3.0 + position * 2.0
  }

  /** The score the results screen computes for a company, as written: from
      each stage's EARLIEST bid by the company (`find`). */
  function ScoreAsWritten(log: BidLog, id: string): real {
    Score(AmountOrZero(FirstBid(log.salary, id)), AmountOrZero(FirstBid(log.equity, id)),
          AmountOrZero(FirstBid(log.benefits, id)), AmountOrZero(FirstBid(log.position, id)))
  }

  /** The score from each stage's standing (the latest bid), the one the
      screen shows next to it. */
  function StandingScore(log: BidLog, id: string): real {
    Score(AmountOrZero(LatestBid(log.salary, id)), AmountOrZero(LatestBid(log.equity, id)),
          AmountOrZero(LatestBid(log.benefits, id)), AmountOrZero(LatestBid(log.position, id)))
  }

  /** A company that never bid scores 0 and gets the lowest recommendation. */
  lemma NoBidsLowestRecommendation(log: BidLog, id: string)
    requires forall stage, i :: 0 <= stage < StageCount && 0 <= i < |log.StageBids(stage)| ==>
      log.StageBids(stage)[i].companyId != id
    ensures ScoreAsWritten(log, id) == 0.0 && RecommendationFor(ScoreAsWritten(log, id)) == Consider
    ensures StandingScore(log, id) == 0.0
    ensures forall stage :: Standing(log, stage, id).None?
  {
    forall stage | 0 <= stage < StageCount
      ensures FirstBid(log.StageBids(stage), id).None? && LatestBid(log.StageBids(stage), id).None?
    {
      FirstBidIsFirst(log.StageBids(stage), id);
      LatestBidIsLast(log.StageBids(stage), id);
    }
    assert log.salary == log.StageBids(0) && log.equity == log.StageBids(1);
    assert log.benefits == log.StageBids(2) && log.position == log.StageBids(3);
    forall stage ensures Standing(log, stage, id).None? {
      if !(0 <= stage < StageCount) {
        assert log.StageBids(stage) == [];
      }
    }
  }

  /** The screen's score disagrees with the standings it shows: a company
      that first offers 100000 and then 2000000 in the salary stage is shown
      at 2000000, but its score counts 100000 and it is told to consider
      other offers. */
  lemma ScoreIgnoresStanding()
    ensures var log := NoBids.(salary := [Bid("1", Text.Int(100000), 0), Bid("1", Text.Int(2000000), 1)]);
      Standing(log, SalaryStage, "1") == Some(Text.Int(2000000)) &&
      ScoreAsWritten(log, "1") == 1.0 && RecommendationFor(ScoreAsWritten(log, "1")) == Consider &&
      StandingScore(log, "1") == 20.0 && RecommendationFor(StandingScore(log, "1")) == Excellent
  {
    var b0 := Bid("1", Text.Int(100000), 0);
    var b1 := Bid("1", Text.Int(2000000), 1);
    var log := NoBids.(salary := [b0, b1]);
    LatestBidAppend([b0], b1, "1");
    assert [b0] + [b1] == log.salary;
    assert LatestBid(log.salary, "1") == Some(b1);
    assert FirstBid(log.salary, "1") == Some(b0);
    assert log.equity == [] && log.benefits == [] && log.position == [];
    assert AmountOrZero(FirstBid(log.salary, "1")) == 100000.0;
    assert AmountOrZero(LatestBid(log.salary, "1")) == 2000000.0;
    assert ScoreAsWritten(log, "1") == Score(100000.0, 0.0, 0.0, 0.0) == 1.0;
    assert StandingScore(log, "1") == Score(2000000.0, 0.0, 0.0, 0.0) == 20.0;
  }

  /** The standing score follows the standings: a new bid replaces its
      company's term for that stage and leaves every other company's score
      as it was. */
  lemma StandingScoreAfterBid(log: BidLog, stage: int, b: Bid, id: string)
    requires 0 <= stage < StageCount
    ensures b.companyId != id ==> StandingScore(log.Append(stage, b), id) == StandingScore(log, id)
    ensures b.companyId == id ==> Standing(log.Append(stage, b), stage, id) == Some(b.amount)
    ensures b.companyId == id && stage == SalaryStage ==>
      StandingScore(log.Append(stage, b), id) ==
        Score(AmountOrZero(Some(b)), AmountOrZero(LatestBid(log.equity, id)),
              AmountOrZero(LatestBid(log.benefits, id)), AmountOrZero(LatestBid(log.position, id)))
  {
    var r := log.Append(stage, b);
    assert r.StageBids(stage) == log.StageBids(stage) + [b];
    LatestBidAppend(log.StageBids(stage), b, id);
    assert r.salary == r.StageBids(0) && r.equity == r.StageBids(1);
    assert r.benefits == r.StageBids(2) && r.position == r.StageBids(3);
    assert log.salary == log.StageBids(0) && log.equity == log.StageBids(1);
    assert log.benefits == log.StageBids(2) && log.position == log.StageBids(3);
  }

  // ---------------------------------------------------------------------
  // The page

  /** The controls a company card offers, by stage: the "Bid" button under
      the amount input (salary and equity), the "offer selected benefits"
      button (benefits) and one button per position level (position). */
  datatype BidButton = AmountButton | BenefitsButton | LevelButton(level: int)

  class AuctionPage {
    /** `applicationCount` from the application context. */
    const applicationCount: int
    var countdown: int
    var auctionStarted: bool
    var showTutorial: bool
    var tutorialCompleted: bool
    var currentStage: int
    var currentStageRef: int
    var stageTime: int
    var companyTurn: int
    var companyTime: int
    var bidInput: string
    var selectedBenefits: seq<string>
    var bids: BidLog
    var showResults: bool

    function Clocks(): Timers
      reads this
    {
      Timers(currentStage, stageTime, companyTurn, companyTime)
    }

    function LobbyState(): Lobby
      reads this
    {
      Lobby(countdown, auctionStarted)
    }

    ghost predicate Valid()
      reads this
    {
      InRange(Clocks()) && 0 <= countdown <= LobbySeconds &&
      (showResults <==> currentStage >= StageCount) &&
      (!auctionStarted ==> Clocks() == TimersStart)
    }

    constructor (applicationCount: int)
      ensures Valid()
      ensures this.applicationCount == applicationCount
      ensures LobbyState() == LobbyStart && Clocks() == TimersStart
      ensures showTutorial && !tutorialCompleted && !showResults && currentStageRef == 0
      ensures bidInput == "" && selectedBenefits == [] && bids == NoBids
    {
      this.applicationCount := applicationCount;
      countdown := LobbySeconds;
      auctionStarted := false;
      showTutorial := true;
      tutorialCompleted := false;
      currentStage := 0;
      currentStageRef := 0;
      stageTime := StageSeconds;
      companyTurn := 0;
      companyTime := TurnSeconds;
      bidInput := "";
      selectedBenefits := [];
      bids := NoBids;
      showResults := false;
    }

    /** The tutorial modal's `onClose` (its last "Next" or its X button): the
        modal is only on screen in the lobby of an eligible user. */
    method CloseTutorial()
      requires Valid()
      modifies this`showTutorial, this`tutorialCompleted
      ensures Valid()
      ensures var shown := IsEligible(applicationCount) && !auctionStarted && old(showTutorial);
        (shown ==> !showTutorial && tutorialCompleted) &&
        (!shown ==> showTutorial == old(showTutorial) && tutorialCompleted == old(tutorialCompleted))
    {
      if IsEligible(applicationCount) && !auctionStarted && showTutorial {
        showTutorial := false;
        tutorialCompleted := true;
      }
    }

    /** One second of the lobby countdown effect. */
    method CountdownTick()
      requires Valid()
      modifies this`countdown, this`auctionStarted
      ensures Valid()
      ensures LobbyState() == LobbyTick(old(LobbyState()), IsEligible(applicationCount), tutorialCompleted)
    {
      if IsEligible(applicationCount) && tutorialCompleted && countdown > 0 && !auctionStarted {
        countdown := countdown - 1;
      }
      if !(IsEligible(applicationCount) && tutorialCompleted && countdown > 0 && !auctionStarted) &&
         countdown == 0 && !auctionStarted {
        auctionStarted := true;
      }
    }

    /** One second of the stage engine: the stage clock's callback, then the
        company clock's callback (see `TickTimers` for this ordering), then
        the effect's re-run, which shows the results once the stage index
        has reached `stages.length`. The flag is set in the same step as the
        last stage change, before anything is rendered: this is the intended
        behaviour, not the code's order (see `LastStageRenderFails`), and
        with it the page never looks up a stage past the fourth. */
    method Tick()
      requires Valid()
      modifies this`currentStage, this`currentStageRef, this`stageTime, this`companyTurn,
               this`companyTime, this`bidInput, this`selectedBenefits, this`showResults
      ensures Valid()
      ensures Render(Clocks(), showResults) != StageLookupError
      ensures Clocks() == if auctionStarted then TickTimers(old(Clocks())) else old(Clocks())
      ensures var moved := auctionStarted && old(currentStage) < StageCount && old(stageTime) <= 0;
        (moved ==> bidInput == "" && selectedBenefits == [] && currentStageRef == old(currentStage)) &&
        (!moved ==> bidInput == old(bidInput) && selectedBenefits == old(selectedBenefits) &&
                    currentStageRef == old(currentStageRef))
    {
      if auctionStarted && currentStage < StageCount {
        // The stage clock.
        if stageTime <= 0 {
          currentStageRef := currentStage;
          currentStage := currentStage + 1;
          stageTime := StageSeconds;
          companyTurn := 0;
          companyTime := TurnSeconds;
          bidInput := "";
          selectedBenefits := [];
        } else {
          stageTime := stageTime - 1;
        }
        // The company clock.
        if companyTime <= 0 {
          companyTurn := if companyTurn >= CompanyCount - 1 then 0 else companyTurn + 1;
          companyTime := TurnSeconds;
        } else {
          companyTime := companyTime - 1;
        }
      }
      if !(auctionStarted && currentStage < StageCount) && currentStage >= StageCount {
        showResults := true;
      }
    }

    /** The bidding screen is rendered: eligible, started, results not shown. */
    predicate BiddingShown()
      reads this
    {
      IsEligible(applicationCount) && auctionStarted && !showResults
    }

    /** The amount input's `onChange`; the input is disabled for every company
        but the one whose turn it is. */
    method SetBidInput(index: int, text: string)
      modifies this`bidInput
      ensures var enabled := BiddingShown() && currentStage != BenefitsStage && currentStage != PositionStage &&
                             0 <= index < CompanyCount && index == companyTurn;
        bidInput == if enabled then text else old(bidInput)
    {
      if BiddingShown() && currentStage != BenefitsStage && currentStage != PositionStage &&
         0 <= index < CompanyCount && index == companyTurn {
        bidInput := text;
      }
    }

    /** A benefit checkbox's `onChange`: toggles the benefit, for the company
        whose turn it is. */
    method ToggleBenefit(index: int, benefit: string)
      modifies this`selectedBenefits
      ensures var enabled := BiddingShown() && currentStage == BenefitsStage &&
                             0 <= index < CompanyCount && index == companyTurn;
        selectedBenefits == if enabled then Listing.Toggle(old(selectedBenefits), benefit)
                            else old(selectedBenefits)
    {
      if BiddingShown() && currentStage == BenefitsStage && 0 <= index < CompanyCount && index == companyTurn {
        selectedBenefits := Listing.Toggle(selectedBenefits, benefit);
      }
    }

    /** Whether the button is on screen and enabled for company `index`:
        `disabled={companyTurn !== index || ...}`. */
    predicate ButtonEnabled(index: int, button: BidButton)
      reads this
    {
      BiddingShown() && 0 <= index < CompanyCount && index == companyTurn &&
      match button
      case AmountButton => currentStage != BenefitsStage && currentStage != PositionStage && bidInput != ""
      case BenefitsButton => currentStage == BenefitsStage && |selectedBenefits| > 0
      case LevelButton(level) => currentStage == PositionStage && 0 <= level < |PositionLevels|
    }

    /** The amount the button passes to `handleBid`. */
    function ButtonAmount(button: BidButton): Amount
      reads this
    {
      match button
      case AmountButton => Text.ParseInt(bidInput)
      case BenefitsButton => Text.Int(|selectedBenefits|)
      case LevelButton(level) => Text.Int(level + 1)
    }

    /** `handleBid(companyId, amount)`: records the bid in the current stage's
        list (in the benefits stage the amount is the number of selected
        benefits) and clears that stage's input. */
    method HandleBid(companyId: string, amount: Amount, now: int)
      modifies this`bids, this`bidInput, this`selectedBenefits
      ensures bids == old(bids).Append(currentStage,
        Bid(companyId, if currentStage == BenefitsStage then Text.Int(|old(selectedBenefits)|) else amount, now))
      ensures currentStage in {SalaryStage, EquityStage, PositionStage} ==>
        bidInput == "" && selectedBenefits == old(selectedBenefits)
      ensures currentStage == BenefitsStage ==> selectedBenefits == [] && bidInput == old(bidInput)
      ensures !(0 <= currentStage < StageCount) ==>
        bidInput == old(bidInput) && selectedBenefits == old(selectedBenefits)
    {
      var bid := Bid(companyId, if currentStage == BenefitsStage then Text.Int(|selectedBenefits|) else amount, now);
      bids := bids.Append(currentStage, bid);
      if currentStage == BenefitsStage {
        selectedBenefits := [];
      } else if 0 <= currentStage < StageCount {
        bidInput := "";
      }
    }

    /** A click on a company's bid control: `companyTurn === index && handleBid(...)`
        behind `disabled`. Exactly one bid is appended to the current stage's
        list when it is accepted, nothing changes when it is not. */
    method SubmitBid(index: int, button: BidButton, now: int) returns (accepted: bool)
      requires Valid()
      modifies this`bids, this`bidInput, this`selectedBenefits
      ensures Valid()
      ensures accepted == old(ButtonEnabled(index, button))
      ensures accepted ==> 0 <= index < CompanyCount && index == companyTurn && 0 <= currentStage < StageCount
      ensures accepted ==> bids == old(bids).Append(currentStage, Bid(CompanyId(index), old(ButtonAmount(button)), now))
      ensures accepted ==> forall k :: k != currentStage ==> bids.StageBids(k) == old(bids).StageBids(k)
      ensures accepted ==> |bids.StageBids(currentStage)| == |old(bids).StageBids(currentStage)| + 1
      ensures accepted && currentStage == BenefitsStage ==> selectedBenefits == [] && bidInput == old(bidInput)
      ensures accepted && currentStage != BenefitsStage ==> bidInput == "" && selectedBenefits == old(selectedBenefits)
      ensures !accepted ==> bids == old(bids) && bidInput == old(bidInput) && selectedBenefits == old(selectedBenefits)
    {
      accepted := ButtonEnabled(index, button);
      if accepted {
        HandleBid(CompanyId(index), ButtonAmount(button), now);
      }
    }
  }
}
