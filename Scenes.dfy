/** The scenes of main.py:70-398. Each scene is a function giving the events
    it sends, in order, and a method that sends them through the channel with
    the loops of the source. Sleeps and log lines are not modelled. */
module Scenes {
  import opened Events
  import RewardGrid

  /** The swipe that brings the next set of buildings into view (main.py:153-156, 265-268). */
  const NextScreen: Event := Swipe(1900, 540, 50, 540, DefaultSwipeMs)
  /** The swipe back towards the first set of buildings (main.py:176-179). */
  const PreviousScreen: Event := Swipe(50, 540, 1900, 540, DefaultSwipeMs)

  /** A tap at each of the given points, in order. */
  function TapsAt(points: seq<(int, int)>): (r: seq<Event>)
    ensures |r| == |points| && AllTaps(r)
  {
    seq(|points|, i requires 0 <= i < |points| => Tap(points[i].0, points[i].1))
  }

  // ---- click_close_button, main.py:70-79

  function CloseButtonEvents(): seq<Event> {
    [Tap(906, 868)]
  }

  method ClickCloseButton(d: Device)
    requires d.Valid()
    modifies d
    ensures d.Valid() && d.sent == old(d.sent) + CloseButtonEvents()
  {
    d.Tap(906, 868);
  }

  // ---- choose_server, main.py:81-119

  const ServerListSwipes: nat := 6
  const ScrollServerList: Event := Swipe(1000, 800, 1000, 300, DefaultSwipeMs)

  function ChooseServerEvents(): seq<Event> {
    [Tap(1000, 800)] + Repeat([ScrollServerList], ServerListSwipes) + [Tap(985, 487), Tap(1000, 970)]
  }

  method ChooseServer(d: Device)
    requires d.Valid()
    modifies d
    ensures d.Valid() && d.sent == old(d.sent) + ChooseServerEvents()
  {
    d.Tap(1000, 800);
    ghost var before := d.sent;
    for i := 0 to ServerListSwipes
      invariant d.Valid() && d.sent == before + Repeat([ScrollServerList], i)
    {
      d.Swipe(1000, 800, 1000, 300);
      RepeatSnoc(before, [ScrollServerList], i);
    }
    d.Tap(985, 487);
    d.Tap(1000, 970);
  }

  /** One tap on "Choose Server", six scrolls of the server list, then the
      server and "Play". */
  lemma ChooseServerLayout()
    ensures |ChooseServerEvents()| == 9
    ensures ChooseServerEvents()[0] == Tap(1000, 800)
    ensures forall k | 1 <= k < 7 :: ChooseServerEvents()[k] == ScrollServerList
    ensures ChooseServerEvents()[7..] == [Tap(985, 487), Tap(1000, 970)]
    ensures TapCount(ChooseServerEvents()) == 3 && SwipeCount(ChooseServerEvents()) == 6
  {
    var scrolls := Repeat([ScrollServerList], ServerListSwipes);
    var first, last := [Tap(1000, 800)], [Tap(985, 487), Tap(1000, 970)];
    assert AllSwipes(scrolls);
    AllSwipesCount(scrolls);
    AllTapsCount(first);
    AllTapsCount(last);
    CountsAppend(first, scrolls);
    CountsAppend(first + scrolls, last);
  }

  // ---- close_announcements_and_events, main.py:121-139

  function CloseAnnouncementsEvents(): seq<Event> {
    [Tap(1520, 167), Tap(1480, 85)]
  }

  method CloseAnnouncementsAndEvents(d: Device)
    requires d.Valid()
    modifies d
    ensures d.Valid() && d.sent == old(d.sent) + CloseAnnouncementsEvents()
  {
    d.Tap(1520, 167);
    d.Tap(1480, 85);
  }

  // ---- collect_money_from_buildings, main.py:141-169

  /** The three buildings of one screen (main.py:146-150). */
  const Buildings: seq<(int, int)> := [(300, 600), (885, 660), (1490, 600)]
  /** Swipes needed to see all twelve buildings (main.py:158). */
  const BuildingSwipes: nat := 3

  /** The events of the first `n` passes of the loop at main.py:160-169:
      the buildings of a screen, then a swipe unless it was the last screen. */
  function BuildingScreens(n: nat): seq<Event> {
    if n == 0 then []
    else BuildingScreens(n - 1) + TapsAt(Buildings) + (if n - 1 < BuildingSwipes then [NextScreen] else [])
  }

  function CollectMoneyEvents(): seq<Event> {
    BuildingScreens(BuildingSwipes + 1)
  }

  method CollectMoneyFromBuildings(d: Device)
    requires d.Valid()
    modifies d
    ensures d.Valid() && d.sent == old(d.sent) + CollectMoneyEvents()
  {
    for i := 0 to BuildingSwipes + 1
      invariant d.Valid() && d.sent == old(d.sent) + BuildingScreens(i)
    {
      for j := 0 to |Buildings|
        invariant d.Valid() && d.sent == old(d.sent) + BuildingScreens(i) + TapsAt(Buildings)[..j]
      {
        d.Tap(Buildings[j].0, Buildings[j].1);
      }
      if i < BuildingSwipes {
        d.Swipe(1900, 540, 50, 540);
      }
    }
  }

  /** The block of a screen followed by its swipe. */
  function ScreenThenSwipe(): seq<Event> {
    TapsAt(Buildings) + [NextScreen]
  }

  lemma {:induction false} ScreensBeforeLast(n: nat)
    requires n <= BuildingSwipes
    ensures BuildingScreens(n) == Repeat(ScreenThenSwipe(), n)
  {
    if n > 0 {
      ScreensBeforeLast(n - 1);
      RepeatSucc(ScreenThenSwipe(), n - 1);
    }
  }

  /** Four screens of three buildings each, with a swipe after every screen
      but the last: event `k` is a swipe exactly when `k mod 4 == 3`, and
      otherwise a tap on building `k mod 4`. */
  lemma CollectMoneyLayout()
    ensures CollectMoneyEvents() == Repeat(ScreenThenSwipe(), BuildingSwipes) + TapsAt(Buildings)
    ensures |CollectMoneyEvents()| == 15
    ensures forall k | 0 <= k < 15 ::
      CollectMoneyEvents()[k] == if k % 4 == 3 then NextScreen else TapsAt(Buildings)[k % 4]
  {
    ScreensBeforeLast(BuildingSwipes);
    var ev := CollectMoneyEvents();
    forall k | 0 <= k < 15
      ensures ev[k] == if k % 4 == 3 then NextScreen else TapsAt(Buildings)[k % 4]
    {
      if k >= 12 {
        assert ev[k] == TapsAt(Buildings)[k - 12];
      }
    }
  }

  /** 12 taps and 3 swipes. */
  lemma CollectMoneyCounts()
    ensures TapCount(CollectMoneyEvents()) == 12 && SwipeCount(CollectMoneyEvents()) == 3
  {
    CollectMoneyLayout();
    AllTapsCount(TapsAt(Buildings));
    assert [NextScreen][0].Swipe?;
    AllSwipesCount([NextScreen]);
    CountsAppend(TapsAt(Buildings), [NextScreen]);
    RepeatCounts(ScreenThenSwipe(), BuildingSwipes);
    CountsAppend(Repeat(ScreenThenSwipe(), BuildingSwipes), TapsAt(Buildings));
  }

  // ---- swipe_to_first_building_screen, main.py:171-186

  /** Swipes back to the first screen (main.py:181). */
  const SwipesBack: nat := 4

  function SwipeBackEvents(): seq<Event> {
    Repeat([PreviousScreen], SwipesBack)
  }

  method SwipeToFirstBuildingScreen(d: Device)
    requires d.Valid()
    modifies d
    ensures d.Valid() && d.sent == old(d.sent) + SwipeBackEvents()
  {
    for i := 0 to SwipesBack
      invariant d.Valid() && d.sent == old(d.sent) + Repeat([PreviousScreen], i)
    {
      d.Swipe(50, 540, 1900, 540);
      RepeatSnoc(old(d.sent), [PreviousScreen], i);
    }
  }

  /** Four swipes, each the reverse of the swipe that moved to the next
      screen: one more than `collect_money_from_buildings` made. */
  lemma SwipeBackLayout()
    ensures |SwipeBackEvents()| == 4
    ensures forall k | 0 <= k < 4 :: SwipeBackEvents()[k] == Reverse(NextScreen)
    ensures SwipeCount(SwipeBackEvents()) == 4 && TapCount(SwipeBackEvents()) == 0
    ensures SwipeCount(SwipeBackEvents()) == SwipeCount(CollectMoneyEvents()) + 1
  {
    assert AllSwipes(SwipeBackEvents());
    AllSwipesCount(SwipeBackEvents());
    CollectMoneyCounts();
  }

  // ---- collect_daily_reward, main.py:188-257

  const DailyRewardOpen: seq<Event> := [Tap(1650, 90), Tap(660, 560)]
  const DailyRewardClose: seq<Event> := [Tap(960, 860), Tap(1650, 120), Tap(1700, 140)]

  function DailyRewardEvents(): seq<Event> {
    DailyRewardOpen + RewardGrid.Taps(RewardGrid.DailyReward) + DailyRewardClose
  }

  lemma DailyRewardIsSequential(s: seq<Event>)
    ensures s + [Tap(1650, 90)] + [Tap(660, 560)] + RewardGrid.Rows(RewardGrid.DailyReward, 4)
      + [Tap(960, 860)] + [Tap(1650, 120)] + [Tap(1700, 140)]
      == s + DailyRewardEvents()
  {
  }

  /** Also returns the day numbers the loop prints with each reward tap
      (main.py:240) and the final value of `day_counter`. */
  method CollectDailyReward(d: Device) returns (days: seq<int>, dayCounter: int)
    requires d.Valid()
    modifies d
    ensures d.Valid() && d.sent == old(d.sent) + DailyRewardEvents()
    ensures |days| == 28 && dayCounter == 29
    ensures forall k | 0 <= k < 28 ::
      days[k] == k + 1 && d.sent[|old(d.sent)| + 2 + k] == Tap(530 + (k % 7) * 160, 380 + (k / 7) * 156)
  {
    d.Tap(1650, 90);
    d.Tap(660, 560);
    var startX, endX, startY, endY := 530, 1490, 380, 850;
    var numBoxesX, numBoxesY := 7, 4;
    var stepX := (endX - startX) / (numBoxesX - 1);
    var stepY := (endY - startY) / (numBoxesY - 1);
    ghost var g := RewardGrid.DailyReward;
    ghost var before := d.sent;
    days, dayCounter := [], 1;
    for row := 0 to numBoxesY
      invariant d.Valid() && d.sent == before + RewardGrid.Rows(g, row)
      invariant dayCounter == row * numBoxesX + 1
      invariant |days| == row * numBoxesX && forall k | 0 <= k < |days| :: days[k] == k + 1
    {
      for col := 0 to numBoxesX
        invariant d.Valid() && d.sent == before + RewardGrid.Rows(g, row) + RewardGrid.Row(g, row)[..col]
        invariant dayCounter == row * numBoxesX + col + 1
        invariant |days| == row * numBoxesX + col && forall k | 0 <= k < |days| :: days[k] == k + 1
      {
        var x := startX + col * stepX;
        var y := startY + row * stepY;
        days := days + [dayCounter];
        d.Tap(x, y);
        dayCounter := dayCounter + 1;
        RewardGrid.RowSnoc(before + RewardGrid.Rows(g, row), g, row, col);
      }
      RewardGrid.RowsSnoc(before, g, row);
    }
    d.Tap(960, 860);
    d.Tap(1650, 120);
    d.Tap(1700, 140);
    DailyRewardIsSequential(old(d.sent));
    DailyRewardLayout();
  }

  /** The scene opens two screens, taps the 28 boxes row by row at steps of
      160 and 156 pixels from (530, 380), then confirms and closes. */
  lemma DailyRewardLayout()
    ensures |DailyRewardEvents()| == 33
    ensures DailyRewardEvents()[..2] == DailyRewardOpen && DailyRewardEvents()[30..] == DailyRewardClose
    ensures forall k | 0 <= k < 28 :: DailyRewardEvents()[2 + k] == Tap(530 + (k % 7) * 160, 380 + (k / 7) * 156)
  {
    var g := RewardGrid.DailyReward;
    var ev := DailyRewardEvents();
    assert RewardGrid.StepX(g) == 160 && RewardGrid.StepY(g) == 156;
    forall k | 0 <= k < 28
      ensures ev[2 + k] == Tap(530 + (k % 7) * 160, 380 + (k / 7) * 156)
    {
      RewardGrid.RowMajor(g, 4, k);
    }
  }

  /** 33 taps and no swipe. */
  lemma DailyRewardCounts()
    ensures TapCount(DailyRewardEvents()) == 33 && SwipeCount(DailyRewardEvents()) == 0
  {
    var grid := RewardGrid.Taps(RewardGrid.DailyReward);
    AllTapsCount(DailyRewardOpen);
    AllTapsCount(grid);
    AllTapsCount(DailyRewardClose);
    CountsAppend(DailyRewardOpen, grid);
    CountsAppend(DailyRewardOpen + grid, DailyRewardClose);
  }

  // ---- enter_trial, main.py:260-390

  /** Rounds of the attrition loop (main.py:349) and cycles per round (main.py:355). */
  const Rounds: nat := 40
  const CyclesPerRound: nat := 10
  /** Temporary-retreat attempts (main.py:363). */
  const RetreatAttempts: nat := 10

  const Acquire: Event := Tap(1730, 920)
  const NextFloor: Event := Tap(600, 1030)
  const Retreat: Event := Tap(1400, 915)

  /** Entering the trial twice, quitting once in between, starting it and
      tapping the Speed button once (main.py:304-346). */
  function EntryEvents(buildingX: int, buildingY: int, enterX: int, enterY: int): seq<Event> {
    [ Tap(buildingX, buildingY), Tap(enterX, enterY), Tap(1530, 1020), Tap(950, 660),
      Tap(buildingX, buildingY), Tap(enterX, enterY), NextFloor, NextFloor, Tap(950, 1000) ]
  }

  /** Enter the trial, quit it, enter again, start it and tap the Speed
      button once (main.py:304-346). */
  method StartTrial(d: Device, buildingX: int, buildingY: int, enterX: int, enterY: int)
    requires d.Valid()
    modifies d
    ensures d.Valid() && d.sent == old(d.sent) + EntryEvents(buildingX, buildingY, enterX, enterY)
  {
    d.Tap(buildingX, buildingY);
    d.Tap(enterX, enterY);
    d.Tap(1530, 1020);
    d.Tap(950, 660);
    d.Tap(buildingX, buildingY);
    d.Tap(enterX, enterY);
    d.Tap(600, 1030);
    d.Tap(600, 1030);
    d.Tap(950, 1000);
    EntryIsSequential(old(d.sent), buildingX, buildingY, enterX, enterY);
  }

  lemma EntryIsSequential(s: seq<Event>, buildingX: int, buildingY: int, enterX: int, enterY: int)
    ensures s + [Tap(buildingX, buildingY)] + [Tap(enterX, enterY)] + [Tap(1530, 1020)] + [Tap(950, 660)]
      + [Tap(buildingX, buildingY)] + [Tap(enterX, enterY)] + [NextFloor] + [NextFloor] + [Tap(950, 1000)]
      == s + EntryEvents(buildingX, buildingY, enterX, enterY)
  {
  }

  /** The nested loop of main.py:352-361. */
  function AttritionEvents(): seq<Event> {
    Repeat(Repeat([Acquire, NextFloor], CyclesPerRound), Rounds)
  }

  /** The loop of main.py:363-376. */
  function RetreatEvents(): seq<Event> {
    Repeat([Retreat, Acquire], RetreatAttempts)
  }

  function TrialEvents(buildingX: int, buildingY: int, numSwipes: nat, enterX: int, enterY: int): seq<Event> {
    Repeat([NextScreen], numSwipes)
    + EntryEvents(buildingX, buildingY, enterX, enterY)
    + AttritionEvents()
    + RetreatEvents()
    + [Retreat, Tap(1850, 60)]
    + SwipeBackEvents()
  }

  method EnterTrial(d: Device, buildingX: int, buildingY: int, numSwipes: nat, enterX: int, enterY: int)
    requires d.Valid()
    modifies d
    ensures d.Valid() && d.sent == old(d.sent) + TrialEvents(buildingX, buildingY, numSwipes, enterX, enterY)
  {
    for i := 0 to numSwipes
      invariant d.Valid() && d.sent == old(d.sent) + Repeat([NextScreen], i)
    {
      d.Swipe(1900, 540, 50, 540);
      RepeatSnoc(old(d.sent), [NextScreen], i);
    }
    StartTrial(d, buildingX, buildingY, enterX, enterY);
    ghost var entered := d.sent;
    for trial := 0 to Rounds
      invariant d.Valid() && d.sent == entered + Repeat(Repeat([Acquire, NextFloor], CyclesPerRound), trial)
    {
      ghost var roundStart := d.sent;
      for cycle := 0 to CyclesPerRound
        invariant d.Valid() && d.sent == roundStart + Repeat([Acquire, NextFloor], cycle)
      {
        d.Tap(1730, 920);
        d.Tap(600, 1030);
        RepeatSnoc(roundStart, [Acquire, NextFloor], cycle);
      }
      RepeatSnoc(entered, Repeat([Acquire, NextFloor], CyclesPerRound), trial);
    }

    assert d.sent == entered + AttritionEvents();

    ghost var fought := d.sent;
    for attempt := 0 to RetreatAttempts
      invariant d.Valid() && d.sent == fought + Repeat([Retreat, Acquire], attempt)
    {
      d.Tap(1400, 915);
      d.Tap(1730, 920);
      RepeatSnoc(fought, [Retreat, Acquire], attempt);
    }
    assert d.sent == fought + RetreatEvents();
    d.Tap(1400, 915);
    d.Tap(1850, 60);
    SwipeToFirstBuildingScreen(d);
    TrialIsSequential(old(d.sent), buildingX, buildingY, numSwipes, enterX, enterY);
  }

  lemma TrialIsSequential(s: seq<Event>, buildingX: int, buildingY: int, numSwipes: nat, enterX: int, enterY: int)
    ensures s + Repeat([NextScreen], numSwipes) + EntryEvents(buildingX, buildingY, enterX, enterY)
      + AttritionEvents() + RetreatEvents() + [Retreat] + [Tap(1850, 60)] + SwipeBackEvents()
      == s + TrialEvents(buildingX, buildingY, numSwipes, enterX, enterY)
  {
  }

  /** The attrition loop taps Acquire and Next Floor 400 times each, in
      strict alternation starting with Acquire. */
  lemma AttritionAlternates()
    ensures |AttritionEvents()| == 800
    ensures forall k | 0 <= k < 800 :: AttritionEvents()[k] == if k % 2 == 0 then Acquire else NextFloor
  {
    RepeatNested([Acquire, NextFloor], CyclesPerRound, Rounds);
  }

  /** A trial first swipes `numSwipes` times towards its building, enters
      it, fights 400 (Acquire, Next Floor) cycles, makes 10 (Retreat,
      Acquire) attempts, retreats, closes the trial and swipes back. */
  lemma TrialLayout(buildingX: int, buildingY: int, numSwipes: nat, enterX: int, enterY: int)
    ensures var ev := TrialEvents(buildingX, buildingY, numSwipes, enterX, enterY);
      && |ev| == numSwipes + 835
      && (forall k | 0 <= k < numSwipes :: ev[k] == NextScreen)
      && ev[numSwipes..numSwipes + 9] == EntryEvents(buildingX, buildingY, enterX, enterY)
      && (forall k | 0 <= k < 800 :: ev[numSwipes + 9 + k] == if k % 2 == 0 then Acquire else NextFloor)
      && (forall k | 0 <= k < 20 :: ev[numSwipes + 809 + k] == if k % 2 == 0 then Retreat else Acquire)
      && ev[numSwipes + 829..numSwipes + 831] == [Retreat, Tap(1850, 60)]
      && ev[numSwipes + 831..] == SwipeBackEvents()
  {
    AttritionAlternates();
  }

  /** 831 taps; the swipes are the `numSwipes` forward ones and the four back. */
  lemma TrialCounts(buildingX: int, buildingY: int, numSwipes: nat, enterX: int, enterY: int)
    ensures TapCount(TrialEvents(buildingX, buildingY, numSwipes, enterX, enterY)) == 831
    ensures SwipeCount(TrialEvents(buildingX, buildingY, numSwipes, enterX, enterY)) == numSwipes + 4
  {
    var forward := Repeat([NextScreen], numSwipes);
    var entry := EntryEvents(buildingX, buildingY, enterX, enterY);
    var fight, retreats := AttritionEvents(), RetreatEvents();
    var close := [Retreat, Tap(1850, 60)];
    assert AllSwipes([NextScreen]);
    AllSwipesCount([NextScreen]);
    RepeatCounts([NextScreen], numSwipes);
    assert AllTaps(entry) && AllTaps(close);
    AllTapsCount(entry);
    AllTapsCount(close);
    AllTapsCount([Acquire, NextFloor]);
    RepeatNested([Acquire, NextFloor], CyclesPerRound, Rounds);
    RepeatCounts([Acquire, NextFloor], Rounds * CyclesPerRound);
    AllTapsCount([Retreat, Acquire]);
    RepeatCounts([Retreat, Acquire], RetreatAttempts);
    SwipeBackLayout();
    CountsAppend(forward, entry);
    CountsAppend(forward + entry, fight);
    CountsAppend(forward + entry + fight, retreats);
    CountsAppend(forward + entry + fight + retreats, close);
    CountsAppend(forward + entry + fight + retreats + close, SwipeBackEvents());
  }

  /** `enter_senior_ninja_trial`, main.py:393-394. */
  function SeniorNinjaTrialEvents(): seq<Event> {
    TrialEvents(300, 600, 2, 289, 275)
  }

  method EnterSeniorNinjaTrial(d: Device)
    requires d.Valid()
    modifies d
    ensures d.Valid() && d.sent == old(d.sent) + SeniorNinjaTrialEvents()
  {
    EnterTrial(d, 300, 600, 2, 289, 275);
  }

  /** `enter_god_shinobi_tower`, main.py:397-398. */
  function GodShinobiTowerEvents(): seq<Event> {
    TrialEvents(1490, 600, 3, 1500, 180)
  }

  method EnterGodShinobiTower(d: Device)
    requires d.Valid()
    modifies d
    ensures d.Valid() && d.sent == old(d.sent) + GodShinobiTowerEvents()
  {
    EnterTrial(d, 1490, 600, 3, 1500, 180);
  }
}
