/** `main` (main.py:402-420): find the emulator, then run the scenes in a
    fixed order, each one after the previous has returned. */
module Bot {
  import opened Wrappers
  import opened Events
  import opened DeviceId
  import opened Scenes

  /** Every event of one full session, scene after scene. */
  function BotEvents(): seq<Event> {
    CloseButtonEvents() + ChooseServerEvents() + CloseAnnouncementsEvents()
    + CollectMoneyEvents() + SwipeBackEvents() + DailyRewardEvents()
    + SeniorNinjaTrialEvents() + GodShinobiTowerEvents()
  }

  /** What `main` sends given the lines `adb devices` printed: everything when
      the emulator is found, nothing otherwise. */
  function BotTrace(adbDevicesLines: seq<string>): seq<Event> {
    if ResolveDevice(adbDevicesLines).Some? then BotEvents() else []
  }

  /** Scene traces appended one after another to a channel's history are
      the history followed by their concatenation. */
  lemma AppendScenes(s: seq<Event>, a: seq<Event>, b: seq<Event>, c: seq<Event>, e: seq<Event>,
                     f: seq<Event>, g: seq<Event>, h: seq<Event>, i: seq<Event>)
    ensures s + a + b + c + e + f + g + h + i == s + (a + b + c + e + f + g + h + i)
  {
  }

  method RunBot(d: Device, adbDevicesLines: seq<string>) returns (id: Option<string>)
    requires d.Valid()
    modifies d
    ensures d.Valid()
    ensures id == ResolveDevice(adbDevicesLines)
    ensures d.sent == old(d.sent) + BotTrace(adbDevicesLines)
  {
    id := GetBlueStacksDeviceId(adbDevicesLines);
    if id.Some? {
      ClickCloseButton(d);
      ChooseServer(d);
      CloseAnnouncementsAndEvents(d);
      CollectMoneyFromBuildings(d);
      SwipeToFirstBuildingScreen(d);
      var _, _ := CollectDailyReward(d);
      EnterSeniorNinjaTrial(d);
      EnterGodShinobiTower(d);
      AppendScenes(old(d.sent), CloseButtonEvents(), ChooseServerEvents(), CloseAnnouncementsEvents(),
                   CollectMoneyEvents(), SwipeBackEvents(), DailyRewardEvents(),
                   SeniorNinjaTrialEvents(), GodShinobiTowerEvents());
    }
  }

  /** Without an emulator `main` sends nothing; with one it always sends the
      whole session. */
  lemma NoDeviceNoEvents(adbDevicesLines: seq<string>)
    ensures BotTrace(adbDevicesLines) == [] <==> ResolveDevice(adbDevicesLines) == None
    ensures ResolveDevice(adbDevicesLines) != None ==> BotTrace(adbDevicesLines) == BotEvents()
  {
    SessionNotEmpty();
  }

  lemma SessionNotEmpty()
    ensures |BotEvents()| > 0
  {
    assert BotEvents()[0] == CloseButtonEvents()[0];
  }

  /** The scenes follow one another in the order of main.py:407-417, each
      starting where the previous one ended. */
  lemma BotLayout()
    ensures var ev := BotEvents();
      && |ev| == 1739
      && ev[..1] == CloseButtonEvents()
      && ev[1..10] == ChooseServerEvents()
      && ev[10..12] == CloseAnnouncementsEvents()
      && ev[12..27] == CollectMoneyEvents()
      && ev[27..31] == SwipeBackEvents()
      && ev[31..64] == DailyRewardEvents()
      && ev[64..901] == SeniorNinjaTrialEvents()
      && ev[901..] == GodShinobiTowerEvents()
  {
    ChooseServerLayout();
    CollectMoneyLayout();
    SwipeBackLayout();
    DailyRewardLayout();
    TrialLayout(300, 600, 2, 289, 275);
    TrialLayout(1490, 600, 3, 1500, 180);
    SceneSlices(CloseButtonEvents(), ChooseServerEvents(), CloseAnnouncementsEvents(),
                CollectMoneyEvents(), SwipeBackEvents(), DailyRewardEvents(),
                SeniorNinjaTrialEvents(), GodShinobiTowerEvents());
  }

  /** Each part of a concatenation is found at the sum of the lengths before it. */
  lemma SceneSlices(a: seq<Event>, b: seq<Event>, c: seq<Event>, e: seq<Event>,
                    f: seq<Event>, g: seq<Event>, h: seq<Event>, i: seq<Event>)
    ensures var ev := a + b + c + e + f + g + h + i;
      var n1, n2, n3 := |a|, |a| + |b|, |a| + |b| + |c|;
      var n4 := n3 + |e|;
      var n5 := n4 + |f|;
      var n6 := n5 + |g|;
      var n7 := n6 + |h|;
      && |ev| == n7 + |i|
      && ev[..n1] == a && ev[n1..n2] == b && ev[n2..n3] == c && ev[n3..n4] == e
      && ev[n4..n5] == f && ev[n5..n6] == g && ev[n6..n7] == h && ev[n7..] == i
  {
  }

  /** A whole session taps 1713 times and swipes 26 times: 6 to scroll the
      server list, 3 forward and 4 back among the buildings, and 2 + 4 and
      3 + 4 in the two trials. */
  lemma BotCounts()
    ensures TapCount(BotEvents()) == 1713 && SwipeCount(BotEvents()) == 26
    ensures |BotEvents()| == TapCount(BotEvents()) + SwipeCount(BotEvents())
  {
    CountsPartition(BotEvents());
    SceneCounts();
    ConcatCounts(CloseButtonEvents(), ChooseServerEvents(), CloseAnnouncementsEvents(),
                 CollectMoneyEvents(), SwipeBackEvents(), DailyRewardEvents(),
                 SeniorNinjaTrialEvents(), GodShinobiTowerEvents());
  }

  /** Taps and swipes of each scene. */
  lemma SceneCounts()
    ensures TapCount(CloseButtonEvents()) == 1 && SwipeCount(CloseButtonEvents()) == 0
    ensures TapCount(ChooseServerEvents()) == 3 && SwipeCount(ChooseServerEvents()) == 6
    ensures TapCount(CloseAnnouncementsEvents()) == 2 && SwipeCount(CloseAnnouncementsEvents()) == 0
    ensures TapCount(CollectMoneyEvents()) == 12 && SwipeCount(CollectMoneyEvents()) == 3
    ensures TapCount(SwipeBackEvents()) == 0 && SwipeCount(SwipeBackEvents()) == 4
    ensures TapCount(DailyRewardEvents()) == 33 && SwipeCount(DailyRewardEvents()) == 0
    ensures TapCount(SeniorNinjaTrialEvents()) == 831 && SwipeCount(SeniorNinjaTrialEvents()) == 6
    ensures TapCount(GodShinobiTowerEvents()) == 831 && SwipeCount(GodShinobiTowerEvents()) == 7
  {
    assert AllTaps(CloseButtonEvents()) && AllTaps(CloseAnnouncementsEvents());
    AllTapsCount(CloseButtonEvents());
    AllTapsCount(CloseAnnouncementsEvents());
    ChooseServerLayout();
    CollectMoneyCounts();
    SwipeBackLayout();
    DailyRewardCounts();
    TrialCounts(300, 600, 2, 289, 275);
    TrialCounts(1490, 600, 3, 1500, 180);
  }

  /** Taps and swipes of a concatenation of eight scenes add up. */
  lemma ConcatCounts(a: seq<Event>, b: seq<Event>, c: seq<Event>, e: seq<Event>,
                     f: seq<Event>, g: seq<Event>, h: seq<Event>, i: seq<Event>)
    ensures TapCount(a + b + c + e + f + g + h + i)
            == TapCount(a) + TapCount(b) + TapCount(c) + TapCount(e)
               + TapCount(f) + TapCount(g) + TapCount(h) + TapCount(i)
    ensures SwipeCount(a + b + c + e + f + g + h + i)
            == SwipeCount(a) + SwipeCount(b) + SwipeCount(c) + SwipeCount(e)
               + SwipeCount(f) + SwipeCount(g) + SwipeCount(h) + SwipeCount(i)
  {
    CountsAppend(a, b);
    CountsAppend(a + b, c);
    CountsAppend(a + b + c, e);
    CountsAppend(a + b + c + e, f);
    CountsAppend(a + b + c + e + f, g);
    CountsAppend(a + b + c + e + f + g, h);
    CountsAppend(a + b + c + e + f + g + h, i);
  }
}
