# NinjaHeroesMobileBot, modelled in Dafny

`main.py` drives the Ninja Heroes mobile game running in the BlueStacks
emulator. It finds the emulator among the lines printed by `adb devices`,
then plays a fixed script of "scenes":

1. close the opening pop-up
2. choose the server
3. close the announcements
4. collect money from twelve buildings on four screens, then swipe back
5. open every box of the daily-reward grid
6. play the Senior Ninja Trial, then the God Shinobi Tower

Each scene is a fixed list of `adb shell input tap|swipe` calls. Every
failed call is logged and swallowed.

The model records the input events the script sends, in order:

- `Events.dfy` defines the `Event` datatype (a tap, or a swipe with its
  duration) and the `Device` class. A `Device` stands for the adb channel.
  Its `Tap` and `Swipe` methods append to `sent`, the record of every event
  attempted. They record in `outcomes` whether the external tool accepted
  each one. Acceptance is decided by the class's `rejects` set.
- `ElapsedTime.dfy` covers the `HH:MM:SS` stamp of `format_elapsed_time`.
  Its partner is a parser, proved to invert the formatter.
- `DeviceId.dfy` covers `get_bluestacks_device_id`. It is a loop with an
  early return, proved against a specification of which lines select the
  emulator. Python's `in` on strings is proved equal to an independent
  definition of a substring occurrence.
- `RewardGrid.dfy` covers the integer-step reward grid. Row-by-row
  recursion is proved equal to a closed form, and every point is proved to
  lie inside the box.
- `Scenes.dfy` gives every scene twice: as a function listing its events,
  and as a method with the source's loops that sends them through a
  `Device`.
- `Bot.dfy` models `main`.

`main` runs `swipe_to_first_building_screen` right after collecting money
(main.py:415), and so does `BotEvents`.

No scene's contract mentions `rejects`, so what is sent never depends on
which calls failed. This is the source's catch-and-continue policy.

## Model

| member | source | states |
|---|---|---|
| Events.Device.Tap | main.py:46-55 | one tap is appended to the record whether or not the tool accepts it; its outcome is recorded beside it and nothing is raised |
| Events.Device.Swipe | main.py:57-67 | one swipe with the default 6000 ms duration is appended whether or not the tool accepts it; the outcome is recorded and nothing is raised |
| Events.RepeatNested | main.py:352-361 | a loop of `n` rounds whose body is a loop of `m` rounds emitting a block emits the block `n*m` times |
| Events.RepeatCounts | main.py:101-104 | `n` repetitions of a block hold `n` times its taps and `n` times its swipes |
| ElapsedTime.Split | main.py:7-8 | the two `divmod`s give minutes and seconds below 60 and lose no second: `3600*h + 60*m + s` is the elapsed time |
| ElapsedTime.SplitUnique | main.py:7-8 | the split is the only one with minutes and seconds below 60 that adds up to the elapsed time |
| ElapsedTime.Decimal | main.py:9 | `str(n)` is all digits, one digit long exactly when `n < 10`, and starts with `0` only for `n = 0` |
| ElapsedTime.Pad2 | main.py:9 | `{:02}` gives at least two digits, exactly two below 100; it has a leading `0` exactly when `n < 10`, and from 10 on it is `str(n)` |
| ElapsedTime.DecimalRoundTrip | main.py:9 | reading back the decimal digits of `n` gives `n` |
| ElapsedTime.Pad2RoundTrip | main.py:9 | reading back a zero-padded field gives its value |
| ElapsedTime.FormatElapsed | main.py:5-9 | the stamp is at least 8 characters long, with colons at the third and sixth places from the end |
| ElapsedTime.FormatRoundTrip | main.py:5-9 | splitting the stamp at its colons recovers the hours, minutes and seconds, whose total is the elapsed time |
| ElapsedTime.FormatInjective | main.py:5-9 | different elapsed times give different stamps, even past 99 hours |
| ElapsedTime.FormatExample | main.py:5-9 | 3661 seconds are shown as `01:01:01` |
| DeviceId.Contains | main.py:27 | Python's `sub in s`, computed position by position, holds exactly when `sub` occurs at some index of `s` (the empty pattern included) |
| DeviceId.IsBlueStacksLine | main.py:27 | a line passes the test exactly when both `localhost:5555` and `device` occur in it |
| DeviceId.MissingChar | main.py:27 | a line lacking one character of the pattern does not contain it |
| DeviceId.GetBlueStacksDeviceId | main.py:19-30 | the scan returns `localhost:5555` if some line contains both `localhost:5555` and `device`, and nothing otherwise |
| DeviceId.ResolveMeaning | main.py:26-30 | the device is found iff one single line has both substrings somewhere; the only other answer is none |
| DeviceId.ResolveIgnoresOrder | main.py:26-30 | two line lists holding the same lines, in any order and any number of times, give the same answer |
| DeviceId.NotFoundWhenEveryLineLacksAChar | main.py:26-30 | if every line lacks some character of the endpoint or of `device`, the emulator is not found |
| DeviceId.SplitAcrossLinesIsNotFound | main.py:26-30 | an offline `localhost:5555` line plus another line saying `device` is not a match |
| DeviceId.ConnectedLineIsFound | main.py:26-30 | `localhost:5555\tdevice` after the header line is found |
| DeviceId.LongerPortAlsoMatches | main.py:27-28 | a line for port `55550` also matches, because the test is a substring test |
| RewardGrid.Step | main.py:209-210 | `(end - start) // (n - 1)` is the floor: `(n-1)·step <= end - start < (n-1)·step + (n-1)` for `n >= 2`, and `start - end` for `n = 0` |
| RewardGrid.Point | main.py:238-239 | the tap for box (`row`, `col`) of the grid lies inside the rectangle |
| RewardGrid.Row | main.py:237-242 | one pass of the inner loop emits one tap per column |
| RewardGrid.Rows | main.py:236-242 | `n` passes of the outer loop emit `n*cols` taps |
| RewardGrid.RowMajor | main.py:236-241 | tap `k` is the box in row `k / cols` and column `k % cols`, so boxes are visited row by row |
| RewardGrid.StepFits | main.py:209-210 | the floored step is non-negative, keeps every box inside `[start, end]`, and the last box falls short of `end` by less than `n - 1` |
| RewardGrid.PointsInBox | main.py:200-242 | every tap of the grid lies inside the rectangle |
| Scenes.ClickCloseButton | main.py:70-79 | sends exactly one tap at (906, 868) |
| Scenes.ChooseServer | main.py:81-119 | sends the scene's events through the channel with the source's loop |
| Scenes.ChooseServerLayout | main.py:81-119 | tap (1000, 800), six upward scrolls, then the server (985, 487) and Play (1000, 970): 3 taps and 6 swipes |
| Scenes.CloseAnnouncementsAndEvents | main.py:121-139 | taps the two close buttons (1520, 167) and (1480, 85) in that order |
| Scenes.CollectMoneyFromBuildings | main.py:141-169 | sends the scene's events with the source's nested loop |
| Scenes.ScreensBeforeLast | main.py:160-169 | each screen before the last is its three building taps followed by one forward swipe |
| Scenes.CollectMoneyLayout | main.py:141-169 | 15 events: event `k` is a forward swipe when `k mod 4 = 3`, else the tap on building `k mod 4`; no swipe after the fourth screen |
| Scenes.CollectMoneyCounts | main.py:141-169 | 12 taps and 3 swipes |
| Scenes.SwipeToFirstBuildingScreen | main.py:171-186 | sends four backward swipes with the source's loop |
| Scenes.SwipeBackLayout | main.py:171-186 | four swipes, each the reverse of the forward swipe; one more than the forward swipes made while collecting |
| Scenes.CollectDailyReward | main.py:188-257 | sends the scene's events; the day counter labels the 28 boxes 1..28 in row-major order and ends at 29; box `k` is tapped at (530 + 160·(k mod 7), 380 + 156·(k div 7)) |
| Scenes.DailyRewardLayout | main.py:188-257 | 33 taps: the two opening buttons, the 28 boxes 160 px and 156 px apart in row-major order, then OK and the two close buttons |
| Scenes.DailyRewardCounts | main.py:188-257 | 33 taps and no swipe |
| Scenes.StartTrial | main.py:304-346 | the nine taps that enter, quit, re-enter and start a trial and tap the Speed button |
| Scenes.EnterTrial | main.py:260-390 | sends a trial's events with the source's three loops and ends by swiping back to the first screen |
| Scenes.AttritionAlternates | main.py:352-361 | the 40 × 10 loop makes 800 taps, alternating Acquire (1730, 920) and Next Floor (600, 1030), Acquire first |
| Scenes.TrialLayout | main.py:260-390 | `numSwipes` forward swipes, the nine entry taps, 800 alternating taps, 10 (Retreat, Acquire) pairs, Retreat and Close (1850, 60), then the four swipes back |
| Scenes.TrialCounts | main.py:260-390 | 831 taps and `numSwipes + 4` swipes |
| Scenes.EnterSeniorNinjaTrial | main.py:393-394 | the trial at building (300, 600), two swipes away, entered at (289, 275) |
| Scenes.EnterGodShinobiTower | main.py:397-398 | the trial at building (1490, 600), three swipes away, entered at (1500, 180) |
| Bot.RunBot | main.py:402-420 | returns the resolved device; without one nothing is sent, with one exactly the whole session is sent, whatever the tool rejects |
| Bot.NoDeviceNoEvents | main.py:404-420 | the trace is empty iff no device was found; otherwise it is the whole session |
| Bot.BotLayout | main.py:407-417 | the session is 1739 events: each scene starts where the previous one ends, in the source's order |
| Bot.BotCounts | main.py:407-417 | a session makes 1713 taps and 26 swipes, and every one of its events is one or the other |

## Left out

- `connect_adb` (main.py:32-44) runs `adb connect localhost:5555`, which is what makes the emulator show up in the later `adb devices` listing, and logs one of three messages. It is not modelled: the model takes the later `adb devices` lines as its input.
- Running `adb` is not modelled: the command strings, the subprocess, and `check=True`. Whether a tap or swipe fails is a parameter of the `Device`, the `rejects` set.
- `time.sleep` calls are not modelled. That includes the one-second pause `adb_swipe` makes only after a swipe succeeds.
- Log and `print` text is not modelled. Neither is the global `start_time`.
- ElapsedTime.FormatElapsed: takes whole elapsed seconds as a natural number. The source reads the clock as a float and truncates each field with `int()`, which gives the same fields for the whole-second part of a non-negative time.
- DeviceId.GetBlueStacksDeviceId: takes the already split lines of `adb devices`. `str.splitlines` is not modelled.
- DeviceId.GetBlueStacksDeviceId: running `adb devices` (main.py:23) has no `try`, so if `adb` cannot be started the exception ends `main` with a traceback. That path is not modelled. No input event has been sent at that point either.
- Events.Device.Tap: the device serial passed to `adb -s` is not recorded per event, because it is the same `localhost:5555` throughout a run.
- RewardGrid.Step: a row or column count of 1 would divide by zero in Python. The model excludes it with `Divisible`, and the daily-reward grid does not have one.
- Scenes.StartTrial: a helper split out of `enter_trial`. It has no function of its own in the source.
