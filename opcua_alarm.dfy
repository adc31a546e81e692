/**
 * The alarm subscriber's event handling: assembling the message dict of an
 * event, deciding whether to notify or log it, and choosing which phone-book
 * entries receive an SMS for an active alarm.
 */
module OpcuaAlarm {
  import opened Wrappers
  import opened PyStr
  import opened PyValue
  import opened PyDict

  // ---------------------------------------------------------------------
  // Times of day
  // ---------------------------------------------------------------------

  const MicrosPerMinute: nat := 60_000_000
  const MinutesPerDay: nat := 1440

  /** One or two ASCII digits. */
  predicate ShortNumber(s: string) {
    1 <= |s| <= 2 && AllDigits(s)
  }

  /**
   * datetime.strptime(s, '%H:%M').time() as minutes since midnight: an hour
   * of one or two digits up to 23, a colon, a minute of one or two digits
   * up to 59, and nothing after. None where strptime raises ValueError.
   */
  function ParseHHMM(s: string): (r: Option<nat>)
    ensures r.Some? ==> r.value < MinutesPerDay
  {
    var c := IndexOf(s, ':');
    if c == |s| then None
    else
      var hh := s[..c];
      var mm := s[c + 1..];
      if !ShortNumber(hh) || !ShortNumber(mm) then None
      else
        var h := DigitsValue(hh);
        var m := DigitsValue(mm);
        if h <= 23 && m <= 59 then Some(h * 60 + m) else None
  }

  /** strptime accepts exactly hour digits up to 23, the first colon, and minute digits up to 59. */
  lemma ParseHHMMAccepts(s: string)
    ensures ParseHHMM(s).Some? <==> var c := IndexOf(s, ':');
      c < |s| && ShortNumber(s[..c]) && ShortNumber(s[c + 1..]) &&
      DigitsValue(s[..c]) <= 23 && DigitsValue(s[c + 1..]) <= 59
  {
  }

  /** Two-digit zero-padded text of n < 100. */
  function Pad2(n: nat): (s: string)
    requires n < 100
    ensures ShortNumber(s) && |s| == 2 && DigitsValue(s) == n
  {
    var s := [DigitChar(n / 10), DigitChar(n % 10)];
    assert s[..1] == [s[0]] && [s[0]][..0] == [];
    assert DigitValue(s[0]) == n / 10 && DigitValue(s[1]) == n % 10;
    assert DigitsValue(s[..1]) == n / 10 by {
      assert DigitsValue(s[..1]) == 10 * DigitsValue(s[..1][..0]) + DigitValue(s[0]);
    }
    assert DigitsValue(s) == 10 * DigitsValue(s[..1]) + DigitValue(s[1]);
    s
  }

  /** The way times are written in the phone book ("HH:MM"). */
  function FormatHHMM(minutes: nat): (s: string)
    requires minutes < MinutesPerDay
    ensures |s| == 5 && s[2] == ':'
  {
    Pad2(minutes / 60) + ":" + Pad2(minutes % 60)
  }

  /** Every time written as "HH:MM" parses back to itself. */
  lemma ParseFormatHHMM(minutes: nat)
    requires minutes < MinutesPerDay
    ensures ParseHHMM(FormatHHMM(minutes)) == Some(minutes)
  {
    var s := FormatHHMM(minutes);
    var hh := Pad2(minutes / 60);
    assert s[..2] == hh && s[3..] == Pad2(minutes % 60);
    assert ':' !in s[..2] by {
      assert IsDigit(s[0]) && IsDigit(s[1]);
    }
    assert IndexOf(s, ':') == 2;
  }

  // ---------------------------------------------------------------------
  // user_notification
  // ---------------------------------------------------------------------

  /** An entry of an entry's `timeSettings`; None stands for a missing key. */
  datatype TimeSetting = TimeSetting(
    days: Option<seq<string>>,
    startTime: Option<string>,
    endTime: Option<string>,
    lowestSeverity: Value,
    highestSeverity: Value)

  /** A phone-book entry; a missing key reads as None (a missing list as []). */
  datatype User = User(active: Value, timeSettings: Option<seq<TimeSetting>>, phoneNumber: Value, name: Value)

  /** Today as the settings see it: the day name after DAY_TRANSLATION, and the time of day in microseconds. */
  datatype Clock = Clock(day: string, now: nat)

  /** A call send_sms(phone_number, message). */
  datatype Sms = Sms(phoneNumber: Value, text: string)

  const SmsPrefix := "Medelande från pumpstation: "
  const SmsSeverity := ", allvarlighetsgrad: "
  const TimeFormatError := "ValueError: time data does not match format '%H:%M'"
  const SeverityError := "int() raised on a severity bound"

  function SmsText(message: Value, severity: int): string {
    SmsPrefix + Str(message) + SmsSeverity + IntToString(severity)
  }

  predicate IsActive(u: User) {
    u.active == VStr("Yes")
  }

  /** Whether a setting selects the alarm: Ok(b) with b the decision, Raised where strptime or int() raises. */
  function SettingMatch(s: TimeSetting, clock: Clock, severity: int, truncate: FloatTruncation): (r: Result<bool>)
    ensures clock.day !in s.days.GetOr([]) ==> r == Ok(false)
  {
    if clock.day !in s.days.GetOr([]) then Ok(false)
    else
      var start := ParseHHMM(s.startTime.GetOr("00:00"));
      var end := ParseHHMM(s.endTime.GetOr("00:00"));
      if start.None? || end.None? then Raised(TimeFormatError)
      else if !(start.value * MicrosPerMinute <= clock.now <= end.value * MicrosPerMinute) then Ok(false)
      else
        var lo := IntOf(s.lowestSeverity, truncate);
        var hi := IntOf(s.highestSeverity, truncate);
        if lo.None? || hi.None? then Raised(SeverityError)
        else Ok(lo.value <= severity <= hi.value)
  }

  /**
   * A setting selects the alarm exactly when today is one of its days, now
   * lies in its window, both ends included (a missing end reads as 00:00),
   * and the severity lies in its band, both ends included.
   */
  lemma SettingSelects(s: TimeSetting, clock: Clock, severity: int, truncate: FloatTruncation)
    ensures SettingMatch(s, clock, severity, truncate) == Ok(true) <==>
      clock.day in s.days.GetOr([]) &&
      ParseHHMM(s.startTime.GetOr("00:00")).Some? && ParseHHMM(s.endTime.GetOr("00:00")).Some? &&
      ParseHHMM(s.startTime.GetOr("00:00")).value * MicrosPerMinute <= clock.now <= ParseHHMM(s.endTime.GetOr("00:00")).value * MicrosPerMinute &&
      IntOf(s.lowestSeverity, truncate).Some? && IntOf(s.highestSeverity, truncate).Some? &&
      IntOf(s.lowestSeverity, truncate).value <= severity <= IntOf(s.highestSeverity, truncate).value
  {
  }

  /** A setting raises only when today is one of its days and a time, or in the window a severity bound, cannot be read. */
  lemma SettingRaises(s: TimeSetting, clock: Clock, severity: int, truncate: FloatTruncation)
    ensures SettingMatch(s, clock, severity, truncate).Raised? <==>
      clock.day in s.days.GetOr([]) &&
      (ParseHHMM(s.startTime.GetOr("00:00")).None? || ParseHHMM(s.endTime.GetOr("00:00")).None? ||
       (ParseHHMM(s.startTime.GetOr("00:00")).value * MicrosPerMinute <= clock.now <= ParseHHMM(s.endTime.GetOr("00:00")).value * MicrosPerMinute &&
        (IntOf(s.lowestSeverity, truncate).None? || IntOf(s.highestSeverity, truncate).None?)))
  {
  }

  /** The SMS calls made so far, and whether an exception ended the loops. */
  datatype NotifyState = NotifyState(sent: seq<Sms>, raised: bool)

  /** The test the loop over settings applies to each one. */
  function Test(clock: Clock, severity: int, truncate: FloatTruncation): TimeSetting -> Result<bool> {
    (s: TimeSetting) => SettingMatch(s, clock, severity, truncate)
  }

  lemma TestApplies(s: TimeSetting, clock: Clock, severity: int, truncate: FloatTruncation)
    ensures Test(clock, severity, truncate)(s) == SettingMatch(s, clock, severity, truncate)
  {
  }

  /** One turn of the loop over settings, given what the test gave: stop, send sms, or go on. */
  function SettingStep(prev: NotifyState, sms: Sms, outcome: Result<bool>): NotifyState {
    match outcome
    case Raised(_) => prev.(raised := true)
    case Ok(hit) => if hit then prev.(sent := prev.sent + [sms]) else prev
  }

  /** A loop over settings that sends sms for each setting passing test and stops at the first exception. */
  function SettingsLoop(st: NotifyState, sms: Sms, settings: seq<TimeSetting>, test: TimeSetting -> Result<bool>): NotifyState {
    if settings == [] then st
    else
      var prev := SettingsLoop(st, sms, settings[..|settings| - 1], test);
      if prev.raised then prev else SettingStep(prev, sms, test(settings[|settings| - 1]))
  }

  /** The SMS an entry is sent. */
  function Sender(message: Value, severity: int): User -> Sms {
    (u: User) => Sms(u.phoneNumber, SmsText(message, severity))
  }

  /** A loop over a phone book that runs the loop over settings for each active entry and stops at the first exception. */
  function UsersLoop(users: seq<User>, sender: User -> Sms, test: TimeSetting -> Result<bool>): NotifyState {
    if users == [] then NotifyState([], false)
    else UserStep(UsersLoop(users[..|users| - 1], sender, test), users[|users| - 1], sender, test)
  }

  /** One turn of the loop over a phone book: an active entry runs the loop over its settings. */
  function UserStep(prev: NotifyState, u: User, sender: User -> Sms, test: TimeSetting -> Result<bool>): NotifyState {
    if prev.raised || !IsActive(u) then prev
    else SettingsLoop(prev, sender(u), u.timeSettings.GetOr([]), test)
  }

  /** The loop over one entry's settings. */
  function NotifySettings(st: NotifyState, u: User, settings: seq<TimeSetting>, clock: Clock, message: Value, severity: int, truncate: FloatTruncation): NotifyState {
    SettingsLoop(st, Sender(message, severity)(u), settings, Test(clock, severity, truncate))
  }

  /** The loop over the phone book. */
  function NotifyUsers(users: seq<User>, clock: Clock, message: Value, severity: int, truncate: FloatTruncation): NotifyState {
    UsersLoop(users, Sender(message, severity), Test(clock, severity, truncate))
  }

  /**
   * user_notification, given the day_translation table of the configuration,
   * the day name strftime('%A') gives and the time of day: a day name the
   * table lacks raises KeyError before the phone book is read; otherwise the
   * loop over the phone book runs with the translated name.
   */
  function Notification(users: seq<User>, dayTranslation: Dict<string, string>, weekday: string, now: nat,
                        message: Value, severity: int, truncate: FloatTruncation): NotifyState {
    match Get(dayTranslation, weekday)
    case None => NotifyState([], true)
    case Some(day) => NotifyUsers(users, Clock(day, now), message, severity, truncate)
  }

  lemma {:induction false} SettingsLoopRaisedSticks(st: NotifyState, sms: Sms, settings: seq<TimeSetting>, k: nat, test: TimeSetting -> Result<bool>)
    requires k <= |settings| && SettingsLoop(st, sms, settings[..k], test).raised
    ensures SettingsLoop(st, sms, settings, test) == SettingsLoop(st, sms, settings[..k], test)
    decreases |settings|
  {
    if k < |settings| {
      var init := settings[..|settings| - 1];
      assert init[..k] == settings[..k];
      SettingsLoopRaisedSticks(st, sms, init, k, test);
    } else {
      assert settings[..k] == settings;
    }
  }

  lemma {:induction false} UsersLoopRaisedSticks(users: seq<User>, k: nat, sender: User -> Sms, test: TimeSetting -> Result<bool>)
    requires k <= |users| && UsersLoop(users[..k], sender, test).raised
    ensures UsersLoop(users, sender, test) == UsersLoop(users[..k], sender, test)
    decreases |users|
  {
    if k < |users| {
      var init := users[..|users| - 1];
      assert init[..k] == users[..k];
      UsersLoopRaisedSticks(init, k, sender, test);
    } else {
      assert users[..k] == users;
    }
  }

  /** The body of the loop over settings, up to the send. */
  method MatchSetting(setting: TimeSetting, clock: Clock, severity: int, truncate: FloatTruncation) returns (r: Result<bool>)
    ensures r == SettingMatch(setting, clock, severity, truncate)
  {
    if clock.day !in setting.days.GetOr([]) {
      return Ok(false);
    }
    var startTime := ParseHHMM(setting.startTime.GetOr("00:00"));
    var endTime := ParseHHMM(setting.endTime.GetOr("00:00"));
    if startTime.None? || endTime.None? {
      return Raised(TimeFormatError);
    }
    if !(startTime.value * MicrosPerMinute <= clock.now <= endTime.value * MicrosPerMinute) {
      return Ok(false);
    }
    var lowestSeverity := IntOf(setting.lowestSeverity, truncate);
    var highestSeverity := IntOf(setting.highestSeverity, truncate);
    if lowestSeverity.None? || highestSeverity.None? {
      return Raised(SeverityError);
    }
    r := Ok(lowestSeverity.value <= severity <= highestSeverity.value);
  }

  /** The body of the loop over settings: the decision, then the send. */
  method NotifySetting(prev: NotifyState, sms: Sms, setting: TimeSetting, clock: Clock, severity: int, truncate: FloatTruncation)
    returns (next: NotifyState)
    ensures next == SettingStep(prev, sms, SettingMatch(setting, clock, severity, truncate))
  {
    var hit := MatchSetting(setting, clock, severity, truncate);
    next := prev;
    if hit.Raised? {
      next := next.(raised := true);
    } else if hit.value {
      next := next.(sent := next.sent + [sms]);
    }
  }

  /** The loop over one entry's settings, sending one SMS per matching setting. */
  method NotifyUser(st: NotifyState, u: User, clock: Clock, message: Value, severity: int, truncate: FloatTruncation)
    returns (next: NotifyState)
    requires !st.raised
    ensures next == NotifySettings(st, u, u.timeSettings.GetOr([]), clock, message, severity, truncate)
  {
    var settings := u.timeSettings.GetOr([]);
    var sms := Sender(message, severity)(u);
    ghost var test := Test(clock, severity, truncate);
    next := st;
    var j := 0;
    while j < |settings|
      invariant 0 <= j <= |settings|
      invariant next == SettingsLoop(st, sms, settings[..j], test) && !next.raised
    {
      assert settings[..j + 1][..j] == settings[..j];
      next := NotifySetting(next, sms, settings[j], clock, severity, truncate);
      TestApplies(settings[j], clock, severity, truncate);
      if next.raised {
        SettingsLoopRaisedSticks(st, sms, settings, j + 1, test);
        return;
      }
      j := j + 1;
    }
    assert settings[..j] == settings;
  }

  /** The body of the loop over the phone book: only an entry whose Active is 'Yes' is considered. */
  method NotifyEntry(st: NotifyState, u: User, clock: Clock, message: Value, severity: int, truncate: FloatTruncation)
    returns (next: NotifyState)
    requires !st.raised
    ensures next == UserStep(st, u, Sender(message, severity), Test(clock, severity, truncate))
  {
    if u.active == VStr("Yes") {
      next := NotifyUser(st, u, clock, message, severity, truncate);
    } else {
      next := st;
    }
  }

  /** user_notification(opcua_alarm_message, severity) over the phone book. */
  method UserNotification(phoneBook: seq<User>, dayTranslation: Dict<string, string>, weekday: string, now: nat,
                          message: Value, severity: int, truncate: FloatTruncation)
    returns (st: NotifyState)
    ensures st == Notification(phoneBook, dayTranslation, weekday, now, message, severity, truncate)
  {
    var currentDay := Get(dayTranslation, weekday);
    if currentDay.None? {
      return NotifyState([], true);
    }
    var clock := Clock(currentDay.value, now);
    ghost var sender, test := Sender(message, severity), Test(clock, severity, truncate);
    st := NotifyState([], false);
    var i := 0;
    while i < |phoneBook|
      invariant 0 <= i <= |phoneBook|
      invariant st == UsersLoop(phoneBook[..i], sender, test) && !st.raised
    {
      assert phoneBook[..i + 1][..i] == phoneBook[..i];
      st := NotifyEntry(st, phoneBook[i], clock, message, severity, truncate);
      if st.raised {
        UsersLoopRaisedSticks(phoneBook, i + 1, sender, test);
        return;
      }
      i := i + 1;
    }
    assert phoneBook[..i] == phoneBook;
  }

  /** A setting without a start or an end time covers only the instant 00:00:00.000000. */
  lemma DefaultWindowIsMidnight(s: TimeSetting, clock: Clock, severity: int, truncate: FloatTruncation)
    requires s.startTime.None? && s.endTime.None?
    ensures SettingMatch(s, clock, severity, truncate) == Ok(true) ==> clock.now == 0
  {
    ParseFormatHHMM(0);
    assert FormatHHMM(0) == "00:00";
    SettingSelects(s, clock, severity, truncate);
  }

  /** The sms calls a run of settings asks for, by an independent walk from the front. */
  function Picked(sms: Sms, settings: seq<TimeSetting>, test: TimeSetting -> Result<bool>): seq<Sms> {
    if settings == [] then []
    else (if test(settings[0]) == Ok(true) then [sms] else []) + Picked(sms, settings[1..], test)
  }

  lemma {:induction false} PickedAppend(sms: Sms, settings: seq<TimeSetting>, s: TimeSetting, test: TimeSetting -> Result<bool>)
    ensures Picked(sms, settings + [s], test) == Picked(sms, settings, test) + (if test(s) == Ok(true) then [sms] else [])
  {
    if settings == [] {
      assert settings + [s] == [s] && [s][1..] == [];
    } else {
      var t := settings + [s];
      assert t[0] == settings[0] && t[1..] == settings[1..] + [s];
      PickedAppend(sms, settings[1..], s, test);
    }
  }

  /** The sms calls one phone-book entry asks for: none unless it is active. */
  function EntryPicked(u: User, sender: User -> Sms, test: TimeSetting -> Result<bool>): seq<Sms> {
    if IsActive(u) then Picked(sender(u), u.timeSettings.GetOr([]), test) else []
  }

  /** The sms calls a phone book asks for, in phone-book then setting order, walking from the front. */
  function PickedAll(users: seq<User>, sender: User -> Sms, test: TimeSetting -> Result<bool>): seq<Sms> {
    if users == [] then [] else EntryPicked(users[0], sender, test) + PickedAll(users[1..], sender, test)
  }

  lemma {:induction false} PickedAllAppend(users: seq<User>, u: User, sender: User -> Sms, test: TimeSetting -> Result<bool>)
    ensures PickedAll(users + [u], sender, test) == PickedAll(users, sender, test) + EntryPicked(u, sender, test)
  {
    if users == [] {
      assert users + [u] == [u] && [u][1..] == [];
    } else {
      var t := users + [u];
      assert t[0] == users[0] && t[1..] == users[1..] + [u];
      PickedAllAppend(users[1..], u, sender, test);
      var x, r, y := EntryPicked(users[0], sender, test), PickedAll(users[1..], sender, test), EntryPicked(u, sender, test);
      assert x + (r + y) == (x + r) + y;
    }
  }

  /** The SMS calls one entry's settings call for. */
  function Wanted(u: User, settings: seq<TimeSetting>, clock: Clock, message: Value, severity: int, truncate: FloatTruncation): seq<Sms> {
    Picked(Sender(message, severity)(u), settings, Test(clock, severity, truncate))
  }

  /** The SMS calls the whole phone book calls for. */
  function WantedAll(users: seq<User>, clock: Clock, message: Value, severity: int, truncate: FloatTruncation): seq<Sms> {
    PickedAll(users, Sender(message, severity), Test(clock, severity, truncate))
  }

  /** Some setting of an active entry makes strptime or int() raise. */
  predicate Fails(users: seq<User>, clock: Clock, severity: int, truncate: FloatTruncation) {
    exists i, j :: 0 <= i < |users| && IsActive(users[i]) && 0 <= j < |users[i].timeSettings.GetOr([])| &&
      SettingMatch(users[i].timeSettings.GetOr([])[j], clock, severity, truncate).Raised?
  }

  /** A loop over settings ends in an exception iff some setting's test raises. */
  lemma {:induction false} SettingsLoopRaised(st: NotifyState, sms: Sms, settings: seq<TimeSetting>, test: TimeSetting -> Result<bool>)
    requires !st.raised
    ensures SettingsLoop(st, sms, settings, test).raised <==> exists j :: 0 <= j < |settings| && test(settings[j]).Raised?
  {
    if settings != [] {
      var init := settings[..|settings| - 1];
      SettingsLoopRaised(st, sms, init, test);
      if SettingsLoop(st, sms, init, test).raised {
        var j :| 0 <= j < |init| && test(init[j]).Raised?;
        assert settings[j] == init[j];
      } else if !test(settings[|settings| - 1]).Raised? {
        forall j | 0 <= j < |settings| ensures !test(settings[j]).Raised? {
          if j < |init| {
            assert settings[j] == init[j];
          }
        }
      }
    }
  }

  /** Unless an exception ends it, a loop over settings appends exactly the picked calls. */
  lemma {:induction false} SettingsLoopSent(st: NotifyState, sms: Sms, settings: seq<TimeSetting>, test: TimeSetting -> Result<bool>)
    requires !st.raised
    ensures var r := SettingsLoop(st, sms, settings, test);
      !r.raised ==> r.sent == st.sent + Picked(sms, settings, test)
  {
    if settings != [] {
      var init := settings[..|settings| - 1];
      SettingsLoopSent(st, sms, init, test);
      if !SettingsLoop(st, sms, init, test).raised {
        assert settings == init + [settings[|settings| - 1]];
        PickedAppend(sms, init, settings[|settings| - 1], test);
      }
    }
  }

  /** A loop over a phone book ends in an exception iff the test raises on some setting of an active entry. */
  lemma {:induction false} UsersLoopRaised(users: seq<User>, sender: User -> Sms, test: TimeSetting -> Result<bool>)
    ensures UsersLoop(users, sender, test).raised <==>
      exists i, j :: 0 <= i < |users| && IsActive(users[i]) && 0 <= j < |users[i].timeSettings.GetOr([])| &&
        test(users[i].timeSettings.GetOr([])[j]).Raised?
  {
    if users != [] {
      var init := users[..|users| - 1];
      var u := users[|users| - 1];
      UsersLoopRaised(init, sender, test);
      var prev := UsersLoop(init, sender, test);
      if !prev.raised && IsActive(u) {
        SettingsLoopRaised(prev, sender(u), u.timeSettings.GetOr([]), test);
      }
      assert forall i :: 0 <= i < |init| ==> init[i] == users[i];
      if UsersLoop(users, sender, test).raised && !prev.raised {
        var j :| 0 <= j < |u.timeSettings.GetOr([])| && test(u.timeSettings.GetOr([])[j]).Raised?;
        assert users[|init|] == u;
      }
      if !UsersLoop(users, sender, test).raised {
        forall i, j | 0 <= i < |users| && IsActive(users[i]) && 0 <= j < |users[i].timeSettings.GetOr([])|
          ensures !test(users[i].timeSettings.GetOr([])[j]).Raised?
        {
          if i < |init| {
            assert users[i] == init[i];
          }
        }
      }
    }
  }

  /** Unless an exception ends it, a loop over a phone book makes exactly the picked calls. */
  lemma {:induction false} UsersLoopSent(users: seq<User>, sender: User -> Sms, test: TimeSetting -> Result<bool>)
    ensures var r := UsersLoop(users, sender, test);
      !r.raised ==> r.sent == PickedAll(users, sender, test)
  {
    if users != [] {
      var init := users[..|users| - 1];
      var u := users[|users| - 1];
      UsersLoopSent(init, sender, test);
      assert users == init + [u];
      PickedAllAppend(init, u, sender, test);
      var prev := UsersLoop(init, sender, test);
      if !prev.raised && IsActive(u) {
        SettingsLoopSent(prev, sender(u), u.timeSettings.GetOr([]), test);
      }
    }
  }

  /** user_notification stops with an exception exactly when some setting of an active entry cannot be read. */
  lemma NotifyUsersRaised(users: seq<User>, clock: Clock, message: Value, severity: int, truncate: FloatTruncation)
    ensures NotifyUsers(users, clock, message, severity, truncate).raised <==> Fails(users, clock, severity, truncate)
  {
    UsersLoopRaised(users, Sender(message, severity), Test(clock, severity, truncate));
  }

  /**
   * Unless it stops with an exception, user_notification sends, in phone-book
   * order and then setting order, one SMS per setting of an active entry that
   * selects the alarm, and nothing else.
   */
  lemma NotifyUsersSent(users: seq<User>, clock: Clock, message: Value, severity: int, truncate: FloatTruncation)
    ensures var r := NotifyUsers(users, clock, message, severity, truncate);
      !r.raised ==> r.sent == WantedAll(users, clock, message, severity, truncate)
  {
    UsersLoopSent(users, Sender(message, severity), Test(clock, severity, truncate));
  }

  /**
   * user_notification stops with an exception exactly when today's name is
   * missing from the translation table, or some setting of an active entry
   * cannot be read.
   */
  lemma NotificationRaised(users: seq<User>, dayTranslation: Dict<string, string>, weekday: string, now: nat,
                           message: Value, severity: int, truncate: FloatTruncation)
    ensures Notification(users, dayTranslation, weekday, now, message, severity, truncate).raised <==>
      Get(dayTranslation, weekday).None? || Fails(users, Clock(Get(dayTranslation, weekday).value, now), severity, truncate)
  {
    if Get(dayTranslation, weekday).Some? {
      NotifyUsersRaised(users, Clock(Get(dayTranslation, weekday).value, now), message, severity, truncate);
    }
  }

  /** Unless it stops with an exception, user_notification sends the SMSes picked for the translated day name. */
  lemma NotificationSent(users: seq<User>, dayTranslation: Dict<string, string>, weekday: string, now: nat,
                         message: Value, severity: int, truncate: FloatTruncation)
    ensures var r := Notification(users, dayTranslation, weekday, now, message, severity, truncate);
      !r.raised ==> (Get(dayTranslation, weekday).Some? &&
        r.sent == WantedAll(users, Clock(Get(dayTranslation, weekday).value, now), message, severity, truncate))
  {
    if Get(dayTranslation, weekday).Some? {
      NotifyUsersSent(users, Clock(Get(dayTranslation, weekday).value, now), message, severity, truncate);
    }
  }

  // ---------------------------------------------------------------------
  // event_notification
  // ---------------------------------------------------------------------

  /**
   * An attribute of an event as the handler sees it: a plain value, an object
   * with a `Text` (a localized text), or a node id with or without an
   * `Identifier`.
   */
  datatype AttrValue = Plain(v: Value) | Localized(text: Value) | NodeRef(identifier: Option<Value>)

  /** The attributes an event object has, by name. */
  type Event = Dict<string, AttrValue>

  const SourceKey := "New event received from"
  const IdentifierKey := "Identifier"
  const AttributesToCheck: seq<string> := [
    "Message", "Time", "Severity", "SuppressedOrShelved",
    "AckedState", "ConditionClassId", "NodeId", "Quality", "Retain",
    "ActiveState", "EnabledState"]

  /** `value.Text` when the value has one. */
  function Unwrap(a: AttrValue): (r: AttrValue)
    ensures !r.Localized?
    ensures a.Localized? ==> r == Plain(a.text)
    ensures !a.Localized? ==> r == a
  {
    if a.Localized? then Plain(a.text) else a
  }

  /** The assignments opcua_alarm_message[attribute] = value made for the attributes the event has. */
  function AttrItems(event: Event, attrs: seq<string>): (items: seq<(string, AttrValue)>)
    ensures forall k :: 0 <= k < |items| ==> items[k].0 in attrs && Get(event, items[k].0).Some?
  {
    if attrs == [] then []
    else
      var items := AttrItems(event, attrs[..|attrs| - 1]);
      var a := attrs[|attrs| - 1];
      match Get(event, a)
      case None => items
      case Some(v) => items + [(a, Unwrap(v))]
  }

  /** The Identifier entry: str(event.NodeId.Identifier) when both exist. */
  function IdentifierText(event: Event): Option<string> {
    var node := Get(event, "NodeId");
    if node.Some? && node.value.NodeRef? && node.value.identifier.Some? then Some(Str(node.value.identifier.value)) else None
  }

  /** The message dict event_notification assembles. */
  function AlarmMessage(address: string, event: Event): Dict<string, AttrValue> {
    var msg := FromItems([(SourceKey, Plain(VStr(address)))], AttrItems(event, AttributesToCheck));
    match IdentifierText(event)
    case None => msg
    case Some(id) => Put(msg, IdentifierKey, Plain(VStr(id)))
  }

  /** The loop over the attributes and the Identifier entry. */
  method BuildAlarmMessage(address: string, event: Event) returns (msg: Dict<string, AttrValue>)
    ensures msg == AlarmMessage(address, event)
  {
    msg := [(SourceKey, Plain(VStr(address)))];
    var attrs := AttributesToCheck;
    var i := 0;
    while i < |attrs|
      invariant 0 <= i <= |attrs|
      invariant msg == FromItems([(SourceKey, Plain(VStr(address)))], AttrItems(event, attrs[..i]))
    {
      assert attrs[..i + 1][..i] == attrs[..i];
      var attribute := attrs[i];
      var value := Get(event, attribute);
      if value.Some? {
        msg := Put(msg, attribute, Unwrap(value.value));
      }
      i := i + 1;
    }
    assert attrs[..i] == attrs;
    var nodeId := Get(event, "NodeId");
    if nodeId.Some? && nodeId.value.NodeRef? && nodeId.value.identifier.Some? {
      msg := Put(msg, IdentifierKey, Plain(VStr(Str(nodeId.value.identifier.value))));
    }
  }

  /** The last assignment for an attribute in the list is the event's own, unwrapped. */
  lemma {:induction false} AttrItemsLast(event: Event, attrs: seq<string>, a: string)
    requires forall i, j :: 0 <= i < j < |attrs| ==> attrs[i] != attrs[j]
    ensures LastValue(AttrItems(event, attrs), a) == if a in attrs && Get(event, a).Some? then Some(Unwrap(Get(event, a).value)) else None
  {
    if attrs != [] {
      var init := attrs[..|attrs| - 1];
      var last := attrs[|attrs| - 1];
      assert init + [last] == attrs;
      AttrItemsLast(event, init, a);
      if a == last {
        forall i | 0 <= i < |init| ensures init[i] != a {
          assert init[i] == attrs[i];
        }
      } else {
        assert a in attrs <==> a in init;
      }
    }
  }

  lemma AttributesToCheckFacts()
    ensures forall i, j :: 0 <= i < j < |AttributesToCheck| ==> AttributesToCheck[i] != AttributesToCheck[j]
    ensures SourceKey !in AttributesToCheck && IdentifierKey !in AttributesToCheck
  {
  }

  /** The dict before the Identifier entry: the address, then the event's checked attributes. */
  lemma AttrMessageEntry(address: string, event: Event, k: string)
    ensures Get(FromItems([(SourceKey, Plain(VStr(address)))], AttrItems(event, AttributesToCheck)), k) ==
      if k in AttributesToCheck && Get(event, k).Some? then Some(Unwrap(Get(event, k).value))
      else if k == SourceKey then Some(Plain(VStr(address)))
      else None
  {
    AttributesToCheckFacts();
    AttrItemsLast(event, AttributesToCheck, k);
    GetFromItems([(SourceKey, Plain(VStr(address)))], AttrItems(event, AttributesToCheck), k);
  }

  /**
   * The message dict holds the sender's address, each checked attribute the
   * event has, with a localized text reduced to its text, and the node
   * identifier as text; nothing else.
   */
  lemma AlarmMessageEntries(address: string, event: Event, k: string)
    ensures Get(AlarmMessage(address, event), k) ==
      if k == IdentifierKey then (if IdentifierText(event).Some? then Some(Plain(VStr(IdentifierText(event).value))) else None)
      else if k in AttributesToCheck then (if Get(event, k).Some? then Some(Unwrap(Get(event, k).value)) else None)
      else if k == SourceKey then Some(Plain(VStr(address)))
      else None
  {
    AttributesToCheckFacts();
    AttrMessageEntry(address, event, k);
    var msg := FromItems([(SourceKey, Plain(VStr(address)))], AttrItems(event, AttributesToCheck));
    if IdentifierText(event).Some? {
      GetPut(msg, IdentifierKey, Plain(VStr(IdentifierText(event).value)), k);
    } else if k == IdentifierKey {
      AttrMessageEntry(address, event, IdentifierKey);
    }
  }

  /** What the handler does with an event. */
  datatype Action = NoAction | LogOnly(message: AttrValue) | Notify(message: AttrValue, severity: AttrValue)

  /**
   * The decision of event_notification: with SMS sending on, an active alarm
   * goes to user_notification with its message and severity; with it off an
   * active alarm's message is logged; an inactive one is ignored. A missing
   * key raises KeyError.
   */
  function EventAction(msg: Dict<string, AttrValue>, sendSms: bool): (r: Result<Action>)
    ensures r.Raised? <==> (Get(msg, "ActiveState").None? ||
      (Get(msg, "ActiveState") == Some(Plain(VStr("Active"))) && (Get(msg, "Message").None? || (sendSms && Get(msg, "Severity").None?))))
    ensures (r.Ok? && r.value != NoAction) <==> Get(msg, "ActiveState") == Some(Plain(VStr("Active"))) && Get(msg, "Message").Some? && (!sendSms || Get(msg, "Severity").Some?)
    ensures r.Ok? && r.value.Notify? ==> sendSms && r.value == Notify(Get(msg, "Message").value, Get(msg, "Severity").value)
    ensures r.Ok? && r.value.LogOnly? ==> !sendSms && r.value == LogOnly(Get(msg, "Message").value)
  {
    match Get(msg, "ActiveState")
    case None => Raised("KeyError: 'ActiveState'")
    case Some(active) =>
      if active != Plain(VStr("Active")) then Ok(NoAction)
      else
        match Get(msg, "Message")
        case None => Raised("KeyError: 'Message'")
        case Some(message) =>
          if !sendSms then Ok(LogOnly(message))
          else
            match Get(msg, "Severity")
            case None => Raised("KeyError: 'Severity'")
            case Some(severity) => Ok(Notify(message, severity))
  }

  /** An event whose ActiveState is anything but the text "Active" is neither sent nor logged. */
  lemma InactiveEventIgnored(address: string, event: Event, sendSms: bool)
    requires Get(event, "ActiveState").Some? && Unwrap(Get(event, "ActiveState").value) != Plain(VStr("Active"))
    ensures EventAction(AlarmMessage(address, event), sendSms) == Ok(NoAction)
  {
    AlarmMessageEntries(address, event, "ActiveState");
  }
}
