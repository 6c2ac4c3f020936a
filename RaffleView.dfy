/**
 * What a raffle looks like in the chat: its id, the callback data of its join
 * button, the button's text, the announcement text with the countdown, and the
 * remaining time shown by each refresh. Each rendering comes with a reader, and
 * the lemmas show that the reader gets back what was rendered: nothing shown is
 * ambiguous.
 */
module RaffleView {
  import opened Wrappers
  import opened Decimal
  import opened Text

  /** `f"{chat_id}_{message_id}"`: one raffle per announcing message. */
  function RaffleId(chatId: int, messageId: int): string {
    IntToString(chatId) + "_" + IntToString(messageId)
  }

  function ReadRaffleId(id: string): Option<(int, int)> {
    match SplitOnce(id, '_')
    case None => None
    case Some(parts) =>
      match (ReadInt(parts.0), ReadInt(parts.1))
      case (Some(c), Some(m)) => Some((c, m))
      case _ => None
  }

  lemma RaffleIdReadsBack(chatId: int, messageId: int)
    ensures ReadRaffleId(RaffleId(chatId, messageId)) == Some((chatId, messageId))
  {
    SplitOnceJoined(IntToString(chatId), '_', IntToString(messageId));
    IntToStringReadsBack(chatId);
    IntToStringReadsBack(messageId);
  }

  /** Two announcing messages never share a raffle id, even with negative chat ids. */
  lemma RaffleIdInjective(chat1: int, message1: int, chat2: int, message2: int)
    requires RaffleId(chat1, message1) == RaffleId(chat2, message2)
    ensures chat1 == chat2 && message1 == message2
  {
    RaffleIdReadsBack(chat1, message1);
    RaffleIdReadsBack(chat2, message2);
  }

  const WantPrefix: string := "want_"

  /** The join button's `callback_data`. */
  function CallbackData(raffleId: string): string {
    WantPrefix + raffleId
  }

  /**
   * `handle_callback`'s reading of the callback data: data that starts with "want_"
   * names the raffle after its first underscore; any other data is no join.
   */
  function WantedRaffle(data: string): Option<string> {
    if !StartsWith(data, WantPrefix) then None
    else
      match SplitOnce(data, '_')
      case None => None
      case Some(parts) => Some(parts.1)
  }

  /**
   * The button of raffle `id` names exactly raffle `id`, whatever underscores the id
   * holds, and only such a button does.
   */
  lemma WantedRaffleIff(data: string, id: string)
    ensures WantedRaffle(data) == Some(id) <==> data == CallbackData(id)
  {
    assert WantPrefix == "want" + ['_'];
    SplitOnceJoined("want", '_', id);
    if StartsWith(data, WantPrefix) {
      assert data == "want" + ['_'] + data[5..];
      SplitOnceJoined("want", '_', data[5..]);
    }
  }

  /** `format_time_remaining(seconds)`. */
  function FormatTimeRemaining(seconds: int): string {
    if seconds <= 0 then "0с"
    else
      var minutes := seconds / 60;
      var secs := seconds % 60;
      if minutes > 0 then NatToString(minutes) + "м " + NatToString(secs) + "с"
      else NatToString(secs) + "с"
  }

  /**
   * Reads a countdown: "{s}с" with s < 60, or "{m}м {s}с" with m > 0 and s < 60;
   * anything else is not a countdown.
   */
  function ReadTimeRemaining(t: string): Option<nat> {
    if t == [] || t[|t| - 1] != 'с' then None
    else
      var body := t[..|t| - 1];
      match SplitOnce(body, 'м')
      case None =>
        if body != [] && AllDigits(body) && DigitsValue(body) < 60 then Some(DigitsValue(body)) else None
      case Some(parts) =>
        var m, rest := parts.0, parts.1;
        if m != [] && AllDigits(m) && DigitsValue(m) > 0 && |rest| > 1 && rest[0] == ' '
          && AllDigits(rest[1..]) && DigitsValue(rest[1..]) < 60
        then Some(DigitsValue(m) * 60 + DigitsValue(rest[1..]))
        else None
  }

  /**
   * The countdown shows exactly the remaining seconds, and "0с" once none remain:
   * one minute or more as minutes and seconds below 60, less as seconds alone.
   */
  lemma TimeRemainingReadsBack(seconds: int)
    ensures ReadTimeRemaining(FormatTimeRemaining(seconds)) == Some(if seconds <= 0 then 0 else seconds)
  {
    if seconds <= 0 {
      ZeroReadsBack();
    } else if seconds / 60 > 0 {
      MinutesReadBack(seconds);
    } else {
      SecondsReadBack(seconds);
    }
  }

  lemma ZeroReadsBack()
    ensures ReadTimeRemaining("0с") == Some(0)
  {
    var t := "0с";
    assert t[..|t| - 1] == "0";
    assert SplitOnce("0", 'м') == None;
    assert DigitsValue("0") == 0;
  }

  lemma SecondsReadBack(seconds: int)
    requires 0 < seconds < 60
    ensures ReadTimeRemaining(NatToString(seconds) + "с") == Some(seconds)
  {
    var t := NatToString(seconds) + "с";
    assert t[..|t| - 1] == NatToString(seconds);
    assert 'м' !in NatToString(seconds);
    NatToStringValue(seconds);
  }

  lemma MinutesReadBack(seconds: int)
    requires seconds >= 60
    ensures ReadTimeRemaining(NatToString(seconds / 60) + "м " + NatToString(seconds % 60) + "с") == Some(seconds)
  {
    var m, s := NatToString(seconds / 60), NatToString(seconds % 60);
    var t := m + "м " + s + "с";
    assert t[..|t| - 1] == m + ['м'] + (" " + s);
    assert 'м' !in m;
    SplitOnceJoined(m, 'м', " " + s);
    assert (" " + s)[1..] == s;
    NatToStringValue(seconds / 60);
    NatToStringValue(seconds % 60);
    assert (seconds / 60) * 60 + seconds % 60 == seconds;
  }

  const JoinLabel: string := "🙋 Я хочу!"

  /** The join button's text, with the participant count once somebody has joined. */
  function ButtonText(participantsCount: int): string {
    if participantsCount > 0 then JoinLabel + " (" + IntToString(participantsCount) + ")"
    else JoinLabel
  }

  function ReadButtonCount(t: string): Option<int> {
    if t == JoinLabel then Some(0)
    else if StartsWith(t, JoinLabel + " (") && |t| > |JoinLabel| + 2 && t[|t| - 1] == ')' then
      match ReadInt(t[|JoinLabel| + 2..|t| - 1])
      case Some(n) => if n > 0 then Some(n) else None
      case None => None
    else None
  }

  /** The button shows the participant count, and no count before the first join. */
  lemma ButtonCountReadsBack(participantsCount: int)
    ensures ReadButtonCount(ButtonText(participantsCount)) == Some(if participantsCount > 0 then participantsCount else 0)
  {
    if participantsCount > 0 {
      var t := ButtonText(participantsCount);
      assert |t| > |JoinLabel|;
      assert t[|JoinLabel| + 2..|t| - 1] == IntToString(participantsCount);
      IntToStringReadsBack(participantsCount);
    }
  }

  const PlaceLabel: string := "🎰 Розыгрыш места №"
  const TimeLabel: string := "⏱ Осталось: "
  const CountLabel: string := "👥 Участников: "
  const CallToAction: string := "\n🎯 Нажми кнопку, чтобы участвовать!"

  /** One line of the message: a caption, its value and the line break. */
  function Line(caption: string, value: string): string {
    caption + value + "\n"
  }

  /**
   * `format_raffle_message(place_number, total_seconds, participants_count)`: the
   * place, countdown and participant lines, then a blank line and the call to action.
   */
  function FormatRaffleMessage(placeNumber: int, totalSeconds: int, participantsCount: int): string {
    Line(PlaceLabel, IntToString(placeNumber))
    + (Line(TimeLabel, FormatTimeRemaining(totalSeconds))
       + (Line(CountLabel, IntToString(participantsCount)) + CallToAction))
  }

  /** Drops `prefix` from `s` and splits what follows once at `sep`. */
  function After(s: string, prefix: string, sep: char): Option<(string, string)> {
    if StartsWith(s, prefix) then SplitOnce(s[|prefix|..], sep) else None
  }

  lemma AfterJoined(prefix: string, a: string, sep: char, b: string)
    requires sep !in a
    ensures After(prefix + a + [sep] + b, prefix, sep) == Some((a, b))
  {
    var s := prefix + a + [sep] + b;
    assert s[..|prefix|] == prefix;
    assert s[|prefix|..] == a + [sep] + b;
    SplitOnceJoined(a, sep, b);
  }

  /** A line whose value has no line break reads back as that value, followed by the rest. */
  lemma AfterLine(caption: string, value: string, rest: string)
    requires '\n' !in value
    ensures After(Line(caption, value) + rest, caption, '\n') == Some((value, rest))
  {
    assert Line(caption, value) + rest == caption + value + ['\n'] + rest;
    AfterJoined(caption, value, '\n', rest);
  }

  /** Reads the place number, the seconds shown and the participant count off a message. */
  function ReadRaffleMessage(msg: string): Option<(int, nat, int)> {
    match After(msg, PlaceLabel, '\n')
    case None => None
    case Some(line1) =>
      match After(line1.1, TimeLabel, '\n')
      case None => None
      case Some(line2) =>
        match After(line2.1, CountLabel, '\n')
        case None => None
        case Some(line3) =>
          match (ReadInt(line1.0), ReadTimeRemaining(line2.0), ReadInt(line3.0))
          case (Some(place), Some(seconds), Some(count)) =>
            if line3.1 == CallToAction then Some((place, seconds, count)) else None
          case _ => None
  }

  lemma NoNewlineInCountdown(seconds: int)
    ensures '\n' !in FormatTimeRemaining(seconds)
  {
    var t := FormatTimeRemaining(seconds);
    assert forall i :: 0 <= i < |t| ==> IsDigit(t[i]) || t[i] in "м с";
  }

  /** The announcement shows the place number, the countdown and the participant count. */
  lemma RaffleMessageReadsBack(placeNumber: int, totalSeconds: int, participantsCount: int)
    ensures ReadRaffleMessage(FormatRaffleMessage(placeNumber, totalSeconds, participantsCount))
            == Some((placeNumber, if totalSeconds <= 0 then 0 else totalSeconds, participantsCount))
  {
    var p, t, c := IntToString(placeNumber), FormatTimeRemaining(totalSeconds), IntToString(participantsCount);
    var rest2 := Line(CountLabel, c) + CallToAction;
    var rest1 := Line(TimeLabel, t) + rest2;
    NoNewlineInCountdown(totalSeconds);
    AfterLine(PlaceLabel, p, rest1);
    AfterLine(TimeLabel, t, rest2);
    AfterLine(CountLabel, c, CallToAction);
    IntToStringReadsBack(placeNumber);
    IntToStringReadsBack(participantsCount);
    TimeRemainingReadsBack(totalSeconds);
  }

  /** What the bot puts on screen for a raffle: the message text and its single button. */
  datatype Announcement = Announcement(text: string, buttonText: string, callbackData: string)

  function Render(raffleId: string, placeNumber: int, seconds: int, participantsCount: int): Announcement {
    Announcement(FormatRaffleMessage(placeNumber, seconds, participantsCount),
                 ButtonText(participantsCount), CallbackData(raffleId))
  }

  /** Python's `int(x)` on a float: truncation toward zero. */
  function Truncate(x: real): (r: int)
    ensures x >= 0.0 ==> 0 <= r && r as real <= x < r as real + 1.0
    ensures x < 0.0 ==> r <= 0 && r as real - 1.0 < x <= r as real
  {
    if x >= 0.0 then x.Floor else -((-x).Floor)
  }

  /** `max(0, int(RAFFLE_TIMER_SECONDS - elapsed))`. */
  function Remaining(timerSeconds: int, elapsed: real): (r: int)
    ensures r >= 0
    ensures r > 0 <==> Truncate(timerSeconds as real - elapsed) > 0
  {
    var t := Truncate(timerSeconds as real - elapsed);
    if t > 0 then t else 0
  }

  /** Once the raffle has started, the countdown lies between 0 and the full timer. */
  lemma RemainingBounds(timerSeconds: int, elapsed: real)
    requires timerSeconds >= 0 && elapsed >= 0.0
    ensures 0 <= Remaining(timerSeconds, elapsed) <= timerSeconds
    ensures elapsed == 0.0 ==> Remaining(timerSeconds, elapsed) == timerSeconds
  {
    var x := timerSeconds as real - elapsed;
    if x >= 0.0 {
      assert x.Floor as real <= x;
    }
  }

  /** A refresh is scheduled again exactly while at least one whole second remains. */
  lemma RemainingPositiveIff(timerSeconds: int, elapsed: real)
    ensures Remaining(timerSeconds, elapsed) > 0 <==> elapsed <= timerSeconds as real - 1.0
  {
    var x := timerSeconds as real - elapsed;
    if x >= 0.0 {
      assert x.Floor as real <= x < x.Floor as real + 1.0;
    }
  }
}
