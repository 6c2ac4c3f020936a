/**
 * The classifier that decides whether a chat message announces a free parking
 * place, and which one: a keyword fast path over the message text, and otherwise
 * a yes/no question to a language model. The language model is an oracle `ask`
 * from the prompt to its reply, or to a failure when the call raises.
 */
module ParkingClassifier {
  import opened Wrappers
  import opened Decimal
  import opened Text

  /** `(is_parking_message, place_number)`. */
  datatype Verdict = Verdict(isParking: bool, place: Option<int>)

  /** What the language-model call gives back: the reply's content, or an exception. */
  datatype Reply = Answer(content: string) | Failure

  /** The number of digits `s` starts with. */
  function LeadingDigitCount(s: string): (n: nat)
    ensures n <= |s| && AllDigits(s[..n]) && (n < |s| ==> !IsDigit(s[n]))
  {
    if s != [] && IsDigit(s[0]) then 1 + LeadingDigitCount(s[1..]) else 0
  }

  /** `re.findall(r'\d+', s)`: the maximal runs of digits, left to right. */
  function DigitRuns(s: string): (runs: seq<string>)
    ensures forall k :: 0 <= k < |runs| ==> runs[k] != [] && AllDigits(runs[k])
    decreases |s|
  {
    if s == [] then []
    else if !IsDigit(s[0]) then DigitRuns(s[1..])
    else
      var n := LeadingDigitCount(s);
      [s[..n]] + DigitRuns(s[n..])
  }

  /** `s[i..j]` is the leftmost maximal run of digits in `s`. */
  predicate IsFirstRun(s: string, i: int, j: int) {
    0 <= i < j <= |s|
    && (forall k :: 0 <= k < i ==> !IsDigit(s[k]))
    && (forall k :: i <= k < j ==> IsDigit(s[k]))
    && (j < |s| ==> !IsDigit(s[j]))
  }

  const ParkingWords: seq<string> := ["место", "Место", "МЕСТО", "парков"]
  const FreeWords: seq<string> := ["свобод", "Свобод", "СВОБОД", "освобод"]

  /** `any(w in s for w in words)`: an exact substring test, without case folding. */
  predicate MentionsAny(s: string, words: seq<string>) {
    exists k | 0 <= k < |words| :: Contains(s, words[k])
  }

  function Prompt(text: string): string {
    "Это сообщение о свободном парковочном месте? Ответь только \"да\" или \"нет\".\n\nСообщение: " + text
  }

  /** The reply counts as a yes when, stripped and lower-cased, it contains "да" or "yes". */
  predicate Affirmative(content: string) {
    var r := Lower(Strip(content));
    Contains(r, "да") || Contains(r, "yes")
  }

  /** `check_parking_message(text)`. */
  function CheckParkingMessage(text: string, ask: string -> Reply): (v: Verdict)
    ensures v.isParking <==> v.place.Some?
    ensures v.place.Some? ==> DigitRuns(text) != [] && v.place.value == DigitsValue(DigitRuns(text)[0])
  {
    var numbers := DigitRuns(text);
    if numbers == [] then Verdict(false, None)
    else if MentionsAny(text, ParkingWords) && MentionsAny(text, FreeWords) then
      Verdict(true, Some(DigitsValue(numbers[0])))
    else
      match ask(Prompt(text))
      case Failure => Verdict(false, None)
      case Answer(content) =>
        if Affirmative(content) then Verdict(true, Some(DigitsValue(numbers[0])))
        else Verdict(false, None)
  }

  /** `re.findall` finds nothing exactly when the text has no digit. */
  lemma {:induction false} NoRunsIffNoDigit(s: string)
    ensures DigitRuns(s) == [] <==> forall k :: 0 <= k < |s| ==> !IsDigit(s[k])
    decreases |s|
  {
    if s != [] && !IsDigit(s[0]) {
      NoRunsIffNoDigit(s[1..]);
      assert forall k :: 1 <= k < |s| ==> s[k] == s[1..][k - 1];
    }
  }

  /** The first element of `re.findall(r'\d+', s)` is the leftmost maximal digit run. */
  lemma {:induction false} FirstRunIsFound(s: string, i: int, j: int)
    requires IsFirstRun(s, i, j)
    ensures DigitRuns(s) != [] && DigitRuns(s)[0] == s[i..j]
    decreases i
  {
    if i == 0 {
      var n := LeadingDigitCount(s);
      assert n == j by {
        assert forall k :: 0 <= k < n ==> s[..n][k] == s[k];
        assert forall k :: 0 <= k < j ==> IsDigit(s[k]);
      }
    } else {
      assert IsFirstRun(s[1..], i - 1, j - 1) by {
        assert forall k :: 0 <= k < |s| - 1 ==> s[1..][k] == s[k + 1];
      }
      FirstRunIsFound(s[1..], i - 1, j - 1);
      assert s[1..][i - 1..j - 1] == s[i..j];
    }
  }

  /** A text without digits is never an announcement, whatever the language model would say. */
  lemma NoNumberMeansNo(text: string, ask: string -> Reply)
    requires forall k :: 0 <= k < |text| ==> !IsDigit(text[k])
    ensures CheckParkingMessage(text, ask) == Verdict(false, None)
  {
    NoRunsIffNoDigit(text);
  }

  /**
   * A text with a number, a parking word and a free word is an announcement of the
   * place given by its first number, whatever the language model would say.
   */
  lemma KeywordFastPath(text: string, ask: string -> Reply, i: int, j: int)
    requires IsFirstRun(text, i, j)
    requires MentionsAny(text, ParkingWords) && MentionsAny(text, FreeWords)
    ensures CheckParkingMessage(text, ask) == Verdict(true, Some(DigitsValue(text[i..j])))
  {
    FirstRunIsFound(text, i, j);
  }

  /**
   * Otherwise the language model decides: a failed call is a no, and a reply is a yes
   * exactly when its lower-cased text contains "да" or "yes" (surrounding whitespace
   * does not matter).
   */
  lemma OracleDecides(text: string, ask: string -> Reply, i: int, j: int)
    requires IsFirstRun(text, i, j)
    requires !(MentionsAny(text, ParkingWords) && MentionsAny(text, FreeWords))
    ensures ask(Prompt(text)).Failure? ==> CheckParkingMessage(text, ask) == Verdict(false, None)
    ensures ask(Prompt(text)).Answer? ==>
      var c := ask(Prompt(text)).content;
      CheckParkingMessage(text, ask)
        == if Contains(Lower(c), "да") || Contains(Lower(c), "yes")
           then Verdict(true, Some(DigitsValue(text[i..j])))
           else Verdict(false, None)
  {
    FirstRunIsFound(text, i, j);
    if ask(Prompt(text)).Answer? {
      var c := ask(Prompt(text)).content;
      LowerStripKeepsWords(c, "да");
      LowerStripKeepsWords(c, "yes");
    }
  }

  /** The last free word is redundant: every text containing "освобод" contains "свобод". */
  lemma FreedImpliesFree(s: string)
    requires Contains(s, "освобод")
    ensures Contains(s, "свобод")
  {
    var i :| 0 <= i <= |s| - 7 && OccursAt(s, "освобод", i);
    assert s[i + 1..i + 7] == s[i..i + 7][1..];
    assert OccursAt(s, "свобод", i + 1);
  }

  /** The test's own example: "Место 5 свободно" announces place 5 without asking the model. */
  lemma PlaceFiveAnnounced(text: string, ask: string -> Reply)
    requires text == "Место 5 свободно"
    ensures CheckParkingMessage(text, ask) == Verdict(true, Some(5))
  {
    assert IsFirstRun(text, 6, 7);
    assert OccursAt(text, ParkingWords[1], 0);
    assert OccursAt(text, FreeWords[0], 8);
    KeywordFastPath(text, ask, 6, 7);
    assert text[6] == '5';
    assert text[6..7] == "5";
  }

  /**
   * The fast path has no negation handling: "Место 13 сегодня не свободно" contains a
   * parking word and a free word, so it announces place 13 without asking the model.
   */
  lemma NegatedPhraseAnnounced(text: string, ask: string -> Reply)
    requires text == "Место 13 сегодня не свободно"
    ensures CheckParkingMessage(text, ask) == Verdict(true, Some(13))
  {
    assert IsFirstRun(text, 6, 8);
    assert OccursAt(text, ParkingWords[1], 0);
    assert OccursAt(text, FreeWords[0], 20);
    KeywordFastPath(text, ask, 6, 8);
    assert text[6] == '1' && text[7] == '3';
    assert text[6..8] == "13";
    assert DigitsValue("13") == 13 by { assert "13"[..1] == "1"; }
  }

  /**
   * The keyword test does not fold case: "ПАРКОВКА 7 свободна" writes the parking word
   * in capitals, which none of the listed variants match, so the language model is
   * asked, and a failed call makes it no announcement.
   */
  lemma CapitalsNotRecognised(text: string, ask: string -> Reply)
    requires text == "ПАРКОВКА 7 свободна" && ask(Prompt(text)).Failure?
    ensures CheckParkingMessage(text, ask) == Verdict(false, None)
  {
    FirstLetterAbsent(text, "место");
    FirstLetterAbsent(text, "Место");
    FirstLetterAbsent(text, "МЕСТО");
    FirstLetterAbsent(text, "парков");
    assert !MentionsAny(text, ParkingWords);
    assert IsFirstRun(text, 9, 10);
    FirstRunIsFound(text, 9, 10);
  }
}
