/** The header of a result card (components/PromptCard.tsx): both ends of the
    segment as `M:SS` labels, joined by " - ". */
module PromptCard {
  import opened Results
  import opened Text
  import opened Types

  /** The truncation inside JavaScript's `%` (components/PromptCard.tsx:15): rounds toward zero. */
  function Trunc(x: real): (n: int)
    ensures x >= 0.0 ==> n == x.Floor
    ensures x < 0.0 ==> x <= n as real < x + 1.0
  {
    if x >= 0.0 then x.Floor else -((-x).Floor)
  }

  /** JavaScript's `x % y` on numbers: the result takes the sign of `x`. */
  function JsRem(x: real, y: real): real
    requires y != 0.0
  {
    x - y * Trunc(x / y) as real
  }

  /** `Math.floor(seconds / 60)`. */
  function Minutes(seconds: real): int
  {
    (seconds / 60.0).Floor
  }

  /** `Math.floor(seconds % 60)`. */
  function RemainingSeconds(seconds: real): int
  {
    JsRem(seconds, 60.0).Floor
  }

  /** The template string of `formatTime`: minutes, a colon, and the seconds
      padded to two characters. */
  function Label(minutes: int, secs: int): string
  {
    IntToString(minutes) + [':'] + PadStart(IntToString(secs), 2, '0')
  }

  /** `formatTime`. */
  function FormatTime(seconds: real): string
  {
    Label(Minutes(seconds), RemainingSeconds(seconds))
  }

  /** The card header: `formatTime(start) - formatTime(end)`. */
  function Header(p: GeneratedPrompt): string
  {
    FormatTime(p.startTime) + " - " + FormatTime(p.endTime)
  }

  /** For a non-negative time the label's parts are the whole minutes and the
      seconds 0..59 left over; together they are the time with its fraction
      dropped. */
  lemma TimeParts(seconds: real)
    requires seconds >= 0.0
    ensures Minutes(seconds) >= 0
    ensures 0 <= RemainingSeconds(seconds) <= 59
    ensures Minutes(seconds) * 60 + RemainingSeconds(seconds) == seconds.Floor
  {
    var m := Minutes(seconds);
    assert m as real <= seconds / 60.0 < m as real + 1.0;
    var rest := JsRem(seconds, 60.0);
    assert rest == seconds - 60.0 * m as real;
    assert 0.0 <= rest < 60.0;
    assert (rest + (60 * m) as real).Floor == rest.Floor + 60 * m;
  }

  /** The two characters a number of seconds 0..59 is shown with. */
  function TwoDigits(n: nat): (s: string)
    requires n < 100
    ensures |s| == 2 && IsDigit(s[0]) && IsDigit(s[1])
  {
    [DigitChar(n / 10), DigitChar(n % 10)]
  }

  /** Seconds are zero-padded to exactly two digits. */
  lemma PaddedSeconds(n: nat)
    requires n < 60
    ensures PadStart(IntToString(n), 2, '0') == TwoDigits(n)
  {
    if n >= 10 {
      assert NatToString(n) == NatToString(n / 10) + [DigitChar(n % 10)];
    }
  }

  /** Minutes and seconds 0..59 are shown as the minutes, a colon and
      exactly two digits. */
  lemma LabelShape(minutes: nat, secs: nat)
    requires secs < 60
    ensures Label(minutes, secs) == NatToString(minutes) + [':'] + TwoDigits(secs)
  {
    PaddedSeconds(secs);
  }

  /** For a non-negative time the label is the minutes, a colon and exactly
      two digits of seconds. */
  lemma FormatTimeShape(seconds: real)
    requires seconds >= 0.0
    ensures var m := Minutes(seconds);
      var secs := RemainingSeconds(seconds);
      && 0 <= m && 0 <= secs < 60
      && FormatTime(seconds) == NatToString(m) + [':'] + TwoDigits(secs)
  {
    TimeParts(seconds);
    LabelShape(Minutes(seconds), RemainingSeconds(seconds));
  }

  /** The characters a label is made of: digits, a minus sign before a
      negative part, and the colon. */
  predicate IsLabelChar(c: char)
  {
    IsDigit(c) || c == '-' || c == ':'
  }

  lemma IntToStringChars(n: int)
    ensures forall i :: 0 <= i < |IntToString(n)| ==> IsDigit(IntToString(n)[i]) || IntToString(n)[i] == '-'
  {
  }

  /** Every label holds exactly one colon, between the minutes and the seconds. */
  lemma FormatTimeOneColon(seconds: real)
    ensures Split(FormatTime(seconds), ':')
         == [IntToString(Minutes(seconds)), PadStart(IntToString(RemainingSeconds(seconds)), 2, '0')]
  {
    LabelOneColon(Minutes(seconds), RemainingSeconds(seconds));
  }

  lemma LabelOneColon(minutes: int, seconds: int)
    ensures Split(Label(minutes, seconds), ':')
         == [IntToString(minutes), PadStart(IntToString(seconds), 2, '0')]
  {
    var mins := IntToString(minutes);
    var secs := PadStart(IntToString(seconds), 2, '0');
    NoColonInNumber(minutes);
    NoColonInPadded(seconds);
    SplitAfterHead(mins, ':', secs);
    SplitWithoutSeparator(secs, ':');
  }

  lemma NoColonInNumber(n: int)
    ensures ':' !in IntToString(n)
  {
    IntToStringChars(n);
  }

  lemma NoColonInPadded(n: int)
    ensures ':' !in PadStart(IntToString(n), 2, '0')
  {
    var digits := IntToString(n);
    var padded := PadStart(digits, 2, '0');
    NoColonInNumber(n);
    forall i | 0 <= i < |padded|
      ensures padded[i] != ':'
    {
      if i >= |padded| - |digits| {
        assert padded[i] == padded[|padded| - |digits|..][i - (|padded| - |digits|)];
      }
    }
  }

  /** Every character of a label is a digit, a minus sign or the colon. */
  lemma FormatTimeChars(seconds: real)
    ensures forall i :: 0 <= i < |FormatTime(seconds)| ==> IsLabelChar(FormatTime(seconds)[i])
  {
    LabelChars(Minutes(seconds), RemainingSeconds(seconds));
  }

  lemma LabelChars(minutes: int, secs: int)
    ensures forall i :: 0 <= i < |Label(minutes, secs)| ==> IsLabelChar(Label(minutes, secs)[i])
  {
    IntToStringChars(minutes);
    IntToStringChars(secs);
  }

  /** Reads an `M:SS` label back into minutes and seconds. */
  function ParseTimeLabel(shown: string): Option<(nat, nat)>
  {
    var pieces := Split(shown, ':');
    if |pieces| == 2
       && (forall i :: 0 <= i < |pieces[0]| ==> IsDigit(pieces[0][i]))
       && (forall i :: 0 <= i < |pieces[1]| ==> IsDigit(pieces[1][i]))
    then Some((ParseNat(pieces[0]), ParseNat(pieces[1])))
    else None
  }

  /** Two digits read back as the number they show. */
  lemma ParseTwoDigits(n: nat)
    requires n < 100
    ensures ParseNat(TwoDigits(n)) == n
  {
    var two := TwoDigits(n);
    DigitRoundTrip(n / 10);
    DigitRoundTrip(n % 10);
    assert two[..1] == [DigitChar(n / 10)];
    assert ParseNat(two[..1]) == n / 10;
  }

  /** Two runs of digits around a colon read back as the two numbers. */
  lemma ParseDigitsAroundColon(a: string, b: string)
    requires forall i :: 0 <= i < |a| ==> IsDigit(a[i])
    requires forall i :: 0 <= i < |b| ==> IsDigit(b[i])
    ensures ParseTimeLabel(a + [':'] + b) == Some((ParseNat(a), ParseNat(b)))
  {
    assert ':' !in a;
    assert ':' !in b;
    SplitAfterHead(a, ':', b);
    SplitWithoutSeparator(b, ':');
  }

  /** A label of minutes and seconds 0..59 reads back as those two numbers. */
  lemma LabelRoundTrip(minutes: nat, secs: nat)
    requires secs < 60
    ensures ParseTimeLabel(Label(minutes, secs)) == Some((minutes, secs))
  {
    var mins := NatToString(minutes);
    var two := TwoDigits(secs);
    ParseNatToString(minutes);
    ParseTwoDigits(secs);
    ParseDigitsAroundColon(mins, two);
    assert ParseTimeLabel(mins + [':'] + two) == Some((minutes, secs));
    LabelShape(minutes, secs);
  }

  /** A label read back gives the whole minutes and the seconds of the time
      with its fraction dropped: formatting loses nothing else. */
  lemma FormatTimeRoundTrip(seconds: real)
    requires seconds >= 0.0
    ensures ParseTimeLabel(FormatTime(seconds)) == Some((seconds.Floor / 60, seconds.Floor % 60))
  {
    var m := Minutes(seconds);
    var secs := RemainingSeconds(seconds);
    TimeParts(seconds);
    LabelRoundTrip(m, secs);
    assert seconds.Floor / 60 == m && seconds.Floor % 60 == secs;
  }

  /** Later times never get earlier labels: minutes, then seconds, never decrease. */
  lemma FormatTimeMonotone(s1: real, s2: real)
    requires 0.0 <= s1 <= s2
    ensures Minutes(s1) < Minutes(s2)
         || (Minutes(s1) == Minutes(s2) && RemainingSeconds(s1) <= RemainingSeconds(s2))
  {
    TimeParts(s1);
    TimeParts(s2);
    assert s1.Floor <= s2.Floor;
  }

  /** Zero seconds is "0:00" and sixty-five seconds is "1:05". */
  lemma FormatTimeExamples()
    ensures FormatTime(0.0) == "0:00"
    ensures FormatTime(65.0) == "1:05"
  {
    assert Minutes(0.0) == 0 && RemainingSeconds(0.0) == 0;
    assert Minutes(65.0) == 1 && RemainingSeconds(65.0) == 5;
    LabelShape(0, 0);
    LabelShape(1, 5);
  }

  lemma NoSpaceInLabel(seconds: real)
    ensures ' ' !in FormatTime(seconds)
  {
    FormatTimeChars(seconds);
  }

  /** Two space-free texts around " - " split back into themselves and the dash. */
  lemma SplitAroundDash(a: string, b: string)
    requires ' ' !in a && ' ' !in b
    ensures Split(a + " - " + b, ' ') == [a, "-", b]
  {
    assert a + " - " + b == a + [' '] + ("-" + [' '] + b);
    SplitAfterHead(a, ' ', "-" + [' '] + b);
    SplitAfterHead("-", ' ', b);
    SplitWithoutSeparator(b, ' ');
  }

  /** The header splits at its spaces into the start label, the dash and the
      end label, so both times can be read back from it. */
  lemma HeaderParts(p: GeneratedPrompt)
    ensures Split(Header(p), ' ') == [FormatTime(p.startTime), "-", FormatTime(p.endTime)]
  {
    NoSpaceInLabel(p.startTime);
    NoSpaceInLabel(p.endTime);
    SplitAroundDash(FormatTime(p.startTime), FormatTime(p.endTime));
  }
}
