/**
 * A recorded voice memo: its status, the title shown for it in the list
 * (from the first line of its transcript) and its length as minutes and
 * seconds.
 */
module Memos {
  import opened Wrappers
  import opened Text

  /** Where a memo is in its life cycle; stored by its raw string value. */
  datatype MemoStatus = Recording | Transcribing | Ready | Failed

  /** The raw value the status is stored under: the case name. */
  function RawValue(status: MemoStatus): string {
    match status
    case Recording => "recording"
    case Transcribing => "transcribing"
    case Ready => "ready"
    case Failed => "failed"
  }

  /** `MemoStatus(rawValue:)`: the status stored under `raw`, if any. */
  function StatusFromRawValue(raw: string): Option<MemoStatus> {
    if raw == "recording" then Some(Recording)
    else if raw == "transcribing" then Some(Transcribing)
    else if raw == "ready" then Some(Ready)
    else if raw == "failed" then Some(Failed)
    else None
  }

  /** A stored status reads back as itself, and only its own raw value reads back as it. */
  lemma RawValueRoundTrip(status: MemoStatus, raw: string)
    ensures StatusFromRawValue(RawValue(status)) == Some(status)
    ensures StatusFromRawValue(raw) == Some(status) <==> raw == RawValue(status)
  {
  }

  /**
   * The stored fields of a memo that the derived texts read. The record's
   * identity, creation date and transformations are not part of this model.
   */
  datatype Memo = Memo(
    duration: real,
    audioFileName: string,
    transcript: Option<string>,
    language: Option<string>,
    status: MemoStatus,
    errorMessage: Option<string>)

  const TitleLength := 60
  const Ellipsis := "..."
  const Placeholder := "New Memo"

  /**
   * `displayTitle`: the transcript's first line, cut at a word boundary
   * with an ellipsis when it is longer than 60 characters, or "New Memo"
   * when there is no transcript.
   */
  function DisplayTitle(memo: Memo): string {
    if memo.transcript.None? || memo.transcript.value == [] then Placeholder
    else
      var firstLine := TakeUntil(memo.transcript.value, '\n');
      if |firstLine| <= TitleLength then firstLine
      else
        var truncated := firstLine[..TitleLength];
        match LastIndexOf(truncated, ' ')
        case Some(lastSpace) => truncated[..lastSpace] + Ellipsis
        case None => truncated + Ellipsis
  }

  /** `n` marks the end of the first line of `t`: no newline before it, and a newline or the end at it. */
  predicate FirstLineEnds(t: string, n: nat) {
    n <= |t| && '\n' !in t[..n] && (n == |t| || t[n] == '\n')
  }

  lemma FirstLineIsTakeUntil(t: string, n: nat)
    requires FirstLineEnds(t, n)
    ensures TakeUntil(t, '\n') == t[..n]
  {
    var r := TakeUntil(t, '\n');
    forall j | 0 <= j < n
      ensures t[j] != '\n'
    {
      assert t[j] == t[..n][j];
    }
    forall j | 0 <= j < |r|
      ensures t[j] != '\n'
    {
      assert t[j] == t[..|r|][j] == r[j];
    }
  }

  /** Without a transcript, or with an empty one, the title is the placeholder. */
  lemma MissingTranscriptGivesPlaceholder(memo: Memo)
    requires memo.transcript.None? || memo.transcript == Some([])
    ensures DisplayTitle(memo) == "New Memo"
  {
  }

  /** The title never contains a newline: only the first line is used. */
  lemma TitleHasNoNewline(memo: Memo)
    ensures '\n' !in DisplayTitle(memo)
  {
    var title := DisplayTitle(memo);
    if memo.transcript.Some? && memo.transcript.value != [] {
      var firstLine := TakeUntil(memo.transcript.value, '\n');
      if |firstLine| > TitleLength {
        var truncated := firstLine[..TitleLength];
        assert '\n' !in truncated by {
          forall i | 0 <= i < |truncated| ensures truncated[i] != '\n' {
            assert truncated[i] == firstLine[i];
          }
        }
        match LastIndexOf(truncated, ' ')
        case Some(lastSpace) =>
          forall i | 0 <= i < |title| ensures title[i] != '\n' {
            if i < lastSpace {
              assert title[i] == truncated[i];
            }
          }
        case None =>
      }
    }
  }

  /** A first line of at most 60 characters is the whole title, unchanged. */
  lemma ShortFirstLineIsTitle(memo: Memo, n: nat)
    requires memo.transcript.Some? && memo.transcript.value != []
    requires FirstLineEnds(memo.transcript.value, n) && n <= 60
    ensures DisplayTitle(memo) == memo.transcript.value[..n]
  {
    FirstLineIsTakeUntil(memo.transcript.value, n);
  }

  /** A transcript that begins with a newline has an empty first line, and so an empty title. */
  lemma LeadingNewlineGivesEmptyTitle(memo: Memo)
    requires memo.transcript.Some? && memo.transcript.value != [] && memo.transcript.value[0] == '\n'
    ensures DisplayTitle(memo) == ""
  {
    ShortFirstLineIsTitle(memo, 0);
  }

  /**
   * A first line longer than 60 characters is cut to its first 60, then
   * before the last space among them when there is one, and "..." is
   * appended; the title is at most 63 characters long.
   */
  lemma LongFirstLineIsTruncated(memo: Memo, n: nat)
    requires memo.transcript.Some?
    requires FirstLineEnds(memo.transcript.value, n) && n > 60
    ensures var t, title := memo.transcript.value, DisplayTitle(memo);
      && |title| <= 63
      && title[|title| - 3..] == "..."
      && (' ' !in t[..60] ==> title == t[..60] + "...")
      && (forall k :: 0 <= k < 60 && t[k] == ' ' && ' ' !in t[k + 1..60] ==> title == t[..k] + "...")
  {
    var t := memo.transcript.value;
    FirstLineIsTakeUntil(t, n);
    var truncated := t[..n][..60];
    assert truncated == t[..60];
    forall k | 0 <= k < 60 && t[k] == ' ' && ' ' !in t[k + 1..60]
      ensures DisplayTitle(memo) == t[..k] + "..."
    {
      assert truncated[k + 1..] == t[k + 1..60];
      LastIndexOfIsLast(truncated, ' ', k);
    }
  }

  /** `Int(duration)`: the whole seconds, truncated toward zero. */
  function WholeSeconds(duration: real): int {
    if duration >= 0.0 then duration.Floor else -((-duration).Floor)
  }

  /** Swift's integer `/`, which truncates toward zero. */
  function Quotient(a: int, b: int): int
    requires b > 0
  {
    if a >= 0 then a / b else -((-a) / b)
  }

  /** Swift's integer `%`: the remainder takes the sign of the dividend. */
  function Remainder(a: int, b: int): int
    requires b > 0
  {
    a - b * Quotient(a, b)
  }

  /** `formattedDuration`: `String(format: "%dMin. %dSec.", minutes, seconds)`. */
  function FormattedDuration(memo: Memo): string {
    var total := WholeSeconds(memo.duration);
    DecimalString(Quotient(total, 60)) + "Min. " + DecimalString(Remainder(total, 60)) + "Sec."
  }

  /** The whole seconds lie within one second of the duration, on the side of zero. */
  lemma WholeSecondsTruncates(duration: real)
    ensures var s := WholeSeconds(duration);
      && (duration >= 0.0 ==> 0 <= s && s as real <= duration < s as real + 1.0)
      && (duration < 0.0 ==> s <= 0 && s as real - 1.0 < duration <= s as real)
  {
  }

  /**
   * Minutes and seconds recompose the whole seconds; the seconds are below
   * 60 in magnitude and share the sign of the duration.
   */
  lemma {:induction false} MinutesAndSeconds(duration: real)
    ensures var total := WholeSeconds(duration);
      var m, s := Quotient(total, 60), Remainder(total, 60);
      && 60 * m + s == total
      && (duration >= 0.0 ==> 0 <= m && 0 <= s < 60)
      && (duration < 0.0 ==> m <= 0 && -60 < s <= 0)
  {
    var total := WholeSeconds(duration);
    if total < 0 {
      assert -total == 60 * ((-total) / 60) + (-total) % 60;
    }
  }

  /**
   * For a non-negative duration of `60 * m + s` whole seconds with
   * `s < 60`, the text is `m` and `s` in decimal between the unit labels.
   */
  lemma FormattedDurationOfParts(memo: Memo, m: nat, s: nat)
    requires memo.duration >= 0.0 && s < 60 && 60 * m + s == memo.duration.Floor
    ensures FormattedDuration(memo) == NaturalString(m) + "Min. " + NaturalString(s) + "Sec."
  {
    MinutesAndSeconds(memo.duration);
  }

  /** 125 seconds are two minutes and five seconds. */
  lemma FormattedDurationExample(memo: Memo)
    requires memo.duration == 125.0
    ensures FormattedDuration(memo) == "2Min. 5Sec."
  {
    FormattedDurationOfParts(memo, 2, 5);
    assert NaturalString(2) == "2" && NaturalString(5) == "5";
  }

  /** A zero duration reads "0Min. 0Sec.". */
  lemma FormattedDurationZeroExample(memo: Memo)
    requires memo.duration == 0.0
    ensures FormattedDuration(memo) == "0Min. 0Sec."
  {
    FormattedDurationOfParts(memo, 0, 0);
    assert NaturalString(0) == "0";
  }

  /** A short single line is the title as it stands. */
  lemma DisplayTitleShortExample(memo: Memo)
    requires memo.transcript == Some("Hello world")
    ensures DisplayTitle(memo) == "Hello world"
  {
    ShortFirstLineIsTitle(memo, 11);
  }

  /** Of a multi-line transcript only the first line is shown. */
  lemma DisplayTitleMultilineExample(memo: Memo)
    requires memo.transcript == Some("First line\nSecond line\nThird line")
    ensures DisplayTitle(memo) == "First line"
  {
    ShortFirstLineIsTitle(memo, 10);
  }
}
