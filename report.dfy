/**
 The terminal summary: a section header, a line stating the threshold, and
 one line per table entry whose duration is strictly above the threshold,
 in table order; and the terminal reporter that receives those lines.
 */
module Report {
  import opened Wrappers
  import opened Decimal
  import opened Durations

  /**
   A line written to the terminal reporter. A `DurationLine` is the text
   `<seconds to three decimals>\t<key>`; the decimal rendering is left abstract.
   */
  datatype Line =
    | Section(title: string)
    | Text(text: string)
    | DurationLine(seconds: real, key: string)

  const SectionTitle: string := "pytest-execution-timer"

  function ThresholdText(minDurationMs: int): string {
    "Durations of pytest phases in seconds (min " + IntToString(minDurationMs) + "ms):"
  }

  /** `m` milliseconds in seconds, exactly. */
  function ThresholdSeconds(minDurationMs: int): real {
    (minDurationMs as real) / 1000.0
  }

  /** A `timedelta` holds at most this many days either way. */
  const MaxTimedeltaDays: int := 999_999_999
  const MillisecondsPerDay: int := 86_400_000

  /**
   Whether `timedelta(milliseconds=m)` can be built: its day count, rounded
   down, must not exceed `MaxTimedeltaDays` in magnitude, or the constructor
   raises `OverflowError`.
   */
  predicate TimedeltaInRange(minDurationMs: int) {
    -MaxTimedeltaDays <= minDurationMs / MillisecondsPerDay <= MaxTimedeltaDays
  }

  /** The thresholds `timedelta` accepts, as plain bounds on milliseconds. */
  lemma TimedeltaRangeBounds(minDurationMs: int)
    ensures TimedeltaInRange(minDurationMs)
            <==> -86_399_999_913_600_000 <= minDurationMs < 86_400_000_000_000_000
  {
  }

  /**
   `timedelta(milliseconds=m).total_seconds()`: the threshold in seconds, or
   `None` where the constructor raises `OverflowError`.
   */
  function TimedeltaSeconds(minDurationMs: int): (r: Option<real>)
    ensures r.Some? <==> TimedeltaInRange(minDurationMs)
    ensures r.Some? ==> r.value == ThresholdSeconds(minDurationMs)
  {
    if TimedeltaInRange(minDurationMs) then Some(ThresholdSeconds(minDurationMs)) else None
  }

  predicate Survives(e: Entry, minDurationMs: int) {
    e.seconds > ThresholdSeconds(minDurationMs)
  }

  /** The entries that are reported, in table order. */
  function Kept(es: seq<Entry>, minDurationMs: int): seq<Entry>
    decreases |es|
  {
    if es == [] then []
    else (if Survives(es[0], minDurationMs) then [es[0]] else []) + Kept(es[1..], minDurationMs)
  }

  function LineOf(e: Entry): Line {
    DurationLine(e.seconds, e.key)
  }

  function LinesOf(es: seq<Entry>): (ls: seq<Line>)
    ensures |ls| == |es| && forall i :: 0 <= i < |es| ==> ls[i] == LineOf(es[i])
  {
    seq(|es|, i requires 0 <= i < |es| => LineOf(es[i]))
  }

  function Header(minDurationMs: int): seq<Line> {
    [Section(SectionTitle), Text(ThresholdText(minDurationMs))]
  }

  /** Everything `pytest_terminal_summary` writes for a table. */
  function Summary(es: seq<Entry>, minDurationMs: int): seq<Line> {
    Header(minDurationMs) + LinesOf(Kept(es, minDurationMs))
  }

  /**
   Whether `pytest_terminal_summary` raises: the threshold is converted to a
   `timedelta` once per table entry, so an out-of-range threshold raises on
   the first entry and never on an empty table.
   */
  predicate SummaryRaises(es: seq<Entry>, minDurationMs: int) {
    es != [] && !TimedeltaInRange(minDurationMs)
  }

  /** What `pytest_terminal_summary` writes before it returns or raises. */
  function TerminalOutput(es: seq<Entry>, minDurationMs: int): seq<Line> {
    if SummaryRaises(es, minDurationMs) then Header(minDurationMs) else Summary(es, minDurationMs)
  }

  /**
   The summary is cut short after its two header lines (`TerminalOutput`)
   exactly when the table is non-empty and the threshold is at least 86 400 000 000 000 000 ms or
   below -86 399 999 913 600 000 ms; otherwise it is written in full.
   */
  lemma SummaryRaisesBounds(es: seq<Entry>, minDurationMs: int)
    ensures SummaryRaises(es, minDurationMs)
            <==> es != [] && (minDurationMs < -86_399_999_913_600_000 || minDurationMs >= 86_400_000_000_000_000)
  {
  }

  /** `xs` is `ys` with some elements dropped, the rest in the same order. */
  predicate IsSubsequence<T(==)>(xs: seq<T>, ys: seq<T>)
    decreases |ys|
  {
    if xs == [] then true
    else if ys == [] then false
    else (xs[0] == ys[0] && IsSubsequence(xs[1..], ys[1..])) || IsSubsequence(xs, ys[1..])
  }

  lemma {:induction false} KeptAppend(a: seq<Entry>, b: seq<Entry>, minDurationMs: int)
    ensures Kept(a + b, minDurationMs) == Kept(a, minDurationMs) + Kept(b, minDurationMs)
    decreases |a|
  {
    if a != [] {
      assert (a + b)[0] == a[0] && (a + b)[1..] == a[1..] + b;
      KeptAppend(a[1..], b, minDurationMs);
    } else {
      assert a + b == b;
    }
  }

  /** Reporting the next entry of a table extends the summary of the entries before it. */
  lemma SummaryStep(es: seq<Entry>, i: nat, minDurationMs: int)
    requires i < |es|
    ensures Summary(es[..i + 1], minDurationMs)
         == Summary(es[..i], minDurationMs) + (if Survives(es[i], minDurationMs) then [LineOf(es[i])] else [])
  {
    assert es[..i + 1] == es[..i] + [es[i]];
    KeptAppend(es[..i], [es[i]], minDurationMs);
    assert Kept([es[i]], minDurationMs) == if Survives(es[i], minDurationMs) then [es[i]] else [];
  }

  /** An entry is reported iff it is in the table and strictly above the threshold. */
  lemma {:induction false} KeptMember(es: seq<Entry>, minDurationMs: int, e: Entry)
    ensures e in Kept(es, minDurationMs) <==> e in es && Survives(e, minDurationMs)
    decreases |es|
  {
    if es != [] {
      KeptMember(es[1..], minDurationMs, e);
      assert es == [es[0]] + es[1..];
    }
  }

  /** An entry exactly at the threshold is dropped. */
  lemma {:induction false} AtThresholdDropped(es: seq<Entry>, minDurationMs: int, key: string)
    ensures Entry(key, ThresholdSeconds(minDurationMs)) !in Kept(es, minDurationMs)
  {
    KeptMember(es, minDurationMs, Entry(key, ThresholdSeconds(minDurationMs)));
  }

  /** The reported entries keep table order: a subsequence of the table. */
  lemma {:induction false} KeptIsSubsequence(es: seq<Entry>, minDurationMs: int)
    ensures IsSubsequence(Kept(es, minDurationMs), es)
    decreases |es|
  {
    if es != [] {
      KeptIsSubsequence(es[1..], minDurationMs);
      if !Survives(es[0], minDurationMs) {
        assert Kept(es, minDurationMs) == Kept(es[1..], minDurationMs);
      } else {
        assert Kept(es, minDurationMs)[1..] == Kept(es[1..], minDurationMs);
      }
    }
  }

  /** Raising the threshold can only remove reported entries, never add any. */
  lemma {:induction false} KeptMonotone(es: seq<Entry>, lower: int, higher: int)
    requires lower <= higher
    ensures IsSubsequence(Kept(es, higher), Kept(es, lower))
    decreases |es|
  {
    if es != [] {
      KeptMonotone(es[1..], lower, higher);
      var hi, lo := Kept(es, higher), Kept(es, lower);
      if Survives(es[0], higher) {
        assert Survives(es[0], lower);
        assert hi[1..] == Kept(es[1..], higher) && lo[1..] == Kept(es[1..], lower);
      } else if Survives(es[0], lower) {
        assert hi == Kept(es[1..], higher) && lo[1..] == Kept(es[1..], lower);
      } else {
        assert hi == Kept(es[1..], higher) && lo == Kept(es[1..], lower);
      }
    }
  }

  /**
   The summary always opens with the section and the threshold line, has one
   line per reported entry, and is just those two lines exactly when no entry
   exceeds the threshold.
   */
  lemma {:induction false} SummaryShape(es: seq<Entry>, minDurationMs: int)
    ensures |Summary(es, minDurationMs)| == 2 + |Kept(es, minDurationMs)| <= 2 + |es|
    ensures Summary(es, minDurationMs)[0] == Section("pytest-execution-timer")
    ensures Summary(es, minDurationMs)[1] == Text("Durations of pytest phases in seconds (min " + IntToString(minDurationMs) + "ms):")
    ensures Summary(es, minDurationMs) == Header(minDurationMs)
            <==> forall i :: 0 <= i < |es| ==> es[i].seconds <= ThresholdSeconds(minDurationMs)
  {
    var kept := Kept(es, minDurationMs);
    KeptLength(es, minDurationMs);
    if kept != [] {
      KeptMember(es, minDurationMs, kept[0]);
      assert Summary(es, minDurationMs) != Header(minDurationMs);
    } else {
      forall i | 0 <= i < |es| ensures es[i].seconds <= ThresholdSeconds(minDurationMs) {
        KeptMember(es, minDurationMs, es[i]);
      }
    }
  }

  lemma {:induction false} KeptLength(es: seq<Entry>, minDurationMs: int)
    ensures |Kept(es, minDurationMs)| <= |es|
    decreases |es|
  {
    if es != [] {
      KeptLength(es[1..], minDurationMs);
    }
  }

  /** The host's terminal reporter, seen only as the lines written to it. */
  class TerminalReporter {
    var lines: seq<Line>

    /** `terminalreporter.section(title)`. */
    method WriteSection(title: string)
      modifies this
      ensures lines == old(lines) + [Section(title)]
    {
      lines := lines + [Section(title)];
    }

    /** `terminalreporter.write_line(line)`. */
    method WriteLine(line: Line)
      modifies this
      ensures lines == old(lines) + [line]
    {
      lines := lines + [line];
    }
  }
}
