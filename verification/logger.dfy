/**
 * The logger's pure parts: the four redaction masks and the struct-tag
 * switch that picks one, the level ranking that decides whether a message
 * is emitted, the level dispatch of `Log` and `Logf`, and the shape of an
 * emitted line. The clock reading, the caller location and the formatted
 * message text are inputs; printing is left out.
 */
module Logger {

  import opened Wrappers
  import opened Strings

  const Trace := "TRACE"
  const Debug := "DEBUG"
  const Info := "INFO"
  const Warn := "WARN"
  const ErrorLevel := "ERROR"
  const Fatal := "FATAL"

  /** The ranks of the configured level names; every other name ranks 0, as a missing map key would. */
  const LogLevel: map<string, int> := map[Trace := 0, Debug := 1, Info := 2, Warn := 3, ErrorLevel := 4]

  const MaskFirst6 := "first6"
  const MaskLast4 := "last4"
  const MaskFirst6Last4 := "first6last4"
  const MaskComplete := "complete"
  const NoRequestId := "N/A"

  // Masks

  /** `strings.Repeat("*", n)`. */
  function Stars(n: nat): (r: string)
    ensures |r| == n && forall i :: 0 <= i < n ==> r[i] == '*'
  {
    seq(n, _ => '*')
  }

  /** `First6MaskFunc`: keeps the first six bytes of a longer string; a short one is all stars. */
  function First6(s: string): (r: string)
    ensures |r| == |s|
    ensures forall i :: 0 <= i < |s| ==> r[i] == if |s| > 6 && i < 6 then s[i] else '*'
  {
    if |s| <= 6 then Stars(|s|) else s[..6] + Stars(|s| - 6)
  }

  /** `Last4MaskFunc`: keeps the last four bytes of a longer string; a short one is all stars. */
  function Last4(s: string): (r: string)
    ensures |r| == |s|
    ensures forall i :: 0 <= i < |s| ==> r[i] == if |s| > 4 && i >= |s| - 4 then s[i] else '*'
  {
    if |s| <= 4 then Stars(|s|) else Stars(|s| - 4) + s[|s| - 4..]
  }

  /** `First6Last4MaskFunc`: keeps six bytes in front and four behind of a string longer than ten. */
  function First6Last4(s: string): (r: string)
    ensures |r| == |s|
    ensures forall i :: 0 <= i < |s| ==> r[i] == if |s| > 10 && (i < 6 || i >= |s| - 4) then s[i] else '*'
  {
    if |s| <= 10 then Stars(|s|) else s[..6] + Stars(|s| - 10) + s[|s| - 4..]
  }

  /** `CompleteMaskFunc`: every byte a star. */
  function Complete(s: string): (r: string)
    ensures |r| == |s| && forall i :: 0 <= i < |s| ==> r[i] == '*'
  {
    Stars(|s|)
  }

  /** How many bytes of `r` are not stars. */
  function Revealed(r: string): (n: nat)
    ensures n <= |r|
  {
    if |r| == 0 then 0 else Revealed(r[..|r| - 1]) + (if r[|r| - 1] == '*' then 0 else 1)
  }

  /** Each mask, applied to its own output, changes nothing. */
  lemma MasksIdempotent(s: string)
    ensures First6(First6(s)) == First6(s)
    ensures Last4(Last4(s)) == Last4(s)
    ensures First6Last4(First6Last4(s)) == First6Last4(s)
    ensures Complete(Complete(s)) == Complete(s)
  {
    var a, b, c, d := First6(s), Last4(s), First6Last4(s), Complete(s);
    assert First6(a) == a by {
      forall i | 0 <= i < |a| ensures First6(a)[i] == a[i] { }
    }
    assert Last4(b) == b by {
      forall i | 0 <= i < |b| ensures Last4(b)[i] == b[i] { }
    }
    assert First6Last4(c) == c by {
      forall i | 0 <= i < |c| ensures First6Last4(c)[i] == c[i] { }
    }
    assert Complete(d) == d by {
      forall i | 0 <= i < |d| ensures Complete(d)[i] == d[i] { }
    }
  }

  /** A string whose bytes outside the first `k` are all stars reveals at most `k` bytes. */
  lemma {:induction false} RevealedBound(r: string, k: nat)
    requires forall i :: k <= i < |r| ==> r[i] == '*'
    ensures Revealed(r) <= if |r| < k then |r| else k
  {
    if |r| > 0 {
      RevealedBound(r[..|r| - 1], k);
    }
  }

  /** Counting is additive over concatenation. */
  lemma {:induction false} RevealedConcat(a: string, b: string)
    ensures Revealed(a + b) == Revealed(a) + Revealed(b)
  {
    if |b| == 0 {
      assert a + b == a;
    } else {
      RevealedConcat(a, b[..|b| - 1]);
      assert (a + b)[..|a + b| - 1] == a + b[..|b| - 1];
    }
  }

  /** A prefix of stars reveals nothing, so the count is that of what follows. */
  lemma {:induction false} AllStarsRevealNothing(r: string, n: int)
    requires forall i :: 0 <= i < n && i < |r| ==> r[i] == '*'
    ensures Revealed(r) <= if |r| <= n then 0 else |r| - n
  {
    if |r| > 0 {
      AllStarsRevealNothing(r[..|r| - 1], n);
    }
  }

  /** The masks reveal at most six, four, ten and no bytes. */
  lemma MasksRevealBounded(s: string)
    ensures Revealed(First6(s)) <= 6
    ensures Revealed(Last4(s)) <= 4
    ensures Revealed(First6Last4(s)) <= 10
    ensures Revealed(Complete(s)) == 0
  {
    RevealedBound(First6(s), 6);
    AllStarsRevealNothing(Last4(s), |s| - 4);
    AllStarsRevealNothing(Complete(s), |s|);
    if |s| <= 10 {
      AllStarsRevealNothing(First6Last4(s), |s|);
    } else {
      var front, middle, back := s[..6], Stars(|s| - 10), s[|s| - 4..];
      assert First6Last4(s) == front + middle + back;
      RevealedConcat(front + middle, back);
      RevealedConcat(front, middle);
      AllStarsRevealNothing(middle, |middle|);
    }
  }

  /** What the redaction tag makes of a field's value: an empty or "-" tag blanks it, an unknown tag keeps it. */
  function RedactTagValue(tag: string, value: string): (r: string)
    ensures tag == "" || tag == "-" ==> r == ""
    ensures tag == MaskFirst6 ==> r == First6(value)
    ensures tag == MaskLast4 ==> r == Last4(value)
    ensures tag == MaskFirst6Last4 ==> r == First6Last4(value)
    ensures tag == MaskComplete ==> r == Complete(value)
    ensures tag !in {"", "-", MaskFirst6, MaskLast4, MaskFirst6Last4, MaskComplete} ==> r == value
  {
    if tag == "" || tag == "-" then ""
    else if tag == MaskFirst6 then First6(value)
    else if tag == MaskLast4 then Last4(value)
    else if tag == MaskFirst6Last4 then First6Last4(value)
    else if tag == MaskComplete then Complete(value)
    else value
  }

  /** Redacting twice with the same tag is redacting once. */
  lemma RedactIdempotent(tag: string, value: string)
    ensures RedactTagValue(tag, RedactTagValue(tag, value)) == RedactTagValue(tag, value)
  {
    MasksIdempotent(value);
  }

  // Levels

  /** A level's rank; a name outside the table ranks 0, like TRACE. */
  function Rank(level: string): (r: int)
    ensures 0 <= r <= 4
    ensures level !in LogLevel ==> r == 0
    ensures level in LogLevel ==> r == LogLevel[level]
  {
    if level in LogLevel then LogLevel[level] else 0
  }

  /** `ValidateAgainstConfiguredLogLevel`, with the configured level as an input. */
  predicate ShouldEmit(level: string, configured: string) {
    Rank(level) >= Rank(configured)
  }

  /** A FATAL message ranks 0, so it is emitted only when the configured level is TRACE or unknown. */
  lemma FatalEmittedOnlyUnderTrace(configured: string)
    ensures ShouldEmit(Fatal, configured) <==> configured == Trace || configured !in LogLevel
  {
    assert Fatal !in LogLevel;
    if configured in LogLevel && configured != Trace {
      assert configured in {Debug, Info, Warn, ErrorLevel};
    }
  }

  /** Emission is monotone: a message of higher rank is emitted whenever a lower one is. */
  lemma EmissionMonotone(low: string, high: string, configured: string)
    requires Rank(low) <= Rank(high) && ShouldEmit(low, configured)
    ensures ShouldEmit(high, configured)
  {
  }

  /** Level names are compared as written: "debug" is an unknown level and lets even TRACE through. */
  lemma ConfiguredLevelIsCaseSensitive()
    ensures ShouldEmit(Trace, "debug") && !ShouldEmit(Trace, Debug)
  {
    assert "debug" !in LogLevel by {
      assert "debug"[0] != Trace[0] && "debug"[0] != Debug[0] && "debug"[0] != Info[0];
      assert "debug"[0] != Warn[0] && "debug"[0] != ErrorLevel[0];
    }
  }

  // Lines

  /** One emitted line; the location is left out of INFO lines. */
  datatype LogLine = LogLine(time: string, requestId: string, level: string, message: string, location: Option<string>)

  /** `logItNow`: the line for a message at `level`, or nothing when the configured level filters it out. */
  function LogItNow(level: string, requestId: string, message: string, configured: string, clock: string, location: string): (r: Option<LogLine>)
    ensures r.Some? <==> ShouldEmit(level, configured)
    ensures r.Some? ==>
              r.value.level == level && r.value.message == message && r.value.time == clock &&
              r.value.requestId == (if requestId == "" then NoRequestId else requestId) &&
              r.value.requestId != "" &&
              (r.value.location.None? <==> level == Info) &&
              (r.value.location.Some? ==> r.value.location.value == location)
  {
    if !ShouldEmit(level, configured) then None
    else
      var rid := if |requestId| == 0 then NoRequestId else requestId;
      Some(LogLine(clock, rid, level, message, if level == Info then None else Some(location)))
  }

  /** The text of a line: time, bracketed request id and level, the location in parentheses unless INFO, then the message. */
  function Render(l: LogLine): (r: string)
    ensures l.time + " [" + l.requestId + "] [" + l.level + "] " <= r
    ensures |r| >= |l.message| && r[|r| - |l.message|..] == l.message
    ensures l.location.None? ==> |r| == |l.time| + |l.requestId| + |l.level| + |l.message| + 7
    ensures l.location.Some? ==> |r| == |l.time| + |l.requestId| + |l.level| + |l.location.value| + |l.message| + 10
  {
    var head := l.time + " [" + l.requestId + "] [" + l.level + "] ";
    match l.location
    case None => head + l.message
    case Some(loc) => head + "(" + loc + ") " + l.message
  }

  /** The level `Log` and `Logf` use: the name upper-cased when it is one they know, INFO otherwise. */
  function Dispatch(level: string): (r: string)
    ensures r in {Trace, Debug, Info, Warn, ErrorLevel}
    ensures ToUpper(level) in {Trace, Debug, Warn, ErrorLevel} ==> r == ToUpper(level)
    ensures ToUpper(level) !in {Trace, Debug, Warn, ErrorLevel} ==> r == Info
  {
    var up := ToUpper(level);
    if up == Trace then Trace
    else if up == Debug then Debug
    else if up == Warn then Warn
    else if up == ErrorLevel then ErrorLevel
    else Info
  }

  /** `Log` and `Logf`: dispatch on the level, then `logItNow`; the formatted message text is an input. */
  function Log(level: string, requestId: string, message: string, configured: string, clock: string, location: string): (r: Option<LogLine>)
    ensures r.Some? <==> ShouldEmit(Dispatch(level), configured)
    ensures r.Some? ==> r.value.level == Dispatch(level) && r.value.level != Fatal && r.value.message == message
  {
    LogItNow(Dispatch(level), requestId, message, configured, clock, location)
  }

  /** `Fatal` and `Fatalf` log at FATAL; the panic that follows is left out. */
  function LogFatal(requestId: string, message: string, configured: string, clock: string, location: string): (r: Option<LogLine>)
    ensures r.Some? <==> configured == Trace || configured !in LogLevel
    ensures r.Some? ==> r.value.level == Fatal && r.value.location == Some(location)
  {
    FatalEmittedOnlyUnderTrace(configured);
    LogItNow(Fatal, requestId, message, configured, clock, location)
  }

  /** Dispatch ignores case: levels spelled alike up to case log the same line. */
  lemma LogIgnoresLevelCase(l1: string, l2: string, requestId: string, message: string, configured: string, clock: string, location: string)
    requires ToUpper(l1) == ToUpper(l2)
    ensures Log(l1, requestId, message, configured, clock, location) == Log(l2, requestId, message, configured, clock, location)
  {
  }

  /** An unknown level, "fatal" included, logs as INFO and so without a location. */
  lemma UnknownLevelLogsAsInfo(requestId: string, message: string, configured: string, clock: string, location: string)
    requires ShouldEmit(Info, configured)
    ensures Log("fatal", requestId, message, configured, clock, location) ==
            Some(LogLine(clock, if requestId == "" then NoRequestId else requestId, Info, message, None))
  {
    assert ToUpper("fatal") == Fatal;
  }
}
