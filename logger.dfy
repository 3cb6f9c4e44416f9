/**
 * The action's logger (action/src/logger.ts): duration formatting, logger
 * options and namespaces, level routing, and the module-level default
 * logger.
 *
 * `isDebug` from the configuration is a parameter. `@actions/core`'s output
 * functions are not called: the routing returns the call it would make.
 */
module Logging {
  import opened Options
  import opened Strings

  // ------------------------------------------------------------------ durations

  const MsPerSecond := 1000
  const MsPerMinute := 60 * MsPerSecond
  const MsPerHour := 60 * MsPerMinute
  const MsPerDay := 24 * MsPerHour
  /** dayjs durations count a year as 365 days and a month as a twelfth of that. */
  const MsPerYear := 365 * MsPerDay
  const MsPerMonth := MsPerYear / 12

  /** The `hours()`, `minutes()` and `seconds()` of a duration. */
  datatype Hms = Hms(h: nat, m: nat, s: nat)

  datatype DurationStyle = Digital | Text

  /** What dayjs keeps of `ms` below its day unit, split into hours, minutes and seconds. */
  function Components(ms: nat): (r: Hms)
    ensures r.h < 24 && r.m < 60 && r.s < 60
  {
    var rest := ms % MsPerYear % MsPerMonth % MsPerDay;
    var inHour := rest % MsPerHour;
    var inMinute := inHour % MsPerMinute;
    Hms(rest / MsPerHour, inHour / MsPerMinute, inMinute / MsPerSecond)
  }

  /** `String(n).padStart(2, '0')` */
  function Pad2(n: nat): string
  {
    var d := NatToString(n);
    if |d| >= 2 then d else "0" + d
  }

  /** The digital style: `HH:MM:SS` when there are hours, else `MM:SS`. */
  function DigitalDuration(t: Hms): string
  {
    if t.h > 0 then Pad2(t.h) + ":" + Pad2(t.m) + ":" + Pad2(t.s)
    else Pad2(t.m) + ":" + Pad2(t.s)
  }

  /** The text style: `<h>h <m>min <s>s`, leaving out a zero hour or minute count. */
  function TextDuration(t: Hms): string
  {
    Join(NonEmpty(TextPieces(t)), " ")
  }

  function TextPieces(t: Hms): seq<string>
  {
    [if t.h != 0 then NatToString(t.h) + "h" else "",
     if t.m != 0 then NatToString(t.m) + "min" else "",
     NatToString(t.s) + "s"]
  }

  /** `formatDuration(ms, style)` for a whole non-negative number of milliseconds. */
  function FormatDuration(ms: nat, style: DurationStyle): string
  {
    if style == Digital then DigitalDuration(Components(ms)) else TextDuration(Components(ms))
  }

  // Reading the formats back.

  /** The number in front of `unit` in a piece such as `12min`. */
  function PieceValue(p: string, unit: string): Option<nat>
  {
    if |p| > |unit| && EndsWith(p, unit) && AllDigits(p[..|p| - |unit|]) then Some(DigitsValue(p[..|p| - |unit|]))
    else None
  }

  /** Reads a text-style duration back into its components. */
  function ParseText(r: string): Option<Hms>
  {
    ParsePieces(Split(r, ' '))
  }

  /** The space-separated pieces of a text-style duration: an optional hour, an optional minute, the seconds. */
  function ParsePieces(ps: seq<string>): Option<Hms>
  {
    if |ps| == 0 then None else
    var s := PieceValue(ps[|ps| - 1], "s");
    if s.None? || |ps| > 3 then None
    else if |ps| == 1 then Some(Hms(0, 0, s.value))
    else if |ps| == 2 then
      var h := PieceValue(ps[0], "h");
      var m := PieceValue(ps[0], "min");
      if h.Some? then Some(Hms(h.value, 0, s.value))
      else if m.Some? then Some(Hms(0, m.value, s.value))
      else None
    else
      var h := PieceValue(ps[0], "h");
      var m := PieceValue(ps[1], "min");
      if h.Some? && m.Some? then Some(Hms(h.value, m.value, s.value)) else None
  }

  /** Reads a digital-style duration back into its components. */
  function ParseDigital(r: string): Option<Hms>
  {
    if |r| == 8 && r[2] == ':' && r[5] == ':' && AllDigits(r[..2]) && AllDigits(r[3..5]) && AllDigits(r[6..]) then
      Some(Hms(DigitsValue(r[..2]), DigitsValue(r[3..5]), DigitsValue(r[6..])))
    else if |r| == 5 && r[2] == ':' && AllDigits(r[..2]) && AllDigits(r[3..]) then
      Some(Hms(0, DigitsValue(r[..2]), DigitsValue(r[3..])))
    else None
  }

  /** Two-digit padding of a number below 100 keeps its value. */
  lemma Pad2Value(n: nat)
    requires n < 100
    ensures |Pad2(n)| == 2 && AllDigits(Pad2(n)) && DigitsValue(Pad2(n)) == n
  {
    DigitsValueOfNatToString(n);
    var p := Pad2(n);
    if n < 10 {
      assert p == ['0', DigitChar(n)];
      assert p[..1] == "0";
    } else {
      assert NatToString(n) == NatToString(n / 10) + [DigitChar(n % 10)];
    }
  }

  /** The digital format is read back exactly. */
  lemma {:induction false} DigitalRoundTrip(t: Hms)
    requires t.h < 100 && t.m < 100 && t.s < 100
    ensures ParseDigital(DigitalDuration(t)) == Some(t)
  {
    Pad2Value(t.h);
    Pad2Value(t.m);
    Pad2Value(t.s);
    var r := DigitalDuration(t);
    if t.h > 0 {
      assert r[..2] == Pad2(t.h) && r[3..5] == Pad2(t.m) && r[6..] == Pad2(t.s);
    } else {
      assert r[..2] == Pad2(t.m) && r[3..] == Pad2(t.s);
    }
  }

  /** A number written before its unit is read back. */
  lemma UnitPiece(n: nat, unit: string)
    requires |unit| > 0 && !IsDigit(unit[0])
    ensures PieceValue(NatToString(n) + unit, unit) == Some(n)
  {
    var p := NatToString(n) + unit;
    assert p[..|p| - |unit|] == NatToString(n);
    assert p[|p| - |unit|..] == unit;
    DigitsValueOfNatToString(n);
  }

  /** A minute piece is not an hour piece. */
  lemma MinuteNotHour(n: nat)
    ensures PieceValue(NatToString(n) + "min", "h").None?
  {
    var p := NatToString(n) + "min";
    assert p[|p| - 1..] == "n";
  }

  lemma PiecesHaveNoSpace(t: Hms)
    ensures forall k :: 0 <= k < |NonEmpty(TextPieces(t))| ==> ' ' !in NonEmpty(TextPieces(t))[k]
  {
    var ps := TextPieces(t);
    forall x | x in ps ensures ' ' !in x {
      assert x == ps[0] || x == ps[1] || x == ps[2];
    }
  }

  /** The pieces left after dropping the empty ones. */
  lemma TextPiecesNonEmpty(t: Hms)
    ensures NonEmpty(TextPieces(t)) ==
      (if t.h != 0 then [NatToString(t.h) + "h"] else []) + (if t.m != 0 then [NatToString(t.m) + "min"] else []) + [NatToString(t.s) + "s"]
  {
    var ps := TextPieces(t);
    assert NonEmpty(ps[2..]) == [ps[2]] by {
      assert ps[2..][1..] == [];
    }
    assert ps[1..][1..] == ps[2..];
  }

  /** The pieces of the text format are read back exactly. */
  lemma ParsePiecesOfText(t: Hms)
    ensures ParsePieces(NonEmpty(TextPieces(t))) == Some(t)
  {
    TextPiecesNonEmpty(t);
    var hp, mp, sp := NatToString(t.h) + "h", NatToString(t.m) + "min", NatToString(t.s) + "s";
    UnitPiece(t.s, "s");
    UnitPiece(t.h, "h");
    UnitPiece(t.m, "min");
    MinuteNotHour(t.m);
    if t.h != 0 && t.m != 0 {
      assert NonEmpty(TextPieces(t)) == [hp, mp, sp];
    } else if t.h != 0 {
      assert NonEmpty(TextPieces(t)) == [hp, sp];
    } else if t.m != 0 {
      assert NonEmpty(TextPieces(t)) == [mp, sp];
    } else {
      assert NonEmpty(TextPieces(t)) == [sp];
    }
  }

  /** The text format is read back exactly: a zero hour or minute count is what is left out. */
  lemma TextRoundTrip(t: Hms)
    ensures ParseText(TextDuration(t)) == Some(t)
  {
    PiecesHaveNoSpace(t);
    TextPiecesNonEmpty(t);
    SplitJoin(NonEmpty(TextPieces(t)), ' ');
    ParsePiecesOfText(t);
  }

  /** Both styles can be read back into the duration's components. */
  lemma FormatDurationRoundTrip(ms: nat)
    ensures ParseText(FormatDuration(ms, Text)) == Some(Components(ms))
    ensures ParseDigital(FormatDuration(ms, Digital)) == Some(Components(ms))
  {
    TextRoundTrip(Components(ms));
    DigitalRoundTrip(Components(ms));
  }

  /** Below a day, dayjs's year, month and day units take nothing away. */
  lemma BelowADayRest(ms: nat)
    requires ms < MsPerDay
    ensures ms % MsPerYear % MsPerMonth % MsPerDay == ms
  {
    assert MsPerDay == 86400000;
    assert MsPerMonth == 2628000000;
    assert ms % MsPerYear == ms;
    assert ms % MsPerMonth == ms;
  }

  /** Below a day the components are exact: they add up to the whole seconds of `ms`. */
  lemma ComponentsBelowADay(ms: nat)
    requires ms < MsPerDay
    ensures var t := Components(ms); t.h * 3600 + t.m * 60 + t.s == ms / MsPerSecond
  {
    BelowADayRest(ms);
    var inHour := ms % MsPerHour;
    var inMinute := inHour % MsPerMinute;
    assert ms == ms / MsPerHour * MsPerHour + inHour;
    assert inHour == inHour / MsPerMinute * MsPerMinute + inMinute;
  }

  lemma ComponentsUnderAMinute(ms: nat)
    requires ms < MsPerMinute
    ensures Components(ms) == Hms(0, 0, ms / MsPerSecond)
  {
    BelowADayRest(ms);
  }

  /** A duration under a minute is written as its whole seconds alone. */
  lemma UnderAMinute(ms: nat)
    requires ms < MsPerMinute
    ensures FormatDuration(ms, Text) == NatToString(ms / MsPerSecond) + "s"
    ensures FormatDuration(ms, Digital) == "00" + ":" + Pad2(ms / MsPerSecond)
  {
    ComponentsUnderAMinute(ms);
    var t := Components(ms);
    TextPiecesNonEmpty(t);
    assert NonEmpty(TextPieces(t)) == [NatToString(t.s) + "s"];
    assert Pad2(0) == "00" by { assert NatToString(0) == "0"; }
  }

  // ------------------------------------------------------------------ options

  datatype LogFormat = Simple | Detailed | Json

  /** `LoggerOptions`: each field may be absent. */
  datatype LoggerOptions = LoggerOptions(color: Option<bool>, format: Option<LogFormat>, timestamp: Option<bool>)

  /** `Required<LoggerOptions>` */
  datatype FullOptions = FullOptions(color: bool, format: LogFormat, timestamp: bool)

  const NoOptions := LoggerOptions(None, None, None)

  /** A full set of options, every field given. */
  function Given(o: FullOptions): LoggerOptions
  {
    LoggerOptions(Some(o.color), Some(o.format), Some(o.timestamp))
  }

  /** `{ ...base, ...over }`: the fields `over` gives replace those of `base`. */
  function Override(base: LoggerOptions, over: LoggerOptions): LoggerOptions
  {
    LoggerOptions(
      if over.color.Some? then over.color else base.color,
      if over.format.Some? then over.format else base.format,
      if over.timestamp.Some? then over.timestamp else base.timestamp)
  }

  /** `mergeOptions(options)`: colour and timestamps follow `isDebug`, the format is detailed, unless given. */
  function MergeOptions(o: LoggerOptions, isDebug: bool): FullOptions
  {
    FullOptions(o.color.GetOr(isDebug), o.format.GetOr(Detailed), o.timestamp.GetOr(isDebug))
  }

  /** Given fields are kept; only absent ones take defaults. */
  lemma MergeKeepsGiven(o: LoggerOptions, isDebug: bool)
    ensures Given(MergeOptions(o, isDebug)) == Override(Given(MergeOptions(NoOptions, isDebug)), o)
  {
  }

  /** Merging a full set of options changes nothing, whatever `isDebug` is. */
  lemma MergeGiven(o: FullOptions, isDebug: bool)
    ensures MergeOptions(Given(o), isDebug) == o
  {
  }

  /** Merging is idempotent. */
  lemma MergeIdempotent(o: LoggerOptions, isDebug: bool, isDebug': bool)
    ensures MergeOptions(Given(MergeOptions(o, isDebug)), isDebug') == MergeOptions(o, isDebug)
  {
    MergeGiven(MergeOptions(o, isDebug), isDebug');
  }

  // ------------------------------------------------------------------ namespaces

  /** kolorist's `cyan` */
  function Cyan(s: string): string { "\U{1b}[36m" + s + "\U{1b}[39m" }

  /** `formatNamespace(namespaces)`: nothing, or the namespaces joined by `:` in brackets. */
  function FormatNamespace(ns: seq<string>, color: bool): (r: string)
    ensures r == "" <==> |ns| == 0
  {
    if |ns| == 0 then ""
    else
      var joined := Join(ns, ":");
      if color then "[" + Cyan(joined) + "] " else "[" + joined + "] "
  }

  /** Without colour, the bracketed text splits back into the namespaces. */
  lemma FormatNamespaceRoundTrip(ns: seq<string>)
    requires |ns| > 0
    requires forall k :: 0 <= k < |ns| ==> ':' !in ns[k]
    ensures var r := FormatNamespace(ns, false);
      StartsWith(r, "[") && EndsWith(r, "] ") && Split(r[1..|r| - 2], ':') == ns
  {
    var r := FormatNamespace(ns, false);
    assert r[1..|r| - 2] == Join(ns, ":");
    SplitJoin(ns, ':');
  }

  // ------------------------------------------------------------------ levels

  /** The `@actions/core` functions a message can go to. */
  datatype CoreFunc = CoreDebug | CoreInfo | CoreWarning | CoreError

  datatype Emission = Emission(func: CoreFunc, message: string)

  /** `realLevel`: the four known levels map to themselves, anything else to info. */
  function RealLevel(level: string): (r: CoreFunc)
    ensures level !in {"debug", "info", "warning", "error"} ==> r == CoreInfo
  {
    if level == "debug" then CoreDebug
    else if level == "warning" then CoreWarning
    else if level == "error" then CoreError
    else CoreInfo
  }

  /** The core call `safeLog` makes: debug goes out through `core.info` and only in debug mode. */
  function Route(level: string, message: string, isDebug: bool): Option<Emission>
  {
    var target := RealLevel(level);
    if target == CoreDebug then (if isDebug then Some(Emission(CoreInfo, message)) else None)
    else Some(Emission(target, message))
  }

  /** What goes out and where, for every level. */
  lemma RouteLevels(level: string, message: string, isDebug: bool)
    ensures Route(level, message, isDebug).None? <==> level == "debug" && !isDebug
    ensures Route(level, message, isDebug).Some? ==> Route(level, message, isDebug).value.message == message
    ensures Route(level, message, isDebug).Some? ==>
      Route(level, message, isDebug).value.func ==
        if level == "warning" then CoreWarning else if level == "error" then CoreError else CoreInfo
  {
  }

  /** Nothing is ever written with `core.debug`. */
  lemma RouteNeverCoreDebug(level: string, message: string, isDebug: bool)
    ensures Route(level, message, isDebug).Some? ==> Route(level, message, isDebug).value.func != CoreDebug
  {
  }

  // ------------------------------------------------------------------ loggers

  class Logger {
    var namespaces: seq<string>
    var options: FullOptions

    /** `new Logger(options, namespaces)`: merged options and a copy of the namespaces. */
    constructor(o: LoggerOptions, ns: seq<string>, isDebug: bool)
      ensures options == MergeOptions(o, isDebug) && namespaces == ns
    {
      options := MergeOptions(o, isDebug);
      namespaces := ns;
    }

    /** This logger's namespace prefix. */
    function Prefix(): (r: string)
      reads this
      ensures r == "" <==> |namespaces| == 0
    {
      FormatNamespace(namespaces, options.color)
    }

    /** `child(...namespace)`: the same options, the namespaces extended; this logger stays as it is. */
    method Child(more: seq<string>, isDebug: bool) returns (l: Logger)
      ensures fresh(l)
      ensures l.namespaces == namespaces + more && l.options == options
    {
      MergeGiven(options, isDebug);
      l := new Logger(Given(options), namespaces + more, isDebug);
    }

    /** `safeLog(level, message)` for a message already formatted. */
    method SafeLog(level: string, message: string, isDebug: bool) returns (out: Option<Emission>)
      ensures out == Route(level, message, isDebug)
    {
      var target := RealLevel(level);
      if target == CoreDebug && isDebug {
        out := Some(Emission(CoreInfo, message));
      } else if target != CoreDebug {
        out := Some(Emission(target, message));
      } else {
        out := None;
      }
    }

    method Debug(message: string, isDebug: bool) returns (out: Option<Emission>)
      ensures out == (if isDebug then Some(Emission(CoreInfo, message)) else None)
    {
      out := SafeLog("debug", message, isDebug);
    }

    method Info(message: string, isDebug: bool) returns (out: Option<Emission>)
      ensures out == Some(Emission(CoreInfo, message))
    {
      out := SafeLog("info", message, isDebug);
    }

    method Warn(message: string, isDebug: bool) returns (out: Option<Emission>)
      ensures out == Some(Emission(CoreWarning, message))
    {
      out := SafeLog("warning", message, isDebug);
    }

    method Error(message: string, isDebug: bool) returns (out: Option<Emission>)
      ensures out == Some(Emission(CoreError, message))
    {
      out := SafeLog("error", message, isDebug);
    }
  }

  /** The first argument of `createLogger`: absent, a namespace, or options. */
  datatype FirstArg = NoArg | Namespace(name: string) | WithOptions(o: LoggerOptions)

  /** The options and namespaces `createLogger(first, ...rest)` builds its logger from. */
  function CreateArgs(first: FirstArg, rest: seq<string>): (LoggerOptions, seq<string>)
  {
    match first
    case Namespace(name) => (NoOptions, [name] + rest)
    case WithOptions(o) => (o, rest)
    case NoArg => (NoOptions, [])
  }

  /** A leading string makes every argument a namespace; options keep the rest as namespaces; no first argument drops them. */
  lemma CreateArgsCases(first: FirstArg, rest: seq<string>)
    ensures first.Namespace? ==> CreateArgs(first, rest).1 == [first.name] + rest && CreateArgs(first, rest).0 == NoOptions
    ensures first.WithOptions? ==> CreateArgs(first, rest) == (first.o, rest)
    ensures first.NoArg? ==> CreateArgs(first, rest) == (NoOptions, [])
    ensures |CreateArgs(first, rest).1| <= |rest| + 1
  {
  }

  method CreateLogger(first: FirstArg, rest: seq<string>, isDebug: bool) returns (l: Logger)
    ensures fresh(l)
    ensures l.options == MergeOptions(CreateArgs(first, rest).0, isDebug) && l.namespaces == CreateArgs(first, rest).1
  {
    match first {
      case Namespace(name) =>
        l := new Logger(NoOptions, [name] + rest, isDebug);
      case WithOptions(o) =>
        if |rest| > 0 {
          l := new Logger(o, rest, isDebug);
        } else {
          l := new Logger(o, [], isDebug);
        }
      case NoArg =>
        l := new Logger(NoOptions, [], isDebug);
    }
  }

  /**
   * The module state: `globalLoggerOptions`, `_logger`, and the exported
   * `logger`, which is bound once to the first `_logger`.
   */
  class LoggerRegistry {
    var globalOptions: FullOptions
    var current: Logger
    const exported: Logger

    constructor(isDebug: bool)
      ensures globalOptions == MergeOptions(NoOptions, isDebug)
      ensures current == exported && current.options == globalOptions && current.namespaces == []
    {
      var g := MergeOptions(NoOptions, isDebug);
      MergeGiven(g, isDebug);
      var l := new Logger(Given(g), [], isDebug);
      globalOptions := g;
      current := l;
      exported := l;
    }

    /** `updateLoggerConfig(options)`: new global options and a new `_logger`; `logger` is untouched. */
    method UpdateLoggerConfig(o: LoggerOptions, isDebug: bool)
      modifies this
      ensures globalOptions == MergeOptions(Override(Given(old(globalOptions)), o), isDebug)
      ensures fresh(current) && current.options == globalOptions && current.namespaces == []
      ensures exported.options == old(exported.options) && exported.namespaces == old(exported.namespaces)
    {
      var g := MergeOptions(Override(Given(globalOptions), o), isDebug);
      MergeGiven(g, isDebug);
      current := new Logger(Given(g), [], isDebug);
      globalOptions := g;
    }

    /** `setLogFormat(format)`: only the format changes. */
    method SetLogFormat(f: LogFormat, isDebug: bool)
      modifies this
      ensures globalOptions == old(globalOptions).(format := f)
      ensures fresh(current) && current.options == globalOptions && current.namespaces == []
      ensures exported.options == old(exported.options)
    {
      UpdateLoggerConfig(LoggerOptions(None, Some(f), None), isDebug);
    }
  }
}
