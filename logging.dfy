/** The logger of src/utils/logging/index.ts: loggers emit entries to their
    manager, whose listeners receive them; the manager resolves a module's
    minimum level by the longest configured prefix of its name, and adds the
    console listener at most once. */
module Logging {
  import opened Text
  import opened JsValues

  /** `levelToInt(level)`: the level table, looked up case-insensitively;
      anything else is 99. */
  function LevelToInt(level: string): (r: int)
    ensures 1 <= r <= 5 || r == 99
    ensures r == 99 <==> (Lower(level) !in {"trace", "debug", "info", "warn", "error"})
  {
    var l := Lower(level);
    if l == "trace" then 1
    else if l == "debug" then 2
    else if l == "info" then 3
    else if l == "warn" then 4
    else if l == "error" then 5
    else 99
  }

  /** The table's order, and case does not matter. */
  lemma LevelOrder(level: string)
    ensures LevelToInt("trace") < LevelToInt("debug") < LevelToInt("info") < LevelToInt("warn") < LevelToInt("error")
    ensures LevelToInt(Lower(level)) == LevelToInt(level)
    ensures LevelToInt("WARN") == LevelToInt("Warn") == 4
  {
    LowerIdempotent(level);
    assert Lower("trace") == "trace" && Lower("debug") == "debug" && Lower("info") == "info";
    assert Lower("warn") == "warn" && Lower("error") == "error";
    assert Lower("WARN") == "warn";
    assert Lower("Warn") == "warn";
  }

  /** `s.indexOf(needle)`: the first offset of `needle`, or -1. */
  function IndexOf(s: string, needle: string): (r: int)
    ensures r == -1 <==> !Contains(s, needle)
    ensures r != -1 ==> OccursAt(s, needle, r) && forall j :: 0 <= j < r ==> !OccursAt(s, needle, j)
    decreases |s|
  {
    if StartsWith(s, needle) then 0
    else if |s| == 0 then -1
    else
      var k := IndexOf(s[1..], needle);
      if k == -1 then -1
      else
        OccursShift(s, needle);
        k + 1
  }

  /** An occurrence past the first character is one in the tail. */
  lemma OccursShift(s: string, needle: string)
    requires |s| > 0
    ensures forall j :: 1 <= j ==> (OccursAt(s, needle, j) <==> OccursAt(s[1..], needle, j - 1))
  {
    forall j | 1 <= j
      ensures OccursAt(s, needle, j) <==> OccursAt(s[1..], needle, j - 1)
    {
      if 0 <= j - 1 <= |s| - 1 - |needle| {
        var here := s[j..j + |needle|];
        var there := s[1..][j - 1..j - 1 + |needle|];
        forall k | 0 <= k < |needle| ensures here[k] == there[k] {
          assert here[k] == s[j + k] && there[k] == s[1..][j - 1 + k];
        }
        assert here == there;
      }
    }
  }

  /** `s.slice(start, s.length)` for `start >= 0`. */
  function SliceFrom(s: string, start: nat): string {
    if start >= |s| then "" else s[start..]
  }

  const InternalFrame := "at Logger.Object."

  /** The first stack line from `i` on that is not a logger frame. */
  function CallerIndex(lines: seq<string>, i: nat): (r: nat)
    requires i <= |lines|
    ensures i <= r <= |lines|
    ensures forall j :: i <= j < r ==> Contains(lines[j], InternalFrame)
    ensures r < |lines| ==> !Contains(lines[r], InternalFrame)
    decreases |lines| - i
  {
    if i < |lines| && Contains(lines[i], InternalFrame) then CallerIndex(lines, i + 1) else i
  }

  /** The `location` of an entry, from the stack lines of `new Error("")`
      (None when the stack is empty): the caller frame after "at ". */
  function Location(stack: Option<seq<string>>): Option<string> {
    match stack
    case None => None
    case Some(lines) =>
      if |lines| < 1 then None
      else
        var idx := CallerIndex(lines, 1);
        if idx < |lines| then Some(SliceFrom(lines[idx], IndexOf(lines[idx], "at ") + 3)) else None
  }

  datatype LogEntry = LogEntry(level: string, moduleName: string, location: Option<string>, message: string)

  datatype Channel = ConsoleTrace | ConsoleDebug | ConsoleInfo | ConsoleWarn | ConsoleError | ConsoleLog

  datatype ConsoleCall = ConsoleCall(channel: Channel, text: string)

  /** What the console listener prints for an entry: the level picks the
      console method by exact name, any other level goes to `console.log`
      with the level in braces. */
  function ConsoleLine(e: LogEntry): (c: ConsoleCall)
    ensures (e.level !in {"trace", "debug", "info", "warn", "error"}) <==> c.channel == ConsoleLog
  {
    var msg := (if e.location.Some? then e.location.value else "undefined") + " [" + e.moduleName + "] " + e.message;
    if e.level == "trace" then ConsoleCall(ConsoleTrace, msg)
    else if e.level == "debug" then ConsoleCall(ConsoleDebug, msg)
    else if e.level == "info" then ConsoleCall(ConsoleInfo, msg)
    else if e.level == "warn" then ConsoleCall(ConsoleWarn, msg)
    else if e.level == "error" then ConsoleCall(ConsoleError, msg)
    else ConsoleCall(ConsoleLog, "{" + e.level + "} " + msg)
  }

  /** A level the logger accepts in any case reaches the console under its
      exact spelling only: "INFO" is logged, and printed with `console.log`. */
  lemma UppercaseLevelPrintsAsLog(moduleName: string, message: string)
    ensures LevelToInt("INFO") == 3
    ensures ConsoleLine(LogEntry("INFO", moduleName, None, message)).channel == ConsoleLog
  {
    assert Lower("INFO") == "info";
  }

  datatype Listener = ConsoleListener | Subscriber(tag: int)

  /** What the listeners print when an entry is emitted. */
  function Echoes(listeners: seq<Listener>, e: LogEntry): (out: seq<ConsoleCall>)
    ensures |out| == ConsoleCount(listeners)
    ensures forall c :: c in out ==> c == ConsoleLine(e)
    decreases |listeners|
  {
    if |listeners| == 0 then []
    else (if listeners[0] == ConsoleListener then [ConsoleLine(e)] else []) + Echoes(listeners[1..], e)
  }

  function ConsoleCount(listeners: seq<Listener>): nat
    decreases |listeners|
  {
    if |listeners| == 0 then 0
    else (if listeners[0] == ConsoleListener then 1 else 0) + ConsoleCount(listeners[1..])
  }

  lemma {:induction false} ConsoleCountAppend(a: seq<Listener>, b: seq<Listener>)
    ensures ConsoleCount(a + b) == ConsoleCount(a) + ConsoleCount(b)
    decreases |a|
  {
    if |a| > 0 {
      assert (a + b)[1..] == a[1..] + b;
      ConsoleCountAppend(a[1..], b);
    } else {
      assert a + b == b;
    }
  }

  /** The default options: every module under "" at "info". */
  const DefaultMinLevels: seq<(string, string)> := [("", "info")]

  /** The (minLevel, match) pair after the `for-in` loop of `getLogger` has
      seen `levels`: a key that prefixes the module and is at least as long
      as the current match takes over. */
  function Scan(levels: seq<(string, string)>, moduleName: string): (string, string)
    decreases |levels|
  {
    if |levels| == 0 then ("none", "")
    else
      var prev := Scan(levels[..|levels| - 1], moduleName);
      var e := levels[|levels| - 1];
      if StartsWith(moduleName, e.0) && |e.0| >= |prev.1| then (e.1, e.0) else prev
  }

  /** Entry `i` prefixes the moduleName, no prefixing key is longer, and no
      later prefixing key is as long. */
  predicate Chosen(levels: seq<(string, string)>, moduleName: string, i: int) {
    0 <= i < |levels| && StartsWith(moduleName, levels[i].0)
    && (forall j :: 0 <= j < |levels| && StartsWith(moduleName, levels[j].0) ==> |levels[j].0| <= |levels[i].0|)
    && (forall j :: i < j < |levels| && StartsWith(moduleName, levels[j].0) ==> |levels[j].0| < |levels[i].0|)
  }

  /** The loop selects the value of the longest key that prefixes the
      module, the last of equally long ones; with no such key it is "none". */
  lemma {:induction false} ScanMeaning(levels: seq<(string, string)>, moduleName: string)
    ensures (forall j :: 0 <= j < |levels| ==> !StartsWith(moduleName, levels[j].0)) ==>
      Scan(levels, moduleName) == ("none", "")
    ensures (exists j :: 0 <= j < |levels| && StartsWith(moduleName, levels[j].0)) ==>
      exists i :: Chosen(levels, moduleName, i) && Scan(levels, moduleName) == (levels[i].1, levels[i].0)
    decreases |levels|
  {
    if |levels| > 0 {
      var n := |levels| - 1;
      var init := levels[..n];
      var e := levels[n];
      ScanMeaning(init, moduleName);
      var prev := Scan(init, moduleName);
      var takes := StartsWith(moduleName, e.0) && |e.0| >= |prev.1|;
      assert Scan(levels, moduleName) == if takes then (e.1, e.0) else prev;
      if exists j :: 0 <= j < n && StartsWith(moduleName, init[j].0) {
        var i :| Chosen(init, moduleName, i) && prev == (init[i].1, init[i].0);
        if takes {
          ChosenByLast(levels, moduleName, i);
          assert Chosen(levels, moduleName, n) && Scan(levels, moduleName) == (levels[n].1, levels[n].0);
        } else {
          ChosenKept(levels, moduleName, i);
          assert Chosen(levels, moduleName, i) && Scan(levels, moduleName) == (levels[i].1, levels[i].0);
        }
      } else {
        NoPrefixBefore(levels, init, moduleName);
        if StartsWith(moduleName, e.0) {
          assert Chosen(levels, moduleName, n) && Scan(levels, moduleName) == (levels[n].1, levels[n].0);
        }
      }
    }
  }

  lemma ChosenByLast(levels: seq<(string, string)>, moduleName: string, i: int)
    requires |levels| > 0 && Chosen(levels[..|levels| - 1], moduleName, i)
    requires StartsWith(moduleName, levels[|levels| - 1].0) && |levels[|levels| - 1].0| >= |levels[i].0|
    ensures Chosen(levels, moduleName, |levels| - 1)
  {
    var n := |levels| - 1;
    forall j | 0 <= j < |levels| && StartsWith(moduleName, levels[j].0)
      ensures |levels[j].0| <= |levels[n].0|
    {
      if j < n {
        assert levels[..n][j] == levels[j];
      }
    }
  }

  lemma ChosenKept(levels: seq<(string, string)>, moduleName: string, i: int)
    requires |levels| > 0 && Chosen(levels[..|levels| - 1], moduleName, i)
    requires !(StartsWith(moduleName, levels[|levels| - 1].0) && |levels[|levels| - 1].0| >= |levels[i].0|)
    ensures Chosen(levels, moduleName, i)
  {
    var n := |levels| - 1;
    assert levels[..n][i] == levels[i];
    forall j | 0 <= j < |levels| && StartsWith(moduleName, levels[j].0)
      ensures |levels[j].0| <= |levels[i].0|
      ensures i < j ==> |levels[j].0| < |levels[i].0|
    {
      if j < n {
        assert levels[..n][j] == levels[j];
      }
    }
  }

  lemma NoPrefixBefore(levels: seq<(string, string)>, init: seq<(string, string)>, moduleName: string)
    requires |levels| > 0 && init == levels[..|levels| - 1]
    requires !exists j :: 0 <= j < |init| && StartsWith(moduleName, init[j].0)
    ensures forall j :: 0 <= j < |levels| - 1 ==> !StartsWith(moduleName, levels[j].0)
    ensures StartsWith(moduleName, levels[|levels| - 1].0) ==> Chosen(levels, moduleName, |levels| - 1)
  {
    var n := |levels| - 1;
    forall j | 0 <= j < n
      ensures !StartsWith(moduleName, levels[j].0)
    {
      assert levels[..n][j] == levels[j];
    }
  }

  /** With the default options every module resolves to "info". */
  lemma DefaultIsInfo(moduleName: string)
    ensures Scan(DefaultMinLevels, moduleName).0 == "info"
  {
    assert StartsWith(moduleName, "");
  }

  class LogManager {
    var minLevels: seq<(string, string)>
    var consoleLoggerRegistered: bool
    var listeners: seq<Listener>
    /** What the listeners received and what the console printed. */
    var emitted: seq<LogEntry>
    var console: seq<ConsoleCall>

    /** The console listener is registered by `registerConsoleLogger`
        only, and then exactly once. */
    ghost predicate Valid()
      reads this
    {
      ConsoleCount(listeners) == if consoleLoggerRegistered then 1 else 0
    }

    constructor ()
      ensures minLevels == DefaultMinLevels && !consoleLoggerRegistered && listeners == []
      ensures emitted == [] && console == [] && Valid()
    {
      minLevels := DefaultMinLevels;
      consoleLoggerRegistered := false;
      listeners := [];
      emitted := [];
      console := [];
    }

    /** `configure(options)`: the merge is shallow, so the new `minLevels`
        replaces the old table whole. */
    method Configure(newMinLevels: seq<(string, string)>) returns (r: LogManager)
      modifies this`minLevels
      ensures r == this && minLevels == newMinLevels
    {
      minLevels := newMinLevels;
      r := this;
    }

    /** The loop of `getLogger(moduleName)` that picks the minimum level. */
    method MinLevelFor(moduleName: string) returns (minLevel: string)
      ensures (forall j :: 0 <= j < |minLevels| ==> !StartsWith(moduleName, minLevels[j].0)) ==> minLevel == "none"
      ensures (exists j :: 0 <= j < |minLevels| && StartsWith(moduleName, minLevels[j].0)) ==>
        exists i :: Chosen(minLevels, moduleName, i) && minLevel == minLevels[i].1
    {
      minLevel := "none";
      var match_ := "";
      var i := 0;
      while i < |minLevels|
        invariant 0 <= i <= |minLevels|
        invariant (minLevel, match_) == Scan(minLevels[..i], moduleName)
      {
        var key := minLevels[i].0;
        assert minLevels[..i + 1][..i] == minLevels[..i];
        if StartsWith(moduleName, key) && |key| >= |match_| {
          minLevel := minLevels[i].1;
          match_ := key;
        }
        i := i + 1;
      }
      assert minLevels[..i] == minLevels;
      ScanMeaning(minLevels, moduleName);
    }

    /** `getLogger(moduleName)`: the resolved level is handed to a logger
        that does not keep it. */
    method GetLogger(moduleName: string) returns (logger: Logger)
      ensures fresh(logger) && logger.manager == this && logger.moduleName == moduleName && logger.minLevel == 1
    {
      var minLevel := MinLevelFor(moduleName);
      logger := new Logger(this, moduleName, minLevel);
    }

    /** `onLogEntry(listener)` */
    method OnLogEntry(tag: int) returns (r: LogManager)
      requires Valid()
      modifies this`listeners
      ensures r == this && listeners == old(listeners) + [Subscriber(tag)] && Valid()
    {
      ConsoleCountAppend(listeners, [Subscriber(tag)]);
      listeners := listeners + [Subscriber(tag)];
      r := this;
    }

    /** `registerConsoleLogger()`: a second call changes nothing. */
    method RegisterConsoleLogger() returns (r: LogManager)
      requires Valid()
      modifies this`listeners, this`consoleLoggerRegistered
      ensures r == this && consoleLoggerRegistered && Valid() && ConsoleCount(listeners) == 1
      ensures old(consoleLoggerRegistered) ==> listeners == old(listeners)
      ensures !old(consoleLoggerRegistered) ==> listeners == old(listeners) + [ConsoleListener]
    {
      r := this;
      if consoleLoggerRegistered {
        return;
      }
      ConsoleCountAppend(listeners, [ConsoleListener]);
      listeners := listeners + [ConsoleListener];
      consoleLoggerRegistered := true;
    }

    /** `emit('log', entry)` */
    method Emit(entry: LogEntry)
      modifies this`emitted, this`console
      ensures emitted == old(emitted) + [entry]
      ensures console == old(console) + Echoes(listeners, entry)
    {
      emitted := emitted + [entry];
      console := console + Echoes(listeners, entry);
    }
  }

  class Logger {
    const manager: LogManager
    const moduleName: string
    const minLevel: int := 1

    /** The `minLevel` argument is ignored: every logger starts at 1. */
    constructor (manager: LogManager, moduleName: string, minLevel: string)
      ensures this.manager == manager && this.moduleName == moduleName && this.minLevel == 1
    {
      this.manager := manager;
      this.moduleName := moduleName;
    }

    /** `log(logLevel, message)`; `stack` is the line list of a fresh
        `Error`'s stack, None when it is empty. No level is ever below 1,
        so every call emits its entry with the level as passed. */
    method Log(logLevel: string, message: string, stack: Option<seq<string>>)
      modifies manager`emitted, manager`console
      ensures manager.emitted == old(manager.emitted) + [LogEntry(logLevel, moduleName, Location(stack), message)]
      ensures manager.console == old(manager.console) +
        Echoes(manager.listeners, LogEntry(logLevel, moduleName, Location(stack), message))
    {
      var level := LevelToInt(logLevel);
      if level < minLevel {
        return;
      }
      var location: Option<string> := None;
      if stack.Some? {
        var lines := stack.value;
        var idx := 1;
        while idx < |lines| && Contains(lines[idx], InternalFrame)
          invariant 1 <= idx
          invariant |lines| >= 1 ==> idx <= |lines|
          invariant |lines| >= 1 ==> CallerIndex(lines, 1) == CallerIndex(lines, idx)
          invariant |lines| < 1 ==> idx == 1
          decreases |lines| - idx
        {
          idx := idx + 1;
        }
        if idx < |lines| {
          location := Some(SliceFrom(lines[idx], IndexOf(lines[idx], "at ") + 3));
        }
      }
      manager.Emit(LogEntry(logLevel, moduleName, location, message));
    }

    method Trace(message: string, stack: Option<seq<string>>)
      modifies manager`emitted, manager`console
      ensures manager.emitted == old(manager.emitted) + [LogEntry("trace", moduleName, Location(stack), message)]
      ensures manager.console == old(manager.console) +
        Echoes(manager.listeners, LogEntry("trace", moduleName, Location(stack), message))
    {
      Log("trace", message, stack);
    }

    method Debug(message: string, stack: Option<seq<string>>)
      modifies manager`emitted, manager`console
      ensures manager.emitted == old(manager.emitted) + [LogEntry("debug", moduleName, Location(stack), message)]
      ensures manager.console == old(manager.console) +
        Echoes(manager.listeners, LogEntry("debug", moduleName, Location(stack), message))
    {
      Log("debug", message, stack);
    }

    method Info(message: string, stack: Option<seq<string>>)
      modifies manager`emitted, manager`console
      ensures manager.emitted == old(manager.emitted) + [LogEntry("info", moduleName, Location(stack), message)]
      ensures manager.console == old(manager.console) +
        Echoes(manager.listeners, LogEntry("info", moduleName, Location(stack), message))
    {
      Log("info", message, stack);
    }

    method Warn(message: string, stack: Option<seq<string>>)
      modifies manager`emitted, manager`console
      ensures manager.emitted == old(manager.emitted) + [LogEntry("warn", moduleName, Location(stack), message)]
      ensures manager.console == old(manager.console) +
        Echoes(manager.listeners, LogEntry("warn", moduleName, Location(stack), message))
    {
      Log("warn", message, stack);
    }

    method Error(message: string, stack: Option<seq<string>>)
      modifies manager`emitted, manager`console
      ensures manager.emitted == old(manager.emitted) + [LogEntry("error", moduleName, Location(stack), message)]
      ensures manager.console == old(manager.console) +
        Echoes(manager.listeners, LogEntry("error", moduleName, Location(stack), message))
    {
      Log("error", message, stack);
    }
  }
}
