/** The logging session of `logger.py`: the process-wide `SERIAL` and the
    append-only log file, here an in-memory text, with standard output as a
    sequence of printed items. */
module Session {
  import opened Serials
  import opened LogText

  datatype Option<T> = None | Some(value: T)

  /** A value handed to `log` or `logsilent`. */
  datatype Message =
    | Text(text: string)                      // not callable; `str(message)` is `text`
    | Callable(source: string, repr: string)  // a function: its stripped source, and what `print` shows for it

  /** What `logsilent` writes for a message: its source text for a callable, `str(message)` otherwise. */
  function ToText(m: Message): string {
    match m
    case Text(text) => text
    case Callable(source, _) => source
  }

  /** What `print(message)` in `log` shows: the object itself, so a callable prints as its repr. */
  function Printed(m: Message): string {
    match m
    case Text(text) => text
    case Callable(_, repr) => repr
  }

  /** `PLOT_PATH / f'{SERIAL}.pdf'`. */
  function PlotPath(plotDir: string, serial: string): string {
    plotDir + "/" + serial + ".pdf"
  }

  /** Everything the module's operations read or change. */
  datatype State = State(serial: Option<string>, logText: string, stdout: seq<string>)

  // ------------------------------------------------------------ the operations as functions

  /** `gen_serial`: a fresh serial becomes the current one and a header is appended. */
  function GenSerialStep(st: State, clock: Reading, stamp: string): (r: State)
    requires ValidReading(clock)
    ensures r.serial == Some(Serialize(clock))
    ensures st.logText <= r.logText && r.stdout == st.stdout
  {
    var s := Serialize(clock);
    State(Some(s), st.logText + HeaderBlock(|st.logText| > 0, s, stamp), st.stdout)
  }

  /** `if SERIAL == None: gen_serial()`. */
  function EnsureSession(st: State, clock: Reading, stamp: string): (r: State)
    requires ValidReading(clock)
    ensures r.serial.Some? && st.logText <= r.logText && r.stdout == st.stdout
    ensures st.serial.Some? ==> r == st
  {
    if st.serial.None? then GenSerialStep(st, clock, stamp) else st
  }

  /** `logsilent(message)`. */
  function LogSilentStep(st: State, m: Message, clock: Reading, stamp: string): (r: State)
    requires ValidReading(clock)
    ensures r.serial.Some? && st.logText <= r.logText && r.stdout == st.stdout
    ensures st.serial.Some? ==> r.serial == st.serial
  {
    var s := EnsureSession(st, clock, stamp);
    s.(logText := s.logText + ToText(m) + "\n")
  }

  /** `log(message)`: `logsilent(message)`, then `print(message)`. */
  function LogStep(st: State, m: Message, clock: Reading, stamp: string): (r: State)
    requires ValidReading(clock)
    ensures r.serial.Some? && st.logText <= r.logText && r.stdout == st.stdout + [Printed(m)]
    ensures st.serial.Some? ==> r.serial == st.serial
  {
    var s := LogSilentStep(st, m, clock, stamp);
    s.(stdout := s.stdout + [Printed(m)])
  }

  /** `logfig()` without the plotting call: the new state and the file the figure goes to. */
  function LogFigStep(st: State, clock: Reading, stamp: string, plotDir: string): (r: (State, string))
    requires ValidReading(clock)
    ensures r.0.serial.Some? && r.1 == PlotPath(plotDir, r.0.serial.value)
    ensures st.logText <= r.0.logText && r.0.stdout == st.stdout
    ensures st.serial.Some? ==> r.0 == st
    ensures st.serial.None? ==> r.0 == GenSerialStep(st, clock, stamp)
  {
    var s := EnsureSession(st, clock, stamp);
    (s, PlotPath(plotDir, s.serial.value))
  }

  // ------------------------------------------------------------ properties of one step

  lemma SerialNoNewline(clock: Reading)
    requires ValidReading(clock)
    ensures NoNewline(Serialize(clock))
  {
    var s := Serialize(clock);
    assert forall k :: 0 <= k < |s| ==> s[k] != '\n' by {
      forall k | 0 <= k < |s| ensures s[k] != '\n' { assert IsDigit(s[k]); }
    }
  }

  /** `gen_serial` appends one header block and nothing else: padded by a
      blank-line pair exactly when the log was non-empty, then the four lines
      banner, serial, timestamp, banner. */
  lemma GenSerialHeader(st: State, clock: Reading, stamp: string)
    requires ValidReading(clock) && NoNewline(stamp)
    ensures var r := GenSerialStep(st, clock, stamp);
            var added := r.logText[|st.logText|..];
            ((|added| >= 2 && added[..2] == "\n\n") <==> |st.logText| > 0) &&
            SplitLines(added) == HeaderLines(|st.logText| > 0, Serialize(clock), stamp)
  {
    var r := GenSerialStep(st, clock, stamp);
    assert r.logText[|st.logText|..] == HeaderBlock(|st.logText| > 0, Serialize(clock), stamp);
    SerialNoNewline(clock);
    HeaderShape(|st.logText| > 0, Serialize(clock), stamp);
  }

  /** Without a session, `logsilent` starts one with the clock's serial, and
      the log grows by that one header followed by the message line. */
  lemma LogSilentStartsSession(st: State, m: Message, clock: Reading, stamp: string)
    requires ValidReading(clock) && st.serial.None?
    ensures var r := LogSilentStep(st, m, clock, stamp);
            r.serial == Some(Serialize(clock)) &&
            r.logText == st.logText + HeaderBlock(|st.logText| > 0, Serialize(clock), stamp) + JoinLines([ToText(m)]) &&
            r.stdout == st.stdout
  {
    assert JoinLines([ToText(m)]) == ToText(m) + "\n";
  }

  /** With a session, `logsilent` appends exactly the message line and changes nothing else. */
  lemma LogSilentInSession(st: State, m: Message, clock: Reading, stamp: string)
    requires ValidReading(clock) && st.serial.Some?
    ensures LogSilentStep(st, m, clock, stamp) == st.(logText := st.logText + JoinLines([ToText(m)]))
  {
    assert JoinLines([ToText(m)]) == ToText(m) + "\n";
  }

  /** Logging the same message twice writes it twice: there is no deduplication. */
  lemma NoDeduplication(st: State, m: Message, c1: Reading, t1: string, c2: Reading, t2: string)
    requires ValidReading(c1) && ValidReading(c2) && st.serial.Some?
    ensures LogSilentStep(LogSilentStep(st, m, c1, t1), m, c2, t2).logText ==
            st.logText + JoinLines([ToText(m), ToText(m)])
  {
    JoinLinesCons(ToText(m), [ToText(m)]);
    JoinLinesCons(ToText(m), []);
  }

  /** `log` has the effect of `logsilent` on the session and the log, and
      prints the message once; `logsilent` prints nothing. */
  lemma LogEchoes(st: State, m: Message, clock: Reading, stamp: string)
    requires ValidReading(clock)
    ensures var silent := LogSilentStep(st, m, clock, stamp);
            var loud := LogStep(st, m, clock, stamp);
            loud.serial == silent.serial && loud.logText == silent.logText &&
            loud.stdout == st.stdout + [Printed(m)] && silent.stdout == st.stdout
  {
  }

  /** With a session, `logfig` changes nothing and names the figure after the current serial. */
  lemma LogFigInSession(st: State, clock: Reading, stamp: string, plotDir: string)
    requires ValidReading(clock) && st.serial.Some?
    ensures LogFigStep(st, clock, stamp, plotDir) == (st, plotDir + "/" + st.serial.value + ".pdf")
  {
  }

  // ------------------------------------------------------------ the log as a sequence of entries

  /** One log entry: the header's serial and timestamp, and the message lines after it. */
  datatype Entry = Entry(serial: string, stamp: string, lines: seq<string>)

  /** The lines of one entry: its header, padded or not, then its messages. */
  function EntryLines(e: Entry, padded: bool): seq<string> {
    HeaderLines(padded, e.serial, e.stamp) + e.lines
  }

  /** The lines of consecutive entries; every entry but possibly the first is padded. */
  function LogLines(es: seq<Entry>, padFirst: bool): seq<string> {
    if es == [] then [] else EntryLines(es[0], padFirst) + LogLines(es[1..], true)
  }

  /** The log is what was in the file before the process started, followed by
      the lines of this process's entries; the first entry is padded exactly
      when that earlier text is non-empty. There is a current serial exactly
      when there is an entry, and it is the serial in the last entry's header. */
  ghost predicate Structured(st: State, initial: string, es: seq<Entry>) {
    st.logText == initial + JoinLines(LogLines(es, |initial| > 0)) &&
    if es == [] then st.serial.None? else st.serial == Some(es[|es| - 1].serial)
  }

  function OpenEntry(es: seq<Entry>, serial: string, stamp: string): seq<Entry> {
    es + [Entry(serial, stamp, [])]
  }

  function AddLine(es: seq<Entry>, line: string): seq<Entry>
    requires es != []
  {
    var last := es[|es| - 1];
    es[..|es| - 1] + [last.(lines := last.lines + [line])]
  }

  /** Regrouping a concatenation; stated so a proof can name the step. */
  lemma AppendAssoc(a: string, b: string, c: string)
    ensures (a + b) + c == a + (b + c)
  {
  }

  lemma {:induction false} LogLinesSnoc(es: seq<Entry>, e: Entry, padFirst: bool)
    ensures LogLines(es + [e], padFirst) == LogLines(es, padFirst) + EntryLines(e, padFirst || es != [])
  {
    if es == [] {
      assert es + [e] == [e];
      assert [e][1..] == [];
    } else {
      assert (es + [e])[0] == es[0];
      assert (es + [e])[1..] == es[1..] + [e];
      LogLinesSnoc(es[1..], e, true);
    }
  }

  lemma LogLinesAddLine(es: seq<Entry>, line: string, padFirst: bool)
    requires es != []
    ensures LogLines(AddLine(es, line), padFirst) == LogLines(es, padFirst) + [line]
  {
    var front := es[..|es| - 1];
    var last := es[|es| - 1];
    var last' := last.(lines := last.lines + [line]);
    var p := padFirst || front != [];
    assert es == front + [last];
    LogLinesSnoc(front, last, padFirst);
    LogLinesSnoc(front, last', padFirst);
    var hl := HeaderLines(p, last.serial, last.stamp);
    assert EntryLines(last', p) == EntryLines(last, p) + [line];
    assert LogLines(front, padFirst) + (EntryLines(last, p) + [line]) ==
           LogLines(front, padFirst) + EntryLines(last, p) + [line];
  }

  lemma AddLineLast(es: seq<Entry>, e: Entry, line: string)
    ensures AddLine(es + [e], line) == es + [e.(lines := e.lines + [line])]
  {
    assert (es + [e])[..|es|] == es;
  }

  /** The log ends with its last entry, whose header carries the current serial:
      a message is never logged without a known serial. */
  lemma LastHeaderCarriesSerial(st: State, initial: string, es: seq<Entry>)
    requires Structured(st, initial, es) && st.serial.Some?
    ensures EndsWith(st.logText,
              JoinLines(HeaderLines(|initial| > 0 || |es| > 1, st.serial.value, es[|es| - 1].stamp) + es[|es| - 1].lines))
  {
    var front := es[..|es| - 1];
    var last := es[|es| - 1];
    assert es == front + [last];
    LogLinesSnoc(front, last, |initial| > 0);
    var tail := EntryLines(last, |initial| > 0 || front != []);
    JoinLinesAppend(LogLines(front, |initial| > 0), tail);
    var before := initial + JoinLines(LogLines(front, |initial| > 0));
    assert st.logText == before + JoinLines(tail);
  }

  lemma GenSerialKeepsStructure(st: State, initial: string, es: seq<Entry>, clock: Reading, stamp: string)
    requires ValidReading(clock) && Structured(st, initial, es)
    ensures Structured(GenSerialStep(st, clock, stamp), initial, OpenEntry(es, Serialize(clock), stamp))
  {
    var s := Serialize(clock);
    var e := Entry(s, stamp, []);
    var p := |initial| > 0;
    var padded := |st.logText| > 0;
    JoinLinesEmpty(LogLines(es, p));
    if es != [] {
      assert LogLines(es, p) != [];
    }
    assert padded == (p || es != []);
    LogLinesSnoc(es, e, p);
    assert EntryLines(e, padded) == HeaderLines(padded, s, stamp);
    HeaderBlockLines(padded, s, stamp);
    JoinLinesAppend(LogLines(es, p), HeaderLines(padded, s, stamp));
    var hl := HeaderLines(padded, s, stamp);
    assert LogLines(OpenEntry(es, s, stamp), p) == LogLines(es, p) + hl;
    var r := GenSerialStep(st, clock, stamp);
    assert r.logText == st.logText + JoinLines(hl);
    AppendAssoc(initial, JoinLines(LogLines(es, p)), JoinLines(hl));
    assert r.logText == initial + JoinLines(LogLines(OpenEntry(es, s, stamp), p));
  }

  /** Appending a line to the log adds it to the last entry. */
  lemma StructuredAddLine(st: State, initial: string, es: seq<Entry>, line: string)
    requires Structured(st, initial, es) && es != []
    ensures Structured(st.(logText := st.logText + line + "\n"), initial, AddLine(es, line))
  {
    var p := |initial| > 0;
    LogLinesAddLine(es, line, p);
    JoinLinesAppend(LogLines(es, p), [line]);
    JoinLinesCons(line, []);
  }

  /** `logsilent` opens exactly one new entry when there is no session, none
      otherwise, and adds the message as the last line of the current entry. */
  lemma LogSilentKeepsStructure(st: State, initial: string, es: seq<Entry>, m: Message, clock: Reading, stamp: string)
    requires ValidReading(clock) && Structured(st, initial, es)
    ensures var es' := if st.serial.None? then OpenEntry(es, Serialize(clock), stamp) else es;
            Structured(LogSilentStep(st, m, clock, stamp), initial, AddLine(es', ToText(m)))
  {
    var mid := EnsureSession(st, clock, stamp);
    var es' := if st.serial.None? then OpenEntry(es, Serialize(clock), stamp) else es;
    if st.serial.None? {
      GenSerialKeepsStructure(st, initial, es, clock, stamp);
    }
    StructuredAddLine(mid, initial, es', ToText(m));
  }

  /** `logfig` keeps the log structured: it opens one entry only when there is
      no serial, and otherwise leaves the log as it was. */
  lemma LogFigKeepsStructure(st: State, initial: string, es: seq<Entry>, clock: Reading, stamp: string, plotDir: string)
    requires ValidReading(clock) && Structured(st, initial, es)
    ensures var es' := if st.serial.None? then OpenEntry(es, Serialize(clock), stamp) else es;
            Structured(LogFigStep(st, clock, stamp, plotDir).0, initial, es')
  {
    if st.serial.None? {
      GenSerialKeepsStructure(st, initial, es, clock, stamp);
    }
  }

  // ------------------------------------------------------------ the module state as an object

  /** The module's globals: `SERIAL`, the log file's content and standard output. */
  class Logger {
    var serial: Option<string>
    var logText: string
    var stdout: seq<string>
    const plotDir: string

    function Snapshot(): State
      reads this
    {
      State(serial, logText, stdout)
    }

    /** Module import: no serial yet; the log file holds what earlier runs left in it. */
    constructor (existingLog: string, plotDir: string)
      ensures Snapshot() == State(None, existingLog, []) && this.plotDir == plotDir
    {
      serial := None;
      logText := existingLog;
      stdout := [];
      this.plotDir := plotDir;
    }

    /** `_write_header(f)`: padding when the log is non-empty, then banner, serial, timestamp, banner. */
    method WriteHeader(stamp: string)
      requires serial.Some?
      modifies this`logText
      ensures logText == old(logText) + HeaderBlock(|old(logText)| > 0, serial.value, stamp)
    {
      if |logText| > 0 {
        logText := logText + "\n\n";
      }
      logText := logText + Banner + "\n";
      logText := logText + serial.value + "\n";
      logText := logText + stamp + "\n";
      logText := logText + Banner + "\n";
    }

    /** `gen_serial()`: sets the serial, writes a header, returns the serial. */
    method GenSerial(clock: Reading, stamp: string) returns (s: string)
      requires ValidReading(clock)
      modifies this
      ensures s == Serialize(clock) && serial == Some(s)
      ensures Snapshot() == GenSerialStep(old(Snapshot()), clock, stamp)
    {
      serial := Some(Serialize(clock));
      WriteHeader(stamp);
      s := serial.value;
    }

    /** `logsilent(message)`. */
    method LogSilent(m: Message, clock: Reading, stamp: string)
      requires ValidReading(clock)
      modifies this
      ensures Snapshot() == LogSilentStep(old(Snapshot()), m, clock, stamp)
    {
      if serial.None? {
        var _ := GenSerial(clock, stamp);
      }
      var text := ToText(m);
      logText := logText + text;
      logText := logText + "\n";
    }

    /** `log(message)`. */
    method Log(m: Message, clock: Reading, stamp: string)
      requires ValidReading(clock)
      modifies this
      ensures Snapshot() == LogStep(old(Snapshot()), m, clock, stamp)
    {
      LogSilent(m, clock, stamp);
      stdout := stdout + [Printed(m)];
    }

    /** `logfig()`: starts a session if there is none and names the figure's file. */
    method LogFig(clock: Reading, stamp: string) returns (target: string)
      requires ValidReading(clock)
      modifies this
      ensures (Snapshot(), target) == LogFigStep(old(Snapshot()), clock, stamp, plotDir)
    {
      if serial.None? {
        var _ := GenSerial(clock, stamp);
      }
      target := PlotPath(plotDir, serial.value);
    }
  }

  // ------------------------------------------------------------ the module's own demonstration

  /** The log `main` leaves behind, given the earlier content and the two serials and timestamps. */
  function MainLog(existing: string, s1: string, t1: string, s2: string, t2: string): string {
    existing + HeaderBlock(|existing| > 0, s1, t1) + JoinLines(["test", "info1", "info2"]) +
    HeaderBlock(true, s2, t2) + JoinLines(["new info"])
  }

  /** The first part of `main()`: three messages, the first of which starts a
      session; `c1, t1` are the clock readings the lazy `gen_serial` takes. */
  function MainFirstPart(existing: string, c1: Reading, t1: string): State
    requires ValidReading(c1)
  {
    var s1 := LogStep(State(None, existing, []), Text("test"), c1, t1);
    var s2 := LogStep(s1, Text("info1"), c1, t1);
    LogStep(s2, Text("info2"), c1, t1)
  }

  /** The state `main()` leaves: after the first part, a new session whose
      serial is printed, then one more message; `c2, t2` are the clock
      readings of the explicit `gen_serial`. */
  function MainState(existing: string, c1: Reading, t1: string, c2: Reading, t2: string): State
    requires ValidReading(c1) && ValidReading(c2)
  {
    var s4 := GenSerialStep(MainFirstPart(existing, c1, t1), c2, t2);
    LogStep(s4.(stdout := s4.stdout + [Serialize(c2)]), Text("new info"), c2, t2)
  }

  /** `main()` run against a log file that holds `existingLog`. */
  method MainScenario(existingLog: string, plotDir: string, c1: Reading, t1: string, c2: Reading, t2: string)
    returns (serial: Option<string>, logText: string, stdout: seq<string>)
    requires ValidReading(c1) && ValidReading(c2)
    ensures State(serial, logText, stdout) == MainState(existingLog, c1, t1, c2, t2)
  {
    var logger := new Logger(existingLog, plotDir);
    ghost var s0 := logger.Snapshot();
    logger.Log(Text("test"), c1, t1);
    ghost var s1 := logger.Snapshot();
    assert s1 == LogStep(s0, Text("test"), c1, t1);
    logger.Log(Text("info1"), c1, t1);
    ghost var s2 := logger.Snapshot();
    assert s2 == LogStep(s1, Text("info1"), c1, t1);
    logger.Log(Text("info2"), c1, t1);
    ghost var s3 := logger.Snapshot();
    assert s3 == MainFirstPart(existingLog, c1, t1);
    var newSerial := logger.GenSerial(c2, t2);
    ghost var s4 := logger.Snapshot();
    assert s4 == GenSerialStep(s3, c2, t2);
    logger.stdout := logger.stdout + [newSerial];
    assert logger.Snapshot() == s4.(stdout := s4.stdout + [Serialize(c2)]);
    logger.Log(Text("new info"), c2, t2);
    serial, logText, stdout := logger.serial, logger.logText, logger.stdout;
  }

  /** `log` keeps the log's structure as `logsilent` does: it only adds to standard output. */
  lemma LogKeepsStructure(st: State, initial: string, es: seq<Entry>, m: Message, clock: Reading, stamp: string)
    requires ValidReading(clock) && Structured(st, initial, es)
    ensures var es' := if st.serial.None? then OpenEntry(es, Serialize(clock), stamp) else es;
            Structured(LogStep(st, m, clock, stamp), initial, AddLine(es', ToText(m)))
  {
    LogSilentKeepsStructure(st, initial, es, m, clock, stamp);
  }

  lemma AddLineSingle(e: Entry, line: string)
    ensures AddLine([e], line) == [e.(lines := e.lines + [line])]
  {
    AddLineLast([], e, line);
    assert [] + [e] == [e];
  }

  /** After its first part, `main` has written one entry holding the three messages. */
  lemma MainFirstEntry(existing: string, c1: Reading, t1: string)
    requires ValidReading(c1)
    ensures var st := MainFirstPart(existing, c1, t1);
            Structured(st, existing, [Entry(Serialize(c1), t1, ["test", "info1", "info2"])]) &&
            st.stdout == ["test", "info1", "info2"]
  {
    var init := State(None, existing, []);
    var e := Entry(Serialize(c1), t1, []);
    assert Structured(init, existing, []);
    var s1 := LogStep(init, Text("test"), c1, t1);
    LogKeepsStructure(init, existing, [], Text("test"), c1, t1);
    assert OpenEntry([], Serialize(c1), t1) == [e];
    AddLineSingle(e, "test");
    var e1 := e.(lines := e.lines + ["test"]);
    assert Structured(s1, existing, [e1]);
    var s2 := LogStep(s1, Text("info1"), c1, t1);
    LogKeepsStructure(s1, existing, [e1], Text("info1"), c1, t1);
    AddLineSingle(e1, "info1");
    var e2 := e1.(lines := e1.lines + ["info1"]);
    assert Structured(s2, existing, [e2]);
    LogKeepsStructure(s2, existing, [e2], Text("info2"), c1, t1);
    AddLineSingle(e2, "info2");
    assert e2.lines + ["info2"] == ["test", "info1", "info2"];
  }

  /** What `main()` leaves behind: the earlier log followed by two entries,
      the first holding the three messages and the second, under the new
      serial, the last message; the current serial is the new one; standard
      output shows the four messages with the new serial printed before the last. */
  lemma MainOutcome(existing: string, c1: Reading, t1: string, c2: Reading, t2: string)
    requires ValidReading(c1) && ValidReading(c2)
    ensures var st := MainState(existing, c1, t1, c2, t2);
            Structured(st, existing, MainEntries(Serialize(c1), t1, Serialize(c2), t2)) &&
            st.serial == Some(Serialize(c2)) &&
            st.stdout == ["test", "info1", "info2", Serialize(c2), "new info"]
  {
    var s3 := MainFirstPart(existing, c1, t1);
    var es3 := [Entry(Serialize(c1), t1, ["test", "info1", "info2"])];
    var e := Entry(Serialize(c2), t2, []);
    MainFirstEntry(existing, c1, t1);
    var s4 := GenSerialStep(s3, c2, t2);
    GenSerialKeepsStructure(s3, existing, es3, c2, t2);
    var s4' := s4.(stdout := s4.stdout + [Serialize(c2)]);
    assert Structured(s4', existing, es3 + [e]);
    LogKeepsStructure(s4', existing, es3 + [e], Text("new info"), c2, t2);
    AddLineLast(es3, e, "new info");
    assert e.lines + ["new info"] == ["new info"];
    assert es3 + [e.(lines := ["new info"])] == MainEntries(Serialize(c1), t1, Serialize(c2), t2);
  }

  /** The log text of `main()` spelled out. */
  lemma MainOutcomeText(existing: string, c1: Reading, t1: string, c2: Reading, t2: string)
    requires ValidReading(c1) && ValidReading(c2)
    ensures MainState(existing, c1, t1, c2, t2).logText == MainLog(existing, Serialize(c1), t1, Serialize(c2), t2)
  {
    MainOutcome(existing, c1, t1, c2, t2);
    MainLogEntries(existing, Serialize(c1), t1, Serialize(c2), t2);
  }

  /** The entries `main` writes. */
  function MainEntries(s1: string, t1: string, s2: string, t2: string): seq<Entry> {
    [Entry(s1, t1, ["test", "info1", "info2"]), Entry(s2, t2, ["new info"])]
  }

  lemma MainLogLinesSplit(s1: string, t1: string, s2: string, t2: string, p: bool)
    ensures var es := MainEntries(s1, t1, s2, t2);
            LogLines(es, p) == EntryLines(es[0], p) + EntryLines(es[1], true)
  {
    var es := MainEntries(s1, t1, s2, t2);
    assert es[1..] == [es[1]];
    assert es[1..][1..] == [];
    assert LogLines(es[1..], true) == EntryLines(es[1], true) + [];
  }

  lemma MainLogEntries(existing: string, s1: string, t1: string, s2: string, t2: string)
    ensures MainLog(existing, s1, t1, s2, t2) == existing + JoinLines(LogLines(MainEntries(s1, t1, s2, t2), |existing| > 0))
  {
    var es := MainEntries(s1, t1, s2, t2);
    var p := |existing| > 0;
    var first := EntryLines(es[0], p);
    var second := EntryLines(es[1], true);
    MainLogLinesSplit(s1, t1, s2, t2, p);
    HeaderBlockLines(p, s1, t1);
    HeaderBlockLines(true, s2, t2);
    JoinLinesAppend(HeaderLines(p, s1, t1), ["test", "info1", "info2"]);
    JoinLinesAppend(HeaderLines(true, s2, t2), ["new info"]);
    JoinLinesAppend(first, second);
    var h1 := HeaderBlock(p, s1, t1);
    var m1 := JoinLines(["test", "info1", "info2"]);
    var h2 := HeaderBlock(true, s2, t2);
    var m2 := JoinLines(["new info"]);
    assert JoinLines(first + second) == h1 + m1 + (h2 + m2);
  }

  lemma HeaderLinesNoNewline(padded: bool, serial: string, stamp: string)
    requires NoNewline(serial) && NoNewline(stamp)
    ensures forall k :: 0 <= k < |HeaderLines(padded, serial, stamp)| ==> NoNewline(HeaderLines(padded, serial, stamp)[k])
  {
    assert NoNewline(Banner);
  }

  /** Starting from an empty log file, `main` leaves exactly these lines: an
      unpadded header and the three messages, then a padded header (a
      blank-line pair first) and the last message. */
  lemma MainLogLines(s1: string, t1: string, s2: string, t2: string)
    requires NoNewline(s1) && NoNewline(t1) && NoNewline(s2) && NoNewline(t2)
    ensures SplitLines(MainLog("", s1, t1, s2, t2)) ==
            (HeaderLines(false, s1, t1) + ["test", "info1", "info2"]) +
            (HeaderLines(true, s2, t2) + ["new info"])
  {
    MainLogEntries("", s1, t1, s2, t2);
    MainLogLinesSplit(s1, t1, s2, t2, false);
    var first := HeaderLines(false, s1, t1) + ["test", "info1", "info2"];
    var second := HeaderLines(true, s2, t2) + ["new info"];
    var all := first + second;
    assert LogLines(MainEntries(s1, t1, s2, t2), false) == all;
    HeaderLinesNoNewline(false, s1, t1);
    HeaderLinesNoNewline(true, s2, t2);
    assert forall k :: 0 <= k < |first| ==> NoNewline(first[k]);
    assert forall k :: 0 <= k < |second| ==> NoNewline(second[k]);
    assert forall k :: 0 <= k < |all| ==> NoNewline(all[k]);
    SplitJoin(all);
    assert "" + JoinLines(all) == JoinLines(all);
  }
}
