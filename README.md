# logger.py as a Dafny model

`logger.py` wraps `print` and plotting so that everything printed during a run
also lands in an append-only log file. The entries in that file are
separated by headers, and each header carries a time-encoded *serial*. This
project models the three parts of that module:

- **`serials.dfy` (`Serials`)**: `_serialize`. A wall-clock reading is
  rendered as `%y%m%d%H%M%S%f`, and the last three characters are dropped.
  The rendering is built from zero-padded decimal fields. The lemmas show
  that a serial is fifteen digits and reads back as the two-digit year,
  month, day, hour, minute, second and millisecond. They also show when
  serials sort the way the readings do.
- **`log_text.dfy` (`LogText`)**: the text of the log. Lines are each ended
  by a newline. The header block is what `_write_header` writes: a
  blank-line pair when the file is not empty, then the banner of 80 `=`,
  the serial, the timestamp and the banner again.
- **`session.dfy` (`Session`)**: the module state, consisting of `SERIAL`,
  the log file's content and standard output.
  - Each operation is a function on a `State` value. These functions are
    the specification.
  - Each operation is also a method of the class `Logger`. The methods
    append step by step as the source does, and each is proved to equal its
    step function.
  - The ghost predicate `Structured` reads the log as the text that was
    there before the process started, followed by a sequence of entries.
    Each entry is a header followed by message lines, and the current serial
    is the one in the last header. Every operation preserves it.
  - The `main` demonstration is modelled as a method run on a fresh
    `Logger`. Its outcome is proved entry by entry and line by line.

Clock readings are parameters:

- `clock: Reading` is the `datetime.now()` that `_serialize` formats.
- `stamp: string` is the separately read timestamp that `_write_header`
  prints with `%m/%d/%Y %H:%M:%S`.

No relation between different readings is assumed.

The docstring of `_serialize` calls the serial "sortable" without
qualification. The code formats the year with `%y`, which keeps only two
digits. The model follows the code: sortability is proved for two readings
of the same century, and `CenturyRollover` shows that it fails across a
century boundary.

## Model

| member | source | states |
|---|---|---|
| Serials.Strftime | logger.py:51 | the `%y%m%d%H%M%S%f` rendering is exactly 18 decimal digits |
| Serials.Serialize | logger.py:42-51 | a serial is exactly 15 decimal digits |
| Serials.SerialLayout | logger.py:50-51 | cutting the last three characters leaves the seven fields (two-digit year, month, day, hour, minute, second, millisecond), each zero-padded; the microseconds are truncated to milliseconds |
| Serials.ParseSerialize | logger.py:50-51 | reading a serial back at widths 2,2,2,2,2,2,3 recovers exactly those seven fields of the reading, so no information beyond the millisecond is kept and none below it is lost |
| Serials.SerialSortable | logger.py:43-44 | for two readings of one century, one serial is less than the other as text iff its reading comes first as the tuple (year, month, day, hour, minute, second, millisecond), and the serials are equal iff the tuples are |
| Serials.CenturyRollover | logger.py:51 | a reading in the last year of a century precedes any reading in the next year, yet its serial sorts after that reading's serial |
| Serials.PadAllLess | logger.py:51 | fixed-width zero-padded fields written one after another compare as text exactly as their values compare as tuples |
| LogText.HeaderShape | logger.py:99-114 | the header block opens with a blank-line pair iff padding was asked for, and it reads as exactly the lines banner, serial, timestamp, banner, after that pair |
| LogText.SplitJoin | logger.py:110-114 | lines that each end with a newline and hold none split back into the same lines |
| Session.GenSerialStep | logger.py:55-70 | `gen_serial` makes the fresh serial current, only appends to the log and leaves standard output alone |
| Session.LogSilentStep | logger.py:135-157 | `logsilent` leaves a current serial, keeps an existing one, only appends to the log and prints nothing |
| Session.LogStep | logger.py:120-132 | `log` leaves a current serial, keeps an existing one, only appends to the log and prints the message exactly once |
| Session.LogFigStep | logger.py:176-186 | `logfig` leaves a current serial, only appends to the log, prints nothing, and names the figure `<serial>.pdf` in the plot directory; with a serial already set it changes nothing, and without one its effect is exactly that of `gen_serial` (fresh serial, one header) |
| Session.GenSerialHeader | logger.py:100-114 | `gen_serial` appends exactly one header: a blank-line pair iff the log was non-empty, then banner, new serial, timestamp, banner |
| Session.LogSilentStartsSession | logger.py:146 | without a serial, `logsilent` runs `gen_serial` once: the log grows by one header and then the message line, the new serial is current, and standard output is untouched |
| Session.LogSilentInSession | logger.py:146-157 | with a serial set, `logsilent` appends exactly the message and a newline, and changes nothing else |
| Session.NoDeduplication | logger.py:153-157 | logging one message twice appends two identical lines |
| Session.LogEchoes | logger.py:131-132 | `log` has the effect of `logsilent` on the serial and the log, and adds the printed message once to standard output; `logsilent` adds nothing there |
| Session.LogFigInSession | logger.py:184-186 | with a serial set, `logfig` changes nothing and its target is the plot directory, `/`, the serial and `.pdf` |
| Session.LastHeaderCarriesSerial | logger.py:63-68 | in a structured log, the current serial is the one in the last header, and that header and its messages end the log |
| Session.GenSerialKeepsStructure | logger.py:55-70 | `gen_serial` keeps the log structured, opening one new entry under the new serial |
| Session.LogSilentKeepsStructure | logger.py:135-157 | `logsilent` keeps the log structured: it opens one entry only when there is no serial, and adds the message as the last line of the current entry |
| Session.LogFigKeepsStructure | logger.py:183-186 | `logfig` keeps the log structured: it opens one entry under the fresh serial only when there is no serial, and otherwise leaves the entries as they were |
| Session.LogKeepsStructure | logger.py:120-132 | `log` keeps the log structured in the same way as `logsilent` |
| Session.Logger.constructor | logger.py:30 | at import there is no serial; the log holds what earlier runs left, and nothing has been printed |
| Session.Logger.WriteHeader | logger.py:89-114 | `_write_header` appends the header block: padding when the file was non-empty, then banner, current serial, timestamp, banner |
| Session.Logger.GenSerial | logger.py:55-70 | sets `SERIAL` to the fresh serial and returns that same value; the new state is that of `gen_serial` |
| Session.Logger.LogSilent | logger.py:135-157 | the new state is that of `logsilent` |
| Session.Logger.Log | logger.py:120-132 | the new state is that of `log` |
| Session.Logger.LogFig | logger.py:176-186 | the new state and the figure's file are those of `logfig` |
| Session.MainScenario | logger.py:206-215 | running `main` on the class reaches the state `MainState` describes |
| Session.MainFirstEntry | logger.py:208-210 | after the first three `log` calls, the log holds one entry with the three messages, and they were printed in order |
| Session.MainOutcome | logger.py:206-215 | `main` leaves two entries: the first holds `test`, `info1` and `info2`, the second holds `new info` under the new serial. That serial is current, and standard output shows the three messages, the new serial and the last message |
| Session.MainOutcomeText | logger.py:206-215 | the log after `main` is the earlier text, a header padded iff that text was non-empty, the three message lines, a padded header, and the last line |
| Session.MainLogLines | logger.py:206-215 | from an empty log file, `main` leaves exactly an unpadded header, the three messages, a blank-line pair, a second header and the last message, line by line |

## Left out

- Python's `datetime.now()` is not modelled.
  - The reading `_serialize` formats and the timestamp `_write_header` prints are parameters.
  - The `%m/%d/%Y %H:%M:%S` rendering of the timestamp is not modelled; the model takes the rendered string.
  - Clock monotonicity is not assumed.
- The day of the month in a `Reading` is bounded by 1..31 whatever the month. Calendar validity does not affect the serial's layout or its order.
- Serials.SerialSortable: proved only for readings of the same century. `%y` drops the century, and `CenturyRollover` shows the order failing across the year 1999 to 2000.
- The filesystem is replaced by the in-memory `logText`:
  - `mkdir` of the plot folder is not modelled.
  - `open(LOG_PATH, 'a')` becomes appending to `logText`.
  - `os.path.getsize` becomes `|logText| > 0`.
  - The module's path constants are reduced to the `plotDir` parameter of `Logger`.
- `print` is modelled as appending to the `stdout` sequence.
- `dill.source.getsource(...).strip()` is not modelled. A callable message carries its stripped source text and its `repr` as data (`Message.Callable`); any other message is `Message.Text`, its `str`.
- `plt.savefig` and `plt.show` are plotting calls outside the model. `LogFig` returns the file name the figure would be saved to, and `showfig` is not modelled.
- `logfunc` and `get_serial` are a one-line wrapper and a getter outside the modelled core.
- Errors from the file system or from plotting are not modelled.
