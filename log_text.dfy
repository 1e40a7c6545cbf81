/** The text of the log file: lines ended by a newline, and the header block
    `_write_header` puts in front of every new entry. */
module LogText {

  /** Python's `n * c` for a one-character string `c`. */
  function Repeat(c: char, n: nat): (s: string)
    ensures |s| == n && forall k :: 0 <= k < n ==> s[k] == c
  {
    seq(n, _ => c)
  }

  /** The banner line `80 * '='` around a header. */
  const Banner: string := Repeat('=', 80)

  predicate NoNewline(s: string) {
    '\n' !in s
  }

  /** Writes each line followed by a newline, as `f.write(line + '\n')` does. */
  function JoinLines(ls: seq<string>): string {
    if ls == [] then "" else ls[0] + "\n" + JoinLines(ls[1..])
  }

  /** Index of the first newline of `t`, or `|t|` when there is none. */
  function LineEnd(t: string): (i: nat)
    ensures i <= |t|
    ensures forall j :: 0 <= j < i ==> t[j] != '\n'
    ensures i < |t| ==> t[i] == '\n'
  {
    if t == [] || t[0] == '\n' then 0 else 1 + LineEnd(t[1..])
  }

  /** The lines of a text, as a reader of the log file sees them: split at each
      newline, a final newline closing the last line rather than opening a new one. */
  function SplitLines(t: string): seq<string>
    decreases |t|
  {
    if t == [] then []
    else
      var i := LineEnd(t);
      if i == |t| then [t] else [t[..i]] + SplitLines(t[i + 1..])
  }

  /** The header block: two newlines of padding when asked for, then the
      banner, the serial, the timestamp and the banner, one per line. */
  function HeaderBlock(padded: bool, serial: string, stamp: string): string {
    (if padded then "\n\n" else "") +
    Banner + "\n" + serial + "\n" + stamp + "\n" + Banner + "\n"
  }

  /** The lines a header block reads as. */
  function HeaderLines(padded: bool, serial: string, stamp: string): seq<string> {
    (if padded then ["", ""] else []) + [Banner, serial, stamp, Banner]
  }

  lemma {:induction false} JoinLinesAppend(a: seq<string>, b: seq<string>)
    ensures JoinLines(a + b) == JoinLines(a) + JoinLines(b)
  {
    if a != [] {
      assert (a + b)[0] == a[0];
      assert (a + b)[1..] == a[1..] + b;
      JoinLinesAppend(a[1..], b);
      calc {
        JoinLines(a + b);
        (a + b)[0] + "\n" + JoinLines((a + b)[1..]);
        a[0] + "\n" + JoinLines(a[1..] + b);
        a[0] + "\n" + (JoinLines(a[1..]) + JoinLines(b));
        JoinLines(a) + JoinLines(b);
      }
    } else {
      assert a + b == b;
    }
  }

  /** Splitting joined lines gives the lines back, when none holds a newline. */
  lemma {:induction false} SplitJoin(ls: seq<string>)
    requires forall k :: 0 <= k < |ls| ==> NoNewline(ls[k])
    ensures SplitLines(JoinLines(ls)) == ls
  {
    if ls != [] {
      var t := JoinLines(ls);
      var l := ls[0];
      assert t == l + "\n" + JoinLines(ls[1..]);
      assert t[|l|] == '\n';
      assert forall j :: 0 <= j < |l| ==> t[j] == l[j] && t[j] != '\n';
      var i := LineEnd(t);
      assert i == |l|;
      assert t[..i] == l;
      assert t[i + 1..] == JoinLines(ls[1..]);
      SplitJoin(ls[1..]);
    }
  }

  lemma JoinLinesCons(l: string, rest: seq<string>)
    ensures JoinLines([l] + rest) == l + "\n" + JoinLines(rest)
  {
    assert ([l] + rest)[0] == l && ([l] + rest)[1..] == rest;
  }

  lemma {:induction false} HeaderBodyLines(serial: string, stamp: string)
    ensures JoinLines([Banner, serial, stamp, Banner]) ==
            Banner + "\n" + serial + "\n" + stamp + "\n" + Banner + "\n"
  {
    JoinLinesCons(Banner, []);
    JoinLinesCons(stamp, [Banner]);
    JoinLinesCons(serial, [stamp, Banner]);
    JoinLinesCons(Banner, [serial, stamp, Banner]);
    assert [stamp] + [Banner] == [stamp, Banner];
    assert [serial] + [stamp, Banner] == [serial, stamp, Banner];
    assert [Banner] + [serial, stamp, Banner] == [Banner, serial, stamp, Banner];
  }

  lemma PaddingLines(padded: bool)
    ensures JoinLines(if padded then ["", ""] else []) == if padded then "\n\n" else ""
  {
    JoinLinesCons("", [""]);
    JoinLinesCons("", []);
    assert [""] + [""] == ["", ""];
  }

  /** `tail` is a suffix of `t`. */
  predicate EndsWith(t: string, tail: string) {
    |tail| <= |t| && t[|t| - |tail|..] == tail
  }

  /** Joined lines are empty exactly when there are no lines. */
  lemma JoinLinesEmpty(ls: seq<string>)
    ensures JoinLines(ls) == "" <==> ls == []
  {
    if ls != [] {
      assert JoinLines(ls)[|ls[0]|] == '\n';
    }
  }

  /** The header block is its lines joined. */
  lemma HeaderBlockLines(padded: bool, serial: string, stamp: string)
    ensures HeaderBlock(padded, serial, stamp) == JoinLines(HeaderLines(padded, serial, stamp))
  {
    var pad: seq<string> := if padded then ["", ""] else [];
    var body := Banner + "\n" + serial + "\n" + stamp + "\n" + Banner + "\n";
    HeaderBodyLines(serial, stamp);
    PaddingLines(padded);
    JoinLinesAppend(pad, [Banner, serial, stamp, Banner]);
    assert HeaderBlock(padded, serial, stamp) == JoinLines(pad) + body;
  }

  lemma HeaderPadding(padded: bool, serial: string, stamp: string)
    ensures var h := HeaderBlock(padded, serial, stamp);
            (|h| >= 2 && h[..2] == "\n\n") <==> padded
  {
    var h := HeaderBlock(padded, serial, stamp);
    if padded {
      assert h == "\n\n" + (Banner + "\n" + serial + "\n" + stamp + "\n" + Banner + "\n");
    } else {
      assert h[0] == Banner[0] == '=';
    }
  }

  /** What `_write_header` promises: the block opens with a blank-line pair
      exactly when padding was asked for, and otherwise reads as exactly four
      lines: banner, serial, timestamp, banner. */
  lemma HeaderShape(padded: bool, serial: string, stamp: string)
    requires NoNewline(serial) && NoNewline(stamp)
    ensures var h := HeaderBlock(padded, serial, stamp);
            (|h| >= 2 && h[..2] == "\n\n") <==> padded
    ensures SplitLines(HeaderBlock(padded, serial, stamp)) == HeaderLines(padded, serial, stamp)
  {
    HeaderPadding(padded, serial, stamp);
    HeaderBlockLines(padded, serial, stamp);
    assert NoNewline(Banner);
    SplitJoin(HeaderLines(padded, serial, stamp));
  }
}
