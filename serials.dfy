/** The logger's serial: a wall-clock reading rendered as `%y%m%d%H%M%S%f`
    with the last three characters dropped, i.e. fifteen decimal digits at
    millisecond precision. */
module Serials {

  /** One reading of the wall clock, as Python's `datetime` holds it. */
  datatype Reading = Reading(
    year: nat, month: nat, day: nat,
    hour: nat, minute: nat, second: nat, microsecond: nat)

  /** The ranges `datetime` enforces on its fields. */
  predicate ValidReading(r: Reading) {
    1 <= r.year <= 9999 && 1 <= r.month <= 12 && 1 <= r.day <= 31 &&
    r.hour < 24 && r.minute < 60 && r.second < 60 && r.microsecond < 1000000
  }

  function Pow10(w: nat): (p: nat)
    ensures p >= 1
  {
    if w == 0 then 1 else 10 * Pow10(w - 1)
  }

  function Sum(ws: seq<nat>): nat {
    if ws == [] then 0 else ws[0] + Sum(ws[1..])
  }

  predicate IsDigit(c: char) {
    '0' <= c <= '9'
  }

  predicate AllDigits(s: string) {
    forall i :: 0 <= i < |s| ==> IsDigit(s[i])
  }

  function DigitChar(d: nat): (c: char)
    requires d < 10
    ensures IsDigit(c) && c as int - '0' as int == d
  {
    ('0' as int + d) as char
  }

  /** A `strftime` numeric directive: `n` in decimal, zero-padded to `w` digits. */
  function Pad(n: nat, w: nat): (s: string)
    requires n < Pow10(w)
    ensures |s| == w && AllDigits(s)
  {
    if w == 0 then "" else Pad(n / 10, w - 1) + [DigitChar(n % 10)]
  }

  /** The number a string of decimal digits denotes. */
  function Value(s: string): nat
    requires AllDigits(s)
  {
    if s == [] then 0 else 10 * Value(s[..|s| - 1]) + (s[|s| - 1] as int - '0' as int)
  }

  /** Every field fits its width. */
  predicate Fits(fs: seq<nat>, ws: seq<nat>) {
    |fs| == |ws| && forall i :: 0 <= i < |fs| ==> fs[i] < Pow10(ws[i])
  }

  /** Several zero-padded fields written one after the other. */
  function PadAll(fs: seq<nat>, ws: seq<nat>): (s: string)
    requires Fits(fs, ws)
    ensures |s| == Sum(ws) && AllDigits(s)
  {
    if fs == [] then "" else Pad(fs[0], ws[0]) + PadAll(fs[1..], ws[1..])
  }

  /** Reads back fields of the given widths from a digit string. */
  function ParseAll(s: string, ws: seq<nat>): (fs: seq<nat>)
    requires AllDigits(s) && |s| == Sum(ws)
    ensures |fs| == |ws|
  {
    if ws == [] then [] else [Value(s[..ws[0]])] + ParseAll(s[ws[0]..], ws[1..])
  }

  /** Python's `<` on `str`: code-point lexicographic order, a proper prefix first. */
  predicate StrLess(a: string, b: string) {
    if b == [] then false
    else if a == [] then true
    else if a[0] != b[0] then a[0] < b[0]
    else StrLess(a[1..], b[1..])
  }

  /** Python's `<` on tuples of integers: lexicographic, a proper prefix first. */
  predicate TupleLess(a: seq<int>, b: seq<int>) {
    if b == [] then false
    else if a == [] then true
    else if a[0] != b[0] then a[0] < b[0]
    else TupleLess(a[1..], b[1..])
  }

  // The directive widths of `%y%m%d%H%M%S%f`, and of the serial after the cut.
  const StrftimeWidths: seq<nat> := [2, 2, 2, 2, 2, 2, 6]
  const SerialWidths: seq<nat> := [2, 2, 2, 2, 2, 2, 3]

  /** The values `%y %m %d %H %M %S %f` print. */
  function StrftimeFields(r: Reading): seq<nat> {
    [r.year % 100, r.month, r.day, r.hour, r.minute, r.second, r.microsecond]
  }

  /** The values a serial encodes: as above with microseconds cut to milliseconds. */
  function SerialFields(r: Reading): seq<nat> {
    [r.year % 100, r.month, r.day, r.hour, r.minute, r.second, r.microsecond / 1000]
  }

  /** The moment a serial stands for, as a tuple in chronological order. */
  function ChronoKey(r: Reading): seq<int> {
    [r.year, r.month, r.day, r.hour, r.minute, r.second, r.microsecond / 1000]
  }

  /** `reading.strftime('%y%m%d%H%M%S%f')`: eighteen digits. */
  function Strftime(r: Reading): (s: string)
    requires ValidReading(r)
    ensures |s| == 18 && AllDigits(s)
  {
    assert Pow10(2) == 100 && Pow10(6) == 1000000;
    PadAll(StrftimeFields(r), StrftimeWidths)
  }

  /** `_serialize`: the strftime rendering without its last three characters. */
  function Serialize(r: Reading): (s: string)
    requires ValidReading(r)
    ensures |s| == 15 && AllDigits(s)
  {
    var full := Strftime(r);
    full[..|full| - 3]
  }

  /** Splits a serial back into the seven fields it encodes. */
  function ParseSerial(s: string): (fs: seq<nat>)
    requires |s| == 15 && AllDigits(s)
    ensures |fs| == 7
  {
    ParseAll(s, SerialWidths)
  }

  // ---------------------------------------------------------------- digits

  lemma {:induction false} ValuePad(n: nat, w: nat)
    requires n < Pow10(w)
    ensures Value(Pad(n, w)) == n
  {
    if w > 0 {
      ValuePad(n / 10, w - 1);
      var s := Pad(n, w);
      assert s[..|s| - 1] == Pad(n / 10, w - 1);
    }
  }

  /** Zero-padding of one width is injective. */
  lemma PadInjective(n: nat, m: nat, w: nat)
    requires n < Pow10(w) && m < Pow10(w)
    ensures Pad(n, w) == Pad(m, w) <==> n == m
  {
    ValuePad(n, w);
    ValuePad(m, w);
  }

  /** Dropping the last digit of a padded field divides it by ten. */
  lemma PadDropLast(n: nat, w: nat)
    requires n < Pow10(w + 1)
    ensures Pad(n, w + 1)[..w] == Pad(n / 10, w)
  {
  }

  /** Dropping three digits of `%f` leaves the milliseconds, zero-padded to three. */
  lemma MicrosToMillis(n: nat)
    requires n < 1000000
    ensures Pow10(6) == 1000000
    ensures Pad(n, 6)[..3] == Pad(n / 1000, 3)
  {
    assert Pow10(6) == 1000000;
    PadDropLast(n, 5);
    PadDropLast(n / 10, 4);
    PadDropLast(n / 10 / 10, 3);
    assert n / 10 / 10 / 10 == n / 1000;
    calc {
      Pad(n, 6)[..3];
      Pad(n, 6)[..5][..4][..3];
      Pad(n / 10 / 10 / 10, 3);
    }
  }

  // ---------------------------------------------------------------- layout

  lemma {:induction false} PadAllSnoc(fs: seq<nat>, ws: seq<nat>, f: nat, w: nat)
    requires Fits(fs, ws) && f < Pow10(w)
    ensures Fits(fs + [f], ws + [w])
    ensures PadAll(fs + [f], ws + [w]) == PadAll(fs, ws) + Pad(f, w)
  {
    assert Fits(fs + [f], ws + [w]);
    if fs != [] {
      assert (fs + [f])[1..] == fs[1..] + [f];
      assert (ws + [w])[1..] == ws[1..] + [w];
      PadAllSnoc(fs[1..], ws[1..], f, w);
    }
  }

  lemma {:induction false} ParsePadAll(fs: seq<nat>, ws: seq<nat>)
    requires Fits(fs, ws)
    ensures ParseAll(PadAll(fs, ws), ws) == fs
  {
    if fs != [] {
      var s := PadAll(fs, ws);
      assert s[..ws[0]] == Pad(fs[0], ws[0]);
      assert s[ws[0]..] == PadAll(fs[1..], ws[1..]);
      ValuePad(fs[0], ws[0]);
      ParsePadAll(fs[1..], ws[1..]);
    }
  }

  // `%y%m%d%H%M%S`: the six fields before `%f`, each two digits wide.
  const DateTimeWidths: seq<nat> := [2, 2, 2, 2, 2, 2]

  function DateTimeFields(r: Reading): seq<nat> {
    [r.year % 100, r.month, r.day, r.hour, r.minute, r.second]
  }

  lemma DateTimeFits(r: Reading)
    requires ValidReading(r)
    ensures Fits(DateTimeFields(r), DateTimeWidths)
    ensures |PadAll(DateTimeFields(r), DateTimeWidths)| == 12
  {
    assert Pow10(2) == 100;
  }

  lemma StrftimeSplit(r: Reading)
    requires ValidReading(r)
    ensures Fits(DateTimeFields(r), DateTimeWidths)
    ensures Strftime(r) == PadAll(DateTimeFields(r), DateTimeWidths) + Pad(r.microsecond, 6)
  {
    DateTimeFits(r);
    assert Pow10(6) == 1000000;
    PadAllSnoc(DateTimeFields(r), DateTimeWidths, r.microsecond, 6);
    assert StrftimeFields(r) == DateTimeFields(r) + [r.microsecond];
    assert StrftimeWidths == DateTimeWidths + [6];
  }

  lemma SerialSplit(r: Reading)
    requires ValidReading(r)
    ensures Fits(SerialFields(r), SerialWidths)
    ensures PadAll(SerialFields(r), SerialWidths) == PadAll(DateTimeFields(r), DateTimeWidths) + Pad(r.microsecond / 1000, 3)
  {
    DateTimeFits(r);
    assert Pow10(3) == 1000;
    PadAllSnoc(DateTimeFields(r), DateTimeWidths, r.microsecond / 1000, 3);
    assert SerialFields(r) == DateTimeFields(r) + [r.microsecond / 1000];
    assert SerialWidths == DateTimeWidths + [3];
  }

  /** The serial is the seven serial fields, each zero-padded to its width:
      `%f` contributes its first three digits, the milliseconds. */
  lemma SerialLayout(r: Reading)
    requires ValidReading(r)
    ensures Fits(SerialFields(r), SerialWidths)
    ensures Serialize(r) == PadAll(SerialFields(r), SerialWidths)
  {
    DateTimeFits(r);
    StrftimeSplit(r);
    SerialSplit(r);
    MicrosToMillis(r.microsecond);
    var p := PadAll(DateTimeFields(r), DateTimeWidths);
    assert Serialize(r) == (p + Pad(r.microsecond, 6))[..15];
    assert (p + Pad(r.microsecond, 6))[..15] == p + Pad(r.microsecond, 6)[..3];
  }

  /** Reading a serial back gives the two-digit year, month, day, hour,
      minute, second and millisecond of the reading it was made from. */
  lemma ParseSerialize(r: Reading)
    requires ValidReading(r)
    ensures ParseSerial(Serialize(r)) == SerialFields(r)
  {
    SerialLayout(r);
    ParsePadAll(SerialFields(r), SerialWidths);
  }

  // ---------------------------------------------------------------- order

  /** Comparing two strings whose heads have equal length compares the heads
      first and the tails only on a tie. */
  lemma {:induction false} StrLessConcat(a1: string, b1: string, a2: string, b2: string)
    requires |a1| == |a2|
    ensures StrLess(a1 + b1, a2 + b2) == (StrLess(a1, a2) || (a1 == a2 && StrLess(b1, b2)))
  {
    if a1 == [] {
      assert a1 + b1 == b1 && a2 + b2 == b2;
    } else if a1[0] != a2[0] {
      assert (a1 + b1)[0] == a1[0] && (a2 + b2)[0] == a2[0];
    } else {
      assert (a1 + b1)[1..] == a1[1..] + b1;
      assert (a2 + b2)[1..] == a2[1..] + b2;
      StrLessConcat(a1[1..], b1, a2[1..], b2);
      assert a1 == [a1[0]] + a1[1..] && a2 == [a2[0]] + a2[1..];
    }
  }

  /** Zero-padded numbers of one width sort as text exactly as they sort as numbers. */
  lemma {:induction false} PadLess(n: nat, m: nat, w: nat)
    requires n < Pow10(w) && m < Pow10(w)
    ensures StrLess(Pad(n, w), Pad(m, w)) <==> n < m
  {
    if w > 0 {
      PadLess(n / 10, m / 10, w - 1);
      PadInjective(n / 10, m / 10, w - 1);
      StrLessConcat(Pad(n / 10, w - 1), [DigitChar(n % 10)], Pad(m / 10, w - 1), [DigitChar(m % 10)]);
      assert StrLess([DigitChar(n % 10)], [DigitChar(m % 10)]) <==> n % 10 < m % 10;
    }
  }

  /** Concatenated padded fields sort as text exactly as their tuples sort. */
  lemma {:induction false} PadAllLess(fs: seq<nat>, gs: seq<nat>, ws: seq<nat>)
    requires Fits(fs, ws) && Fits(gs, ws)
    ensures StrLess(PadAll(fs, ws), PadAll(gs, ws)) <==> TupleLess(fs, gs)
  {
    if fs != [] {
      PadAllLess(fs[1..], gs[1..], ws[1..]);
      PadLess(fs[0], gs[0], ws[0]);
      PadInjective(fs[0], gs[0], ws[0]);
      StrLessConcat(Pad(fs[0], ws[0]), PadAll(fs[1..], ws[1..]), Pad(gs[0], ws[0]), PadAll(gs[1..], ws[1..]));
    }
  }

  /** The "sortable" promise of `_serialize`, for two readings of one century:
      one serial sorts before the other exactly when its reading comes first
      at millisecond precision, and two serials are equal exactly when the
      readings fall in the same millisecond. */
  lemma SerialSortable(a: Reading, b: Reading)
    requires ValidReading(a) && ValidReading(b)
    requires a.year / 100 == b.year / 100
    ensures StrLess(Serialize(a), Serialize(b)) <==> TupleLess(ChronoKey(a), ChronoKey(b))
    ensures Serialize(a) == Serialize(b) <==> ChronoKey(a) == ChronoKey(b)
  {
    SerialLayout(a);
    SerialLayout(b);
    PadAllLess(SerialFields(a), SerialFields(b), SerialWidths);
    ParseSerialize(a);
    ParseSerialize(b);
    var fa, fb := SerialFields(a), SerialFields(b);
    var ka, kb := ChronoKey(a), ChronoKey(b);
    assert fa[1..] == ka[1..] && fb[1..] == kb[1..];
    assert a.year % 100 < b.year % 100 <==> a.year < b.year;
    assert a.year % 100 == b.year % 100 <==> a.year == b.year;
    assert fa == fb <==> ka == kb by {
      if fa == fb { assert fa[0] == fb[0] && fa[1..] == fb[1..]; }
      if ka == kb { assert ka[0] == kb[0] && ka[1..] == kb[1..]; }
      assert fa == [fa[0]] + fa[1..] && fb == [fb[0]] + fb[1..];
      assert ka == [ka[0]] + ka[1..] && kb == [kb[0]] + kb[1..];
    }
  }

  /** `%y` keeps only two digits of the year, so the order fails across a
      century: every reading in the last year of a century (1999, say) gets a
      serial that sorts after that of every reading in the year that follows. */
  lemma CenturyRollover(a: Reading, b: Reading)
    requires ValidReading(a) && ValidReading(b)
    requires a.year % 100 == 99 && b.year == a.year + 1
    ensures TupleLess(ChronoKey(a), ChronoKey(b))
    ensures StrLess(Serialize(b), Serialize(a))
  {
    assert b.year % 100 == 0 by {
      assert b.year == (a.year / 100) * 100 + 100;
    }
    var fa, fb := SerialFields(a), SerialFields(b);
    assert fb[0] == 0 && fa[0] == 99;
    assert TupleLess(fb, fa);
    assert ChronoKey(a)[0] < ChronoKey(b)[0];
    SerialLayout(a);
    SerialLayout(b);
    PadAllLess(fb, fa, SerialWidths);
  }
}
