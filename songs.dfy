/**
 * Songs as the media server lists them, and the starred time of a song:
 * `time.strptime(song.get('starred', ''), '%Y-%m-%dT%H:%M:%S.%fZ')`, with
 * `time.gmtime(0)` when the field is absent or does not parse.
 */
module Songs {
  import opened Wrappers

  /**
   * A calendar time with the six fields `time.struct_time` compares first.
   * Fractional seconds (`%f`) are parsed but not kept, as in `struct_time`.
   */
  datatype DateTime = DateTime(year: int, month: int, day: int, hour: int, minute: int, second: int)

  /** A point in time as an ordered key; see KeyOrder. */
  type Timestamp = int

  function Fields(t: DateTime): seq<int> {
    [t.year, t.month, t.day, t.hour, t.minute, t.second]
  }

  /** Horner's rule in base 100 over the fields. */
  function KeyOf(fs: seq<int>): int {
    if fs == [] then 0 else KeyOf(fs[..|fs| - 1]) * 100 + fs[|fs| - 1]
  }

  /** Lexicographic order on equally long field lists: tuple comparison. */
  predicate Before(a: seq<int>, b: seq<int>)
    requires |a| == |b|
  {
    a != [] &&
    (Before(a[..|a| - 1], b[..|b| - 1]) ||
     (a[..|a| - 1] == b[..|b| - 1] && a[|a| - 1] < b[|b| - 1]))
  }

  /** Every field after the first lies in 0..99. */
  predicate Bounded(fs: seq<int>) {
    forall k :: 1 <= k < |fs| ==> 0 <= fs[k] < 100
  }

  lemma Horner(p: int, q: int, x: int, y: int)
    requires 0 <= x < 100 && 0 <= y < 100
    ensures p * 100 + x < q * 100 + y <==> p < q || (p == q && x < y)
    ensures p * 100 + x == q * 100 + y <==> p == q && x == y
  {
    if p < q {
      assert (q - p) * 100 >= 100;
    } else if q < p {
      assert (p - q) * 100 >= 100;
    }
  }

  /** Comparing keys is comparing the field lists as tuples. */
  lemma {:induction false} KeyOrder(a: seq<int>, b: seq<int>)
    requires |a| == |b| && Bounded(a) && Bounded(b)
    ensures KeyOf(a) < KeyOf(b) <==> Before(a, b)
    ensures KeyOf(a) == KeyOf(b) <==> a == b
  {
    if a != [] {
      var n := |a| - 1;
      var ia, ib := a[..n], b[..n];
      assert Bounded(ia) && Bounded(ib);
      if n == 0 {
        assert ia == [] && ib == [];
        assert a == [a[0]] && b == [b[0]];
      } else {
        KeyOrder(ia, ib);
        assert 0 <= a[n] < 100 && 0 <= b[n] < 100;
        Horner(KeyOf(ia), KeyOf(ib), a[n], b[n]);
        assert KeyOf(a) == KeyOf(ia) * 100 + a[n] && KeyOf(b) == KeyOf(ib) * 100 + b[n];
        assert Before(a, b) <==> Before(ia, ib) || (ia == ib && a[n] < b[n]);
        assert a == ia + [a[n]] && b == ib + [b[n]];
        assert a == b <==> ia == ib && a[n] == b[n];
      }
    }
  }

  function Key(t: DateTime): Timestamp {
    KeyOf(Fields(t))
  }

  /** `time.gmtime(0)`: 1970-01-01 00:00:00. */
  const EpochZero: Timestamp := Key(DateTime(1970, 1, 1, 0, 0, 0))

  predicate IsLeap(y: int) {
    y % 4 == 0 && (y % 100 != 0 || y % 400 == 0)
  }

  function DaysInMonth(y: int, m: int): int {
    if m == 2 then (if IsLeap(y) then 29 else 28)
    else if m == 4 || m == 6 || m == 9 || m == 11 then 30
    else 31
  }

  /**
   * The ranges `strptime` accepts: a four-digit year from 1 (the least year
   * `datetime.date` accepts), a day that exists in its month, seconds up to 61.
   */
  predicate ValidDateTime(t: DateTime) {
    && 1 <= t.year <= 9999
    && 1 <= t.month <= 12
    && 1 <= t.day <= DaysInMonth(t.year, t.month)
    && 0 <= t.hour <= 23
    && 0 <= t.minute <= 59
    && 0 <= t.second <= 61
  }

  /** Two valid times compare by key exactly as their fields compare as tuples. */
  lemma KeyIsFieldOrder(a: DateTime, b: DateTime)
    requires ValidDateTime(a) && ValidDateTime(b)
    ensures Key(a) < Key(b) <==> Before(Fields(a), Fields(b))
    ensures Key(a) == Key(b) <==> a == b
  {
    KeyOrder(Fields(a), Fields(b));
    assert Fields(a) == Fields(b) ==> a == b;
  }

  predicate IsDigit(c: char) {
    '0' <= c <= '9'
  }

  predicate AllDigits(s: string) {
    forall k :: 0 <= k < |s| ==> IsDigit(s[k])
  }

  function DigitValue(c: char): int
    requires IsDigit(c)
  {
    c as int - '0' as int
  }

  function DecimalValue(s: string): int
    requires AllDigits(s)
  {
    if s == [] then 0 else DecimalValue(s[..|s| - 1]) * 10 + DigitValue(s[|s| - 1])
  }

  /** The literal characters of the format; `strptime` matches them ignoring case. */
  predicate Shape(s: string) {
    && 22 <= |s| <= 27
    && AllDigits(s[0..4]) && s[4] == '-'
    && AllDigits(s[5..7]) && s[7] == '-'
    && AllDigits(s[8..10]) && (s[10] == 'T' || s[10] == 't')
    && AllDigits(s[11..13]) && s[13] == ':'
    && AllDigits(s[14..16]) && s[16] == ':'
    && AllDigits(s[17..19]) && s[19] == '.'
    && AllDigits(s[20..|s| - 1])
    && (s[|s| - 1] == 'Z' || s[|s| - 1] == 'z')
  }

  function Scan(s: string): DateTime
    requires Shape(s)
  {
    DateTime(DecimalValue(s[0..4]), DecimalValue(s[5..7]), DecimalValue(s[8..10]),
             DecimalValue(s[11..13]), DecimalValue(s[14..16]), DecimalValue(s[17..19]))
  }

  /** `strptime(s, '%Y-%m-%dT%H:%M:%S.%fZ')`; `None` stands for its ValueError. */
  function ParseStarred(s: string): (r: Option<Timestamp>)
    ensures r.Some? ==> Shape(s) && ValidDateTime(Scan(s)) && r.value == Key(Scan(s))
    ensures r.None? ==> !Shape(s) || !ValidDateTime(Scan(s))
  {
    if Shape(s) && ValidDateTime(Scan(s)) then Some(Key(Scan(s))) else None
  }

  function Digit(n: int): char
    requires 0 <= n < 10
  {
    ('0' as int + n) as char
  }

  function Pad2(n: int): string
    requires 0 <= n < 100
  {
    [Digit(n / 10), Digit(n % 10)]
  }

  function Pad4(n: int): string
    requires 0 <= n < 10000
  {
    [Digit(n / 10 / 10 / 10), Digit(n / 10 / 10 % 10), Digit(n / 10 % 10), Digit(n % 10)]
  }

  lemma Pad2Value(n: int)
    requires 0 <= n < 100
    ensures AllDigits(Pad2(n)) && DecimalValue(Pad2(n)) == n
  {
    var s := Pad2(n);
    assert s[..1] == [Digit(n / 10)];
    assert s[..1][..0] == [];
    assert DecimalValue(s[..1]) == n / 10;
    assert DecimalValue(s) == n / 10 * 10 + n % 10;
  }

  lemma Pad4Value(n: int)
    requires 0 <= n < 10000
    ensures AllDigits(Pad4(n)) && DecimalValue(Pad4(n)) == n
  {
    var s := Pad4(n);
    var n1 := n / 10;
    var n2 := n1 / 10;
    assert s[..3][..2][..1][..0] == [];
    assert s[..3][..2] == s[..2] && s[..2][..1] == s[..1] && s[..|s| - 1] == s[..3];
    assert DecimalValue(s[..1]) == n2 / 10;
    assert DecimalValue(s[..2]) == n2 / 10 * 10 + n2 % 10 == n2;
    assert DecimalValue(s[..3]) == n2 * 10 + n1 % 10 == n1;
    assert DecimalValue(s) == n1 * 10 + n % 10 == n;
  }

  /** The textual form the media server uses for a starred time. */
  function Format(t: DateTime, frac: string): string
    requires ValidDateTime(t)
  {
    DatePart(t) + "T" + TimePart(t) + "." + frac + "Z"
  }

  function DatePart(t: DateTime): string
    requires ValidDateTime(t)
  {
    Pad4(t.year) + "-" + Pad2(t.month) + "-" + Pad2(t.day)
  }

  function TimePart(t: DateTime): string
    requires ValidDateTime(t)
  {
    Pad2(t.hour) + ":" + Pad2(t.minute) + ":" + Pad2(t.second)
  }

  lemma DateFields(t: DateTime)
    requires ValidDateTime(t)
    ensures var date := DatePart(t);
      |date| == 10 && date[0..4] == Pad4(t.year) && date[4] == '-' &&
      date[5..7] == Pad2(t.month) && date[7] == '-' && date[8..10] == Pad2(t.day)
  {
  }

  lemma TimeFields(t: DateTime)
    requires ValidDateTime(t)
    ensures var time := TimePart(t);
      |time| == 8 && time[0..2] == Pad2(t.hour) && time[2] == ':' &&
      time[3..5] == Pad2(t.minute) && time[5] == ':' && time[6..8] == Pad2(t.second)
  {
  }

  /** A slice of a part found at `off` in `s` is the matching slice of `s`. */
  lemma SliceWithin(s: string, part: string, off: nat, i: nat, j: nat)
    requires off + |part| <= |s| && s[off..off + |part|] == part
    requires i <= j <= |part|
    ensures s[off + i..off + j] == part[i..j]
  {
    var a, b := s[off + i..off + j], part[i..j];
    forall k | 0 <= k < |a| ensures a[k] == b[k] {
      assert a[k] == s[off + i + k] == s[off..off + |part|][i + k];
    }
  }

  /** Where the fields of a formatted time sit in the string. */
  lemma FormatFields(t: DateTime, frac: string)
    requires ValidDateTime(t)
    requires 1 <= |frac| <= 6 && AllDigits(frac)
    ensures var s := Format(t, frac);
      && 22 <= |s| <= 27
      && s[0..4] == Pad4(t.year) && s[4] == '-'
      && s[5..7] == Pad2(t.month) && s[7] == '-'
      && s[8..10] == Pad2(t.day) && s[10] == 'T'
      && s[11..13] == Pad2(t.hour) && s[13] == ':'
      && s[14..16] == Pad2(t.minute) && s[16] == ':'
      && s[17..19] == Pad2(t.second) && s[19] == '.'
      && s[20..|s| - 1] == frac && s[|s| - 1] == 'Z'
  {
    var s := Format(t, frac);
    var date, time := DatePart(t), TimePart(t);
    DateFields(t);
    TimeFields(t);
    assert s == date + "T" + time + "." + frac + "Z";
    assert s[0..10] == date && s[11..19] == time && s[20..|s| - 1] == frac;
    SliceWithin(s, date, 0, 0, 4);
    SliceWithin(s, date, 0, 5, 7);
    SliceWithin(s, date, 0, 8, 10);
    SliceWithin(s, time, 11, 0, 2);
    SliceWithin(s, time, 11, 3, 5);
    SliceWithin(s, time, 11, 6, 8);
  }

  /** Parsing a formatted time gives its key back, whatever the 1 to 6 fractional digits. */
  lemma FormatParses(t: DateTime, frac: string)
    requires ValidDateTime(t)
    requires 1 <= |frac| <= 6 && AllDigits(frac)
    ensures ParseStarred(Format(t, frac)) == Some(Key(t))
  {
    var s := Format(t, frac);
    FormatFields(t, frac);
    Pad4Value(t.year); Pad2Value(t.month); Pad2Value(t.day);
    Pad2Value(t.hour); Pad2Value(t.minute); Pad2Value(t.second);
    assert Shape(s);
    assert Scan(s) == t;
  }

  /** Two digits read back as a number pad back to the same two digits. */
  lemma Pad2OfDigits(s: string)
    requires |s| == 2 && AllDigits(s)
    ensures 0 <= DecimalValue(s) < 100 && Pad2(DecimalValue(s)) == s
  {
    assert s[..1][..0] == [] && s[..|s| - 1] == s[..1];
    assert DecimalValue(s[..1]) == DigitValue(s[0]);
    assert DecimalValue(s) == DigitValue(s[0]) * 10 + DigitValue(s[1]);
  }

  /** Four digits read back as a number pad back to the same four digits. */
  lemma Pad4OfDigits(s: string)
    requires |s| == 4 && AllDigits(s)
    ensures 0 <= DecimalValue(s) < 10000 && Pad4(DecimalValue(s)) == s
  {
    assert s[..3][..2][..1][..0] == [];
    assert s[..3][..2] == s[..2] && s[..2][..1] == s[..1] && s[..|s| - 1] == s[..3];
    var d0, d1, d2, d3 := DigitValue(s[0]), DigitValue(s[1]), DigitValue(s[2]), DigitValue(s[3]);
    assert DecimalValue(s[..1]) == d0;
    assert DecimalValue(s[..2]) == d0 * 10 + d1;
    assert DecimalValue(s[..3]) == (d0 * 10 + d1) * 10 + d2;
    var n := DecimalValue(s);
    assert n == ((d0 * 10 + d1) * 10 + d2) * 10 + d3;
    assert n % 10 == d3 && n / 10 == (d0 * 10 + d1) * 10 + d2;
    assert n / 10 % 10 == d2 && n / 10 / 10 == d0 * 10 + d1;
    assert n / 10 / 10 % 10 == d1 && n / 10 / 10 / 10 == d0;
  }

  /** `s` with the two letters `strptime` matches ignoring case written in upper case. */
  function Canonical(s: string): string
    requires |s| >= 12
  {
    s[..10] + "T" + s[11..|s| - 1] + "Z"
  }

  /**
   * Whatever the parser accepts is a formatted valid time, up to the case
   * of `T` and `Z`, and its key is that time's: with FormatParses, the
   * parser is the inverse of formatting.
   */
  lemma ParsedIsFormatted(s: string)
    requires ParseStarred(s).Some?
    ensures Shape(s)
    ensures var t, frac := Scan(s), s[20..|s| - 1];
      && ValidDateTime(t) && 1 <= |frac| <= 6 && AllDigits(frac)
      && Canonical(s) == Format(t, frac)
      && ParseStarred(s) == Some(Key(t))
  {
    var t, frac := Scan(s), s[20..|s| - 1];
    Pad4OfDigits(s[0..4]);
    Pad2OfDigits(s[5..7]);
    Pad2OfDigits(s[8..10]);
    Pad2OfDigits(s[11..13]);
    Pad2OfDigits(s[14..16]);
    Pad2OfDigits(s[17..19]);
    assert s[..10] == s[0..4] + [s[4]] + s[5..7] + [s[7]] + s[8..10];
    assert s[..10] == DatePart(t);
    assert s[11..|s| - 1] == s[11..13] + [s[13]] + s[14..16] + [s[16]] + s[17..19] + [s[19]] + frac;
    assert s[11..|s| - 1] == TimePart(t) + "." + frac;
  }

  /**
   * A song record. Every field but `id` may be absent from the server's
   * JSON object; `contentType` is the MIME type.
   */
  datatype Song = Song(id: string, path: Option<string>, contentType: Option<string>, starred: Option<string>)

  /** `song_to_starred_time_struct`. */
  function StarredTime(song: Song): (t: Timestamp)
    ensures song.starred.None? ==> t == EpochZero
    ensures song.starred.Some? && ParseStarred(song.starred.value).None? ==> t == EpochZero
    ensures t != EpochZero ==> song.starred.Some? && ParseStarred(song.starred.value) == Some(t)
  {
    ParseStarred(song.starred.GetOr("")).GetOr(EpochZero)
  }

  /** A song starred at a well-formed time gets that time. */
  lemma StarredTimeOfFormatted(song: Song, t: DateTime, frac: string)
    requires ValidDateTime(t) && 1 <= |frac| <= 6 && AllDigits(frac)
    requires song.starred == Some(Format(t, frac))
    ensures StarredTime(song) == Key(t)
  {
    FormatParses(t, frac);
  }

  /** A song with no starred field, or one outside the format, counts as starred at the epoch. */
  lemma StarredTimeFallback(song: Song)
    requires song.starred.None? || !Shape(song.starred.value)
    ensures StarredTime(song) == EpochZero
  {
  }

  /** `song['contentType'].startswith('audio')`, for a song that has the field. */
  predicate IsAudio(contentType: string) {
    |contentType| >= 5 && contentType[..5] == "audio"
  }
}
