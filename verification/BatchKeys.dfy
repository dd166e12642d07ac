/** Batch keys: how internal/sync/engine.go names an uploaded batch, reads the time back out of a
    name, and keeps the names of one device ascending whatever its clock does. */
module BatchKeys {
  import opened Lex
  import opened Calendar

  type Suffix = s: nat | s < 0x1_0000 witness 0

  const NANOS_PER_MILLI := 1_000_000

  /** The first instant whose year needs five digits: 10000-01-01T00:00:00.000Z. */
  const END_OF_RANGE: nat := 3_652_425 * DAY_MILLIS

  // ------------------------------------------------------------- the timestamp

  function Seconds(c: Civil): string { Pad(c.second, 2) + ("." + (Pad(c.milli, 3) + "Z")) }
  function Clock(c: Civil): string { Pad(c.hour, 2) + ("-" + (Pad(c.minute, 2) + ("-" + Seconds(c)))) }
  function Date(c: Civil): string { Pad(c.month, 2) + ("-" + (Pad(c.day, 2) + ("T" + Clock(c)))) }

  /** The layout 2006-01-02T15-04-05.000Z. */
  function Render(c: Civil): string {
    Pad(c.year, 4) + ("-" + Date(c))
  }

  function FormatStamp(t: nat): string {
    Render(Unpack(t))
  }

  /** A number of exactly `w` digits, and what follows it. */
  function TakeNat(s: string, w: nat): Option<(nat, string)> {
    if |s| < w then None else var n :- ParseNat(s[..w]); Some((n, s[w..]))
  }

  function Skip(s: string, c: char): Option<string> {
    if s == "" || s[0] != c then None else Some(s[1..])
  }

  /** Reads the layout back; None where time.Parse reports an error. */
  function ParseStamp(s: string): Option<nat> {
    var (year, s) :- TakeNat(s, 4);
    var s :- Skip(s, '-');
    var (month, s) :- TakeNat(s, 2);
    var s :- Skip(s, '-');
    var (day, s) :- TakeNat(s, 2);
    var s :- Skip(s, 'T');
    var (hour, s) :- TakeNat(s, 2);
    var s :- Skip(s, '-');
    var (minute, s) :- TakeNat(s, 2);
    var s :- Skip(s, '-');
    var (second, s) :- TakeNat(s, 2);
    var s :- Skip(s, '.');
    var (milli, s) :- TakeNat(s, 3);
    var s :- Skip(s, 'Z');
    var c := Civil(year, month, day, hour, minute, second, milli);
    if s == "" && ValidCivil(c) then Some(Pack(c)) else None
  }

  lemma FieldWidths(t: nat)
    requires t < END_OF_RANGE
    ensures var c := Unpack(t);
            && c.year < Pow10(4) && c.month < Pow10(2) && c.day < Pow10(2) && c.hour < Pow10(2)
            && c.minute < Pow10(2) && c.second < Pow10(2) && c.milli < Pow10(3)
            && |Pad(c.year, 4)| == 4 && |Pad(c.month, 2)| == 2 && |Pad(c.day, 2)| == 2
            && |Pad(c.hour, 2)| == 2 && |Pad(c.minute, 2)| == 2 && |Pad(c.second, 2)| == 2
            && |Pad(c.milli, 3)| == 3 && |Render(c)| == 24
  {
    var c := Unpack(t);
    YearBound(c, 10_000);
    assert Pow10(2) == 100 && Pow10(3) == 1000 && Pow10(4) == 10_000;
    PadLength(c.year, 4);
    PadLength(c.month, 2);
    PadLength(c.day, 2);
    PadLength(c.hour, 2);
    PadLength(c.minute, 2);
    PadLength(c.second, 2);
    PadLength(c.milli, 3);
  }

  lemma YearBound(c: Civil, y: nat)
    requires ValidCivil(c) && y == 10_000
    ensures Pack(c) < END_OF_RANGE <==> c.year < y
  {
    hide YearStart, MonthStart, MonthDays, Leap;
    YearStartFormula(y);
    assert YearStart(y) == 3_652_425;
    MonthsFillTheYear(c.year);
    MonthsAscend(c.year, c.month, 13);
    if c.year < y { YearsAscend(c.year, y); }
    if c.year > y { YearsAscend(y, c.year); }
  }

  lemma TakeWritten(n: nat, w: nat, rest: string)
    requires n < Pow10(w)
    ensures TakeNat(Pad(n, w) + rest, w) == Some((n, rest))
  {
    PadLength(n, w);
    ParsePad(n, w);
    var s := Pad(n, w) + rest;
    assert s[..w] == Pad(n, w) && s[w..] == rest;
  }

  lemma SkipWritten(c: char, rest: string)
    ensures Skip([c] + rest, c) == Some(rest)
  {
    assert ([c] + rest)[1..] == rest;
  }

  /** Reading a written timestamp gives the instant back. */
  lemma StampRoundTrip(t: nat)
    requires t < END_OF_RANGE
    ensures ParseStamp(FormatStamp(t)) == Some(t)
  {
    hide Unpack, Pad, ParseNat, TakeNat, Skip, Pow10, Pack;
    var c := Unpack(t);
    FieldWidths(t);
    TakeWritten(c.year, 4, "-" + Date(c));
    SkipWritten('-', Date(c));
    var afterMonth := Pad(c.day, 2) + ("T" + Clock(c));
    TakeWritten(c.month, 2, "-" + afterMonth);
    SkipWritten('-', afterMonth);
    TakeWritten(c.day, 2, "T" + Clock(c));
    SkipWritten('T', Clock(c));
    var afterHour := Pad(c.minute, 2) + ("-" + Seconds(c));
    TakeWritten(c.hour, 2, "-" + afterHour);
    SkipWritten('-', afterHour);
    TakeWritten(c.minute, 2, "-" + Seconds(c));
    SkipWritten('-', Seconds(c));
    TakeWritten(c.second, 2, "." + (Pad(c.milli, 3) + "Z"));
    SkipWritten('.', Pad(c.milli, 3) + "Z");
    TakeWritten(c.milli, 3, "Z");
    SkipWritten('Z', "");
    assert ['Z'] + "" == "Z";
  }

  /** One number field followed by the rest: the field decides, the rest breaks the tie. */
  lemma FieldDecides(a: nat, b: nat, w: nat, x: string, y: string)
    requires a < Pow10(w) && b < Pow10(w)
    ensures Less(Pad(a, w) + x, Pad(b, w) + y) <==> a < b || (a == b && Less(x, y))
  {
    PadLength(a, w);
    PadLength(b, w);
    PadOrder(a, b, w);
    FirstPartDecides(Pad(a, w), Pad(b, w), x, y);
  }

  /** Written timestamps sort as the instants do, for the years 0000 to 9999. */
  lemma StampOrder(s: nat, t: nat)
    requires s < END_OF_RANGE && t < END_OF_RANGE
    ensures Less(FormatStamp(s), FormatStamp(t)) <==> s < t
  {
    var a, b := Unpack(s), Unpack(t);
    FieldWidths(s);
    FieldWidths(t);
    CivilOrder(s, t);
    Irreflexive("Z");
    SharedPrefix("-", Date(a), Date(b));
    FieldDecides(a.year, b.year, 4, "-" + Date(a), "-" + Date(b));
    assert Less(Date(a), Date(b)) <==>
           a.month < b.month || (a.month == b.month && (a.day < b.day || (a.day == b.day && Less(Clock(a), Clock(b))))) by {
      SharedPrefix("T", Clock(a), Clock(b));
      FieldDecides(a.day, b.day, 2, "T" + Clock(a), "T" + Clock(b));
      SharedPrefix("-", Pad(a.day, 2) + ("T" + Clock(a)), Pad(b.day, 2) + ("T" + Clock(b)));
      FieldDecides(a.month, b.month, 2, "-" + (Pad(a.day, 2) + ("T" + Clock(a))), "-" + (Pad(b.day, 2) + ("T" + Clock(b))));
    }
    ClockOrder(a, b);
  }

  lemma ClockOrder(a: Civil, b: Civil)
    requires ValidCivil(a) && ValidCivil(b)
    ensures Less(Clock(a), Clock(b)) <==> ClockBefore(a, b)
  {
    assert Pow10(2) == 100 && Pow10(3) == 1000;
    Irreflexive("Z");
    FieldDecides(a.milli, b.milli, 3, "Z", "Z");
    SharedPrefix(".", Pad(a.milli, 3) + "Z", Pad(b.milli, 3) + "Z");
    FieldDecides(a.second, b.second, 2, "." + (Pad(a.milli, 3) + "Z"), "." + (Pad(b.milli, 3) + "Z"));
    SharedPrefix("-", Seconds(a), Seconds(b));
    FieldDecides(a.minute, b.minute, 2, "-" + Seconds(a), "-" + Seconds(b));
    SharedPrefix("-", Pad(a.minute, 2) + ("-" + Seconds(a)), Pad(b.minute, 2) + ("-" + Seconds(b)));
    FieldDecides(a.hour, b.hour, 2, "-" + (Pad(a.minute, 2) + ("-" + Seconds(a))), "-" + (Pad(b.minute, 2) + ("-" + Seconds(b))));
  }

  // ------------------------------------------------------------- whole keys

  function HexChar(d: nat): char
    requires d < 16
  {
    if d < 10 then '0' + d as char else 'a' + (d - 10) as char
  }

  function HexByte(b: nat): string
    requires b < 256
  {
    [HexChar(b / 16), HexChar(b % 16)]
  }

  /** hex.EncodeToString of the two random bytes. */
  function Hex(s: Suffix): string {
    HexByte(s / 256) + HexByte(s % 256)
  }

  lemma HexByteOrder(a: nat, b: nat)
    requires a < 256 && b < 256
    ensures Less(HexByte(a), HexByte(b)) <==> a < b
    ensures HexByte(a) == HexByte(b) <==> a == b
  {
    var x, y := HexByte(a), HexByte(b);
    assert x[0] == HexChar(a / 16) && y[0] == HexChar(b / 16);
    assert x[1..] == [HexChar(a % 16)] && y[1..] == [HexChar(b % 16)];
    assert Less(x[1..], y[1..]) <==> a % 16 < b % 16;
  }

  lemma HexOrder(a: Suffix, b: Suffix)
    ensures Less(Hex(a), Hex(b)) <==> a < b
  {
    HexByteOrder(a / 256, b / 256);
    HexByteOrder(a % 256, b % 256);
    FirstPartDecides(HexByte(a / 256), HexByte(b / 256), HexByte(a % 256), HexByte(b % 256));
  }

  const EXTENSION := ".jsonl.enc"

  function BatchPrefix(device: string): string {
    "devices/" + device + "/batches/"
  }

  function KeyFor(device: string, t: nat, suffix: Suffix): string {
    BatchPrefix(device) + (FormatStamp(t) + ("_" + (Hex(suffix) + EXTENSION)))
  }

  /** What follows the last slash; the whole string when there is none. */
  function AfterLastSlash(key: string): string {
    if key == "" then ""
    else if key[|key|-1] == '/' then ""
    else AfterLastSlash(key[..|key|-1]) + [key[|key|-1]]
  }

  /** What comes before the first underscore; None when there is none. */
  function BeforeUnderscore(s: string): Option<string> {
    if s == "" then None
    else if s[0] == '_' then Some("")
    else match BeforeUnderscore(s[1..])
      case None => None
      case Some(rest) => Some([s[0]] + rest)
  }

  function BatchKeyTime(key: string): Option<nat> {
    match BeforeUnderscore(AfterLastSlash(key))
    case None => None
    case Some(stamp) => ParseStamp(stamp)
  }

  /** The clock reading, cut to the millisecond the key is written with and lifted above the
      previous key's time. */
  function StampFor(nowNanos: nat, previous: string): nat {
    var now := nowNanos / NANOS_PER_MILLI;
    match BatchKeyTime(previous)
    case Some(prev) => if now > prev then now else prev + 1
    case None => now
  }

  function NewBatchKey(device: string, nowNanos: nat, previous: string, suffix: Suffix): string {
    KeyFor(device, StampFor(nowNanos, previous), suffix)
  }

  predicate Without(s: string, c: char) {
    forall i :: 0 <= i < |s| ==> s[i] != c
  }

  lemma {:induction false} LastSlashAt(p: string, s: string)
    requires Without(s, '/')
    ensures AfterLastSlash(p + "/" + s) == s
  {
    var key := p + "/" + s;
    if s != "" {
      assert key[..|key|-1] == p + "/" + s[..|s|-1];
      LastSlashAt(p, s[..|s|-1]);
    }
  }

  lemma {:induction false} FirstUnderscoreAt(s: string, rest: string)
    requires Without(s, '_')
    ensures BeforeUnderscore(s + ("_" + rest)) == Some(s)
  {
    if s == "" {
      assert s + ("_" + rest) == "_" + rest;
    } else {
      assert (s + ("_" + rest))[1..] == s[1..] + ("_" + rest);
      FirstUnderscoreAt(s[1..], rest);
      assert [s[0]] + s[1..] == s;
    }
  }

  lemma WithoutBoth(a: string, b: string, c: char)
    requires Without(a, c) && Without(b, c)
    ensures Without(a + b, c)
  {
  }

  lemma NumberWithout(n: nat, w: nat, sep: string, rest: string, c: char)
    requires !IsDigit(c) && Without(sep, c) && Without(rest, c)
    ensures Without(Pad(n, w) + (sep + rest), c)
  {
    PadDigits(n, w);
    WithoutBoth(sep, rest, c);
    WithoutBoth(Pad(n, w), sep + rest, c);
  }

  lemma StampCharacters(t: nat, c: char)
    requires c == '/' || c == '_'
    ensures Without(FormatStamp(t), c)
  {
    var v := Unpack(t);
    NumberWithout(v.milli, 3, "Z", "", c);
    assert "Z" + "" == "Z";
    NumberWithout(v.second, 2, ".", Pad(v.milli, 3) + "Z", c);
    NumberWithout(v.minute, 2, "-", Seconds(v), c);
    NumberWithout(v.hour, 2, "-", Pad(v.minute, 2) + ("-" + Seconds(v)), c);
    NumberWithout(v.day, 2, "T", Clock(v), c);
    NumberWithout(v.month, 2, "-", Pad(v.day, 2) + ("T" + Clock(v)), c);
    NumberWithout(v.year, 4, "-", Date(v), c);
  }

  lemma HexCharacters(suffix: Suffix)
    ensures Without(Hex(suffix), '/')
  {
  }

  /** batchKeyTime inverts the naming, for every device and suffix. */
  lemma KeyTimeRoundTrip(device: string, t: nat, suffix: Suffix)
    requires t < END_OF_RANGE
    ensures BatchKeyTime(KeyFor(device, t, suffix)) == Some(t)
  {
    hide FormatStamp, ParseStamp, AfterLastSlash, BeforeUnderscore, HexByte;
    StampCharacters(t, '/');
    StampCharacters(t, '_');
    HexCharacters(suffix);
    var rest := Hex(suffix) + EXTENSION;
    var name := FormatStamp(t) + ("_" + rest);
    WithoutBoth(Hex(suffix), EXTENSION, '/');
    WithoutBoth("_", rest, '/');
    WithoutBoth(FormatStamp(t), "_" + rest, '/');
    assert KeyFor(device, t, suffix) == ("devices/" + device + "/batches") + "/" + name;
    LastSlashAt("devices/" + device + "/batches", name);
    FirstUnderscoreAt(FormatStamp(t), rest);
    StampRoundTrip(t);
  }

  // ------------------------------------------------------------- the order of keys

  /** A key's place in its device's stream. Positions are ordered exactly as keys are, so the
      protocol model works with positions. */
  function Position(t: int, suffix: Suffix): int {
    t * 0x1_0000 + suffix
  }

  lemma KeyOrder(device: string, s: nat, x: Suffix, t: nat, y: Suffix)
    requires s < END_OF_RANGE && t < END_OF_RANGE
    ensures Less(KeyFor(device, s, x), KeyFor(device, t, y)) <==> Position(s, x) < Position(t, y)
  {
    var a, b := "_" + (Hex(x) + EXTENSION), "_" + (Hex(y) + EXTENSION);
    FieldWidths(s);
    FieldWidths(t);
    StampOrder(s, t);
    StampOrder(t, s);
    Irreflexive(FormatStamp(s));
    Trichotomy(FormatStamp(s), FormatStamp(t));
    SuffixOrder(x, y);
    SharedPrefix(BatchPrefix(device), FormatStamp(s) + a, FormatStamp(t) + b);
    FirstPartDecides(FormatStamp(s), FormatStamp(t), a, b);
  }

  lemma SuffixOrder(x: Suffix, y: Suffix)
    ensures Less("_" + (Hex(x) + EXTENSION), "_" + (Hex(y) + EXTENSION)) <==> x < y
  {
    SharedPrefix("_", Hex(x) + EXTENSION, Hex(y) + EXTENSION);
    FirstPartDecides(Hex(x), Hex(y), EXTENSION, EXTENSION);
    Irreflexive(EXTENSION);
    HexOrder(x, y);
  }

  /** Two keys of one device are equal exactly when their positions are. */
  lemma KeysDistinct(device: string, s: nat, x: Suffix, t: nat, y: Suffix)
    requires s < END_OF_RANGE && t < END_OF_RANGE
    ensures KeyFor(device, s, x) == KeyFor(device, t, y) <==> Position(s, x) == Position(t, y)
  {
    hide KeyFor, Less;
    KeyOrder(device, s, x, t, y);
    KeyOrder(device, t, y, s, x);
    Irreflexive(KeyFor(device, s, x));
  }

  /** The millisecond the next key carries, given the position the manifest names (None: no manifest):
      the clock's, or the one after the manifest's if that is later. */
  function NextStamp(now: nat, latest: Option<nat>): nat {
    match latest
    case None => now
    case Some(prev) => if now > prev / 0x1_0000 then now else prev / 0x1_0000 + 1
  }

  /** The position NewBatchKey names. */
  function NextPosition(now: nat, latest: Option<nat>, suffix: Suffix): (p: nat)
    ensures latest.Some? ==> p > latest.value
    ensures p >= Position(NextStamp(now, latest), 0) >= Position(now, 0)
  {
    Position(NextStamp(now, latest), suffix)
  }

  /** Exactly when the next key is sure to sort above a stored one, whatever suffix it draws: when the
      stored one is of an earlier millisecond than the key will carry. The manifest's own key always
      is; one the manifest does not name need not be. */
  lemma NextAboveIff(now: nat, latest: Option<nat>, stored: nat)
    ensures (forall suffix: Suffix :: NextPosition(now, latest, suffix) > stored) <==> stored < Position(NextStamp(now, latest), 0)
    ensures latest == Some(stored) ==> stored < Position(NextStamp(now, latest), 0)
  {
    assert NextPosition(now, latest, 0) == Position(NextStamp(now, latest), 0);
  }

  /** For every clock reading, backwards or within the same millisecond, and every pair of random
      suffixes, the next key sorts after the previous one — exactly while the previous key is not
      in the last millisecond of year 9999. */
  lemma NextKeySortsAfter(device: string, nowNanos: nat, t: nat, was: Suffix, suffix: Suffix)
    requires t < END_OF_RANGE && nowNanos / NANOS_PER_MILLI < END_OF_RANGE
    ensures var previous := KeyFor(device, t, was);
            Less(previous, NewBatchKey(device, nowNanos, previous, suffix)) <==> t + 1 < END_OF_RANGE
  {
    var previous := KeyFor(device, t, was);
    KeyTimeRoundTrip(device, t, was);
    var s := StampFor(nowNanos, previous);
    if t + 1 < END_OF_RANGE {
      KeyOrder(device, t, was, s, suffix);
    } else {
      assert s == END_OF_RANGE;
      FirstFiveDigitYear();
      LastFourDigitYear(t);
      var x, y := "_" + (Hex(was) + EXTENSION), "_" + (Hex(suffix) + EXTENSION);
      SharedPrefix(BatchPrefix(device), FormatStamp(t) + x, FormatStamp(s) + y);
      assert (FormatStamp(t) + x)[0] == '9' && (FormatStamp(s) + y)[0] == '1';
    }
  }

  lemma FirstFiveDigitYear()
    ensures FormatStamp(END_OF_RANGE) != "" && FormatStamp(END_OF_RANGE)[0] == '1'
  {
    hide Unpack, Date, Pad, YearStart, MonthStart, MonthDays;
    YearAt(Unpack(END_OF_RANGE), 10_000, 3_652_425);
    BoundaryYears();
  }

  lemma LastFourDigitYear(t: nat)
    requires t + 1 == END_OF_RANGE
    ensures FormatStamp(t) != "" && FormatStamp(t)[0] == '9'
  {
    hide Unpack, Date, Pad, YearStart, MonthStart, MonthDays;
    YearAt(Unpack(t), 9999, 3_652_424);
    BoundaryYears();
  }

  lemma PadStep(n: nat, w: nat)
    requires n > 0 || w > 0
    ensures Pad(n, w) == Pad(n / 10, if w == 0 then 0 else w - 1) + [DigitChar(n % 10)]
  {
  }

  lemma BoundaryYears()
    ensures Pad(10_000, 4) == "10000" && Pad(9999, 4) == "9999"
  {
    hide Pad;
    PadEmpty();
    PadStep(1, 0);
    PadStep(10, 1);
    PadStep(100, 2);
    PadStep(1000, 3);
    PadStep(10_000, 4);
    PadStep(9, 1);
    PadStep(99, 2);
    PadStep(999, 3);
    PadStep(9999, 4);
  }

  lemma PadEmpty()
    ensures Pad(0, 0) == ""
  {
  }

  lemma YearAt(c: Civil, y: nat, day: nat)
    requires ValidCivil(c) && DayNumber(c) == day
    requires 365 * y + (y + 3) / 4 - (y + 99) / 100 + (y + 399) / 400 <= day < 365 * (y + 1) + (y + 4) / 4 - (y + 100) / 100 + (y + 400) / 400
    ensures c.year == y
  {
    hide YearStart, MonthStart, MonthDays, Leap;
    YearStartFormula(y);
    YearStartFormula(y + 1);
    MonthsFillTheYear(c.year);
    MonthsAscend(c.year, c.month, 13);
    if c.year < y { YearsAscend(c.year, y); }
    if c.year > y + 1 { YearsAscend(y + 1, c.year); }
  }

  /** The key the engine builds is the one at the position the protocol model steps to. */
  lemma NewKeyAtNextPosition(device: string, nowNanos: nat, t: nat, was: Suffix, suffix: Suffix)
    requires t < END_OF_RANGE
    ensures var p := NextPosition(nowNanos / NANOS_PER_MILLI, Some(Position(t, was)), suffix);
            NewBatchKey(device, nowNanos, KeyFor(device, t, was), suffix) == KeyFor(device, p / 0x1_0000, p % 0x1_0000)
  {
    hide KeyFor, BatchKeyTime;
    KeyTimeRoundTrip(device, t, was);
    assert Position(t, was) / 0x1_0000 == t;
  }

  /** The first key, made from an empty manifest. */
  lemma FirstKeyAtNextPosition(device: string, nowNanos: nat, suffix: Suffix)
    ensures var p := NextPosition(nowNanos / NANOS_PER_MILLI, None, suffix);
            NewBatchKey(device, nowNanos, "", suffix) == KeyFor(device, p / 0x1_0000, p % 0x1_0000)
  {
    hide KeyFor, BatchKeyTime;
    NoPreviousKey();
  }

  // ------------------------------------------------------------- a chain of pushes

  /** The keys of one completed push after another, each named after the one before. */
  function KeyChain(device: string, clocks: seq<nat>, suffixes: seq<Suffix>): (keys: seq<string>)
    requires |clocks| == |suffixes|
    ensures |keys| == |clocks|
  {
    if clocks == [] then []
    else
      var n := |clocks| - 1;
      var before := KeyChain(device, clocks[..n], suffixes[..n]);
      before + [NewBatchKey(device, clocks[n], if before == [] then "" else before[|before|-1], suffixes[n])]
  }

  /** The milliseconds the keys of a chain carry. */
  function StampChain(clocks: seq<nat>): (stamps: seq<nat>)
    ensures |stamps| == |clocks| && forall i, j :: 0 <= i < j < |stamps| ==> stamps[i] < stamps[j]
  {
    if clocks == [] then []
    else
      var before, now := StampChain(clocks[..|clocks|-1]), clocks[|clocks|-1] / NANOS_PER_MILLI;
      before + [if before == [] || now > before[|before|-1] then now else before[|before|-1] + 1]
  }

  lemma {:induction false} StampChainBounded(clocks: seq<nat>, high: nat)
    requires forall i :: 0 <= i < |clocks| ==> clocks[i] / NANOS_PER_MILLI <= high
    ensures forall i :: 0 <= i < |clocks| ==> StampChain(clocks)[i] <= high + i
  {
    if clocks != [] { StampChainBounded(clocks[..|clocks|-1], high); }
  }

  /** The last key of a chain and its milliseconds, from the key before. */
  lemma LastKey(device: string, clocks: seq<nat>, suffixes: seq<Suffix>)
    requires |clocks| == |suffixes| && clocks != []
    ensures var n := |clocks| - 1;
            var keys, stamps := KeyChain(device, clocks[..n], suffixes[..n]), StampChain(clocks[..n]);
            && KeyChain(device, clocks, suffixes)
               == keys + [KeyFor(device, StampFor(clocks[n], if n == 0 then "" else keys[n-1]), suffixes[n])]
            && StampChain(clocks) == stamps + [if n == 0 || clocks[n] / NANOS_PER_MILLI > stamps[n-1]
                                               then clocks[n] / NANOS_PER_MILLI else stamps[n-1] + 1]
  {
    hide KeyFor, StampFor;
  }

  lemma {:induction false} KeyChainIs(device: string, clocks: seq<nat>, suffixes: seq<Suffix>, i: nat)
    requires |clocks| == |suffixes| && i < |clocks|
    requires forall k :: 0 <= k < |clocks| ==> StampChain(clocks)[k] < END_OF_RANGE
    ensures KeyChain(device, clocks, suffixes)[i] == KeyFor(device, StampChain(clocks)[i], suffixes[i])
    decreases |clocks|
  {
    hide KeyFor, BatchKeyTime, KeyChain, StampChain;
    var n := |clocks| - 1;
    LastKey(device, clocks, suffixes);
    assert forall k :: 0 <= k < n ==> StampChain(clocks[..n])[k] == StampChain(clocks)[k];
    if i < n {
      KeyChainIs(device, clocks[..n], suffixes[..n], i);
    } else if n == 0 {
      NoPreviousKey();
    } else {
      KeyChainIs(device, clocks[..n], suffixes[..n], n - 1);
      KeyTimeRoundTrip(device, StampChain(clocks)[n-1], suffixes[n-1]);
    }
  }

  lemma NoPreviousKey()
    ensures BatchKeyTime("") == None
  {
    hide ParseStamp;
    assert AfterLastSlash("") == "" && BeforeUnderscore("") == None;
  }

  /** Along any chain of completed pushes the keys strictly increase, whatever the clock did between
      them, as long as neither clock nor chain runs into year 10000. */
  lemma KeyChainAscends(device: string, clocks: seq<nat>, suffixes: seq<Suffix>, i: nat, j: nat)
    requires |clocks| == |suffixes| && i < j < |clocks|
    requires forall k :: 0 <= k < |clocks| ==> clocks[k] / NANOS_PER_MILLI + |clocks| <= END_OF_RANGE
    ensures Less(KeyChain(device, clocks, suffixes)[i], KeyChain(device, clocks, suffixes)[j])
  {
    hide KeyFor, Less, StampChain, KeyChain;
    assert clocks[i] / NANOS_PER_MILLI + |clocks| <= END_OF_RANGE;
    StampChainBounded(clocks, END_OF_RANGE - |clocks|);
    KeyChainIs(device, clocks, suffixes, i);
    KeyChainIs(device, clocks, suffixes, j);
    KeyOrder(device, StampChain(clocks)[i], suffixes[i], StampChain(clocks)[j], suffixes[j]);
  }
}
