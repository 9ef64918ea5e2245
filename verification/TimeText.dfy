/**
 The time transcoders of `lib/base-impl.c`: a `struct timespec` on the stream, and
 the JSON text that `strftime` and `snprintf` write and `strptime` and `sscanf` read.
 */
module TimeText {
  import opened Basics
  import opened MsgPack
  import opened Calendar
  import opened InetStream
  import opened InetJson

  const BILLION := 1_000_000_000
  const MILLION := 1_000_000
  const INT64: int := 0x1_0000_0000 * 0x1_0000_0000

  datatype Timespec = Timespec(sec: int, nsec: int)

  /** `hed_check_time`, with `UTIME_TIMET_MAX` the largest 64-bit time. */
  function CheckTime(ts: Timespec): int {
    if ts.sec < 0 || ts.sec > INT64 / 2 - 1 || ts.nsec < 0 || ts.nsec >= BILLION then -EINVAL else 0
  }

  // ---- On the stream: the two 64-bit fields as the host stores them ----

  function EncodeTime(ts: Timespec): Bytes
    requires CheckTime(ts) == 0
  {
    EncodeBin(LittleEndian(ts.sec, 8) + LittleEndian(ts.nsec, 8))
  }

  function Signed64(s: Bytes): int {
    var x := FromLittleEndian(s);
    if 2 * x < INT64 then x else x - INT64
  }

  function DecodeTime(s: Bytes): (r: Parsed<Timespec>)
    ensures r.Good? ==> CheckTime(r.value) == 0
  {
    match DecodeBinOf(s, 16)
    case Bad(code) => Bad(code)
    case Good(b, rest) =>
      var ts := Timespec(Signed64(b[..8]), Signed64(b[8..]));
      if CheckTime(ts) != 0 then Bad(CheckTime(ts)) else Good(ts, rest)
  }

  /** Which times are valid: not before the Epoch, with less than a second of nanoseconds. */
  lemma CheckTimeIs(sec: int, nsec: int)
    requires -0x8000_0000_0000_0000 <= sec <= 0x7fff_ffff_ffff_ffff
    ensures CheckTime(Timespec(sec, nsec)) == if 0 <= sec && 0 <= nsec < 1_000_000_000 then 0 else -22
  {
  }

  function Weigh(a: int, b: int, c: int, d: int): int {
    a + 0x100 * b + 0x1_0000 * c + 0x100_0000 * d
  }

  /** Eight bytes as a signed number, the most significant last. */
  function Long(b: Bytes): int
    requires |b| == 8
  {
    Weigh(b[0], b[1], b[2], b[3]) + 0x1_0000_0000 * Weigh(b[4], b[5], b[6], b[7])
    - if b[7] >= 0x80 then 0x1_0000_0000 * 0x1_0000_0000 else 0
  }

  lemma LongBounds(b: Bytes)
    requires |b| == 8
    ensures -0x8000_0000_0000_0000 <= Long(b) <= 0x7fff_ffff_ffff_ffff
  {
  }

  lemma Signed64Is(b: Bytes)
    requires |b| == 8
    ensures Signed64(b) == Long(b)
  {
    FourBytesWeigh(b);
    FourBytesWeigh(b[4..]);
    assert b[4..][4..] == [];
  }

  /** What sixteen bytes on the stream mean as a time: seconds and nanoseconds, each a signed 64-bit
      number of the host. */
  lemma DecodeTimeIs(b: Bytes, rest: Bytes)
    requires |b| == 16
    ensures var sec, nsec := Long(b[..8]), Long(b[8..]);
            DecodeTime(EncodeBin(b) + rest) ==
            if 0 <= sec && 0 <= nsec < 1_000_000_000 then Good(Timespec(sec, nsec), rest) else Bad(-22)
  {
    BinRoundTrip(b, rest);
    Signed64Is(b[..8]);
    Signed64Is(b[8..]);
    LongBounds(b[..8]);
    CheckTimeIs(Long(b[..8]), Long(b[8..]));
  }

  lemma Signed64RoundTrip(x: nat)
    requires 2 * x < INT64
    ensures Signed64(LittleEndian(x, 8)) == x
  {
    Widths();
    LittleEndianRoundTrip(x, 8);
  }

  lemma TimeRoundTrip(ts: Timespec, rest: Bytes)
    requires CheckTime(ts) == 0
    ensures DecodeTime(EncodeTime(ts) + rest) == Good(ts, rest)
  {
    var a, b := LittleEndian(ts.sec, 8), LittleEndian(ts.nsec, 8);
    BinRoundTrip(a + b, rest);
    assert (a + b)[..8] == a && (a + b)[8..] == b;
    Signed64RoundTrip(ts.sec);
    Signed64RoundTrip(ts.nsec);
  }

  // ---- Printing ----

  function Digit(d: int): char
    requires 0 <= d < 10
  {
    "0123456789"[d]
  }

  /** At least `width` decimal digits. */
  function Decimal(n: nat, width: nat): (s: string)
    ensures |s| >= width && (n > 0 || width > 0 ==> s != [])
    decreases n, width
  {
    if n == 0 && width == 0 then []
    else Decimal(n / 10, if width == 0 then 0 else width - 1) + [Digit(n % 10)]
  }

  /** `%FT%T` of `strftime`. */
  function DateText(tm: Tm): string
    requires Proper(tm)
  {
    MonthEnds(tm);
    Decimal(tm.year, 4) + "-" + Decimal(tm.mon, 2) + "-" + Decimal(tm.mday, 2) + "T"
    + Decimal(tm.hour, 2) + ":" + Decimal(tm.min, 2) + ":" + Decimal(tm.sec, 2)
  }

  lemma MonthEnds(tm: Tm)
    requires Proper(tm)
    ensures 1 <= tm.mday <= 31
  {
  }

  /** `gmtime_r` fails when the year does not fit its `int` field. */
  const YEAR_MAX := 0x7fff_ffff + 1900

  function TimeToText(ts: Timespec): Option<string>
    requires CheckTime(ts) == 0
  {
    var tm := GmTime(ts.sec);
    if tm.year > YEAR_MAX then None else Some(DateText(tm) + "." + Decimal(ts.nsec / MILLION, 3) + "Z")
  }

  // ---- Parsing ----

  datatype Scan<+T> = Miss | Hit(val: T, left: string)

  predicate IsDigit(c: char) { '0' <= c <= '9' }

  function DigitValue(c: char): int { c as int - '0' as int }

  predicate IsSpace(c: char) { c == ' ' || '\t' <= c <= '\r' }

  function SkipSpace(s: string): string {
    if s != [] && IsSpace(s[0]) then SkipSpace(s[1..]) else s
  }

  /** Up to `width` digits, stopping early when another digit must exceed `max`. */
  function Digits(s: string, val: int, max: int, width: nat): Scan<int>
    decreases width
  {
    if width == 0 || s == [] || !IsDigit(s[0]) || val * 10 > max then Hit(val, s)
    else Digits(s[1..], val * 10 + DigitValue(s[0]), max, width - 1)
  }

  /** A number field of `strptime`. */
  function Field(s: string, min: int, max: int, width: nat): Scan<int> {
    var t := SkipSpace(s);
    if t == [] || !IsDigit(t[0]) then Miss
    else
      match Digits(t, 0, max, width)
      case Miss => Miss
      case Hit(v, left) => if min <= v <= max then Hit(v, left) else Miss
  }

  function Expect(s: string, c: char): Scan<int> {
    if s != [] && s[0] == c then Hit(0, s[1..]) else Miss
  }

  /** A field and the character after it. */
  function FieldThen(s: string, min: int, max: int, width: nat, c: char): Scan<int> {
    match Field(s, min, max, width)
    case Miss => Miss
    case Hit(v, left) =>
      match Expect(left, c)
      case Miss => Miss
      case Hit(_, left') => Hit(v, left')
  }

  /** `%FT%T` of `strptime`. */
  function ParseDate(s: string): (r: Scan<Tm>)
    ensures r.Hit? ==> 1 <= r.val.mon <= 12
  {
    match FieldThen(s, 0, 9999, 4, '-')
    case Miss => Miss
    case Hit(year, s1) =>
      match FieldThen(s1, 1, 12, 2, '-')
      case Miss => Miss
      case Hit(mon, s2) =>
        match FieldThen(s2, 1, 31, 2, 'T')
        case Miss => Miss
        case Hit(mday, s3) =>
          match FieldThen(s3, 0, 23, 2, ':')
          case Miss => Miss
          case Hit(hour, s4) =>
            match FieldThen(s4, 0, 59, 2, ':')
            case Miss => Miss
            case Hit(min, s5) =>
              match Field(s5, 0, 61, 2)
              case Miss => Miss
              case Hit(sec, s6) => Hit(Tm(year, mon, mday, hour, min, sec), s6)
  }

  function AllDigits(s: string, val: int): int {
    if s == [] || !IsDigit(s[0]) then val else AllDigits(s[1..], val * 10 + DigitValue(s[0]))
  }

  /** `sscanf` with `".%ldZ"`: a dot and a number; whether a `Z` follows makes no difference. */
  function ParseFraction(s: string): Option<int> {
    if s == [] || s[0] != '.' then None
    else
      var t := SkipSpace(s[1..]);
      var neg := t != [] && t[0] == '-';
      var u := if t != [] && (t[0] == '-' || t[0] == '+') then t[1..] else t;
      if u == [] || !IsDigit(u[0]) then None
      else Some(if neg then -AllDigits(u, 0) else AllDigits(u, 0))
  }

  /** `mktime` reads the fields as local time: UTC less the offset of the zone in force. */
  type Zone = int -> int

  /** A number as `%ld` stores it, held to the ends of its range. */
  function Clamped(n: int): int {
    if n < -(INT64 / 2) then -(INT64 / 2) else if n >= INT64 / 2 then INT64 / 2 - 1 else n
  }

  /** A 64-bit product, wrapped around. */
  function Wrapped(n: int): int {
    (n + INT64 / 2) % INT64 - INT64 / 2
  }

  /** `tv_nsec *= 1000000L` */
  function Scaled(ms: int): int {
    Wrapped(Clamped(ms) * MILLION)
  }

  /** As long as the product fits, exactly 0 to 999 make valid nanoseconds. */
  lemma ScaledExact(ms: int)
    requires -(INT64 / 2) <= ms * MILLION < INT64 / 2
    ensures Scaled(ms) == ms * MILLION
    ensures 0 <= Scaled(ms) < BILLION <==> 0 <= ms <= 999
  {
  }

  /** The time that a date and the text after it stand for. */
  function Combined(zone: Zone, date: Scan<Tm>): Option<Timespec>
    requires date.Hit? ==> 1 <= date.val.mon <= 12
  {
    match date
    case Miss => None
    case Hit(tm, left) =>
      match ParseFraction(left)
      case None => None
      case Some(ms) =>
        var local := TimeGm(tm);
        var ts := Timespec(local - zone(local), Scaled(ms));
        if CheckTime(ts) != 0 then None else Some(ts)
  }

  function TextToTime(zone: Zone, s: string): Option<Timespec> {
    Combined(zone, ParseDate(s))
  }

  // ---- The transcoders ----

  /** `hed_decode_time_to_json`; `room` says whether json-c can allocate the string. */
  method DecodeTimeToJson(decoder: Decoder, room: bool) returns (obj: Option<Json>)
    modifies decoder
    ensures match DecodeTime(old(decoder.left))
            case Bad(_) => obj == None
            case Good(ts, rest) =>
              match TimeToText(ts)
              case None => obj == None
              case Some(text) =>
                if room then obj == Some(JStr(text)) && decoder.left == rest else obj == None
  {
    var r := DecodeTime(decoder.left);
    if r.Bad? { return None; }
    decoder.left := r.rest;
    var tm := GmTime(r.value.sec);
    if tm.year > YEAR_MAX { return None; }
    var time := DateText(tm);
    if !room { return None; }
    obj := Some(JStr(time + "." + Decimal(r.value.nsec / MILLION, 3) + "Z"));
  }

  /** `hed_encode_time` */
  method PutTime(encoder: Encoder, ts: Timespec) returns (ret: int)
    requires CheckTime(ts) == 0
    modifies encoder`data
    ensures ret == if |old(encoder.data)| + |EncodeTime(ts)| <= encoder.cap then 0 else -EMSGSIZE
    ensures encoder.data == old(encoder.data) + if ret == 0 then EncodeTime(ts) else []
  {
    ret := encoder.Put(EncodeTime(ts));
    assert old(encoder.data) + [] == old(encoder.data);
  }

  /** The fraction, the count and the check, once `strptime` has read a date. */
  method ReadTime(zone: Zone, date: Tm, left: string) returns (ret: int, ts: Timespec)
    requires 1 <= date.mon <= 12
    ensures match Combined(zone, Hit(date, left))
            case None => ret == -EINVAL
            case Some(t) => ret == 0 && ts == t && CheckTime(ts) == 0
  {
    ts := Timespec(0, 0);
    var fraction := ParseFraction(left);
    if fraction.None? { return -EINVAL, ts; }
    var sec := TimeGm(date);
    sec := sec - zone(sec);
    ts := Timespec(sec, Scaled(fraction.value));
    ret := CheckTime(ts);
  }

  /** `hed_encode_time_from_json` */
  method EncodeTimeFromJson(zone: Zone, encoder: Encoder, j: Json) returns (ret: int)
    modifies encoder`data
    ensures var ts := if j.JStr? then TextToTime(zone, j.s) else None;
            if ts.None? then ret == -EINVAL && encoder.data == old(encoder.data)
            else
              && ret == (if |old(encoder.data)| + |EncodeTime(ts.value)| <= encoder.cap then 0 else -EMSGSIZE)
              && encoder.data == old(encoder.data) + (if ret == 0 then EncodeTime(ts.value) else [])
  {
    if !j.JStr? { return -EINVAL; }
    var date := ParseDate(j.s);
    if date.Miss? { return -EINVAL; }
    var ts;
    ret, ts := ReadTime(zone, date.val, date.left);
    if ret != 0 { return; }
    ret := PutTime(encoder, ts);
  }

  // ---- Parsing undoes printing ----

  ghost predicate IsDigits(ds: string) {
    forall i | 0 <= i < |ds| :: IsDigit(ds[i])
  }

  lemma {:induction false} AllDigitsSnoc(ds: string, c: char, val: int)
    requires IsDigits(ds) && IsDigit(c)
    ensures AllDigits(ds + [c], val) == AllDigits(ds, val) * 10 + DigitValue(c)
  {
    if ds == [] {
      assert ds + [c] == [c] && [c][1..] == [];
    } else {
      assert (ds + [c])[1..] == ds[1..] + [c];
      AllDigitsSnoc(ds[1..], c, val * 10 + DigitValue(ds[0]));
    }
  }

  /** The digits printed read as the number, and are no more than asked when that is enough. */
  lemma {:induction false} DecimalReads(n: nat, width: nat)
    ensures IsDigits(Decimal(n, width)) && AllDigits(Decimal(n, width), 0) == n
    decreases n, width
  {
    if n > 0 || width > 0 {
      var w := if width == 0 then 0 else width - 1;
      DecimalReads(n / 10, w);
      AllDigitsSnoc(Decimal(n / 10, w), Digit(n % 10), 0);
    }
  }

  function Pow10(w: nat): nat {
    if w == 0 then 1 else 10 * Pow10(w - 1)
  }

  lemma {:induction false} DecimalWidth(n: nat, width: nat)
    ensures |Decimal(n, width)| == width <==> n < Pow10(width)
    decreases n, width
  {
    if width > 0 {
      DecimalWidth(n / 10, width - 1);
    }
  }

  lemma {:induction false} AllDigitsGrows(ds: string, val: nat)
    requires IsDigits(ds)
    ensures AllDigits(ds, val) >= val
    ensures ds != [] ==> AllDigits(ds, val) >= 10 * val
  {
    if ds != [] { AllDigitsGrows(ds[1..], val * 10 + DigitValue(ds[0])); }
  }

  lemma {:induction false} DigitsReads(ds: string, rest: string, val: nat, max: nat)
    requires IsDigits(ds) && AllDigits(ds, val) <= max
    ensures Digits(ds + rest, val, max, |ds|) == Hit(AllDigits(ds, val), rest)
  {
    if ds == [] {
      assert ds + rest == rest;
    } else {
      AllDigitsGrows(ds, val);
      assert (ds + rest)[1..] == ds[1..] + rest;
      DigitsReads(ds[1..], rest, val * 10 + DigitValue(ds[0]), max);
    }
  }

  /** With more digits than the field takes, a digit is what comes next. */
  lemma {:induction false} DigitsLeaves(ds: string, rest: string, val: nat, max: nat, width: nat)
    requires IsDigits(ds) && |ds| > width
    ensures var r := Digits(ds + rest, val, max, width); r.Hit? && r.left != [] && IsDigit(r.left[0])
    decreases width
  {
    if width > 0 {
      assert (ds + rest)[1..] == ds[1..] + rest;
      DigitsLeaves(ds[1..], rest, val * 10 + DigitValue(ds[0]), max, width - 1);
    }
  }

  lemma DigitNotSpace(s: string)
    requires s != [] && IsDigit(s[0])
    ensures SkipSpace(s) == s
  {
  }

  lemma FieldReads(n: nat, min: int, max: int, width: nat, rest: string)
    requires min <= n <= max && 0 < width && n < Pow10(width)
    ensures Field(Decimal(n, width) + rest, min, max, width) == Hit(n, rest)
  {
    var ds := Decimal(n, width);
    DecimalReads(n, width);
    DecimalWidth(n, width);
    DigitsReads(ds, rest, 0, max);
    assert (ds + rest)[0] == ds[0];
    DigitNotSpace(ds + rest);
  }

  lemma FieldThenReads(n: nat, min: int, max: int, width: nat, c: char, rest: string)
    requires min <= n <= max && 0 < width && n < Pow10(width)
    ensures FieldThen(Decimal(n, width) + ([c] + rest), min, max, width, c) == Hit(n, rest)
  {
    FieldReads(n, min, max, width, [c] + rest);
    assert ([c] + rest)[1..] == rest;
  }

  /** A year of more than four digits is not read. */
  lemma LongYearMisses(n: nat, rest: string)
    requires n >= 10000
    ensures FieldThen(Decimal(n, 4) + rest, 0, 9999, 4, '-') == Miss
  {
    var ds := Decimal(n, 4);
    DecimalReads(n, 4);
    DecimalWidth(n, 4);
    assert Pow10(4) == 10000;
    DigitsLeaves(ds, rest, 0, 9999, 4);
    assert (ds + rest)[0] == ds[0];
    DigitNotSpace(ds + rest);
  }

  /** The text after the year, the month and so on. */
  function FromSec(tm: Tm, rest: string): string
    requires Proper(tm)
  {
    Decimal(tm.sec, 2) + rest
  }

  function FromMin(tm: Tm, rest: string): string
    requires Proper(tm)
  {
    Decimal(tm.min, 2) + ([':'] + FromSec(tm, rest))
  }

  function FromHour(tm: Tm, rest: string): string
    requires Proper(tm)
  {
    Decimal(tm.hour, 2) + ([':'] + FromMin(tm, rest))
  }

  function FromDay(tm: Tm, rest: string): string
    requires Proper(tm)
  {
    MonthEnds(tm);
    Decimal(tm.mday, 2) + (['T'] + FromHour(tm, rest))
  }

  function FromMonth(tm: Tm, rest: string): string
    requires Proper(tm)
  {
    Decimal(tm.mon, 2) + (['-'] + FromDay(tm, rest))
  }

  lemma DateTextParts(tm: Tm, rest: string)
    requires Proper(tm)
    ensures DateText(tm) + rest == Decimal(tm.year, 4) + (['-'] + FromMonth(tm, rest))
  {
  }

  lemma ParseTail(tm: Tm, rest: string)
    requires Proper(tm)
    ensures FieldThen(FromMonth(tm, rest), 1, 12, 2, '-') == Hit(tm.mon, FromDay(tm, rest))
    ensures FieldThen(FromDay(tm, rest), 1, 31, 2, 'T') == Hit(tm.mday, FromHour(tm, rest))
    ensures FieldThen(FromHour(tm, rest), 0, 23, 2, ':') == Hit(tm.hour, FromMin(tm, rest))
    ensures FieldThen(FromMin(tm, rest), 0, 59, 2, ':') == Hit(tm.min, FromSec(tm, rest))
    ensures Field(FromSec(tm, rest), 0, 61, 2) == Hit(tm.sec, rest)
  {
    assert Pow10(2) == 100;
    MonthEnds(tm);
    FieldThenReads(tm.mon, 1, 12, 2, '-', FromDay(tm, rest));
    FieldThenReads(tm.mday, 1, 31, 2, 'T', FromHour(tm, rest));
    FieldThenReads(tm.hour, 0, 23, 2, ':', FromMin(tm, rest));
    FieldThenReads(tm.min, 0, 59, 2, ':', FromSec(tm, rest));
    FieldReads(tm.sec, 0, 61, 2, rest);
  }

  /** A printed date is read back exactly when its year has four digits. */
  lemma ParseDateText(tm: Tm, rest: string)
    requires Proper(tm)
    ensures ParseDate(DateText(tm) + rest) == if tm.year <= 9999 then Hit(tm, rest) else Miss
  {
    DateTextParts(tm, rest);
    if tm.year <= 9999 {
      assert Pow10(4) == 10000;
      FieldThenReads(tm.year, 0, 9999, 4, '-', FromMonth(tm, rest));
      ParseTail(tm, rest);
    } else {
      LongYearMisses(tm.year, ['-'] + FromMonth(tm, rest));
    }
  }

  lemma {:induction false} AllDigitsStops(ds: string, rest: string, val: int)
    requires IsDigits(ds) && (rest == [] || !IsDigit(rest[0]))
    ensures AllDigits(ds + rest, val) == AllDigits(ds, val)
  {
    if ds == [] {
      assert ds + rest == rest;
    } else {
      assert (ds + rest)[1..] == ds[1..] + rest;
      AllDigitsStops(ds[1..], rest, val * 10 + DigitValue(ds[0]));
    }
  }

  lemma ParseFractionText(ms: nat)
    ensures ParseFraction("." + Decimal(ms, 3) + "Z") == Some(ms)
  {
    var ds := Decimal(ms, 3);
    var s := "." + ds + "Z";
    assert s[1..] == ds + "Z";
    DecimalReads(ms, 3);
    assert (ds + "Z")[0] == ds[0];
    DigitNotSpace(ds + "Z");
    AllDigitsStops(ds, "Z", 0);
  }

  /** In UTC a printed date with up to 999 milliseconds is accepted as exactly that time. */
  lemma PrintedAccepted(tm: Tm, ms: nat)
    requires Civil(tm) && 1970 <= tm.year <= 9999 && ms <= 999
    ensures Proper(tm)
    ensures TextToTime(_ => 0, DateText(tm) + ("." + Decimal(ms, 3) + "Z")) ==
            Some(Timespec(TimeGm(tm), ms * 1_000_000))
  {
    ProperIs(tm);
    ProperBounds(tm);
    ScaledExact(ms);
    CheckTimeIs(TimeGm(tm), Scaled(ms));
    TextBack(_ => 0, tm, ms, TimeGm(tm), DateText(tm) + ("." + Decimal(ms, 3) + "Z"));
  }

  lemma ProperBounds(tm: Tm)
    requires Proper(tm) && tm.year <= 9999
    ensures 0 <= TimeGm(tm) < YEAR_10000
  {
    TimeGmInverts(tm);
    FourDigitYear(TimeGm(tm));
  }

  /** Where each field of a printed date stands: `YYYY-MM-DDThh:mm:ss`. */
  lemma DateTextLayout(tm: Tm)
    requires Proper(tm) && tm.year <= 9999
    ensures var s := DateText(tm);
            && |s| == 19 && s[4] == '-' && s[7] == '-' && s[10] == 'T' && s[13] == ':' && s[16] == ':'
            && Reads(s[..4], tm.year) && Reads(s[5..7], tm.mon) && Reads(s[8..10], tm.mday)
            && Reads(s[11..13], tm.hour) && Reads(s[14..16], tm.min) && Reads(s[17..], tm.sec)
  {
    MonthEnds(tm);
    Fixed(tm.year, 4);
    Fixed(tm.mon, 2);
    Fixed(tm.mday, 2);
    Fixed(tm.hour, 2);
    Fixed(tm.min, 2);
    Fixed(tm.sec, 2);
    Joined(Decimal(tm.year, 4), Decimal(tm.mon, 2), Decimal(tm.mday, 2),
           Decimal(tm.hour, 2), Decimal(tm.min, 2), Decimal(tm.sec, 2));
  }

  /** The text is all digits and their number is `n`. */
  ghost predicate Reads(s: string, n: int) {
    IsDigits(s) && AllDigits(s, 0) == n
  }

  lemma Fixed(n: nat, width: nat)
    requires (width == 4 && n <= 9999) || (width == 2 && n <= 99)
    ensures |Decimal(n, width)| == width && Reads(Decimal(n, width), n)
  {
    assert Pow10(4) == 10000 && Pow10(2) == 100;
    DecimalWidth(n, width);
    DecimalReads(n, width);
  }

  lemma Joined(y: string, m: string, d: string, h: string, i: string, s: string)
    requires |y| == 4 && |m| == 2 && |d| == 2 && |h| == 2 && |i| == 2 && |s| == 2
    ensures var t := y + "-" + m + "-" + d + "T" + h + ":" + i + ":" + s;
            && |t| == 19 && t[4] == '-' && t[7] == '-' && t[10] == 'T' && t[13] == ':' && t[16] == ':'
            && t[..4] == y && t[5..7] == m && t[8..10] == d && t[11..13] == h && t[14..16] == i && t[17..] == s
  {
    var t := y + "-" + m + "-" + d + "T" + h + ":" + i + ":" + s;
    assert t[..4] == y && t[5..7] == m;
    assert t[8..10] == d && t[11..13] == h;
    assert t[14..16] == i && t[17..] == s;
  }

  /** The whole text: the date, a dot, three digits of milliseconds and a `Z`; it exists up to the
      last year that fits. */
  lemma TimeToTextIs(ts: Timespec)
    requires CheckTime(ts) == 0
    ensures TimeToText(ts).Some? <==> ts.sec < YEAR_END
    ensures ts.sec < YEAR_10000 ==>
              && TimeToText(ts).Some?
              && var s := TimeToText(ts).value;
              && |s| == 24 && s[..19] == DateText(GmTime(ts.sec)) && s[19] == '.' && s[23] == 'Z'
              && Reads(s[20..23], ts.nsec / 1_000_000)
  {
    LastYear(ts.sec);
    FourDigitYear(ts.sec);
    if ts.sec < YEAR_10000 {
      DateTextLayout(GmTime(ts.sec));
      Milliseconds(ts.nsec / MILLION);
    }
  }

  lemma Milliseconds(ms: nat)
    requires ms <= 999
    ensures |Decimal(ms, 3)| == 3 && Reads(Decimal(ms, 3), ms)
  {
    assert Pow10(3) == 1000;
    DecimalWidth(ms, 3);
    DecimalReads(ms, 3);
  }

  // ---- What any accepted text says ----

  lemma {:induction false} SpacesSkipped(s: string) returns (n: nat)
    ensures n <= |s| && SkipSpace(s) == s[n..] && forall i | 0 <= i < n :: IsSpace(s[i])
  {
    n := 0;
    if s != [] && IsSpace(s[0]) {
      var m := SpacesSkipped(s[1..]);
      n := m + 1;
      assert s[1..][m..] == s[n..];
      forall i | 0 <= i < n ensures IsSpace(s[i]) {
        if i > 0 { assert s[i] == s[1..][i - 1]; }
      }
    }
  }

  lemma {:induction false} DigitsSound(s: string, val: int, max: int, width: nat) returns (n: nat)
    ensures n <= width && n <= |s| && IsDigits(s[..n])
    ensures Digits(s, val, max, width) == Hit(AllDigits(s[..n], val), s[n..])
    ensures width > 0 && s != [] && IsDigit(s[0]) && val * 10 <= max ==> n > 0
  {
    n := 0;
    if !(width == 0 || s == [] || !IsDigit(s[0]) || val * 10 > max) {
      var m := DigitsSound(s[1..], val * 10 + DigitValue(s[0]), max, width - 1);
      n := m + 1;
      assert s[..n] == [s[0]] + s[1..][..m] && s[1..][m..] == s[n..];
      assert s[..n][1..] == s[1..][..m];
    }
  }

  /** A field that is read is spaces, then one to `width` digits, and its value is their number and
      within its bounds. */
  lemma FieldSound(s: string, min: int, max: int, width: nat) returns (i: nat, j: nat)
    requires max >= 0 && width > 0 && Field(s, min, max, width).Hit?
    ensures i < j <= |s| && j - i <= width && Field(s, min, max, width).left == s[j..]
    ensures (forall k | 0 <= k < i :: IsSpace(s[k])) && Reads(s[i..j], Field(s, min, max, width).val)
    ensures min <= Field(s, min, max, width).val <= max
  {
    i := SpacesSkipped(s);
    var n := DigitsSound(s[i..], 0, max, width);
    j := i + n;
    assert s[i..][..n] == s[i..j] && s[i..][n..] == s[j..];
  }

  lemma FieldBounds(s: string, min: int, max: int, width: nat)
    ensures Field(s, min, max, width).Hit? ==> min <= Field(s, min, max, width).val <= max
  {
  }

  lemma FieldThenBounds(s: string, min: int, max: int, width: nat, c: char)
    ensures FieldThen(s, min, max, width, c).Hit? ==> min <= FieldThen(s, min, max, width, c).val <= max
  {
    FieldBounds(s, min, max, width);
  }

  lemma TailBounds(s: string, hour: Scan<int>, min: Scan<int>)
    requires hour == FieldThen(s, 0, 23, 2, ':') && hour.Hit?
    requires min == FieldThen(hour.left, 0, 59, 2, ':') && min.Hit?
    ensures 0 <= hour.val <= 23 && 0 <= min.val <= 59
    ensures Field(min.left, 0, 61, 2).Hit? ==> 0 <= Field(min.left, 0, 61, 2).val <= 61
  {
    FieldThenBounds(s, 0, 23, 2, ':');
    FieldThenBounds(hour.left, 0, 59, 2, ':');
    FieldBounds(min.left, 0, 61, 2);
  }

  /** The fields of any accepted date are within the bounds of `strptime`; whether the month has
      that day is not looked at. */
  lemma DateBounds(s: string)
    requires ParseDate(s).Hit?
    ensures var tm := ParseDate(s).val;
            && 0 <= tm.year <= 9999 && 1 <= tm.mon <= 12 && 1 <= tm.mday <= 31
            && 0 <= tm.hour <= 23 && 0 <= tm.min <= 59 && 0 <= tm.sec <= 61
  {
    var y := FieldThen(s, 0, 9999, 4, '-');
    FieldThenBounds(s, 0, 9999, 4, '-');
    var m := FieldThen(y.left, 1, 12, 2, '-');
    FieldThenBounds(y.left, 1, 12, 2, '-');
    var d := FieldThen(m.left, 1, 31, 2, 'T');
    FieldThenBounds(m.left, 1, 31, 2, 'T');
    var h := FieldThen(d.left, 0, 23, 2, ':');
    TailBounds(d.left, h, FieldThen(h.left, 0, 59, 2, ':'));
  }

  /** The fraction is a dot and a number, and anything may follow it. */
  lemma PlainFraction(ds: string, rest: string)
    requires ds != [] && IsDigits(ds) && (rest == [] || !IsDigit(rest[0]))
    ensures ParseFraction("." + (ds + rest)) == Some(AllDigits(ds, 0))
  {
    var t := ds + rest;
    assert ("." + t)[1..] == t && t[0] == ds[0];
    DigitNotSpace(t);
    AllDigitsStops(ds, rest, 0);
  }

  /** The number may have a sign. */
  lemma SignedFraction(neg: bool, ds: string, rest: string)
    requires ds != [] && IsDigits(ds) && (rest == [] || !IsDigit(rest[0]))
    ensures ParseFraction("." + ([if neg then '-' else '+'] + (ds + rest))) ==
            Some(if neg then -AllDigits(ds, 0) else AllDigits(ds, 0))
  {
    var t := [if neg then '-' else '+'] + (ds + rest);
    assert ("." + t)[1..] == t && t[1..] == ds + rest && (ds + rest)[0] == ds[0];
    AllDigitsStops(ds, rest, 0);
  }

  /** The time kept to the millisecond. */
  function Truncated(ts: Timespec): Timespec {
    Timespec(ts.sec, ts.nsec / MILLION * MILLION)
  }

  lemma CombinedIs(zone: Zone, tm: Tm, left: string, ms: int)
    requires ParseFraction(left) == Some(ms) && 1 <= tm.mon <= 12
    ensures var ts := Timespec(TimeGm(tm) - zone(TimeGm(tm)), Scaled(ms));
            Combined(zone, Hit(tm, left)) == if CheckTime(ts) == 0 then Some(ts) else None
  {
  }

  /** What parsing makes of a printed date and any number of milliseconds, whatever time they
      came from: it is accepted exactly when the product, as stored, makes a valid time. */
  lemma TextBack(zone: Zone, tm: Tm, ms: nat, local: int, s: string)
    requires Proper(tm) && local == TimeGm(tm)
    requires s == DateText(tm) + ("." + Decimal(ms, 3) + "Z")
    ensures var ts := Timespec(local - zone(local), Scaled(ms));
            TextToTime(zone, s) ==
            if tm.year <= 9999 && CheckTime(ts) == 0 then Some(ts) else None
  {
    var tail := "." + Decimal(ms, 3) + "Z";
    assert ParseDate(s) == if tm.year <= 9999 then Hit(tm, tail) else Miss by { ParseDateText(tm, tail); }
    if tm.year <= 9999 {
      ParseFractionText(ms);
      CombinedIs(zone, tm, tail, ms);
    }
  }

  lemma TextParts(ts: Timespec, tm: Tm)
    requires CheckTime(ts) == 0 && tm == GmTime(ts.sec)
    ensures TimeToText(ts).Some? <==> tm.year <= YEAR_MAX
    ensures tm.year <= YEAR_MAX ==>
              TimeToText(ts).value == DateText(tm) + ("." + Decimal(ts.nsec / MILLION, 3) + "Z")
  {
    if tm.year <= YEAR_MAX {
      var f := Decimal(ts.nsec / MILLION, 3);
      assert DateText(tm) + "." + f + "Z" == DateText(tm) + ("." + f + "Z");
    }
  }

  /** Printing a valid time and parsing the text: years beyond 9999 are refused; otherwise the
      nanoseconds are cut to the millisecond and the seconds move by the offset of the local zone. */
  lemma TextRoundTrip(zone: Zone, ts: Timespec)
    requires CheckTime(ts) == 0
    ensures ts.sec < YEAR_10000 ==> TimeToText(ts).Some?
    ensures TimeToText(ts).Some? ==>
              var moved := Truncated(ts).(sec := ts.sec - zone(ts.sec));
              TextToTime(zone, TimeToText(ts).value) ==
              if ts.sec < YEAR_10000 && CheckTime(moved) == 0 then Some(moved) else None
  {
    var tm := GmTime(ts.sec);
    FourDigitYear(ts.sec);
    GmTimeInverts(ts.sec);
    TextParts(ts, tm);
    var text := TimeToText(ts);
    ScaledExact(ts.nsec / MILLION);
    if text.Some? { TextBack(zone, tm, ts.nsec / MILLION, ts.sec, text.value); }
  }

  /** The product is kept modulo 2^64. */
  lemma WrappedIs(n: int)
    ensures -(INT64 / 2) <= Wrapped(n) < INT64 / 2 && (n - Wrapped(n)) % INT64 == 0
  {
    var q := (n + INT64 / 2) / INT64;
    assert n - Wrapped(n) == q * INT64;
  }

  /** A number too long for `%ld` is held to the end of its range: past the largest it makes negative
      nanoseconds, past the smallest none. */
  lemma ScaledEnds(n: int)
    ensures n >= 0x7fff_ffff_ffff_ffff ==> Scaled(n) == -1_000_000
    ensures n <= -0x8000_0000_0000_0000 ==> Scaled(n) == 0
  {
  }

  /** Beyond that the product wraps: 2^58 milliseconds are 15625 times 2^64 nanoseconds, and count
      as none. */
  lemma ScaledWraps()
    ensures Scaled(0x400_0000_0000_0000) == 0
  {
  }

  lemma TruncatedValid(ts: Timespec)
    requires CheckTime(ts) == 0
    ensures CheckTime(Truncated(ts)) == 0 && Truncated(Truncated(ts)) == Truncated(ts)
  {
  }

  /** So the seconds survive exactly where the local zone is UTC. */
  lemma SecondsSurvive(zone: Zone, ts: Timespec)
    requires CheckTime(ts) == 0 && ts.sec < YEAR_10000
    ensures TimeToText(ts).Some?
    ensures TextToTime(zone, TimeToText(ts).value) == Some(Truncated(ts)) <==> zone(ts.sec) == 0
  {
    TextRoundTrip(zone, ts);
    Moved(ts, zone(ts.sec), TextToTime(zone, TimeToText(ts).value));
  }

  lemma Moved(ts: Timespec, offset: int, read: Option<Timespec>)
    requires CheckTime(ts) == 0
    requires var moved := Truncated(ts).(sec := ts.sec - offset);
             read == if CheckTime(moved) == 0 then Some(moved) else None
    ensures read == Some(Truncated(ts)) <==> offset == 0
  {
  }

  /** In UTC, a second trip changes nothing. */
  lemma SecondTrip(ts: Timespec)
    requires CheckTime(ts) == 0 && ts.sec < YEAR_10000
    ensures var once := Truncated(ts);
            && CheckTime(once) == 0 && TimeToText(once).Some?
            && TextToTime(_ => 0, TimeToText(once).value) == Some(once)
  {
    TruncatedValid(ts);
    SecondsSurvive(_ => 0, Truncated(ts));
  }
}
