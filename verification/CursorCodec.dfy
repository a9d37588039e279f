/** Page cursors on the wire (cursor.util.ts): base64url of the JSON text {"t": ISO timestamp, "i": hexadecimal id}.
    Base64url is section 5 of RFC 4648, without padding; the timestamp text is the date-time string format of ECMA-262. */
module CursorCodec {
  import opened Wrappers
  import opened Calendar
  import JsDate
  import opened Numerals
  import K = KeysetPagination

  // ----- Timestamps -----

  const MS_PER_DAY := JsDate.MS_PER_DAY
  const MAX_TIME := 100_000_000 * MS_PER_DAY

  /** The range of a JavaScript time value. */
  predicate IsTimeValue(t: int) {
    -MAX_TIME <= t <= MAX_TIME
  }

  /** Four digits, or a sign and six for a year that does not fit. */
  function YearText(y: int): string {
    if 0 <= y <= 9999 then Digits(y, 10, 4)
    else if y > 0 then "+" + Digits(y, 10, 6)
    else "-" + Digits(-y, 10, 6)
  }

  /** The text behind the year, from its six numbers already written out. */
  function RestText(month: string, day: string, h: string, m: string, s: string, ms: string): string {
    "-" + month + "-" + day + "T" + h + ":" + m + ":" + s + "." + ms + "Z"
  }

  function IsoText(t: int): string {
    var day, ms := t / MS_PER_DAY, t % MS_PER_DAY;
    var month := MonthOf(day);
    YearText(month / 12) + RestText(
      Digits(month % 12 + 1, 10, 2), Digits(DayOfMonth(day), 10, 2),
      Digits(ms / 3_600_000, 10, 2), Digits(ms / 60_000 % 60, 10, 2), Digits(ms / 1000 % 60, 10, 2), Digits(ms % 1000, 10, 3))
  }

  function ParseYear(text: string): Option<int> {
    if |text| == 4 then (var y := NumberOf(text, 10); if y.Some? then Some(y.value) else None)
    else if |text| == 7 && (text[0] == '+' || text[0] == '-') then
      var y := NumberOf(text[1..], 10);
      if y.None? || (text[0] == '-' && y.value == 0) then None
      else Some(if text[0] == '-' then 0 - y.value as int else y.value as int)
    else None
  }

  predicate IsRest(text: string) {
    |text| == 20 && text[0] == '-' && text[3] == '-' && text[6] == 'T' && text[9] == ':' && text[12] == ':' && text[15] == '.' && text[19] == 'Z'
  }

  function TimeOf(year: int, month: nat, day: nat, h: nat, m: nat, s: nat, ms: nat): Option<int> {
    var n := 12 * year + month - 1;
    if !(1 <= month <= 12 && 1 <= day <= MonthLength(n) && h < 24 && m < 60 && s < 60) then None
    else Some((MonthStart(n) + day - 1) * MS_PER_DAY + h * 3_600_000 + m * 60_000 + s * 1000 + ms)
  }

  function ParseFields(year: int, month: string, day: string, h: string, m: string, s: string, ms: string): Option<int> {
    var mo, d := NumberOf(month, 10), NumberOf(day, 10);
    var hour, min, sec, milli := NumberOf(h, 10), NumberOf(m, 10), NumberOf(s, 10), NumberOf(ms, 10);
    if mo.None? || d.None? || hour.None? || min.None? || sec.None? || milli.None? then None
    else TimeOf(year, mo.value, d.value, hour.value, min.value, sec.value, milli.value)
  }

  /** The 20 characters behind the year. */
  function ParseRest(year: int, text: string): Option<int> {
    if !IsRest(text) then None
    else ParseFields(year, text[1..3], text[4..6], text[7..9], text[10..12], text[13..15], text[16..19])
  }

  function ParseIso(text: string): Option<int> {
    if |text| < 20 then None
    else
      var year := ParseYear(text[..|text| - 20]);
      if year.None? then None
      else
        var t := ParseRest(year.value, text[|text| - 20..]);
        if t.Some? && IsTimeValue(t.value) then t else None
  }

  lemma YearFits(t: int)
    requires IsTimeValue(t)
    ensures -999_999 <= MonthOf(t / MS_PER_DAY) / 12 <= 999_999
  {
    var day := t / MS_PER_DAY;
    var month := MonthOf(day);
    if month >= EPOCH_MONTH {
      MonthStartMonotone(EPOCH_MONTH, month);
    } else {
      MonthStartMonotone(month + 1, EPOCH_MONTH);
    }
  }

  lemma {:induction false} PlainConcat(a: string, b: string)
    requires IsPlain(a) && IsPlain(b)
    ensures IsPlain(a + b)
  {
  }

  lemma YearRoundTrip(y: int)
    requires -999_999 <= y <= 999_999
    ensures ParseYear(YearText(y)) == Some(y) && IsPlain(YearText(y))
    ensures |YearText(y)| == 4 || |YearText(y)| == 7
  {
    assert Power(10, 4) == 10_000 && Power(10, 6) == 1_000_000;
    if 0 <= y <= 9999 {
      DigitsRoundTrip(y, 10, 4);
    } else {
      var digits := if y > 0 then Digits(y, 10, 6) else Digits(-y, 10, 6);
      DigitsRoundTrip(if y > 0 then y else -y, 10, 6);
      assert YearText(y)[1..] == digits;
    }
  }

  lemma RestSplits(month: string, day: string, h: string, m: string, s: string, ms: string)
    requires |month| == 2 && |day| == 2 && |h| == 2 && |m| == 2 && |s| == 2 && |ms| == 3
    ensures var text := RestText(month, day, h, m, s, ms);
      IsRest(text) && text[1..3] == month && text[4..6] == day
      && text[7..9] == h && text[10..12] == m && text[13..15] == s && text[16..19] == ms
  {
    var text := RestText(month, day, h, m, s, ms);
    assert text[1..3] == month;
    assert text[4..6] == day;
    assert text[7..9] == h;
    assert text[10..12] == m;
    assert text[13..15] == s;
    assert text[16..19] == ms;
  }

  lemma RestIsPlain(month: string, day: string, h: string, m: string, s: string, ms: string)
    requires IsPlain(month) && IsPlain(day) && IsPlain(h) && IsPlain(m) && IsPlain(s) && IsPlain(ms)
    ensures IsPlain(RestText(month, day, h, m, s, ms))
  {
  }

  lemma SmallNumberRoundTrip(n: nat, width: nat)
    requires 2 <= width <= 3 && n < if width == 2 then 100 else 1000
    ensures NumberOf(Digits(n, 10, width), 10) == Some(n) && IsPlain(Digits(n, 10, width))
  {
    assert Power(10, 2) == 100 && Power(10, 3) == 1000;
    DigitsRoundTrip(n, 10, width);
  }

  lemma RestRoundTrip(year: int, month: nat, day: nat, h: nat, m: nat, s: nat, ms: nat)
    requires 1 <= month <= 12 && day < 100 && h < 24 && m < 60 && s < 60 && ms < 1000
    ensures var text := RestText(Digits(month, 10, 2), Digits(day, 10, 2), Digits(h, 10, 2), Digits(m, 10, 2), Digits(s, 10, 2), Digits(ms, 10, 3));
      |text| == 20 && ParseRest(year, text) == TimeOf(year, month, day, h, m, s, ms) && IsPlain(text)
  {
    SmallNumberRoundTrip(month, 2);
    SmallNumberRoundTrip(day, 2);
    SmallNumberRoundTrip(h, 2);
    SmallNumberRoundTrip(m, 2);
    SmallNumberRoundTrip(s, 2);
    SmallNumberRoundTrip(ms, 3);
    RestSplits(Digits(month, 10, 2), Digits(day, 10, 2), Digits(h, 10, 2), Digits(m, 10, 2), Digits(s, 10, 2), Digits(ms, 10, 3));
    RestIsPlain(Digits(month, 10, 2), Digits(day, 10, 2), Digits(h, 10, 2), Digits(m, 10, 2), Digits(s, 10, 2), Digits(ms, 10, 3));
  }

  lemma TimeOfDay(ms: nat)
    requires ms < MS_PER_DAY
    ensures ms / 3_600_000 < 24
    ensures ms / 3_600_000 * 3_600_000 + ms / 60_000 % 60 * 60_000 + ms / 1000 % 60 * 1000 + ms % 1000 == ms
  {
    var seconds, minutes := ms / 1000, ms / 60_000;
    assert minutes == seconds / 60 && ms / 3_600_000 == minutes / 60;
  }

  lemma YearSplits(year: string, rest: string)
    requires |rest| == 20
    ensures (year + rest)[..|year + rest| - 20] == year && (year + rest)[|year + rest| - 20..] == rest
  {
  }

  lemma FieldsAreTheTime(t: int)
    ensures var day, ms := t / MS_PER_DAY, t % MS_PER_DAY;
      var month := MonthOf(day);
      TimeOf(month / 12, month % 12 + 1, DayOfMonth(day), ms / 3_600_000, ms / 60_000 % 60, ms / 1000 % 60, ms % 1000) == Some(t)
  {
    var day, ms := t / MS_PER_DAY, t % MS_PER_DAY;
    var month := MonthOf(day);
    TimeOfDay(ms);
    assert 12 * (month / 12) + (month % 12 + 1) - 1 == month;
    assert (MonthStart(month) + DayOfMonth(day) - 1) * MS_PER_DAY + ms == t;
  }

  /** Every time value reads back from its text as itself. */
  lemma IsoRoundTrip(t: int)
    requires IsTimeValue(t)
    ensures ParseIso(IsoText(t)) == Some(t) && IsPlain(IsoText(t))
  {
    var day, ms := t / MS_PER_DAY, t % MS_PER_DAY;
    var month := MonthOf(day);
    YearFits(t);
    YearRoundTrip(month / 12);
    FieldsAreTheTime(t);
    TimeOfDay(ms);
    IsoTextParses(month / 12, month % 12 + 1, DayOfMonth(day), ms / 3_600_000, ms / 60_000 % 60, ms / 1000 % 60, ms % 1000);
  }

  lemma IsoTextParses(year: int, month: nat, day: nat, h: nat, m: nat, s: nat, ms: nat)
    requires -999_999 <= year <= 999_999
    requires 1 <= month <= 12 && day < 100 && h < 24 && m < 60 && s < 60 && ms < 1000
    requires var t := TimeOf(year, month, day, h, m, s, ms); t.Some? && IsTimeValue(t.value)
    ensures var text := YearText(year)
        + RestText(Digits(month, 10, 2), Digits(day, 10, 2), Digits(h, 10, 2), Digits(m, 10, 2), Digits(s, 10, 2), Digits(ms, 10, 3));
      ParseIso(text) == TimeOf(year, month, day, h, m, s, ms) && IsPlain(text)
  {
    YearRoundTrip(year);
    RestRoundTrip(year, month, day, h, m, s, ms);
    var rest := RestText(Digits(month, 10, 2), Digits(day, 10, 2), Digits(h, 10, 2), Digits(m, 10, 2), Digits(s, 10, 2), Digits(ms, 10, 3));
    YearSplits(YearText(year), rest);
    PlainConcat(YearText(year), rest);
  }

  // ----- The JSON text -----

  type Cursor = K.Key

  const ID_DIGITS := 24

  /** A time value and a twelve-byte object id. */
  predicate IsCursor(c: Cursor) {
    IsTimeValue(c.t) && c.i < Power(16, ID_DIGITS)
  }

  const OPEN := "{\"t\":\""
  const MIDDLE := "\",\"i\":\""
  const CLOSE := "\"}"

  function Payload(t: string, i: string): string {
    OPEN + t + MIDDLE + i + CLOSE
  }

  /** The text before the next quotation mark. */
  function Unquoted(text: string): (k: nat)
    ensures k <= |text|
    ensures k < |text| ==> text[k] == '"'
    ensures forall j :: 0 <= j < k ==> text[j] != '"'
  {
    if text == "" || text[0] == '"' then 0 else 1 + Unquoted(text[1..])
  }

  /** Splits off a leading literal. */
  function WithoutPrefix(text: string, literal: string): Option<string> {
    if literal <= text then Some(text[|literal|..]) else None
  }

  /** The two strings of the JSON object. */
  function SplitPayload(text: string): Option<(string, string)> {
    var body := WithoutPrefix(text, OPEN);
    if body.None? then None
    else
      var k := Unquoted(body.value);
      var tail := WithoutPrefix(body.value[k..], MIDDLE);
      if tail.None? then None
      else
        var n := Unquoted(tail.value);
        if tail.value[n..] != CLOSE then None else Some((body.value[..k], tail.value[..n]))
  }

  function ParsePayload(text: string): Option<Cursor> {
    var parts := SplitPayload(text);
    if parts.None? then None
    else
      var t, i := ParseIso(parts.value.0), NumberOf(parts.value.1, 16);
      if t.None? || i.None? || |parts.value.1| != ID_DIGITS then None else Some(K.Key(t.value, i.value))
  }

  lemma UnquotedStops(plain: string, rest: string)
    requires IsPlain(plain) && rest != "" && rest[0] == '"'
    ensures Unquoted(plain + rest) == |plain|
    ensures (plain + rest)[..|plain|] == plain && (plain + rest)[|plain|..] == rest
  {
    assert (plain + rest)[|plain|] == '"';
  }

  lemma PrefixGone(literal: string, rest: string)
    ensures WithoutPrefix(literal + rest, literal) == Some(rest)
  {
  }

  lemma PayloadSplits(t: string, i: string)
    requires IsPlain(t) && IsPlain(i)
    ensures SplitPayload(Payload(t, i)) == Some((t, i))
  {
    var tail := i + CLOSE;
    var body := t + (MIDDLE + tail);
    assert Payload(t, i) == OPEN + body;
    PrefixGone(OPEN, body);
    assert (MIDDLE + tail)[0] == '"';
    UnquotedStops(t, MIDDLE + tail);
    PrefixGone(MIDDLE, tail);
    UnquotedStops(i, CLOSE);
  }

  lemma PayloadIsAscii(t: string, i: string)
    requires IsPlain(t) && IsPlain(i)
    ensures forall k :: 0 <= k < |Payload(t, i)| ==> Payload(t, i)[k] as int < 128
  {
  }

  // ----- Base64url -----

  type Byte = n: nat | n < 256

  function SextetChar(v: nat): char
    requires v < 64
  {
    if v < 26 then 'A' + v as char
    else if v < 52 then 'a' + (v - 26) as char
    else if v < 62 then '0' + (v - 52) as char
    else if v == 62 then '-' else '_'
  }

  function SextetOf(c: char): (v: Option<nat>)
    ensures v.Some? ==> v.value < 64
  {
    if 'A' <= c <= 'Z' then Some((c as int - 'A' as int) as nat)
    else if 'a' <= c <= 'z' then Some((c as int - 'a' as int + 26) as nat)
    else if '0' <= c <= '9' then Some((c as int - '0' as int + 52) as nat)
    else if c == '-' then Some(62) else if c == '_' then Some(63) else None
  }

  /** Three bytes in four characters. */
  function Quad(a: Byte, b: Byte, c: Byte): string {
    [SextetChar(a / 4), SextetChar(a % 4 * 16 + b / 16), SextetChar(b % 16 * 4 + c / 64), SextetChar(c % 64)]
  }

  function ToBase64(bytes: seq<Byte>): string {
    if bytes == [] then ""
    else if |bytes| == 1 then [SextetChar(bytes[0] / 4), SextetChar(bytes[0] % 4 * 16)]
    else if |bytes| == 2 then
      [SextetChar(bytes[0] / 4), SextetChar(bytes[0] % 4 * 16 + bytes[1] / 16), SextetChar(bytes[1] % 16 * 4)]
    else Quad(bytes[0], bytes[1], bytes[2]) + ToBase64(bytes[3..])
  }

  function FromBase64(text: string): Option<seq<Byte>> {
    if text == "" then Some([])
    else if |text| == 1 then None
    else
      var a, b := SextetOf(text[0]), SextetOf(text[1]);
      if a.None? || b.None? then None
      else
        var first: Byte := a.value * 4 + b.value / 16;
        if |text| == 2 then Some([first])
        else
          var c := SextetOf(text[2]);
          if c.None? then None
          else
            var second: Byte := b.value % 16 * 16 + c.value / 4;
            if |text| == 3 then Some([first, second])
            else
              var d, rest := SextetOf(text[3]), FromBase64(text[4..]);
              if d.None? || rest.None? then None
              else Some([first, second, c.value % 4 * 64 + d.value] + rest.value)
  }

  lemma SextetRoundTrip(v: nat)
    requires v < 64
    ensures SextetOf(SextetChar(v)) == Some(v)
  {
  }

  lemma BitsRegroup(a: Byte, b: Byte, c: Byte)
    ensures a / 4 * 4 + (a % 4 * 16 + b / 16) / 16 == a && a / 4 * 4 + (a % 4 * 16) / 16 == a
    ensures (a % 4 * 16 + b / 16) % 16 * 16 + (b % 16 * 4 + c / 64) / 4 == b
    ensures (a % 4 * 16 + b / 16) % 16 * 16 + (b % 16 * 4) / 4 == b
    ensures (b % 16 * 4 + c / 64) % 4 * 64 + c % 64 == c
  {
  }

  lemma SingleRoundTrip(a: Byte)
    ensures FromBase64([SextetChar(a / 4), SextetChar(a % 4 * 16)]) == Some([a])
  {
    BitsRegroup(a, 0, 0);
    SextetRoundTrip(a / 4);
    SextetRoundTrip(a % 4 * 16);
  }

  lemma PairRoundTrip(a: Byte, b: Byte)
    ensures FromBase64([SextetChar(a / 4), SextetChar(a % 4 * 16 + b / 16), SextetChar(b % 16 * 4)]) == Some([a, b])
  {
    BitsRegroup(a, b, 0);
    SextetRoundTrip(a / 4);
    SextetRoundTrip(a % 4 * 16 + b / 16);
    SextetRoundTrip(b % 16 * 4);
  }

  lemma TripleRoundTrip(a: Byte, b: Byte, c: Byte, text: string)
    requires FromBase64(text).Some?
    ensures FromBase64(Quad(a, b, c) + text) == Some([a, b, c] + FromBase64(text).value)
  {
    BitsRegroup(a, b, c);
    SextetRoundTrip(a / 4);
    SextetRoundTrip(a % 4 * 16 + b / 16);
    SextetRoundTrip(b % 16 * 4 + c / 64);
    SextetRoundTrip(c % 64);
    hide SextetOf, SextetChar;
    var whole := Quad(a, b, c) + text;
    assert whole[4..] == text && whole[..4] == Quad(a, b, c);
    assert whole[0] == Quad(a, b, c)[0] && whole[1] == Quad(a, b, c)[1] && whole[2] == Quad(a, b, c)[2] && whole[3] == Quad(a, b, c)[3];
  }

  lemma {:induction false} Base64RoundTrip(bytes: seq<Byte>)
    ensures FromBase64(ToBase64(bytes)) == Some(bytes)
  {
    hide Quad, SextetChar, SextetOf;
    if |bytes| == 1 {
      SingleRoundTrip(bytes[0]);
      assert bytes == [bytes[0]];
    } else if |bytes| == 2 {
      PairRoundTrip(bytes[0], bytes[1]);
      assert bytes == [bytes[0], bytes[1]];
    } else if |bytes| >= 3 {
      Base64RoundTrip(bytes[3..]);
      TripleRoundTrip(bytes[0], bytes[1], bytes[2], ToBase64(bytes[3..]));
      assert bytes == [bytes[0], bytes[1], bytes[2]] + bytes[3..];
    }
  }

  // ----- The codec -----

  function BytesOf(text: string): seq<Byte>
    requires forall k :: 0 <= k < |text| ==> text[k] as int < 128
  {
    seq(|text|, k requires 0 <= k < |text| => text[k] as int)
  }

  function TextOf(bytes: seq<Byte>): string {
    seq(|bytes|, k requires 0 <= k < |bytes| => bytes[k] as char)
  }

  function TextFor(c: Cursor): (text: string)
    requires IsCursor(c)
    ensures forall k :: 0 <= k < |text| ==> text[k] as int < 128
    ensures ParsePayload(text) == Some(c) && text != ""
  {
    IsoRoundTrip(c.t);
    DigitsRoundTrip(c.i, 16, ID_DIGITS);
    PayloadSplits(IsoText(c.t), Digits(c.i, 16, ID_DIGITS));
    PayloadIsAscii(IsoText(c.t), Digits(c.i, 16, ID_DIGITS));
    Payload(IsoText(c.t), Digits(c.i, 16, ID_DIGITS))
  }

  function EncodeCursor(c: Cursor): string
    requires IsCursor(c)
  {
    ToBase64(BytesOf(TextFor(c)))
  }

  datatype Decoded = NoCursor | At(cursor: Cursor) | BadRequest

  function DecodeCursor(raw: Option<string>): Decoded {
    if raw.None? || raw.value == "" then NoCursor
    else
      var bytes := FromBase64(raw.value);
      if bytes.None? then BadRequest
      else
        var cursor := ParsePayload(TextOf(bytes.value));
        if cursor.None? then BadRequest else At(cursor.value)
  }

  /** A cursor handed out is understood when it comes back, as the very same place in the list. */
  lemma CursorRoundTrip(c: Cursor)
    requires IsCursor(c)
    ensures DecodeCursor(Some(EncodeCursor(c))) == At(c)
  {
    hide FromBase64, TextFor, ParsePayload;
    var bytes := BytesOf(TextFor(c));
    Base64RoundTrip(bytes);
    assert TextOf(bytes) == TextFor(c);
  }

  // ----- What the texts are -----

  /** The digits stand for the number. */
  predicate Says(digits: string, n: int) {
    n >= 0 && NumberOf(digits, 10) == Some(n as nat)
  }

  /** The date-time string format of ECMA-262 (section 21.4.1.32) in UTC: year, month and day, then the time of day with
      its milliseconds, each with leading zeros. A year beyond four digits has a sign and six digits. */
  ghost predicate IsDateTimeText(text: string, t: int) {
    |text| >= 24 && IsYearText(text[..|text| - 20], JsDate.Year(t)) && IsRestText(text[|text| - 20..], t)
  }

  predicate IsYearText(year: string, y: int) {
    if 0 <= y <= 9999 then |year| == 4 && Says(year, y)
    else |year| == 7 && year[0] == (if y < 0 then '-' else '+') && Says(year[1..], if y < 0 then -y else y)
  }

  ghost predicate IsRestText(rest: string, t: int) {
    && |rest| == 20 && rest[0] == '-' && Says(rest[1..3], JsDate.Month(t) + 1) && rest[3] == '-' && Says(rest[4..6], JsDate.DateOf(t))
    && rest[6] == 'T' && rest[9] == ':' && rest[12] == ':' && rest[15] == '.' && rest[19] == 'Z'
    && IsTimeOfDayText(rest, t % MS_PER_DAY)
  }

  ghost predicate IsTimeOfDayText(rest: string, ms: int)
    requires |rest| == 20
  {
    exists h, m, s, milli :: IsClock(h, m, s, milli, ms)
      && Says(rest[7..9], h) && Says(rest[10..12], m) && Says(rest[13..15], s) && Says(rest[16..19], milli)
  }

  predicate IsClock(h: int, m: int, s: int, milli: int, ms: int) {
    0 <= h < 24 && 0 <= m < 60 && 0 <= s < 60 && 0 <= milli < 1000 && ms == 3_600_000 * h + 60_000 * m + 1000 * s + milli
  }

  lemma YearIsWritten(y: int)
    requires -999_999 <= y <= 999_999
    ensures IsYearText(YearText(y), y)
  {
    assert Power(10, 4) == 10_000 && Power(10, 6) == 1_000_000;
    if 0 <= y <= 9999 {
      DigitsRoundTrip(y, 10, 4);
    } else {
      var n := if y < 0 then -y else y;
      DigitsRoundTrip(n, 10, 6);
      assert YearText(y)[1..] == Digits(n, 10, 6);
    }
  }

  lemma SmallNumberIsWritten(n: nat, width: nat)
    requires 2 <= width <= 3 && n < if width == 2 then 100 else 1000
    ensures Says(Digits(n, 10, width), n)
  {
    SmallNumberRoundTrip(n, width);
  }

  lemma RestIsWritten(t: int, h: nat, m: nat, s: nat, milli: nat)
    requires IsClock(h, m, s, milli, t % MS_PER_DAY)
    ensures IsRestText(RestText(Digits(JsDate.Month(t) + 1, 10, 2), Digits(JsDate.DateOf(t), 10, 2),
      Digits(h, 10, 2), Digits(m, 10, 2), Digits(s, 10, 2), Digits(milli, 10, 3)), t)
  {
    hide RestText, Says, JsDate.Month, JsDate.DateOf;
    var month, day := JsDate.Month(t) + 1, JsDate.DateOf(t);
    DateFits(t);
    SmallNumberIsWritten(month, 2);
    SmallNumberIsWritten(day, 2);
    SmallNumberIsWritten(h, 2);
    SmallNumberIsWritten(m, 2);
    SmallNumberIsWritten(s, 2);
    SmallNumberIsWritten(milli, 3);
    RestSplits(Digits(month, 10, 2), Digits(day, 10, 2), Digits(h, 10, 2), Digits(m, 10, 2), Digits(s, 10, 2), Digits(milli, 10, 3));
  }

  lemma DateFits(t: int)
    ensures 0 <= JsDate.Month(t) < 12 && 1 <= JsDate.DateOf(t) <= 31
  {
  }

  /** toISOString writes the format, for every time value. */
  lemma IsoTextIs(t: int)
    requires IsTimeValue(t)
    ensures IsDateTimeText(IsoText(t), t)
  {
    hide YearText, RestText, IsRestText, IsYearText, MonthOf, DayOfMonth;
    var ms := t % MS_PER_DAY;
    YearFits(t);
    YearIsWritten(JsDate.Year(t));
    TimeOfDay(ms);
    RestIsWritten(t, ms / 3_600_000, ms / 60_000 % 60, ms / 1000 % 60, ms % 1000);
    var rest := RestText(Digits(JsDate.Month(t) + 1, 10, 2), Digits(JsDate.DateOf(t), 10, 2),
      Digits(ms / 3_600_000, 10, 2), Digits(ms / 60_000 % 60, 10, 2), Digits(ms / 1000 % 60, 10, 2), Digits(ms % 1000, 10, 3));
    RestLength(rest, t);
    YearLengths(JsDate.Year(t));
    YearSplits(YearText(JsDate.Year(t)), rest);
    assert IsoText(t) == YearText(JsDate.Year(t)) + rest;
  }

  lemma YearLengths(y: int)
    requires -999_999 <= y <= 999_999
    ensures |YearText(y)| >= 4
  {
    YearRoundTrip(y);
  }

  lemma RestLength(rest: string, t: int)
    requires IsRestText(rest, t)
    ensures |rest| == 20
  {
  }

  const HEX := "0123456789abcdef"

  lemma {:induction false} HexIsLowerCase(n: nat, width: nat)
    ensures forall k :: 0 <= k < width ==> Digits(n, 16, width)[k] in HEX
  {
    if width > 0 {
      HexIsLowerCase(n / 16, width - 1);
      assert DigitChar(n % 16) == HEX[n % 16];
    }
  }

  const UPPER := "ABCDEFGHIJKLMNOPQRSTUVWXYZ"
  const LOWER := "abcdefghijklmnopqrstuvwxyz"

  /** The alphabet of base64url, table 2 of RFC 4648. */
  const ALPHABET := UPPER + LOWER + "0123456789-_"

  lemma UpperIs(v: nat)
    requires v < 26
    ensures UPPER[v] == SextetChar(v)
  {
  }

  lemma LowerIs(v: nat)
    requires 26 <= v < 52
    ensures LOWER[v - 26] == SextetChar(v)
  {
  }

  lemma OtherIs(v: nat)
    requires 52 <= v < 64
    ensures "0123456789-_"[v - 52] == SextetChar(v)
  {
  }

  lemma AlphabetIs(v: nat)
    requires v < 64
    ensures ALPHABET[v] == SextetChar(v)
  {
    hide SextetChar;
    if v < 26 {
      UpperIs(v);
    } else if v < 52 {
      LowerIs(v);
    } else {
      OtherIs(v);
    }
  }

  lemma TwelveBits(x: int, y: int, z: int, w: int)
    requires 0 <= x && 0 <= y < 4 && 0 <= z < 16 && 0 <= w < 16
    ensures var n := 4096 * x + 1024 * y + 64 * z + 4 * w; n / 4096 == x && n / 64 % 64 == 16 * y + z && n % 64 == 4 * w
  {
    var n := 4096 * x + 1024 * y + 64 * z + 4 * w;
    SextetOff(64 * x + 16 * y + z, 4 * w);
    SextetOff(x, 16 * y + z);
    SextetsOff(n);
  }

  lemma TwentyFourBits(x: int, y: int, z: int, w: int, u: int, v: int)
    requires 0 <= x && 0 <= y < 4 && 0 <= z < 16 && 0 <= w < 16 && 0 <= u < 4 && 0 <= v < 64
    ensures var n := 262144 * x + 65536 * y + 4096 * z + 256 * w + 64 * u + v;
      n / 262144 == x && n / 4096 % 64 == 16 * y + z && n / 64 % 64 == 4 * w + u && n % 64 == v
  {
    var n := 262144 * x + 65536 * y + 4096 * z + 256 * w + 64 * u + v;
    SextetOff(4096 * x + 1024 * y + 64 * z + 4 * w + u, v);
    SextetOff(64 * x + 16 * y + z, 4 * w + u);
    SextetOff(x, 16 * y + z);
    SextetsOff(n);
  }

  lemma SextetOff(q: int, r: int)
    requires 0 <= r < 64
    ensures (64 * q + r) / 64 == q && (64 * q + r) % 64 == r
  {
  }

  lemma SextetsOff(n: int)
    ensures n / 4096 == n / 64 / 64 && n / 262144 == n / 64 / 64 / 64
  {
  }

  /** The groups of RFC 4648, section 4: three bytes are one number, written as four digits of base 64; one or two bytes
      at the end are filled up with zero bits and written without padding. */
  lemma OneByte(a: int)
    requires 0 <= a < 256
    ensures var n := 16 * a; ToBase64([a]) == [ALPHABET[n / 64], ALPHABET[n % 64]]
  {
    hide SextetChar;
    assert 16 * a / 64 == a / 4 && 16 * a % 64 == a % 4 * 16;
    AlphabetIs(a / 4);
    AlphabetIs(a % 4 * 16);
  }

  lemma TwoBytes(a: int, b: int)
    requires 0 <= a < 256 && 0 <= b < 256
    ensures var n := 4 * (256 * a + b); ToBase64([a, b]) == [ALPHABET[n / 4096], ALPHABET[n / 64 % 64], ALPHABET[n % 64]]
  {
    hide SextetChar, ALPHABET;
    TwelveBits(a / 4, a % 4, b / 16, b % 16);
    AlphabetIs(a / 4);
    AlphabetIs(a % 4 * 16 + b / 16);
    AlphabetIs(b % 16 * 4);
  }

  lemma ThreeBytes(a: int, b: int, c: int, rest: seq<Byte>)
    requires 0 <= a < 256 && 0 <= b < 256 && 0 <= c < 256
    ensures var n := 65536 * a + 256 * b + c;
      ToBase64([a, b, c] + rest) == [ALPHABET[n / 262144], ALPHABET[n / 4096 % 64], ALPHABET[n / 64 % 64], ALPHABET[n % 64]] + ToBase64(rest)
  {
    hide SextetChar, ALPHABET;
    assert ([a, b, c] + rest)[3..] == rest;
    TwentyFourBits(a / 4, a % 4, b / 16, b % 16, c / 64, c % 64);
    AlphabetIs(a / 4);
    AlphabetIs(a % 4 * 16 + b / 16);
    AlphabetIs(b % 16 * 4 + c / 64);
    AlphabetIs(c % 64);
  }

  /** A cursor on the wire is the base64url text of the JSON object with the timestamp as t and the id as i. */
  lemma EncodedTextIs(c: Cursor)
    requires IsCursor(c)
    ensures exists time, id :: IsDateTimeText(time, c.t) && IsIdText(id, c.i) && TextFor(c) == "{\"t\":\"" + time + "\",\"i\":\"" + id + "\"}"
    ensures EncodeCursor(c) == ToBase64(BytesOf(TextFor(c)))
  {
    hide IsDateTimeText, ToBase64, NumberOf, IsoText, Digits;
    IsoTextIs(c.t);
    DigitsRoundTrip(c.i, 16, 24);
    HexIsLowerCase(c.i, 24);
    assert IsIdText(Digits(c.i, 16, 24), c.i);
    assert TextFor(c) == Payload(IsoText(c.t), Digits(c.i, 16, 24));
  }

  /** The twelve bytes of an object id in lower-case hexadecimal. */
  predicate IsIdText(id: string, n: nat) {
    |id| == 24 && NumberOf(id, 16) == Some(n) && forall k :: 0 <= k < 24 ==> id[k] in HEX
  }

  lemma DigitFits(base: nat, high: nat, low: nat, bound: nat)
    requires high < bound && low < base
    ensures base * high + low < base * bound
  {
    assert base * (high + 1) <= base * bound;
  }

  lemma PowerStep(base: nat, width: nat)
    requires width > 0
    ensures Power(base, width) == base * Power(base, width - 1)
  {
  }

  lemma NumberStep(text: string, base: nat) returns (high: nat, low: nat)
    requires 1 < base <= 16 && text != "" && NumberOf(text, base).Some?
    ensures NumberOf(text[..|text| - 1], base) == Some(high) && low < base && NumberOf(text, base).value == base * high + low
  {
    high, low := NumberOf(text[..|text| - 1], base).value, DigitOf(text[|text| - 1]).value;
  }

  lemma {:induction false} NumberFits(text: string, base: nat)
    requires 1 < base <= 16 && NumberOf(text, base).Some?
    ensures NumberOf(text, base).value < Power(base, |text|)
  {
    if text != "" {
      hide NumberOf, Power;
      var high, low := NumberStep(text, base);
      NumberFits(text[..|text| - 1], base);
      DigitFits(base, high, low, Power(base, |text| - 1));
      PowerStep(base, |text|);
    }
  }

  /** Whatever the text, what is decoded from it is a cursor; no text and the empty one mean the first page. */
  lemma DecodedIsCursor(raw: Option<string>)
    ensures DecodeCursor(raw).NoCursor? <==> raw == None || raw == Some("")
    ensures DecodeCursor(raw).At? ==> IsCursor(DecodeCursor(raw).cursor)
  {
    if DecodeCursor(raw).At? {
      var parts := SplitPayload(TextOf(FromBase64(raw.value).value)).value;
      NumberFits(parts.1, 16);
    }
  }
}
