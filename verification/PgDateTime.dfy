/** The text of PostgreSQL dates, times and timestamps, and readers that get the value back from it. */
module PgDateTime {
  import opened Wrappers
  import opened Bytes
  import opened Calendar

  const DAY: int := 86_400_000_000
  const I32_MAX: int := 0x7FFF_FFFF
  const I32_MIN: int := -0x8000_0000
  const I64_MAX: int := 0x7FFF_FFFF_FFFF_FFFF
  const I64_MIN: int := -0x8000_0000_0000_0000

  const COLON: byte := 58
  const DOT: byte := 46
  const SPACE: byte := 32
  const UPPER_T: byte := 84
  const UPPER_Z: byte := 90

  /** The marks that printers and readers share. */
  lemma Vocabulary()
    ensures [COLON, DOT, SPACE, UPPER_T, UPPER_Z, MINUS, PLUS] == Ascii(":. TZ-+")
  {
  }

  datatype Error = OutsideDay | OffsetOutOfRange

  // The printers

  function YearText(year: int): (t: Text)
    ensures |t| >= 4
  {
    if 0 <= year <= 9999 then Padded(year, 4)
    else if year < 0 then [MINUS] + Padded(-year, 4)
    else assert |Digits(year)| >= 4 by { FourDigits(year); } [PLUS] + Digits(year)
  }

  lemma FourDigits(n: nat)
    requires n >= 1000
    ensures |Digits(n)| >= 4
  {
    assert |Digits(n / 100)| >= 2;
    assert |Digits(n / 10)| >= 3;
  }

  function DayText(d: Date): Text
    requires Valid(d)
  {
    YearText(d.year) + [MINUS] + Padded(d.month, 2) + [MINUS] + Padded(d.day, 2)
  }

  function CivilText(days: int): Text {
    CivilIsRight(days);
    DayText(Civil(days))
  }

  function DateText(days: int): Text {
    if days == I32_MAX then Ascii("infinity")
    else if days == I32_MIN then Ascii("-infinity")
    else CivilText(days)
  }

  function Clock(seconds: nat): Text {
    Padded(seconds / 3600, 2) + [COLON] + Padded(seconds / 60 % 60, 2) + [COLON] + Padded(seconds % 60, 2)
  }

  function Fraction(fraction: nat): Text {
    if fraction == 0 then []
    else if fraction % 1000 == 0 then [DOT] + Padded(fraction / 1000, 3)
    else [DOT] + Padded(fraction, 6)
  }

  function TimeText(micros: int): Result<Text, Error> {
    if !(0 <= micros <= DAY) then Failure(OutsideDay) else Success(Clock(micros / 1_000_000) + Fraction(micros % 1_000_000))
  }

  function TimestampText(micros: int, utc: bool): Result<Text, Error> {
    if micros == I64_MAX then Success(Ascii("infinity"))
    else if micros == I64_MIN then Success(Ascii("-infinity"))
    else
      match TimeText(micros % DAY)
      case Failure(e) => Failure(e)
      case Success(time) =>
        Success(DateTimeText(CivilText(micros / DAY), time, utc))
  }

  function DateTimeText(date: Text, time: Text, utc: bool): Text {
    date + [if utc then UPPER_T else SPACE] + time + (if utc then [UPPER_Z] else [])
  }

  function OffsetText(secondsWest: int): Text {
    var offset := if secondsWest < 0 then -secondsWest else secondsWest;
    [if secondsWest > 0 then MINUS else PLUS] + OffsetDigits(offset)
  }

  function OffsetDigits(offset: nat): Text {
    Padded(offset / 3600, 2) + [COLON] + Padded(offset / 60 % 60, 2)
    + if offset % 60 == 0 then [] else [COLON] + Padded(offset % 60, 2)
  }

  function TimetzText(micros: int, secondsWest: int): Result<Text, Error> {
    if !(-57_599 <= secondsWest <= 57_599) then Failure(OffsetOutOfRange)
    else
      match TimeText(micros)
      case Failure(e) => Failure(e)
      case Success(time) => Success(time + OffsetText(secondsWest))
  }

  // The readers

  function ReadNumber(t: Text): Option<nat> {
    if t != [] && AllDigits(t) then Some(Value(t)) else None
  }

  function Times(factor: int, n: Option<nat>): Option<int> {
    if n.Some? then Some(factor * n.value) else None
  }

  function ReadYear(t: Text): Option<int> {
    if t == [] then None
    else if t[0] == MINUS then Times(-1, ReadNumber(t[1..]))
    else if t[0] == PLUS then Times(1, ReadNumber(t[1..]))
    else Times(1, ReadNumber(t))
  }

  function DayOf(year: Option<int>, month: Option<nat>, day: Option<nat>): Option<int> {
    if year.None? || month.None? || day.None? then None
    else if !Valid(Date(year.value, month.value, day.value)) then None
    else Some(DaysFromCivil(Date(year.value, month.value, day.value)))
  }

  function ReadCivil(t: Text): Option<int> {
    if |t| < 7 || t[|t| - 6] != MINUS || t[|t| - 3] != MINUS then None
    else DayOf(ReadYear(t[..|t| - 6]), ReadNumber(t[|t| - 5..|t| - 3]), ReadNumber(t[|t| - 2..]))
  }

  function ReadDate(t: Text): Option<int> {
    if t == Ascii("infinity") then Some(0x7FFF_FFFF)
    else if t == Ascii("-infinity") then Some(-0x8000_0000)
    else ReadCivil(t)
  }

  /** Hours, minutes and seconds of `HH:MM:SS`. */
  function ReadClock(t: Text): Option<nat> {
    if |t| != 8 || t[2] != COLON || t[5] != COLON then None
    else
      match (ReadNumber(t[..2]), ReadNumber(t[3..5]), ReadNumber(t[6..]))
      case (Some(h), Some(m), Some(s)) => Some(3600 * h + 60 * m + s)
      case _ => None
  }

  function ReadMinutes(t: Text): Option<nat> {
    if |t| != 5 || t[2] != COLON then None
    else
      match (ReadNumber(t[..2]), ReadNumber(t[3..]))
      case (Some(h), Some(m)) => Some(3600 * h + 60 * m)
      case _ => None
  }

  function ReadFraction(t: Text): Option<nat> {
    if t == [] then Some(0)
    else if t[0] != DOT then None
    else if |t| == 4 then (if ReadNumber(t[1..]).Some? then Some(1000 * ReadNumber(t[1..]).value) else None)
    else if |t| == 7 then ReadNumber(t[1..])
    else None
  }

  function ReadTime(t: Text): Option<int> {
    if |t| < 8 then None
    else
      match (ReadClock(t[..8]), ReadFraction(t[8..]))
      case (Some(seconds), Some(fraction)) => Some(1_000_000 * seconds + fraction)
      case _ => None
  }

  /** Where the first of the given bytes is. */
  function Find(t: Text, any: set<byte>): (i: nat)
    ensures i <= |t|
  {
    if t == [] || t[0] in any then 0 else 1 + Find(t[1..], any)
  }

  /** How a timestamp is written: with T and Z, with a space alone, or as an infinity, which has one form. */
  datatype Form = Utc | Plainly | Endless

  /** The microseconds of a timestamp and the form it was written in. */
  function ReadTimestamp(t: Text): Option<(int, Form)> {
    if t == Ascii("infinity") then Some((0x7FFF_FFFF_FFFF_FFFF, Endless))
    else if t == Ascii("-infinity") then Some((-0x8000_0000_0000_0000, Endless))
    else
      var i := Find(t, {UPPER_T, SPACE});
      if i == |t| then None
      else
        var utc := t[i] == UPPER_T;
        if utc && t[|t| - 1] != UPPER_Z then None
        else
          var time := if utc && i + 1 < |t| then t[i + 1..|t| - 1] else t[i + 1..];
          match (ReadCivil(t[..i]), ReadTime(time))
          case (Some(days), Some(micros)) => Some((days * 86_400_000_000 + micros, if utc then Utc else Plainly))
          case _ => None
  }

  function ReadOffset(t: Text): Option<int> {
    if t == [] then None
    else Times(if t[0] == MINUS then 1 else -1, if |t| == 6 then ReadMinutes(t[1..]) else ReadClock(t[1..]))
  }

  function ReadTimetz(t: Text): Option<(int, int)> {
    var i := Find(t, {PLUS, MINUS});
    match (ReadTime(t[..i]), ReadOffset(t[i..]))
    case (Some(micros), Some(west)) => Some((micros, west))
    case _ => None
  }

  // Reading back

  lemma ReadsPadded(n: nat, width: nat)
    requires width > 0 && n < Power10(width)
    ensures |Padded(n, width)| == width && ReadNumber(Padded(n, width)) == Some(n)
  {
    PaddedFits(n, width);
    ValueOfPadded(n, width);
  }

  lemma Powers()
    ensures Power10(2) == 100 && Power10(3) == 1000 && Power10(4) == 10_000 && Power10(6) == 1_000_000
  {
    assert Power10(2) == 10 * Power10(1);
    assert Power10(4) == 10 * Power10(3);
    assert Power10(6) == 10 * Power10(5);
  }

  lemma ReadsSignedYear(sign: byte, digits: Text)
    requires (sign == MINUS || sign == PLUS) && digits != [] && AllDigits(digits)
    ensures ReadYear([sign] + digits) == Some((if sign == MINUS then -1 else 1) * Value(digits))
  {
    assert ([sign] + digits)[1..] == digits;
  }

  lemma ReadsPlainYear(digits: Text)
    requires digits != [] && AllDigits(digits)
    ensures ReadYear(digits) == Some(Value(digits))
  {
    assert IsDigit(digits[0]);
  }

  lemma ReadsYear(year: int)
    ensures ReadYear(YearText(year)) == Some(year)
  {
    if 0 <= year <= 9999 {
      ValueOfPadded(year, 4);
      ReadsPlainYear(Padded(year, 4));
    } else if year < 0 {
      ValueOfPadded(-year, 4);
      ReadsSignedYear(MINUS, Padded(-year, 4));
    } else {
      ValueOfDigits(year);
      ReadsSignedYear(PLUS, Digits(year));
    }
  }

  /** Three texts with separators between them come apart again. */
  lemma Apart(a: Text, sep: byte, b: Text, c: Text)
    requires |b| == 2 && |c| == 2
    ensures var t := a + [sep] + b + [sep] + c;
      && |t| == |a| + 6 && t[..|a|] == a && t[|a|] == sep && t[|a| + 1..|a| + 3] == b && t[|a| + 3] == sep && t[|a| + 4..] == c
  {
  }

  lemma ReadsFields(year: Text, month: nat, day: nat)
    requires month < 100 && day < 100
    ensures var t := year + [MINUS] + Padded(month, 2) + [MINUS] + Padded(day, 2);
      && |t| == |year| + 6 && t[|t| - 6] == MINUS && t[|t| - 3] == MINUS
      && t[..|t| - 6] == year
      && ReadNumber(t[|t| - 5..|t| - 3]) == Some(month)
      && ReadNumber(t[|t| - 2..]) == Some(day)
  {
    Powers();
    ReadsPadded(month, 2);
    ReadsPadded(day, 2);
    Apart(year, MINUS, Padded(month, 2), Padded(day, 2));
  }

  lemma ReadsParted(t: Text, year: Text, y: int, month: nat, day: nat)
    requires |t| == |year| + 6 && |t| >= 7 && t[|t| - 6] == MINUS && t[|t| - 3] == MINUS && t[..|t| - 6] == year
    requires ReadYear(year) == Some(y)
    requires ReadNumber(t[|t| - 5..|t| - 3]) == Some(month) && ReadNumber(t[|t| - 2..]) == Some(day)
    ensures ReadCivil(t) == DayOf(Some(y), Some(month), Some(day))
  {
  }

  lemma ReadsDay(d: Date)
    requires Valid(d)
    ensures ReadCivil(DayText(d)) == Some(DaysFromCivil(d))
  {
    ReadsYear(d.year);
    ReadsFields(YearText(d.year), d.month, d.day);
    ReadsParted(DayText(d), YearText(d.year), d.year, d.month, d.day);
    assert d == Date(d.year, d.month, d.day);
  }

  lemma ReadsCivil(days: int)
    ensures ReadCivil(CivilText(days)) == Some(days)
  {
    CivilIsRight(days);
    ReadsDay(Civil(days));
  }

  predicate Plain(t: Text) {
    forall i :: 0 <= i < |t| ==> IsDigit(t[i]) || t[i] in {PLUS, MINUS}
  }

  lemma DigitsArePlain(t: Text)
    requires AllDigits(t)
    ensures Plain(t)
  {
  }

  lemma PlainTogether(a: Text, b: Text)
    requires Plain(a) && Plain(b)
    ensures Plain(a + b)
  {
  }

  lemma YearTextIsPlain(year: int)
    ensures Plain(YearText(year))
  {
    if 0 <= year <= 9999 {
      DigitsArePlain(Padded(year, 4));
    } else if year < 0 {
      DigitsArePlain(Padded(-year, 4));
      PlainTogether([MINUS], Padded(-year, 4));
    } else {
      DigitsArePlain(Digits(year));
      PlainTogether([PLUS], Digits(year));
    }
  }

  /** The text of a finite date is digits and signs, so it is neither infinity and holds no separator. */
  lemma CivilTextIsPlain(days: int)
    ensures |CivilText(days)| >= 10 && Plain(CivilText(days))
  {
    CivilIsRight(days);
    DayTextIsPlain(Civil(days));
  }

  lemma DayTextIsPlain(d: Date)
    requires Valid(d)
    ensures |DayText(d)| >= 10 && Plain(DayText(d))
  {
    var y, m, n := YearText(d.year), Padded(d.month, 2), Padded(d.day, 2);
    YearTextIsPlain(d.year);
    DigitsArePlain(m);
    DigitsArePlain(n);
    PlainTogether(y, [MINUS]);
    PlainTogether(y + [MINUS], m);
    PlainTogether(y + [MINUS] + m, [MINUS]);
    PlainTogether(y + [MINUS] + m + [MINUS], n);
  }

  lemma PlainIsFinite(t: Text, rest: Text)
    requires |t| >= 2 && Plain(t)
    ensures t + rest != Ascii("infinity") && t + rest != Ascii("-infinity")
  {
    var all := t + rest;
    assert all[0] == t[0] && all[1] == t[1];
    assert Ascii("infinity")[0] == 105 && Ascii("-infinity")[1] == 105;
  }

  /** date loses nothing: every 32-bit day number is read back, the two infinities included. */
  lemma DateReadsBack(days: int)
    ensures ReadDate(DateText(days)) == Some(days)
  {
    if days != I32_MAX && days != I32_MIN {
      CivilTextIsPlain(days);
      PlainIsFinite(CivilText(days), []);
      assert CivilText(days) + [] == CivilText(days);
      ReadsCivil(days);
    }
    assert Ascii("infinity")[0] != Ascii("-infinity")[0];
  }

  lemma SecondsAreSplit(seconds: nat)
    requires seconds < 360_000
    ensures seconds / 3600 < 100 && seconds / 60 % 60 < 100 && seconds % 60 < 100
    ensures 3600 * (seconds / 3600) + 60 * (seconds / 60 % 60) + seconds % 60 == seconds
  {
    assert seconds / 60 / 60 == seconds / 3600;
  }

  lemma ReadsClock(seconds: nat)
    requires seconds < 360_000
    ensures |Clock(seconds)| == 8 && ReadClock(Clock(seconds)) == Some(seconds)
  {
    SecondsAreSplit(seconds);
    ReadsClockFields(seconds / 3600, seconds / 60 % 60, seconds % 60);
  }

  lemma ReadsClockFields(h: nat, m: nat, s: nat)
    requires h < 100 && m < 100 && s < 100
    ensures var t := Padded(h, 2) + [COLON] + Padded(m, 2) + [COLON] + Padded(s, 2);
      |t| == 8 && ReadClock(t) == Some(3600 * h + 60 * m + s)
  {
    Powers();
    ReadsPadded(h, 2);
    ReadsPadded(m, 2);
    ReadsPadded(s, 2);
    Apart(Padded(h, 2), COLON, Padded(m, 2), Padded(s, 2));
  }

  lemma ReadsFraction(fraction: nat)
    requires fraction < 1_000_000
    ensures ReadFraction(Fraction(fraction)) == Some(fraction)
    ensures |Fraction(fraction)| == if fraction == 0 then 0 else if fraction % 1000 == 0 then 4 else 7
  {
    Powers();
    if fraction != 0 {
      if fraction % 1000 == 0 {
        ReadsPadded(fraction / 1000, 3);
        assert Fraction(fraction)[1..] == Padded(fraction / 1000, 3);
      } else {
        ReadsPadded(fraction, 6);
        assert Fraction(fraction)[1..] == Padded(fraction, 6);
      }
    }
  }

  /** time accepts exactly 00:00:00 to 24:00:00, and loses nothing. */
  lemma TimeReadsBack(micros: int)
    ensures TimeText(micros).Success? <==> 0 <= micros <= 86_400_000_000
    ensures TimeText(micros).Success? ==> ReadTime(TimeText(micros).value) == Some(micros)
  {
    if 0 <= micros <= DAY {
      var clock, tail, seconds, fraction := TimeParts(micros);
      ReadsParts(clock, tail, seconds, fraction);
    }
  }

  /** The parts of the text of a time of the day. */
  lemma TimeParts(micros: int) returns (clock: Text, tail: Text, seconds: nat, fraction: nat)
    requires 0 <= micros <= DAY
    ensures TimeText(micros) == Success(clock + tail)
    ensures |clock| == 8 && ReadClock(clock) == Some(seconds) && ReadFraction(tail) == Some(fraction)
    ensures 1_000_000 * seconds + fraction == micros
  {
    Parts(micros);
    seconds, fraction := micros / 1_000_000, micros % 1_000_000;
    clock, tail := Clock(seconds), Fraction(fraction);
    ReadsClock(seconds);
    ReadsFraction(fraction);
  }

  lemma Parts(micros: nat)
    requires micros <= 86_400_000_000
    ensures micros / 1_000_000 <= 86_400 && micros % 1_000_000 < 1_000_000
    ensures 1_000_000 * (micros / 1_000_000) + micros % 1_000_000 == micros
  {
  }

  lemma ReadsParts(clock: Text, tail: Text, seconds: nat, fraction: nat)
    requires |clock| == 8 && ReadClock(clock) == Some(seconds) && ReadFraction(tail) == Some(fraction)
    ensures ReadTime(clock + tail) == Some(1_000_000 * seconds + fraction)
  {
    assert (clock + tail)[..8] == clock && (clock + tail)[8..] == tail;
  }

  lemma {:induction false} FindsAfter(before: Text, any: set<byte>, after: Text)
    requires forall i :: 0 <= i < |before| ==> before[i] !in any
    requires after != [] && after[0] in any
    ensures Find(before + after, any) == |before|
  {
    if before == [] {
      assert before + after == after;
    } else {
      assert (before + after)[1..] == before[1..] + after;
      FindsAfter(before[1..], any, after);
    }
  }

  /** The two halves of a finite timestamp and their marks come apart again. */
  lemma TimestampApart(date: Text, time: Text, utc: bool)
    requires |date| >= 2 && Plain(date) && |time| >= 8
    ensures var t := DateTimeText(date, time, utc);
      && t != Ascii("infinity") && t != Ascii("-infinity")
      && Find(t, {UPPER_T, SPACE}) == |date| < |t| && t[|date|] == (if utc then UPPER_T else SPACE)
      && t[..|date|] == date && (utc ==> t[|t| - 1] == UPPER_Z && t[|date| + 1..|t| - 1] == time)
      && (!utc ==> t[|date| + 1..] == time)
  {
    var sep := if utc then UPPER_T else SPACE;
    var after := [sep] + time + (if utc then [UPPER_Z] else []);
    assert DateTimeText(date, time, utc) == date + after;
    FindsAfter(date, {UPPER_T, SPACE}, after);
    PlainIsFinite(date, after);
  }

  lemma DateTimeReadsBack(date: Text, time: Text, utc: bool, days: int, micros: int)
    requires |date| >= 2 && Plain(date) && |time| >= 8
    requires ReadCivil(date) == Some(days) && ReadTime(time) == Some(micros)
    ensures ReadTimestamp(DateTimeText(date, time, utc)) == Some((days * DAY + micros, if utc then Utc else Plainly))
  {
    TimestampApart(date, time, utc);
  }

  lemma TimeTextIsLong(micros: int)
    requires 0 <= micros <= DAY
    ensures |TimeText(micros).value| >= 8
  {
    ReadsClock(micros / 1_000_000);
  }

  /** timestamp never fails and loses nothing, and is printed as UTC exactly when asked to, but for the infinities. */
  lemma TimestampReadsBack(micros: int, utc: bool)
    ensures TimestampText(micros, utc).Success?
    ensures ReadTimestamp(TimestampText(micros, utc).value)
      == Some((micros, if micros == I64_MAX || micros == I64_MIN then Endless else if utc then Utc else Plainly))
  {
    if micros != I64_MAX && micros != I64_MIN {
      TimeReadsBack(micros % DAY);
      TimeTextIsLong(micros % DAY);
      CivilTextIsPlain(micros / DAY);
      ReadsCivil(micros / DAY);
      DateTimeReadsBack(CivilText(micros / DAY), TimeText(micros % DAY).value, utc, micros / DAY, micros % DAY);
    }
    assert Ascii("infinity")[0] != Ascii("-infinity")[0];
  }

  lemma ReadsSigned(sign: byte, digits: Text, offset: nat)
    requires if |digits| == 5 then ReadMinutes(digits) == Some(offset) else ReadClock(digits) == Some(offset)
    ensures ReadOffset([sign] + digits) == Some(if sign == MINUS then offset as int else 0 - offset)
  {
    assert ([sign] + digits)[1..] == digits;
  }

  lemma ReadsOffset(west: int)
    requires -57_599 <= west <= 57_599
    ensures ReadOffset(OffsetText(west)) == Some(west)
  {
    var offset: nat := if west < 0 then -west else west;
    ReadsOffsetDigits(offset);
    ReadsSigned(if west > 0 then MINUS else PLUS, OffsetDigits(offset), offset);
  }

  lemma ReadsOffsetDigits(offset: nat)
    requires offset < 360_000
    ensures var t := OffsetDigits(offset); if |t| == 5 then ReadMinutes(t) == Some(offset) else ReadClock(t) == Some(offset)
  {
    if offset % 60 == 0 {
      SecondsAreSplit(offset);
      ReadsMinuteFields(offset / 3600, offset / 60 % 60);
    } else {
      ReadsClock(offset);
      assert OffsetDigits(offset) == Clock(offset);
    }
  }

  lemma ReadsMinuteFields(h: nat, m: nat)
    requires h < 100 && m < 100
    ensures var t := Padded(h, 2) + [COLON] + Padded(m, 2) + []; |t| == 5 && ReadMinutes(t) == Some(3600 * h + 60 * m)
  {
    Powers();
    ReadsPadded(h, 2);
    ReadsPadded(m, 2);
    var t := Padded(h, 2) + [COLON] + Padded(m, 2) + [];
    assert t[..2] == Padded(h, 2) && t[3..] == Padded(m, 2);
  }

  predicate Unsigned(t: Text) {
    forall i :: 0 <= i < |t| ==> t[i] !in {PLUS, MINUS}
  }

  lemma UnsignedTogether(a: Text, b: Text)
    requires Unsigned(a) && Unsigned(b)
    ensures Unsigned(a + b)
  {
  }

  lemma DigitsAreUnsigned(t: Text)
    requires AllDigits(t)
    ensures Unsigned(t) && Unsigned(t + [COLON]) && Unsigned([DOT] + t)
  {
    assert Unsigned(t);
    UnsignedTogether(t, [COLON]);
    UnsignedTogether([DOT], t);
  }

  lemma TimeTextHasNoSign(micros: int)
    requires 0 <= micros <= DAY
    ensures Unsigned(TimeText(micros).value)
  {
    var seconds, fraction := micros / 1_000_000, micros % 1_000_000;
    var h, m, s := Padded(seconds / 3600, 2), Padded(seconds / 60 % 60, 2), Padded(seconds % 60, 2);
    DigitsAreUnsigned(h);
    DigitsAreUnsigned(m);
    DigitsAreUnsigned(s);
    UnsignedTogether(h + [COLON], m);
    UnsignedTogether(h + [COLON] + m, [COLON]);
    UnsignedTogether(h + [COLON] + m + [COLON], s);
    DigitsAreUnsigned(Padded(fraction / 1000, 3));
    DigitsAreUnsigned(Padded(fraction, 6));
    UnsignedTogether(Clock(seconds), Fraction(fraction));
  }

  /** The time and the offset come apart at the sign of the offset. */
  lemma TimetzApart(time: Text, offset: Text)
    requires Unsigned(time) && offset != [] && offset[0] in {PLUS, MINUS}
    ensures var t := time + offset; Find(t, {PLUS, MINUS}) == |time| && t[..|time|] == time && t[|time|..] == offset
  {
    FindsAfter(time, {PLUS, MINUS}, offset);
  }

  lemma TimeAndOffsetReadBack(time: Text, offset: Text, micros: int, west: int)
    requires Unsigned(time) && offset != [] && offset[0] in {PLUS, MINUS}
    requires ReadTime(time) == Some(micros) && ReadOffset(offset) == Some(west)
    ensures ReadTimetz(time + offset) == Some((micros, west))
  {
    TimetzApart(time, offset);
  }

  /** timetz accepts exactly the times of time with offsets below 16 hours, and loses neither time nor offset. */
  lemma TimetzReadsBack(micros: int, west: int)
    ensures TimetzText(micros, west).Success? <==> 0 <= micros <= 86_400_000_000 && -57_600 < west < 57_600
    ensures TimetzText(micros, west).Success? ==> ReadTimetz(TimetzText(micros, west).value) == Some((micros, west))
  {
    TimeReadsBack(micros);
    if 0 <= micros <= DAY && -57_600 < west < 57_600 {
      ReadsOffset(west);
      TimeTextHasNoSign(micros);
      TimeAndOffsetReadBack(TimeText(micros).value, OffsetText(west), micros, west);
    }
  }

  // Section 5.6 of RFC 3339, for UTC: full-date "T" partial-time "Z".

  predicate TwoDigits(t: Text, i: nat, low: nat, high: nat)
    requires i + 2 <= |t|
  {
    AllDigits(t[i..i + 2]) && low <= Value(t[i..i + 2]) <= high
  }

  predicate FullDate(t: Text) {
    && |t| == 10 && AllDigits(t[..4]) && t[4] == MINUS && TwoDigits(t, 5, 1, 12) && t[7] == MINUS
    && TwoDigits(t, 8, 1, DaysInMonth(Value(t[..4]), Value(t[5..7])))
  }

  predicate PartialTime(t: Text) {
    && |t| >= 8 && TwoDigits(t, 0, 0, 23) && t[2] == COLON && TwoDigits(t, 3, 0, 59) && t[5] == COLON && TwoDigits(t, 6, 0, 59)
    && (|t| > 8 ==> t[8] == DOT && |t| > 9 && AllDigits(t[9..]))
  }

  predicate DateTimeUtc(t: Text) {
    |t| >= 20 && FullDate(t[..10]) && t[10] == UPPER_T && PartialTime(t[11..|t| - 1]) && t[|t| - 1] == UPPER_Z
  }

  lemma CivilTextIsFullDate(days: int)
    requires 0 <= Civil(days).year <= 9999
    ensures FullDate(CivilText(days))
  {
    CivilIsRight(days);
    DayTextIsFullDate(Civil(days));
  }

  lemma DayTextIsFullDate(d: Date)
    requires Valid(d) && 0 <= d.year <= 9999
    ensures FullDate(DayText(d))
  {
    var t := DayText(d);
    Powers();
    ReadsPadded(d.year, 4);
    ReadsPadded(d.month, 2);
    ReadsPadded(d.day, 2);
    assert t[..4] == Padded(d.year, 4);
    assert t[5..7] == Padded(d.month, 2);
    assert t[8..10] == Padded(d.day, 2);
  }

  lemma TimeTextIsPartialTime(micros: int)
    requires 0 <= micros < DAY
    ensures PartialTime(TimeText(micros).value)
  {
    var seconds, fraction := micros / 1_000_000, micros % 1_000_000;
    var t := TimeText(micros).value;
    Powers();
    ReadsPadded(seconds / 3600, 2);
    ReadsPadded(seconds / 60 % 60, 2);
    ReadsPadded(seconds % 60, 2);
    ReadsFraction(fraction);
    assert t[0..2] == Padded(seconds / 3600, 2);
    assert t[3..5] == Padded(seconds / 60 % 60, 2);
    assert t[6..8] == Padded(seconds % 60, 2);
    if fraction != 0 {
      assert t[8..] == Fraction(fraction);
      assert t[9..] == t[8..][1..];
    }
  }

  /** A timestamp of the years 0000 to 9999, printed as UTC, is a date-time of RFC 3339. */
  lemma TimestampIsRfc3339(micros: int)
    requires micros != I64_MAX && micros != I64_MIN && 0 <= Civil(micros / DAY).year <= 9999
    ensures TimestampText(micros, true).Success? && DateTimeUtc(TimestampText(micros, true).value)
  {
    var date, time := CivilText(micros / DAY), TimeText(micros % DAY).value;
    var t := TimestampText(micros, true).value;
    CivilTextIsFullDate(micros / DAY);
    TimeTextIsPartialTime(micros % DAY);
    assert t == date + [UPPER_T] + time + [UPPER_Z];
    assert t[..10] == date;
    assert t[11..|t| - 1] == time;
  }
}
