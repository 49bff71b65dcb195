/**
  The opaque page cursor: "{created_at.isoformat()}|{id}" in base64url with padding,
  section 5 of RFC 4648.  Decoding follows the lenient decoder the code calls: foreign
  characters are skipped and a complete padding ends the input.
*/
module CursorCodec {
  import opened Common
  import opened Numerals

  // ----- base64url -----

  function Symbol(v: nat): (c: char)
    requires v < 64
  {
    if v < 26 then ('A' as int + v) as char
    else if v < 52 then ('a' as int + v - 26) as char
    else if v < 62 then ('0' as int + v - 52) as char
    else if v == 62 then '-'
    else '_'
  }

  function Value(c: char): (v: Option<nat>)
    ensures v.Some? ==> v.value < 64
  {
    if 'A' <= c <= 'Z' then Some(c as int - 'A' as int)
    else if 'a' <= c <= 'z' then Some(c as int - 'a' as int + 26)
    else if '0' <= c <= '9' then Some(c as int - '0' as int + 52)
    else if c == '-' || c == '+' then Some(62)
    else if c == '_' || c == '/' then Some(63)
    else None
  }

  function Encode64(bs: seq<Byte>): string {
    if bs == [] then ""
    else if |bs| == 1 then [Symbol(bs[0] / 4), Symbol(bs[0] % 4 * 16), '=', '=']
    else if |bs| == 2 then
      [Symbol(bs[0] / 4), Symbol(bs[0] % 4 * 16 + bs[1] / 16), Symbol(bs[1] % 16 * 4), '=']
    else
      [Symbol(bs[0] / 4), Symbol(bs[0] % 4 * 16 + bs[1] / 16),
       Symbol(bs[1] % 16 * 4 + bs[2] / 64), Symbol(bs[2] % 64)] + Encode64(bs[3..])
  }

  function Prepend(b: Byte, rest: Option<seq<Byte>>): Option<seq<Byte>> {
    if rest.None? then None else Some([b] + rest.value)
  }

  /**
    The decoder's scan: `quad` symbols of the current group are read, `left` holds the bits
    not yet emitted, `pads` counts the padding seen since the last symbol.
  */
  function Scan(s: string, quad: nat, left: nat, pads: nat): Option<seq<Byte>>
    requires quad < 4
    requires left < (if quad == 1 then 64 else if quad == 2 then 16 else if quad == 3 then 4 else 1)
  {
    if s == "" then (if quad == 0 then Some([]) else None)
    else if s[0] == '=' then
      if quad < 2 then Scan(s[1..], quad, left, pads)
      else if quad + pads + 1 >= 4 then Some([])
      else Scan(s[1..], quad, left, pads + 1)
    else
      var symbol := Value(s[0]);
      if symbol.None? then Scan(s[1..], quad, left, pads)
      else
        var v := symbol.value;
        match quad
        case 0 => Scan(s[1..], 1, v, 0)
        case 1 => Prepend(left * 4 + v / 16, Scan(s[1..], 2, v % 16, 0))
        case 2 => Prepend(left * 16 + v / 4, Scan(s[1..], 3, v % 4, 0))
        case _ => Prepend(left * 64 + v, Scan(s[1..], 0, 0, 0))
  }

  function Decode64(s: string): Option<seq<Byte>> {
    Scan(s, 0, 0, 0)
  }

  lemma ScanFirst(a: nat, rest: string)
    requires a < 64
    ensures Scan([Symbol(a)] + rest, 0, 0, 0) == Scan(rest, 1, a, 0)
  {
  }

  lemma ScanNext(quad: nat, left: nat, v: nat, rest: string)
    requires 1 <= quad < 4 && v < 64
    requires left < (if quad == 1 then 64 else if quad == 2 then 16 else 4)
    ensures Scan([Symbol(v)] + rest, quad, left, 0) ==
      match quad
      case 1 => Prepend(left * 4 + v / 16, Scan(rest, 2, v % 16, 0))
      case 2 => Prepend(left * 16 + v / 4, Scan(rest, 3, v % 4, 0))
      case _ => Prepend(left * 64 + v, Scan(rest, 0, 0, 0))
  {
  }

  /** The three ways a group of bytes is spread over symbols, undone. */
  lemma GroupArithmetic(x: Byte, y: Byte, z: Byte)
    ensures x / 4 * 4 + x % 4 * 16 / 16 == x && x % 4 * 16 % 16 == 0
    ensures var b := x % 4 * 16 + y / 16; x / 4 * 4 + b / 16 == x && b % 16 == y / 16
    ensures y / 16 * 16 + y % 16 * 4 / 4 == y && y % 16 * 4 % 4 == 0
    ensures var c := y % 16 * 4 + z / 64; y / 16 * 16 + c / 4 == y && c % 4 == z / 64
    ensures z / 64 * 64 + z % 64 == z
  {
  }

  lemma OneByteRoundTrip(x: Byte)
    ensures Decode64(Encode64([x])) == Some([x])
  {
    var a, b := x / 4, x % 4 * 16;
    GroupArithmetic(x, 0, 0);
    assert Encode64([x]) == [Symbol(a)] + ([Symbol(b)] + "==");
    ScanFirst(a, [Symbol(b)] + "==");
    ScanNext(1, a, b, "==");
    assert "=="[1..] == "=";
    assert Scan("=", 2, 0, 1) == Some([]);
    assert Scan("==", 2, 0, 0) == Some([]);
    assert [x] + [] == [x];
  }

  lemma TwoByteRoundTrip(x: Byte, y: Byte)
    ensures Decode64(Encode64([x, y])) == Some([x, y])
  {
    var a, b, c := x / 4, x % 4 * 16 + y / 16, y % 16 * 4;
    GroupArithmetic(x, y, 0);
    assert Encode64([x, y]) == [Symbol(a)] + ([Symbol(b)] + ([Symbol(c)] + "="));
    ScanFirst(a, [Symbol(b)] + ([Symbol(c)] + "="));
    ScanNext(1, a, b, [Symbol(c)] + "=");
    ScanNext(2, b % 16, c, "=");
    assert Scan("=", 3, 0, 0) == Some([]);
    assert [x] + ([y] + []) == [x, y];
  }

  lemma HalfGroupThen(left: nat, c: nat, d: nat, rest: string)
    requires left < 16 && c < 64 && d < 64
    ensures Scan([Symbol(c)] + ([Symbol(d)] + rest), 2, left, 0)
         == Prepend(left * 16 + c / 4, Prepend(c % 4 * 64 + d, Scan(rest, 0, 0, 0)))
  {
    ScanNext(2, left, c, [Symbol(d)] + rest);
    ScanNext(3, c % 4, d, rest);
  }

  lemma FullGroupThen(a: nat, b: nat, c: nat, d: nat, rest: string)
    requires a < 64 && b < 64 && c < 64 && d < 64
    ensures Scan([Symbol(a)] + ([Symbol(b)] + ([Symbol(c)] + ([Symbol(d)] + rest))), 0, 0, 0)
         == Prepend(a * 4 + b / 16, Prepend(b % 16 * 16 + c / 4, Prepend(c % 4 * 64 + d, Scan(rest, 0, 0, 0))))
  {
    var half := [Symbol(c)] + ([Symbol(d)] + rest);
    ScanFirst(a, [Symbol(b)] + half);
    ScanNext(1, a, b, half);
    HalfGroupThen(b % 16, c, d, rest);
  }

  lemma ThreeBytesThen(x: Byte, y: Byte, z: Byte, rest: string)
    ensures var b, c := x % 4 * 16 + y / 16, y % 16 * 4 + z / 64;
      Decode64([Symbol(x / 4), Symbol(b), Symbol(c), Symbol(z % 64)] + rest)
        == Prepend(x, Prepend(y, Prepend(z, Decode64(rest))))
  {
    var a, b, c, d := x / 4, x % 4 * 16 + y / 16, y % 16 * 4 + z / 64, z % 64;
    GroupArithmetic(x, y, z);
    assert [Symbol(a), Symbol(b), Symbol(c), Symbol(d)] + rest
        == [Symbol(a)] + ([Symbol(b)] + ([Symbol(c)] + ([Symbol(d)] + rest)));
    FullGroupThen(a, b, c, d, rest);
  }

  /** Decoding undoes encoding, for every byte string. */
  lemma {:induction false} Base64RoundTrip(bs: seq<Byte>)
    ensures Decode64(Encode64(bs)) == Some(bs)
  {
    if |bs| == 1 {
      assert bs == [bs[0]];
      OneByteRoundTrip(bs[0]);
    } else if |bs| == 2 {
      assert bs == [bs[0], bs[1]];
      TwoByteRoundTrip(bs[0], bs[1]);
    } else if |bs| > 2 {
      Base64RoundTrip(bs[3..]);
      ThreeBytesThen(bs[0], bs[1], bs[2], Encode64(bs[3..]));
      assert bs == [bs[0]] + ([bs[1]] + ([bs[2]] + bs[3..]));
    }
  }

  /** What the query's pattern accepts. */
  predicate CursorSymbol(c: char) {
    'A' <= c <= 'Z' || 'a' <= c <= 'z' || '0' <= c <= '9' || c == '_' || c == '=' || c == '-'
  }

  lemma SymbolIsAccepted(v: nat)
    requires v < 64
    ensures CursorSymbol(Symbol(v))
  {
  }

  predicate AllAccepted(s: string) {
    forall c :: c in s ==> CursorSymbol(c)
  }

  /** The first group's symbols, and the rest. */
  lemma GroupShape(bs: seq<Byte>)
    requires bs != []
    ensures |bs| <= 2 ==> |Encode64(bs)| == 4 && AllAccepted(Encode64(bs))
    ensures |bs| > 2 ==> |Encode64(bs)[..4]| == 4 && AllAccepted(Encode64(bs)[..4])
    ensures |bs| > 2 ==> Encode64(bs) == Encode64(bs)[..4] + Encode64(bs[3..])
  {
    SymbolIsAccepted(bs[0] / 4);
    if |bs| == 1 {
      SymbolIsAccepted(bs[0] % 4 * 16);
    } else {
      SymbolIsAccepted(bs[0] % 4 * 16 + bs[1] / 16);
      if |bs| == 2 {
        SymbolIsAccepted(bs[1] % 16 * 4);
      } else {
        SymbolIsAccepted(bs[1] % 16 * 4 + bs[2] / 64);
        SymbolIsAccepted(bs[2] % 64);
      }
    }
  }

  lemma AcceptedConcat(a: string, b: string)
    requires AllAccepted(a) && AllAccepted(b)
    ensures AllAccepted(a + b)
  {
  }

  /** Symbols in the encoding of n bytes: four for each started group of three. */
  function EncodedLength(n: nat): nat {
    (n + 2) / 3 * 4
  }

  lemma OneMoreGroup(n: nat)
    requires n > 2
    ensures EncodedLength(n) == 4 + EncodedLength(n - 3)
  {
  }

  lemma {:induction false} EncodedShape(bs: seq<Byte>)
    ensures |Encode64(bs)| == EncodedLength(|bs|) && AllAccepted(Encode64(bs))
  {
    if bs != [] {
      GroupShape(bs);
    }
    if |bs| > 2 {
      EncodedShape(bs[3..]);
      OneMoreGroup(|bs|);
      AcceptedConcat(Encode64(bs)[..4], Encode64(bs[3..]));
    }
  }

  // ----- isoformat, in UTC as the database returns it -----

  datatype Moment = Moment(year: nat, month: nat, day: nat, hour: nat, minute: nat, second: nat, micro: nat)

  function DaysIn(year: nat, month: nat): nat {
    if month == 2 then (if year % 4 == 0 && (year % 100 != 0 || year % 400 == 0) then 29 else 28)
    else if month in {4, 6, 9, 11} then 30
    else 31
  }

  predicate ValidMoment(m: Moment) {
    && 1 <= m.year <= 9999 && 1 <= m.month <= 12 && 1 <= m.day <= DaysIn(m.year, m.month)
    && m.hour < 24 && m.minute < 60 && m.second < 60 && m.micro < 1000000
  }

  function IsoDate(m: Moment): string {
    Padded(m.year, 4) + "-" + Padded(m.month, 2) + "-" + Padded(m.day, 2)
  }

  function IsoTime(m: Moment): string {
    Padded(m.hour, 2) + ":" + Padded(m.minute, 2) + ":" + Padded(m.second, 2)
  }

  function Fraction(m: Moment): string {
    if m.micro == 0 then "" else "." + Padded(m.micro, 6)
  }

  function Iso(m: Moment): string {
    IsoDate(m) + "T" + IsoTime(m) + Fraction(m) + "+00:00"
  }

  function ParseDate(s: string): Option<(nat, nat, nat)>
    requires |s| == 10
  {
    var y, m, d := ParsePadded(s[..4]), ParsePadded(s[5..7]), ParsePadded(s[8..]);
    if s[4] == '-' && s[7] == '-' && y.Some? && m.Some? && d.Some? then Some((y.value, m.value, d.value)) else None
  }

  function ParseTime(s: string): Option<(nat, nat, nat)>
    requires |s| == 8
  {
    var h, m, c := ParsePadded(s[..2]), ParsePadded(s[3..5]), ParsePadded(s[6..]);
    if s[2] == ':' && s[5] == ':' && h.Some? && m.Some? && c.Some? then Some((h.value, m.value, c.value)) else None
  }

  function ParseMicro(s: string): Option<nat> {
    if s == "" then Some(0)
    else if |s| == 7 && s[0] == '.' then ParsePadded(s[1..])
    else None
  }

  function ParseIso(s: string): Option<Moment> {
    if |s| < 25 || s[10] != 'T' || s[|s| - 6..] != "+00:00" then None
    else
      var date, time, micro := ParseDate(s[..10]), ParseTime(s[11..19]), ParseMicro(s[19..|s| - 6]);
      if date.None? || time.None? || micro.None? then None
      else
        var m := Moment(date.value.0, date.value.1, date.value.2,
                        time.value.0, time.value.1, time.value.2, micro.value);
        if ValidMoment(m) then Some(m) else None
  }

  lemma Pow10Values()
    ensures Pow10(2) == 100 && Pow10(4) == 10000 && Pow10(6) == 1000000
  {
  }

  lemma ThreePieces(a: string, b: string, c: string, mark: string)
    requires |mark| == 1
    ensures var s := a + mark + b + mark + c;
      && |s| == |a| + |b| + |c| + 2
      && s[..|a|] == a && s[|a|] == mark[0]
      && s[|a| + 1..|a| + 1 + |b|] == b && s[|a| + 1 + |b|] == mark[0]
      && s[|a| + |b| + 2..] == c
  {
  }

  lemma DateRoundTrip(m: Moment)
    requires ValidMoment(m)
    ensures |IsoDate(m)| == 10 && ParseDate(IsoDate(m)) == Some((m.year, m.month, m.day))
  {
    Pow10Values();
    var s := IsoDate(m);
    PaddedRoundTrip(m.year, 4);
    PaddedRoundTrip(m.month, 2);
    PaddedRoundTrip(m.day, 2);
    ThreePieces(Padded(m.year, 4), Padded(m.month, 2), Padded(m.day, 2), "-");
  }

  lemma TimeRoundTrip(m: Moment)
    requires ValidMoment(m)
    ensures |IsoTime(m)| == 8 && ParseTime(IsoTime(m)) == Some((m.hour, m.minute, m.second))
  {
    Pow10Values();
    var s := IsoTime(m);
    PaddedRoundTrip(m.hour, 2);
    PaddedRoundTrip(m.minute, 2);
    PaddedRoundTrip(m.second, 2);
    ThreePieces(Padded(m.hour, 2), Padded(m.minute, 2), Padded(m.second, 2), ":");
  }

  lemma FractionRoundTrip(m: Moment)
    requires ValidMoment(m)
    ensures ParseMicro(Fraction(m)) == Some(m.micro) && |Fraction(m)| <= 7
  {
    Pow10Values();
    PaddedRoundTrip(m.micro, 6);
    assert m.micro != 0 ==> Fraction(m)[1..] == Padded(m.micro, 6);
  }

  lemma IsoPieces(date: string, time: string, fraction: string)
    requires |date| == 10 && |time| == 8
    ensures var s := date + "T" + time + fraction + "+00:00";
      && |s| == 25 + |fraction|
      && s[10] == 'T' && s[..10] == date && s[11..19] == time
      && s[19..|s| - 6] == fraction && s[|s| - 6..] == "+00:00"
  {
  }

  lemma IsoRoundTrip(m: Moment)
    requires ValidMoment(m)
    ensures ParseIso(Iso(m)) == Some(m) && |Iso(m)| <= 32
  {
    DateRoundTrip(m);
    TimeRoundTrip(m);
    FractionRoundTrip(m);
    IsoPieces(IsoDate(m), IsoTime(m), Fraction(m));
  }

  // ----- the cursor -----

  datatype Position = Position(moment: Moment, id: int)

  const SEPARATOR := '|'

  function RawCursor(p: Position): string {
    Iso(p.moment) + [SEPARATOR] + Text(p.id)
  }

  function Ascii(s: string): Option<seq<Byte>> {
    if s == "" then Some([])
    else if s[0] as int >= 128 then None
    else Prepend(s[0] as int, Ascii(s[1..]))
  }

  function FromAscii(bs: seq<Byte>): Option<string> {
    if bs == [] then Some("")
    else if bs[0] >= 128 then None
    else
      var rest := FromAscii(bs[1..]);
      if rest.None? then None else Some([bs[0] as char] + rest.value)
  }

  function EncodeCursor(p: Position): string {
    var raw := Ascii(RawCursor(p));
    if raw.Some? then Encode64(raw.value) else ""
  }

  /** The index just past the last separator, or 0. */
  function AfterLastSeparator(s: string): (n: nat)
    ensures n <= |s|
    ensures n > 0 ==> s[n - 1] == SEPARATOR
  {
    if s == "" then 0
    else if s[|s| - 1] == SEPARATOR then |s|
    else AfterLastSeparator(s[..|s| - 1])
  }

  function ParseRaw(raw: string): Option<Position> {
    var n := AfterLastSeparator(raw);
    if n == 0 then None
    else
      var moment, id := ParseIso(raw[..n - 1]), ParseInt(raw[n..]);
      if moment.None? || id.None? then None else Some(Position(moment.value, id.value))
  }

  function DecodeCursor(value: string): Option<Position> {
    var bs := Decode64(value);
    if bs.None? then None
    else
      var raw := FromAscii(bs.value);
      if raw.None? then None else ParseRaw(raw.value)
  }

  lemma {:induction false} LastSeparatorStands(head: string, tail: string)
    requires SEPARATOR !in tail
    ensures AfterLastSeparator(head + [SEPARATOR] + tail) == |head| + 1
  {
    var s := head + [SEPARATOR] + tail;
    if tail == "" {
      assert s[|s| - 1] == SEPARATOR;
    } else {
      assert s[|s| - 1] == tail[|tail| - 1];
      assert s[..|s| - 1] == head + [SEPARATOR] + tail[..|tail| - 1];
      LastSeparatorStands(head, tail[..|tail| - 1]);
    }
  }

  lemma {:induction false} AsciiRoundTrip(s: string)
    requires forall c :: c in s ==> c as int < 128
    ensures Ascii(s).Some? && |Ascii(s).value| == |s| && FromAscii(Ascii(s).value) == Some(s)
  {
    if s != "" {
      assert forall c :: c in s[1..] ==> c in s;
      assert s[0] in s;
      AsciiRoundTrip(s[1..]);
      assert Ascii(s).value[1..] == Ascii(s[1..]).value;
      assert s == [s[0]] + s[1..];
    }
  }

  lemma {:induction false} PaddedIsDigits(n: nat, w: nat)
    ensures forall c :: c in Padded(n, w) ==> IsDigit(c)
  {
    if w > 0 {
      PaddedIsDigits(n / 10, w - 1);
    }
  }

  lemma IsoIsAscii(m: Moment)
    ensures forall c :: c in Iso(m) ==> c as int < 128
  {
    PaddedIsDigits(m.year, 4);
    PaddedIsDigits(m.month, 2);
    PaddedIsDigits(m.day, 2);
    PaddedIsDigits(m.hour, 2);
    PaddedIsDigits(m.minute, 2);
    PaddedIsDigits(m.second, 2);
    PaddedIsDigits(m.micro, 6);
    assert forall c :: c in IsoDate(m) ==> c as int < 128;
    assert forall c :: c in IsoTime(m) ==> c as int < 128;
  }

  lemma RawIsAscii(p: Position)
    ensures forall c :: c in RawCursor(p) ==> c as int < 128
    ensures SEPARATOR !in Text(p.id)
  {
    IsoIsAscii(p.moment);
    DecimalIsDigits(if p.id < 0 then -p.id else p.id);
  }

  lemma RawRoundTrip(p: Position)
    requires ValidMoment(p.moment)
    ensures ParseRaw(RawCursor(p)) == Some(p)
  {
    var raw, head := RawCursor(p), Iso(p.moment);
    RawIsAscii(p);
    LastSeparatorStands(head, Text(p.id));
    assert raw[..|head|] == head && raw[|head| + 1..] == Text(p.id);
    IsoRoundTrip(p.moment);
    TextRoundTrip(p.id);
  }

  /** Every cursor this API issues decodes to the position it was issued for. */
  lemma CursorRoundTrip(p: Position)
    requires ValidMoment(p.moment)
    ensures DecodeCursor(EncodeCursor(p)) == Some(p)
  {
    RawIsAscii(p);
    AsciiRoundTrip(RawCursor(p));
    Base64RoundTrip(Ascii(RawCursor(p)).value);
    RawRoundTrip(p);
  }

  predicate AcceptedByPattern(s: string) {
    1 <= |s| <= 200 && AllAccepted(s)
  }

  lemma LengthFits(n: nat)
    ensures 1 <= EncodedLength(n) <= 200 <==> 1 <= n <= 150
  {
    assert EncodedLength(n) / 4 == (n + 2) / 3;
  }

  lemma EncodingFits(bs: seq<Byte>)
    ensures AcceptedByPattern(Encode64(bs)) <==> 1 <= |bs| <= 150
  {
    EncodedShape(bs);
    LengthFits(|bs|);
  }

  /** An issued cursor passes the query's pattern exactly when its raw text is at most 150 characters. */
  lemma IssuedCursorFits(p: Position)
    ensures AcceptedByPattern(EncodeCursor(p)) <==> |RawCursor(p)| <= 150
  {
    RawIsAscii(p);
    AsciiRoundTrip(RawCursor(p));
    EncodingFits(Ascii(RawCursor(p)).value);
  }

  /** Which any identifier of at most 116 digits does, and so any a database column can hold. */
  lemma IssuedCursorAccepted(p: Position, digits: nat)
    requires ValidMoment(p.moment) && 1 <= digits <= 116
    requires p.id < Pow10(digits) && -p.id < Pow10(digits)
    ensures AcceptedByPattern(EncodeCursor(p))
  {
    IsoRoundTrip(p.moment);
    DecimalLength(if p.id < 0 then -p.id else p.id, digits);
    IssuedCursorFits(p);
  }

  // ----- Texts this API did not issue -----

  /** The decoder skips what is not in the alphabet, and padding where no group is under way. */
  lemma ForeignSymbolsAreSkipped(c: char, rest: string, quad: nat, left: nat, pads: nat)
    requires quad < 4 && left < (if quad == 1 then 64 else if quad == 2 then 16 else if quad == 3 then 4 else 1)
    requires !('A' <= c <= 'Z' || 'a' <= c <= 'z' || '0' <= c <= '9') && c != '-' && c != '_' && c != '+' && c != '/'
    requires c == '=' ==> quad < 2
    ensures Scan([c] + rest, quad, left, pads) == Scan(rest, quad, left, pads)
  {
    assert ([c] + rest)[1..] == rest;
  }

  /** A group left unfinished is refused: too few symbols, or too little padding. */
  lemma UnfinishedGroupsAreRefused(a: nat, b: nat)
    requires a < 64 && b < 64
    ensures Decode64([Symbol(a)]) == None
    ensures Decode64([Symbol(a), Symbol(b)]) == None
    ensures Decode64([Symbol(a), Symbol(b), '=']) == None
  {
    ScanFirst(a, "");
    assert [Symbol(a)] == [Symbol(a)] + "";
    ScanFirst(a, [Symbol(b)]);
    ScanNext(1, a, b, "");
    assert [Symbol(b)] == [Symbol(b)] + "" && [Symbol(a), Symbol(b)] == [Symbol(a)] + [Symbol(b)];
    ScanFirst(a, [Symbol(b)] + "=");
    ScanNext(1, a, b, "=");
    assert [Symbol(a), Symbol(b), '='] == [Symbol(a)] + ([Symbol(b)] + "=");
    assert Scan("=", 2, b % 16, 0) == Scan("", 2, b % 16, 1);
  }

  /** And one with both paddings is a byte; the bits left over are dropped. */
  lemma PaddedGroupIsOneByte(a: nat, b: nat)
    requires a < 64 && b < 64
    ensures Decode64([Symbol(a), Symbol(b), '=', '=']) == Some([a * 4 + b / 16])
  {
    ScanFirst(a, [Symbol(b)] + "==");
    ScanNext(1, a, b, "==");
    assert [Symbol(a), Symbol(b), '=', '='] == [Symbol(a)] + ([Symbol(b)] + "==");
    assert "=="[1..] == "=";
    assert Scan("=", 2, b % 16, 1) == Some([]);
    assert Scan("==", 2, b % 16, 0) == Some([]);
    var x: Byte := a * 4 + b / 16;
    assert [x] + [] == [x];
  }

  /** Bytes that are not ASCII are no cursor. */
  lemma {:induction false} NonAsciiIsRefused(bs: seq<Byte>)
    ensures FromAscii(bs).Some? <==> forall i :: 0 <= i < |bs| ==> bs[i] < 128
  {
    if bs != [] {
      NonAsciiIsRefused(bs[1..]);
      assert forall i :: 1 <= i < |bs| ==> bs[i] == bs[1..][i - 1];
    }
  }

  /** Whatever decodes is a moment that exists. */
  lemma DecodedMomentsExist(text: string)
    ensures DecodeCursor(text).Some? ==>
      var m := DecodeCursor(text).value.moment;
      && 1 <= m.year <= 9999 && 1 <= m.month <= 12 && 1 <= m.day <= DaysIn(m.year, m.month)
      && m.hour <= 23 && m.minute <= 59 && m.second <= 59 && m.micro <= 999999
  {
  }

  /** A fraction has six digits or is not there, and the pattern takes any text of its symbols up to 200. */
  lemma AcceptedLengths(s: string)
    ensures ParseMicro(s).Some? ==> |s| == 0 || |s| == 7
    ensures AcceptedByPattern(s) <==> s != "" && |s| < 201 && forall i :: 0 <= i < |s| ==> CursorSymbol(s[i])
  {
  }

  /** The text inside a cursor. */
  lemma RawText(m: Moment, id: int)
    ensures RawCursor(Position(m, id)) == Iso(m) + "|" + Text(id)
  {
  }

  /** A moment is written in 25 characters, or 32 if it has microseconds. */
  lemma IsoShape(m: Moment)
    requires ValidMoment(m)
    ensures |Iso(m)| == if m.micro == 0 then 25 else 32
  {
    DateRoundTrip(m);
    TimeRoundTrip(m);
    Pow10Values();
    PaddedRoundTrip(m.micro, 6);
  }
}
