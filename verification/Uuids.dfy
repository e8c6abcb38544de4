/**
 Order ids and their text: the hex-and-dash format of section 4 of RFC 9562, written in lower case and read in
 either case. uuid.UUID.String and uuid.Parse of the Go code are used by internal/graph/mappers.go.
 */
module Uuids {
  import opened Wrappers

  newtype byte = x: int | 0 <= x < 256

  type Uuid = u: seq<byte> | |u| == 16 witness seq(16, _ => 0)

  const TEXT_LENGTH := 36
  const HEX_DIGITS := "0123456789abcdef"

  // Where the two hex digits of each byte start.
  const OFFSETS: seq<nat> := [0, 2, 4, 6, 9, 11, 14, 16, 19, 21, 24, 26, 28, 30, 32, 34]

  predicate IsDash(k: nat) {
    k == 8 || k == 13 || k == 18 || k == 23
  }

  /** How many hex digits stand before position k. */
  function DigitsBefore(k: nat): int {
    k - (if k > 8 then 1 else 0) - (if k > 13 then 1 else 0) - (if k > 18 then 1 else 0) - (if k > 23 then 1 else 0)
  }

  function CharAt(u: Uuid, k: nat): char
    requires k < TEXT_LENGTH
  {
    if IsDash(k) then '-'
    else
      var d := DigitsBefore(k);
      var b := u[d / 2] as int;
      HEX_DIGITS[if d % 2 == 0 then b / 16 else b % 16]
  }

  function Format(u: Uuid): (text: string)
    ensures |text| == TEXT_LENGTH
    ensures forall k :: 0 <= k < TEXT_LENGTH ==> text[k] == CharAt(u, k)
  {
    seq(TEXT_LENGTH, k requires 0 <= k < TEXT_LENGTH => CharAt(u, k))
  }

  function HexValue(c: char): (v: Option<nat>)
    ensures v.Some? ==> v.value < 16
  {
    if '0' <= c <= '9' then Some((c - '0') as nat)
    else if 'a' <= c <= 'f' then Some((c - 'a') as nat + 10)
    else if 'A' <= c <= 'F' then Some((c - 'A') as nat + 10)
    else None
  }

  predicate WellFormed(s: string) {
    && |s| == TEXT_LENGTH
    && s[8] == '-' && s[13] == '-' && s[18] == '-' && s[23] == '-'
    && forall i {:trigger OFFSETS[i]} :: 0 <= i < 16 ==>
       HexValue(s[OFFSETS[i]]).Some? && HexValue(s[OFFSETS[i] + 1]).Some?
  }

  function ByteAt(s: string, i: nat): byte
    requires WellFormed(s) && i < 16
  {
    (HexValue(s[OFFSETS[i]]).value * 16 + HexValue(s[OFFSETS[i] + 1]).value) as byte
  }

  function ParseStandard(s: string): Option<Uuid> {
    if !WellFormed(s) then None else Some(seq(16, i requires 0 <= i < 16 => ByteAt(s, i)))
  }

  function LowerChar(c: char): char {
    if 'A' <= c <= 'Z' then 'a' + (c - 'A') else c
  }

  function Lower(s: string): (t: string)
    ensures |t| == |s|
    ensures forall k :: 0 <= k < |s| ==> t[k] == LowerChar(s[k])
  {
    seq(|s|, k requires 0 <= k < |s| => LowerChar(s[k]))
  }

  lemma HexDigitReads(c: char, v: nat)
    requires v < 16
    ensures HexValue(c) == Some(v) <==> LowerChar(c) == HEX_DIGITS[v]
  {
    assert HEX_DIGITS[0] == '0' && HEX_DIGITS[9] == '9' && HEX_DIGITS[10] == 'a' && HEX_DIGITS[15] == 'f';
  }

  lemma DashReads(c: char)
    ensures c == '-' <==> LowerChar(c) == '-'
  {
  }

  /** Byte i is written at its offset: high digit, then low digit. */
  lemma ByteIsAtItsOffset(u: Uuid, i: nat)
    requires i < 16
    ensures !IsDash(OFFSETS[i]) && !IsDash(OFFSETS[i] + 1)
    ensures CharAt(u, OFFSETS[i]) == HEX_DIGITS[u[i] as int / 16]
    ensures CharAt(u, OFFSETS[i] + 1) == HEX_DIGITS[u[i] as int % 16]
  {
    assert DigitsBefore(OFFSETS[i]) == 2 * i;
    assert DigitsBefore(OFFSETS[i] + 1) == 2 * i + 1;
  }

  lemma EveryDigitHasAnOffset(k: nat)
    requires k < TEXT_LENGTH && !IsDash(k)
    ensures 0 <= DigitsBefore(k) / 2 < 16
    ensures k == OFFSETS[DigitsBefore(k) / 2] + DigitsBefore(k) % 2
  {
  }

  /** A byte splits into its two hex digits in one way only. */
  lemma NibblesAreUnique(hi: nat, lo: nat, b: nat)
    requires lo < 16
    ensures hi * 16 + lo == b <==> hi == b / 16 && lo == b % 16
  {
  }

  /** Two characters read as a byte exactly when, in lower case, they are the ones written for it. */
  lemma ByteReads(hi: char, lo: char, b: byte)
    ensures (HexValue(hi).Some? && HexValue(lo).Some? && HexValue(hi).value * 16 + HexValue(lo).value == b as int)
       <==> (LowerChar(hi) == HEX_DIGITS[b as int / 16] && LowerChar(lo) == HEX_DIGITS[b as int % 16])
  {
    var h, l := b as int / 16, b as int % 16;
    HexDigitReads(hi, h);
    HexDigitReads(lo, l);
    if HexValue(hi).Some? && HexValue(lo).Some? {
      NibblesAreUnique(HexValue(hi).value, HexValue(lo).value, b as int);
    }
  }

  lemma ParsedByteIsWritten(s: string, u: Uuid, i: nat)
    requires ParseStandard(s) == Some(u) && i < 16
    ensures LowerChar(s[OFFSETS[i]]) == CharAt(u, OFFSETS[i])
    ensures LowerChar(s[OFFSETS[i] + 1]) == CharAt(u, OFFSETS[i] + 1)
  {
    ByteIsAtItsOffset(u, i);
    ByteReads(s[OFFSETS[i]], s[OFFSETS[i] + 1], u[i]);
  }

  lemma ParsedCharIsWritten(s: string, u: Uuid, k: nat)
    requires ParseStandard(s) == Some(u) && k < TEXT_LENGTH
    ensures LowerChar(s[k]) == CharAt(u, k)
  {
    if IsDash(k) {
      DashReads(s[k]);
    } else {
      EveryDigitHasAnOffset(k);
      var i, odd := DigitsBefore(k) / 2, DigitsBefore(k) % 2;
      var start := OFFSETS[i];
      assert k == if odd == 0 then start else start + 1;
      ParsedByteIsWritten(s, u, i);
    }
  }

  lemma WrittenByteIsParsed(s: string, u: Uuid, i: nat)
    requires |s| == TEXT_LENGTH && Lower(s) == Format(u) && i < 16
    ensures HexValue(s[OFFSETS[i]]).Some? && HexValue(s[OFFSETS[i] + 1]).Some?
    ensures HexValue(s[OFFSETS[i]]).value * 16 + HexValue(s[OFFSETS[i] + 1]).value == u[i] as int
  {
    ByteIsAtItsOffset(u, i);
    assert Lower(s)[OFFSETS[i]] == LowerChar(s[OFFSETS[i]]);
    assert Lower(s)[OFFSETS[i] + 1] == LowerChar(s[OFFSETS[i] + 1]);
    ByteReads(s[OFFSETS[i]], s[OFFSETS[i] + 1], u[i]);
  }

  lemma WrittenDashIsRead(s: string, u: Uuid, k: nat)
    requires Lower(s) == Format(u) && k < |s| && IsDash(k)
    ensures s[k] == '-'
  {
    assert Lower(s)[k] == CharAt(u, k);
    DashReads(s[k]);
  }

  lemma WrittenIsWellFormed(s: string, u: Uuid)
    requires Lower(s) == Format(u)
    ensures WellFormed(s)
  {
    WrittenDashIsRead(s, u, 8);
    WrittenDashIsRead(s, u, 13);
    WrittenDashIsRead(s, u, 18);
    WrittenDashIsRead(s, u, 23);
    forall i {:trigger OFFSETS[i]} | 0 <= i < 16
      ensures HexValue(s[OFFSETS[i]]).Some? && HexValue(s[OFFSETS[i] + 1]).Some?
    {
      WrittenByteIsParsed(s, u, i);
    }
  }

  lemma WrittenTextIsParsed(s: string, u: Uuid)
    requires Lower(s) == Format(u)
    ensures ParseStandard(s) == Some(u)
  {
    WrittenIsWellFormed(s, u);
    forall i | 0 <= i < 16 ensures ByteAt(s, i) == u[i] {
      WrittenByteIsParsed(s, u, i);
    }
    assert ParseStandard(s).value == u;
  }

  /** Reading the standard form is exactly the inverse of writing it, up to letter case. */
  lemma StandardInvertsFormat(s: string, u: Uuid)
    ensures ParseStandard(s) == Some(u) <==> Lower(s) == Format(u)
  {
    if ParseStandard(s) == Some(u) {
      forall k | 0 <= k < TEXT_LENGTH ensures LowerChar(s[k]) == CharAt(u, k) {
        ParsedCharIsWritten(s, u, k);
      }
      assert Lower(s) == Format(u);
    }
    if Lower(s) == Format(u) {
      WrittenTextIsParsed(s, u);
    }
  }

  lemma FormatIsLowerCase(u: Uuid)
    ensures Lower(Format(u)) == Format(u)
  {
    forall k | 0 <= k < TEXT_LENGTH ensures LowerChar(CharAt(u, k)) == CharAt(u, k) {
      if !IsDash(k) {
        var d := DigitsBefore(k);
        var v := if d % 2 == 0 then u[d / 2] as int / 16 else u[d / 2] as int % 16;
        assert CharAt(u, k) == HEX_DIGITS[v];
      }
    }
  }

  // ---------------------------------------------------------------- every form that is read

  const URN_PREFIX := "urn:uuid:"

  /** 32 bare digits with the dashes put in. */
  function Dashed(s: string): string
    requires |s| == 32
  {
    s[..8] + "-" + s[8..12] + "-" + s[12..16] + "-" + s[16..20] + "-" + s[20..]
  }

  /** The standard text in a text of another form: after a URN prefix, between braces, or without dashes. */
  function StandardText(s: string): Option<string> {
    if |s| == TEXT_LENGTH then Some(s)
    else if |s| == TEXT_LENGTH + 9 && Lower(s[..9]) == URN_PREFIX then Some(s[9..])
    else if |s| == TEXT_LENGTH + 2 then Some(s[1..TEXT_LENGTH + 1])  // what stands for the braces is not looked at
    else if |s| == 32 then Some(Dashed(s))
    else None
  }

  function Parse(s: string): Option<Uuid> {
    match StandardText(s)
    case None => None
    case Some(text) => ParseStandard(text)
  }

  /** A text reads as an id if and only if it holds, in one of the forms and in either case, the text written for it. */
  lemma ParseInvertsFormat(s: string, u: Uuid)
    ensures Parse(s) == Some(u) <==> StandardText(s).Some? && Lower(StandardText(s).value) == Format(u)
  {
    if StandardText(s).Some? {
      StandardInvertsFormat(StandardText(s).value, u);
    }
  }

  /** 36 characters without those where the dashes stand. */
  function Bare(x: string): string
    requires |x| == TEXT_LENGTH
  {
    x[..8] + x[9..13] + x[14..18] + x[19..23] + x[24..]
  }

  /** Text s is the standard text x, or x after a URN prefix, between two characters, or without its dashes. */
  ghost predicate IsFormOf(s: string, x: string)
    requires |x| == TEXT_LENGTH
  {
    || s == x
    || (exists prefix :: Lower(prefix) == "urn:uuid:" && s == prefix + x)
    || (exists open, close :: s == [open] + x + [close])
    || s == Bare(x)
  }

  lemma DashedInvertsBare(x: string, u: Uuid)
    requires |x| == TEXT_LENGTH && Lower(x) == Format(u)
    ensures |Bare(x)| == 32 && Dashed(Bare(x)) == x
  {
    WrittenDashIsRead(x, u, 8);
    WrittenDashIsRead(x, u, 13);
    WrittenDashIsRead(x, u, 18);
    WrittenDashIsRead(x, u, 23);
    var b := Bare(x);
    assert b[..8] == x[..8] && b[8..12] == x[9..13] && b[12..16] == x[14..18];
    assert b[16..20] == x[19..23] && b[20..] == x[24..];
    assert x == x[..8] + "-" + x[9..13] + "-" + x[14..18] + "-" + x[19..23] + "-" + x[24..];
  }

  lemma BareInvertsDashed(s: string)
    requires |s| == 32
    ensures |Dashed(s)| == TEXT_LENGTH && Bare(Dashed(s)) == s
  {
    var x := Dashed(s);
    assert x[..8] == s[..8] && x[9..13] == s[8..12] && x[14..18] == s[12..16];
    assert x[19..23] == s[16..20] && x[24..] == s[20..];
  }

  lemma FormHoldsStandardText(s: string, x: string, u: Uuid)
    requires |x| == TEXT_LENGTH && Lower(x) == Format(u) && IsFormOf(s, x)
    ensures StandardText(s) == Some(x)
  {
    if s == x {
    } else if prefix :| Lower(prefix) == "urn:uuid:" && s == prefix + x {
      assert |prefix| == 9 && s[..9] == prefix && s[9..] == x;
    } else if open, close :| s == [open] + x + [close] {
      assert s[1..TEXT_LENGTH + 1] == x;
    } else {
      DashedInvertsBare(x, u);
    }
  }

  lemma StandardTextHasForm(s: string)
    requires StandardText(s).Some?
    ensures |StandardText(s).value| == TEXT_LENGTH && IsFormOf(s, StandardText(s).value)
  {
    var x := StandardText(s).value;
    if |s| == TEXT_LENGTH + 9 {
      assert Lower(s[..9]) == "urn:uuid:" && s == s[..9] + x;
    } else if |s| == TEXT_LENGTH + 2 {
      assert s == [s[0]] + x + [s[TEXT_LENGTH + 1]];
    } else if |s| == 32 {
      BareInvertsDashed(s);
    }
  }

  /** The texts that read as an id are the four forms of the text written for it, in either case, and no others. */
  lemma ReadForms(s: string, u: Uuid)
    ensures Parse(s) == Some(u) <==> exists x :: |x| == TEXT_LENGTH && Lower(x) == Format(u) && IsFormOf(s, x)
  {
    ParseInvertsFormat(s, u);
    if Parse(s) == Some(u) {
      StandardTextHasForm(s);
    }
    if x :| |x| == TEXT_LENGTH && Lower(x) == Format(u) && IsFormOf(s, x) {
      FormHoldsStandardText(s, x, u);
    }
  }

  /** The id text of an order reads back to the id of that order, and to no other. */
  lemma FormatRoundTrips(u: Uuid)
    ensures Parse(Format(u)) == Some(u)
  {
    FormatIsLowerCase(u);
    ParseInvertsFormat(Format(u), u);
  }

  lemma FormatIsInjective(u: Uuid, v: Uuid)
    requires Format(u) == Format(v)
    ensures u == v
  {
    FormatRoundTrips(u);
    FormatRoundTrips(v);
  }
}
