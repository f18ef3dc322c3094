/** The text of NMEA fields: how printf writes an integer, how a receiver reads it back, and how
    fields are separated by commas. */
module NmeaText {
  import opened Options

  function Digits(n: nat): string {
    (if n < 10 then "" else Digits(n / 10)) + ['0' + (n % 10) as char]
  }

  /** A text with zeros put before it until it is so wide. */
  function Pad(s: string, width: int): string
    decreases width - |s|
  {
    if |s| < width then Pad("0" + s, width) else s
  }

  /** %0<width>d; %d is width 0. */
  function Padded(n: int, width: nat): string {
    if n < 0 then "-" + Pad(Digits(-n), width - 1) else Pad(Digits(n), width)
  }

  /** 10 to the power k. */
  function Power10(k: nat): nat {
    if k == 0 then 1 else 10 * Power10(k - 1)
  }

  lemma {:induction false} PowerIsPositive(k: nat)
    ensures Power10(k) > 0
  {
    if k > 0 {
      PowerIsPositive(k - 1);
    }
  }

  lemma {:induction false} DigitsLength(n: nat, k: nat)
    requires 0 < k && n < Power10(k)
    ensures 1 <= |Digits(n)| <= k
  {
    if n >= 10 {
      assert k > 1;
      DigitsLength(n / 10, k - 1);
    }
  }

  lemma {:induction false} PadLength(s: string, width: int)
    ensures |Pad(s, width)| == if |s| < width then width else |s|
    decreases width - |s|
  {
    if |s| < width {
      PadLength("0" + s, width);
    }
  }

  lemma PaddedLength(n: int, width: nat, k: nat)
    requires 0 < k && 0 - Power10(k) < n < Power10(k)
    ensures |Padded(n, width)| <= if width > k then width else if n < 0 then k + 1 else k
  {
    var m, w := if n < 0 then -n else n, if n < 0 then width - 1 else width;
    DigitsLength(m, k);
    PadLength(Digits(m), w);
  }

  /** A number that fits its width is printed in exactly that width. */
  lemma FillsWidth(n: nat, width: nat)
    requires 0 < width && n < Power10(width)
    ensures |Padded(n, width)| == width
  {
    DigitsLength(n, width);
    PadLength(Digits(n), width);
  }

  // ---------- reading ----------

  function DigitValue(c: char): Option<nat> {
    if '0' <= c <= '9' then Some((c - '0') as nat) else None
  }

  /** The number that a text of digits denotes in base ten. */
  function ParseNat(s: string): Option<nat> {
    if s == "" then None
    else
      var before, last := ParseNat(s[..|s| - 1]), DigitValue(s[|s| - 1]);
      if last.None? || (|s| > 1 && before.None?) then None
      else Some((if |s| > 1 then 10 * before.value else 0) + last.value)
  }

  function ParseInt(s: string): Option<int> {
    if s != "" && s[0] == '-' then
      var m := ParseNat(s[1..]);
      if m.Some? then Some(0 - m.value) else None
    else ParseNat(s)
  }

  lemma {:induction false} ParseDigits(n: nat)
    ensures ParseNat(Digits(n)) == Some(n)
  {
    var s := Digits(n);
    if n >= 10 {
      ParseDigits(n / 10);
      assert s[..|s| - 1] == Digits(n / 10);
    }
  }

  lemma {:induction false} ParseZero(s: string)
    requires ParseNat(s).Some?
    ensures ParseNat("0" + s) == ParseNat(s) && DigitValue(s[0]).Some?
  {
    var t := "0" + s;
    if |s| > 1 {
      ParseZero(s[..|s| - 1]);
      assert t[..|t| - 1] == "0" + s[..|s| - 1];
    } else {
      assert t[..1] == "0" && "0"[..0] == "";
    }
  }

  lemma {:induction false} ParsePad(s: string, width: int)
    requires ParseNat(s).Some?
    ensures ParseNat(Pad(s, width)) == ParseNat(s)
    decreases width - |s|
  {
    if |s| < width {
      ParseZero(s);
      ParsePad("0" + s, width);
    }
  }

  lemma ParseSigned(s: string)
    requires ParseNat(s).Some?
    ensures ParseInt(s) == ParseNat(s) && ParseInt("-" + s) == Some(0 - ParseNat(s).value)
  {
    ParseZero(s);
    assert ("-" + s)[1..] == s;
  }

  /** Whatever printf writes for an integer reads back as that integer. */
  lemma ParsePadded(n: int, width: nat)
    ensures ParseInt(Padded(n, width)) == Some(n)
  {
    var m, w := if n < 0 then -n else n, if n < 0 then width - 1 else width;
    ParseDigits(m);
    ParsePad(Digits(m), w);
    ParseSigned(Pad(Digits(m), w));
  }

  // ---------- fields ----------

  /** A text that goes between commas, before the checksum, in a C string. */
  predicate IsField(s: string) {
    ',' !in s && '*' !in s && '\0' !in s
  }

  lemma {:induction false} DigitsAreField(n: nat)
    ensures IsField(Digits(n))
  {
    if n >= 10 {
      DigitsAreField(n / 10);
    }
  }

  lemma {:induction false} PadIsField(s: string, width: int)
    requires IsField(s)
    ensures IsField(Pad(s, width))
    decreases width - |s|
  {
    if |s| < width {
      PadIsField("0" + s, width);
    }
  }

  lemma PaddedIsField(n: int, width: nat)
    ensures IsField(Padded(n, width))
  {
    var m, w := if n < 0 then -n else n, if n < 0 then width - 1 else width;
    DigitsAreField(m);
    PadIsField(Digits(m), w);
  }

  /** Fields, each but the first after a comma. */
  function Join(fields: seq<string>): string
    requires fields != []
  {
    var n := |fields| - 1;
    if n == 0 then fields[0] else Join(fields[..n]) + "," + fields[n]
  }

  /** Where the last comma before n is, counted from 1; 0 if there is none. */
  function AfterComma(s: string, n: nat): (k: nat)
    requires n <= |s|
    ensures k <= n && ',' !in s[k..n] && (k > 0 ==> s[k - 1] == ',')
  {
    if n == 0 || s[n - 1] == ',' then n else AfterComma(s, n - 1)
  }

  function Split(s: string): seq<string>
    decreases |s|
  {
    var k := AfterComma(s, |s|);
    if k == 0 then [s] else Split(s[..k - 1]) + [s[k..]]
  }

  lemma {:induction false} AfterCommaAt(s: string, k: nat, n: nat)
    requires k <= n <= |s| && (k > 0 ==> s[k - 1] == ',')
    requires forall i :: k <= i < n ==> s[i] != ','
    ensures AfterComma(s, n) == k
    decreases n
  {
    if k < n {
      AfterCommaAt(s, k, n - 1);
    }
  }

  lemma SplitOne(field: string)
    requires ',' !in field
    ensures Split(field) == [field]
  {
    AfterCommaAt(field, 0, |field|);
  }

  lemma SplitLast(s: string, field: string)
    requires ',' !in field
    ensures Split(s + "," + field) == Split(s) + [field]
  {
    var t := s + "," + field;
    AfterCommaAt(t, |s| + 1, |t|);
    assert t[..|s|] == s && t[|s| + 1..] == field;
  }

  predicate AllFields(fields: seq<string>) {
    forall i :: 0 <= i < |fields| ==> IsField(fields[i])
  }

  lemma {:induction false} SplitJoin(fields: seq<string>)
    requires fields != [] && AllFields(fields)
    ensures Split(Join(fields)) == fields
  {
    var n := |fields| - 1;
    assert IsField(fields[n]);
    if n == 0 {
      SplitOne(fields[0]);
    } else {
      SplitJoin(fields[..n]);
      SplitLast(Join(fields[..n]), fields[n]);
      assert fields == fields[..n] + [fields[n]];
    }
  }

  lemma JoinMore(fields: seq<string>, field: string)
    requires fields != []
    ensures Join(fields + [field]) == Join(fields) + "," + field
  {
    assert (fields + [field])[..|fields|] == fields;
  }

  /** Joined fields contain neither the checksum's '*' nor a NUL. */
  lemma {:induction false} JoinPlain(fields: seq<string>)
    requires fields != [] && AllFields(fields)
    ensures '*' !in Join(fields) && '\0' !in Join(fields)
  {
    var n := |fields| - 1;
    if n > 0 {
      JoinPlain(fields[..n]);
    }
  }
}
