/** The checksum field of an NMEA sentence, as loc_eng_nmea_put_checksum appends it in place
    (NMEA 0183: '*' and two hexadecimal digits, the exclusive or of all characters between '$'
    and '*'), and a receiver that checks it. */
module NmeaChecksum {
  import opened Options

  function ByteOf(c: char): bv8 {
    (c as int % 256) as bv8
  }

  /** The exclusive or of the bytes of a text. */
  function Xor(s: string): bv8 {
    if s == "" then 0 else Xor(s[..|s| - 1]) ^ ByteOf(s[|s| - 1])
  }

  /** %X of one hexadecimal digit. */
  function HexDigit(n: bv8): char {
    if n == 0 then '0' else if n == 1 then '1' else if n == 2 then '2' else if n == 3 then '3'
    else if n == 4 then '4' else if n == 5 then '5' else if n == 6 then '6' else if n == 7 then '7'
    else if n == 8 then '8' else if n == 9 then '9' else if n == 10 then 'A' else if n == 11 then 'B'
    else if n == 12 then 'C' else if n == 13 then 'D' else if n == 14 then 'E' else 'F'
  }

  function HexValue(c: char): Option<bv8> {
    match c
    case '0' => Some(0) case '1' => Some(1) case '2' => Some(2) case '3' => Some(3)
    case '4' => Some(4) case '5' => Some(5) case '6' => Some(6) case '7' => Some(7)
    case '8' => Some(8) case '9' => Some(9) case 'A' => Some(10) case 'B' => Some(11)
    case 'C' => Some(12) case 'D' => Some(13) case 'E' => Some(14) case 'F' => Some(15)
    case _ => None
  }

  /** "*%02X\r\n" */
  function ChecksumField(x: bv8): string {
    ['*', HexDigit(x >> 4), HexDigit(x & 0xF), '\r', '\n']
  }

  /** The complete sentence for a text that starts with '$'. */
  function Sentence(body: string): string
    requires body != ""
  {
    body + ChecksumField(Xor(body[1..]))
  }

  // ---------- the receiver ----------

  /** The position of the first '*' at i or later. */
  function StarAt(s: string, i: nat): (k: nat)
    requires i <= |s|
    ensures i <= k <= |s|
    ensures k < |s| ==> s[k] == '*'
    ensures '*' !in s[i..k]
    decreases |s| - i
  {
    if i == |s| || s[i] == '*' then i else StarAt(s, i + 1)
  }

  /** The text of a sentence whose checksum field is well-formed and agrees with the text. */
  function Decode(s: string): Option<string> {
    var k := StarAt(s, 0);
    if k == 0 || s[0] != '$' || |s| != k + 5 || s[k + 3..] != "\r\n" then None
    else
      var hi, lo := HexValue(s[k + 1]), HexValue(s[k + 2]);
      if hi.Some? && lo.Some? && (hi.value << 4) | lo.value == Xor(s[1..k]) then Some(s[..k]) else None
  }

  lemma HexRoundTrip(x: bv8)
    ensures HexValue(HexDigit(x >> 4)) == Some(x >> 4)
    ensures HexValue(HexDigit(x & 0xF)) == Some(x & 0xF)
    ensures ((x >> 4) << 4) | (x & 0xF) == x
  {
  }

  lemma {:induction false} StarAfter(body: string, rest: string, i: nat)
    requires '*' !in body && i <= |body| && rest != "" && rest[0] == '*'
    ensures StarAt(body + rest, i) == |body|
    decreases |body| - i
  {
    if i < |body| {
      assert (body + rest)[i] == body[i];
      StarAfter(body, rest, i + 1);
    }
  }

  /** How the receiver reads any text without '*' followed by the field for x. */
  lemma DecodeWithField(body: string, x: bv8)
    requires body != "" && body[0] == '$' && '*' !in body
    ensures Decode(body + ChecksumField(x)) == if x == Xor(body[1..]) then Some(body) else None
  {
    var s := body + ChecksumField(x);
    StarAfter(body, ChecksumField(x), 0);
    HexRoundTrip(x);
    assert s[|body| + 3..] == "\r\n" && s[1..|body|] == body[1..] && s[..|body|] == body;
    assert s[|body| + 1] == HexDigit(x >> 4) && s[|body| + 2] == HexDigit(x & 0xF);
  }

  /** What the sender appends, the receiver accepts, and it gets the text back. */
  lemma RoundTrip(body: string)
    requires body != "" && body[0] == '$' && '*' !in body
    ensures Decode(Sentence(body)) == Some(body)
  {
    DecodeWithField(body, Xor(body[1..]));
  }

  /** A byte with a single bit set. */
  predicate SingleBit(m: bv8) {
    m == 1 || m == 2 || m == 4 || m == 8 || m == 16 || m == 32 || m == 64 || m == 128
  }

  /** How many bytes of a text have the bit. */
  function WithBit(s: string, m: bv8): nat {
    if s == "" then 0 else (if ByteOf(s[0]) & m != 0 then 1 else 0) + WithBit(s[1..], m)
  }

  lemma {:induction false} WithBitLast(s: string, c: char, m: bv8)
    ensures WithBit(s + [c], m) == WithBit(s, m) + if ByteOf(c) & m != 0 then 1 else 0
  {
    if s == "" {
      assert s + [c] == [c] && [c][1..] == "";
    } else {
      assert (s + [c])[1..] == s[1..] + [c];
      WithBitLast(s[1..], c, m);
    }
  }

  lemma BitOfXor(a: bv8, b: bv8, m: bv8)
    requires SingleBit(m)
    ensures (a ^ b) & m != 0 <==> (a & m != 0) != (b & m != 0)
  {
  }

  lemma {:induction false} XorIsParity(s: string, m: bv8)
    requires SingleBit(m)
    ensures Xor(s) & m != 0 <==> WithBit(s, m) % 2 == 1
  {
    if s != "" {
      var n := |s| - 1;
      XorIsParity(s[..n], m);
      WithBitLast(s[..n], s[n], m);
      assert s[..n] + [s[n]] == s;
      BitOfXor(Xor(s[..n]), ByteOf(s[n]), m);
    }
  }

  /** The field after the text: a star, two hexadecimal digits and the end of the line. A bit of the number that the
      digits denote is set exactly when an odd number of the bytes after '$' have it. */
  lemma ChecksumIsParity(body: string, m: bv8)
    requires body != "" && SingleBit(m)
    ensures var s, n := Sentence(body), |body|;
            && |s| == n + 5 && s[..n] == body && s[n] == '*' && s[n + 3] == '\r' && s[n + 4] == '\n'
            && var hi, lo := HexValue(s[n + 1]), HexValue(s[n + 2]);
               hi.Some? && lo.Some? && (((hi.value << 4) | lo.value) & m != 0 <==> WithBit(body[1..], m) % 2 == 1)
  {
    HexRoundTrip(Xor(body[1..]));
    XorIsParity(body[1..], m);
  }

  lemma {:induction false} XorUpdate(s: string, k: nat, c: char)
    requires k < |s|
    ensures Xor(s[k := c]) == Xor(s) ^ ByteOf(s[k]) ^ ByteOf(c)
  {
    var n := |s| - 1;
    if k < n {
      XorUpdate(s[..n], k, c);
      assert s[k := c][..n] == s[..n][k := c];
      var a, b, d, e := Xor(s[..n]), ByteOf(s[k]), ByteOf(c), ByteOf(s[n]);
      assert ((a ^ b) ^ d) ^ e == ((a ^ e) ^ b) ^ d;
    } else {
      assert s[k := c][..n] == s[..n];
      var a, b, d := Xor(s[..n]), ByteOf(s[n]), ByteOf(c);
      assert a ^ d == ((a ^ b) ^ b) ^ d;
    }
  }

  /** A receiver notices when one character of the text has become another byte on the way. */
  lemma OneWrongByteIsNoticed(body: string, k: nat, c: char)
    requires body != "" && body[0] == '$' && '*' !in body
    requires 0 < k < |body| && c != '*' && ByteOf(c) != ByteOf(body[k])
    ensures Decode(Sentence(body)[k := c]) == None
  {
    var wrong := body[k := c];
    var x := Xor(body[1..]);
    assert Sentence(body)[k := c] == wrong + ChecksumField(x);
    assert wrong[1..] == body[1..][k - 1 := c];
    XorUpdate(body[1..], k - 1, c);
    var b, d := ByteOf(body[k]), ByteOf(c);
    assert b ^ d != 0;
    assert (x ^ b) ^ d == x ^ (b ^ d);
    assert x ^ (b ^ d) != x;
    assert '*' !in wrong;
    DecodeWithField(wrong, x);
  }

  // ---------- the buffer ----------

  /** Where the C string in a buffer ends. */
  predicate EndsAt(s: string, n: nat) {
    n < |s| && s[n] == '\0' && '\0' !in s[..n]
  }

  function Min(a: int, b: int): int {
    if a < b then a else b
  }

  /** snprintf of a text into buf[at..at + size): as much as fits, and a NUL. */
  method Snprintf(buf: array<char>, at: nat, size: nat, text: string) returns (length: nat)
    requires 0 < size && at + size <= buf.Length
    modifies buf
    ensures length == |text|
    ensures var n := Min(|text|, size - 1);
            buf[..] == old(buf[..at]) + text[..n] + ['\0'] + old(buf[at + n + 1..])
  {
    length := |text|;
    var n := Min(|text|, size - 1);
    for i := 0 to n
      invariant buf[..at] == old(buf[..at])
      invariant buf[at..at + i] == text[..i]
      invariant buf[at + i..] == old(buf[at + i..])
    {
      buf[at + i] := text[i];
      assert buf[at..at + i + 1] == buf[at..at + i] + [text[i]];
      assert text[..i + 1] == text[..i] + [text[i]];
    }
    buf[at + n] := '\0';
  }

  /** Appends the checksum field to the C string in buf, which ends at n. */
  method PutChecksum(buf: array<char>, ghost n: nat) returns (length: nat)
    requires EndsAt(buf[..], n) && 0 < n
    modifies buf
    ensures var body := old(buf[..n]);
            var field := ChecksumField(Xor(body[1..]));
            var fits := Min(5, buf.Length - n - 1);
            buf[..] == body + field[..fits] + ['\0'] + old(buf[n + fits + 1..])
    // one less than the length of the sentence, since '$' is not counted
    ensures length == n + 4
  {
    var checksum: bv8 := 0;
    length := 0;
    var pNmea := 1;
    while buf[pNmea] != '\0'
      invariant pNmea == length + 1 <= n
      invariant checksum == Xor(buf[1..pNmea])
      invariant unchanged(buf)
      decreases n - pNmea
    {
      assert buf[1..pNmea + 1][..length] == buf[1..pNmea];
      checksum := checksum ^ ByteOf(buf[pNmea]);
      pNmea := pNmea + 1;
      length := length + 1;
    }
    var checksumLength := Snprintf(buf, pNmea, buf.Length - length - 1, ChecksumField(checksum));
    length := length + checksumLength;
  }

  /** If the buffer leaves room, it holds the complete sentence afterwards; otherwise it holds as
      much of it as there is room for. Either way the C string ends within the buffer. */
  lemma BufferHoldsSentence(before: string, after: string, n: nat)
    requires EndsAt(before, n) && 0 < n
    requires var fits := Min(5, |before| - n - 1);
             after == before[..n] + ChecksumField(Xor(before[..n][1..]))[..fits] + ['\0'] + before[n + fits + 1..]
    ensures |after| == |before|
    ensures n + 5 < |before| <==> EndsAt(after, n + 5)
    ensures n + 5 < |before| ==> after[..n + 5] == Sentence(before[..n])
    ensures n + 5 >= |before| ==> EndsAt(after, |after| - 1) && after[..|after| - 1] == Sentence(before[..n])[..|after| - 1]
  {
    var fits := Min(5, |before| - n - 1);
    var field := ChecksumField(Xor(before[..n][1..]));
    assert after[..n + fits] == before[..n] + field[..fits];
    assert '\0' !in field;
  }
}
