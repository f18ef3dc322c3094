/** GSV sentences (NMEA 0183, satellites in view): four satellites of one constellation to a sentence,
    as loc_eng_nmea_generate_sv packs them, and a receiver that unpacks them. */
module NmeaGsv {
  import opened Options
  import opened NmeaText
  import opened NmeaChecksum
  import opened NmeaBuffer

  const GPS_MAX_SVS := 32

  datatype Satellite = Satellite(prn: int, elevation: real, azimuth: real, snr: real)

  datatype Constellation = Gps | Glonass {
    function Talker(): string {
      if Gps? then "GP" else "GL"
    }

    predicate Has(prn: int) {
      if Gps? then 1 <= prn <= 32 else 65 <= prn <= 96
    }
  }

  /** (int)(0.5 + x), which truncates toward zero. */
  function Rounded(x: real): int {
    var y := 0.5 + x;
    if y >= 0.0 then y.Floor else -(-y).Floor
  }

  lemma WholeNegated(y: real)
    ensures (-y).Floor as real == -y <==> y.Floor as real == y
  {
    if y.Floor as real == y {
      assert -y == (-y.Floor) as real;
    } else {
      assert -((-y).Floor) as real == y ==> y.Floor as real == y;
    }
  }

  /** That is the nearest integer for values from -0.5 up; below, it is at least as far as the one next to
      it, unless two integers are equally near. */
  lemma RoundedIsNearest(x: real)
    ensures -0.5 <= Rounded(x) as real - x <= 0.5 <==> x >= -0.5 || (0.5 + x).Floor as real == 0.5 + x
  {
    var y := 0.5 + x;
    if y < 0.0 {
      WholeNegated(y);
      assert Rounded(x) as real - x == 0.5 + (-y - (-y).Floor as real);
    }
  }

  /** What a block of a GSV sentence tells about a satellite. */
  datatype Reading = Reading(prn: int, elevation: int, azimuth: int, snr: Option<int>)

  function ReadingOf(s: Satellite): Reading {
    Reading(s.prn, Rounded(s.elevation), Rounded(s.azimuth), if s.snr > 0.0 then Some(Rounded(s.snr)) else None)
  }

  /** The satellites of a constellation, in report order. */
  function Selected(svs: seq<Satellite>, c: Constellation): seq<Reading> {
    if svs == [] then [] else
      var n := |svs| - 1;
      Selected(svs[..n], c) + if c.Has(svs[n].prn) then [ReadingOf(svs[n])] else []
  }

  function SentenceCount(n: nat): nat {
    n / 4 + if n % 4 != 0 then 1 else 0
  }

  /** The satellites of sentence k, counted from 0. */
  function Chunk(sel: seq<Reading>, k: nat): seq<Reading>
    requires k < SentenceCount(|sel|)
  {
    sel[4 * k..Min(4 * k + 4, |sel|)]
  }

  function Position(s: Reading): string {
    "," + Padded(s.prn, 2) + "," + Padded(s.elevation, 2) + "," + Padded(s.azimuth, 3) + ","
  }

  function Signal(s: Reading): string {
    if s.snr.Some? then Padded(s.snr.value, 2) else ""
  }

  function Block(s: Reading): string {
    Position(s) + Signal(s)
  }

  function Blocks(a: seq<Reading>): string {
    if a == [] then "" else var n := |a| - 1; Blocks(a[..n]) + Block(a[n])
  }

  function Header(c: Constellation, total: nat, number: nat, inView: nat): string {
    "$" + c.Talker() + "GSV" + "," + Padded(total, 0) + "," + Padded(number, 0) + "," + Padded(inView, 2)
  }

  /** The text of sentence k, before its checksum. */
  function Body(c: Constellation, sel: seq<Reading>, k: nat): Text
    requires k < SentenceCount(|sel|)
  {
    Header(c, SentenceCount(|sel|), k + 1, |sel|) + Blocks(Chunk(sel, k))
  }

  function Bodies(c: Constellation, sel: seq<Reading>): seq<Text> {
    seq(SentenceCount(|sel|), k requires 0 <= k < SentenceCount(|sel|) => Body(c, sel, k))
  }

  // ---------- the receiver ----------

  function ReadBlock(f: seq<string>): Option<Reading>
    requires |f| == 4
  {
    var p, e, a, s := ParseInt(f[0]), ParseInt(f[1]), ParseInt(f[2]), ParseInt(f[3]);
    if p.None? || e.None? || a.None? || (f[3] != "" && s.None?) then None
    else Some(Reading(p.value, e.value, a.value, s))
  }

  function Both(before: Option<seq<Reading>>, last: Option<Reading>): Option<seq<Reading>> {
    if before.None? || last.None? then None else Some(before.value + [last.value])
  }

  function ReadBlocks(fields: seq<string>): Option<seq<Reading>> {
    if fields == [] then Some([])
    else if |fields| < 4 then None
    else var n := |fields| - 4; Both(ReadBlocks(fields[..n]), ReadBlock(fields[n..]))
  }

  datatype Gsv = Gsv(total: int, number: int, inView: int, readings: seq<Reading>)

  function ReadSentence(text: string, c: Constellation): Option<Gsv> {
    var body := Decode(text);
    if body.None? then None else
      var f := Split(body.value);
      if |f| < 4 || f[0] != "$" + c.Talker() + "GSV" then None else
        var t, n, v, r := ParseInt(f[1]), ParseInt(f[2]), ParseInt(f[3]), ReadBlocks(f[4..]);
        if t.None? || n.None? || v.None? || r.None? then None
        else Some(Gsv(t.value, n.value, v.value, r.value))
  }

  /** The satellites of the first k sentences of a report; every sentence must tell the same total and
      number in view, and its own place. */
  function Assemble(sentences: seq<Option<Gsv>>, k: nat, inView: int): Option<seq<Reading>>
    requires k <= |sentences|
  {
    if k == 0 then Some([]) else
      var before, last := Assemble(sentences, k - 1, inView), sentences[k - 1];
      if before.None? || last.None? then None
      else if last.value.total != |sentences| || last.value.number != k || last.value.inView != inView then None
      else Some(before.value + last.value.readings)
  }

  function ReadSentences(messages: seq<Message>, c: Constellation): seq<Option<Gsv>> {
    seq(|messages|, i requires 0 <= i < |messages| => ReadSentence(messages[i].text, c))
  }

  function ReadReport(messages: seq<Message>, c: Constellation, inView: int): Option<seq<Reading>> {
    Assemble(ReadSentences(messages, c), |messages|, inView)
  }

  // ---------- sentences as fields ----------

  function BlockFields(s: Reading): seq<string> {
    [Padded(s.prn, 2), Padded(s.elevation, 2), Padded(s.azimuth, 3), Signal(s)]
  }

  /** The fields of a sentence: those of its header, and four for each block. */
  function Fields(head: seq<string>, blocks: seq<seq<string>>): seq<string> {
    if blocks == [] then head else var n := |blocks| - 1; Fields(head, blocks[..n]) + blocks[n]
  }

  function BlocksOf(a: seq<Reading>): seq<seq<string>> {
    seq(|a|, i requires 0 <= i < |a| => BlockFields(a[i]))
  }

  lemma FourFields(p: string, e: string, a: string, s: string)
    requires IsField(p) && IsField(e) && IsField(a) && IsField(s)
    ensures AllFields([p, e, a, s])
  {
  }

  lemma BlockIsFields(s: Reading)
    ensures AllFields(BlockFields(s))
  {
    PaddedIsField(s.prn, 2);
    PaddedIsField(s.elevation, 2);
    PaddedIsField(s.azimuth, 3);
    if s.snr.Some? {
      PaddedIsField(s.snr.value, 2);
    }
    FourFields(Padded(s.prn, 2), Padded(s.elevation, 2), Padded(s.azimuth, 3), Signal(s));
  }

  lemma ReadFour(f: seq<string>, p: int, e: int, a: int)
    requires |f| == 4 && ParseInt(f[0]) == Some(p) && ParseInt(f[1]) == Some(e) && ParseInt(f[2]) == Some(a)
    requires f[3] == "" || ParseInt(f[3]).Some?
    ensures ReadBlock(f) == Some(Reading(p, e, a, ParseInt(f[3])))
  {
  }

  lemma BlockReads(s: Reading)
    ensures ReadBlock(BlockFields(s)) == Some(s)
  {
    ParsePadded(s.prn, 2);
    ParsePadded(s.elevation, 2);
    ParsePadded(s.azimuth, 3);
    if s.snr.Some? {
      ParsePadded(s.snr.value, 2);
    }
    ReadFour(BlockFields(s), s.prn, s.elevation, s.azimuth);
  }

  lemma JoinFour(fields: seq<string>, p: string, e: string, a: string, s: string)
    requires fields != []
    ensures Join(fields + [p, e, a, s]) == Join(fields) + ("," + p + "," + e + "," + a + "," + s)
  {
    JoinMore(fields, p);
    JoinMore(fields + [p], e);
    JoinMore(fields + [p] + [e], a);
    JoinMore(fields + [p] + [e] + [a], s);
    assert fields + [p, e, a, s] == fields + [p] + [e] + [a] + [s];
  }

  lemma {:induction false} FieldsAreFields(head: seq<string>, blocks: seq<seq<string>>)
    requires AllFields(head) && forall i :: 0 <= i < |blocks| ==> AllFields(blocks[i])
    ensures head <= Fields(head, blocks) && AllFields(Fields(head, blocks))
  {
    if blocks != [] {
      FieldsAreFields(head, blocks[..|blocks| - 1]);
    }
  }

  lemma Assoc(a: string, b: string, c: string)
    ensures a + b + c == a + (b + c)
  {
  }

  lemma {:induction false} FieldsJoin(head: seq<string>, a: seq<Reading>)
    requires head != []
    ensures Fields(head, BlocksOf(a)) != [] && Join(Fields(head, BlocksOf(a))) == Join(head) + Blocks(a)
  {
    if a == [] {
      assert Join(head) + "" == Join(head);
    } else {
      var n := |a| - 1;
      FieldsJoin(head, a[..n]);
      assert BlocksOf(a)[..n] == BlocksOf(a[..n]);
      var f := BlockFields(a[n]);
      JoinFour(Fields(head, BlocksOf(a[..n])), f[0], f[1], f[2], f[3]);
      Assoc(Join(head), Blocks(a[..n]), Block(a[n]));
    }
  }

  lemma ReadMore(head: seq<string>, before: seq<string>, f: seq<string>)
    requires head <= before && |f| == 4
    ensures ReadBlocks((before + f)[|head|..]) == Both(ReadBlocks(before[|head|..]), ReadBlock(f))
  {
    var rest, n := (before + f)[|head|..], |before| - |head|;
    assert rest[..n] == before[|head|..] && rest[n..] == f;
  }

  function ReadEach(blocks: seq<seq<string>>): Option<seq<Reading>>
    requires forall i :: 0 <= i < |blocks| ==> |blocks[i]| == 4
  {
    if blocks == [] then Some([]) else
      var n := |blocks| - 1;
      Both(ReadEach(blocks[..n]), ReadBlock(blocks[n]))
  }

  lemma {:induction false} HeadFirst(head: seq<string>, blocks: seq<seq<string>>)
    ensures head <= Fields(head, blocks)
  {
    if blocks != [] {
      HeadFirst(head, blocks[..|blocks| - 1]);
    }
  }

  lemma {:induction false} FieldsRead(head: seq<string>, blocks: seq<seq<string>>)
    requires forall i :: 0 <= i < |blocks| ==> |blocks[i]| == 4
    ensures head <= Fields(head, blocks) && ReadBlocks(Fields(head, blocks)[|head|..]) == ReadEach(blocks)
  {
    HeadFirst(head, blocks);
    if blocks == [] {
      assert head[|head|..] == [];
    } else {
      var n := |blocks| - 1;
      var before := Fields(head, blocks[..n]);
      FieldsRead(head, blocks[..n]);
      ReadMore(head, before, blocks[n]);
      assert Fields(head, blocks) == before + blocks[n];
    }
  }

  lemma {:induction false} EachReads(a: seq<Reading>)
    ensures ReadEach(BlocksOf(a)) == Some(a)
  {
    if a != [] {
      var n := |a| - 1;
      EachReads(a[..n]);
      assert BlocksOf(a)[..n] == BlocksOf(a[..n]);
      BlockReads(a[n]);
      assert a == a[..n] + [a[n]];
    }
  }

  function HeaderFields(c: Constellation, total: nat, number: nat, inView: nat): seq<string> {
    ["$" + c.Talker() + "GSV", Padded(total, 0), Padded(number, 0), Padded(inView, 2)]
  }

  lemma JoinThree(p: string, e: string, a: string, s: string)
    ensures Join([p, e, a, s]) == p + "," + e + "," + a + "," + s
  {
    JoinMore([p], e);
    JoinMore([p] + [e], a);
    JoinMore([p] + [e] + [a], s);
    assert [p, e, a, s] == [p] + [e] + [a] + [s];
  }

  lemma HeaderJoin(c: Constellation, total: nat, number: nat, inView: nat)
    ensures Join(HeaderFields(c, total, number, inView)) == Header(c, total, number, inView)
  {
    var h := HeaderFields(c, total, number, inView);
    JoinThree(h[0], h[1], h[2], h[3]);
  }

  lemma HeaderIsFields(c: Constellation, total: nat, number: nat, inView: nat)
    ensures AllFields(HeaderFields(c, total, number, inView))
  {
    PaddedIsField(total, 0);
    PaddedIsField(number, 0);
    PaddedIsField(inView, 2);
    var h := HeaderFields(c, total, number, inView);
    FourFields(h[0], h[1], h[2], h[3]);
  }

  // ---------- what a receiver reads ----------

  lemma BlocksAreFields(a: seq<Reading>)
    ensures forall i :: 0 <= i < |a| ==> AllFields(BlocksOf(a)[i])
  {
    forall i | 0 <= i < |a| ensures AllFields(BlocksOf(a)[i]) {
      BlockIsFields(a[i]);
    }
  }

  lemma BodyIsJoin(c: Constellation, sel: seq<Reading>, k: nat) returns (fields: seq<string>)
    requires k < SentenceCount(|sel|)
    ensures AllFields(fields) && fields != [] && Join(fields) == Body(c, sel, k)
    ensures var head := HeaderFields(c, SentenceCount(|sel|), k + 1, |sel|);
            head <= fields && ReadBlocks(fields[4..]) == Some(Chunk(sel, k))
  {
    var head, chunk := HeaderFields(c, SentenceCount(|sel|), k + 1, |sel|), Chunk(sel, k);
    fields := Fields(head, BlocksOf(chunk));
    HeaderJoin(c, SentenceCount(|sel|), k + 1, |sel|);
    HeaderIsFields(c, SentenceCount(|sel|), k + 1, |sel|);
    BlocksAreFields(chunk);
    FieldsJoin(head, chunk);
    FieldsRead(head, BlocksOf(chunk));
    EachReads(chunk);
    FieldsAreFields(head, BlocksOf(chunk));
  }

  /** The text of a sentence can go into a C string and before a checksum. */
  lemma BodyIsPlain(c: Constellation, sel: seq<Reading>, k: nat)
    requires k < SentenceCount(|sel|)
    ensures var body := Body(c, sel, k); body != "" && body[0] == '$' && '*' !in body && '\0' !in body
  {
    var fields := BodyIsJoin(c, sel, k);
    JoinPlain(fields);
  }

  lemma HeaderReads(c: Constellation, total: nat, number: nat, inView: nat)
    ensures var h := HeaderFields(c, total, number, inView);
            ParseInt(h[1]) == Some(total) && ParseInt(h[2]) == Some(number) && ParseInt(h[3]) == Some(inView)
  {
    ParsePadded(total, 0);
    ParsePadded(number, 0);
    ParsePadded(inView, 2);
  }

  lemma ReadFields(text: string, c: Constellation, body: string, h: seq<string>, f: seq<string>, g: Gsv)
    requires Decode(text) == Some(body) && Split(body) == f && h <= f && |h| == 4
    requires h[0] == "$" + c.Talker() + "GSV"
    requires ParseInt(h[1]) == Some(g.total) && ParseInt(h[2]) == Some(g.number) && ParseInt(h[3]) == Some(g.inView)
    requires ReadBlocks(f[4..]) == Some(g.readings)
    ensures ReadSentence(text, c) == Some(g)
  {
    assert f[0] == h[0] && f[1] == h[1] && f[2] == h[2] && f[3] == h[3];
  }

  /** A receiver of sentence k reads the total, the sentence's place, the number in view and the
      sentence's own satellites. */
  lemma SentenceRoundTrip(c: Constellation, sel: seq<Reading>, k: nat)
    requires k < SentenceCount(|sel|)
    ensures ReadSentence(Sentence(Body(c, sel, k)), c)
         == Some(Gsv(SentenceCount(|sel|), k + 1, |sel|, Chunk(sel, k)))
  {
    var fields := BodyIsJoin(c, sel, k);
    BodyIsPlain(c, sel, k);
    RoundTrip(Body(c, sel, k));
    SplitJoin(fields);
    HeaderReads(c, SentenceCount(|sel|), k + 1, |sel|);
    ReadFields(Sentence(Body(c, sel, k)), c, Body(c, sel, k), HeaderFields(c, SentenceCount(|sel|), k + 1, |sel|),
               fields, Gsv(SentenceCount(|sel|), k + 1, |sel|, Chunk(sel, k)));
  }

  /** A non-empty selection of n satellites takes n / 4 sentences, rounded up; all but the last are full,
      and the last is not empty. */
  lemma Packing(sel: seq<Reading>, k: nat)
    requires k < SentenceCount(|sel|)
    ensures 4 * (SentenceCount(|sel|) - 1) < |sel| <= 4 * SentenceCount(|sel|)
    ensures k + 1 < SentenceCount(|sel|) ==> |Chunk(sel, k)| == 4
    ensures k + 1 == SentenceCount(|sel|) ==> 1 <= |Chunk(sel, k)| <= 4
  {
  }

  // ---------- how long the sentences are ----------

  predicate Int32(n: int) {
    -0x8000_0000 <= n < 0x8000_0000
  }

  /** What the conversions to int can yield; in the standard's ranges, what the fields are meant for. */
  predicate Bounded(s: Reading, standard: bool) {
    && 0 <= s.prn < 100
    && (if standard then 0 <= s.elevation < 100 && 0 <= s.azimuth < 1000 else Int32(s.elevation) && Int32(s.azimuth))
    && (s.snr.Some? ==> if standard then 0 <= s.snr.value < 100 else Int32(s.snr.value))
  }

  function BlockWidth(standard: bool): nat {
    if standard then 13 else 39
  }

  lemma Powers()
    ensures Power10(1) == 10 && Power10(2) == 100 && Power10(3) == 1000 && Power10(10) == 10_000_000_000
  {
    assert Power10(5) == 100_000;
  }

  lemma Columns(p: string, e: string, a: string, rest: string)
    requires |p| == 2 && |e| == 2 && |a| == 3
    ensures var s := "," + p + "," + e + "," + a + "," + rest;
            && |s| == 11 + |rest| && s[0] == s[3] == s[6] == s[10] == ','
            && s[1..3] == p && s[4..6] == e && s[7..10] == a && s[11..] == rest
  {
  }

  /** In the standard's ranges a block has fixed columns: two for the number, two for the elevation, three for the
      azimuth, and two or none for the signal. */
  lemma BlockColumns(s: Reading)
    requires Bounded(s, true)
    ensures var b := Block(s);
            && |b| == (if s.snr.Some? then 13 else 11) && b[0] == b[3] == b[6] == b[10] == ','
            && ParseInt(b[1..3]) == Some(s.prn) && ParseInt(b[4..6]) == Some(s.elevation)
            && ParseInt(b[7..10]) == Some(s.azimuth) && (s.snr.Some? ==> ParseInt(b[11..]) == s.snr)
  {
    Powers();
    FillsWidth(s.prn, 2);
    FillsWidth(s.elevation, 2);
    FillsWidth(s.azimuth, 3);
    ParsePadded(s.prn, 2);
    ParsePadded(s.elevation, 2);
    ParsePadded(s.azimuth, 3);
    if s.snr.Some? {
      FillsWidth(s.snr.value, 2);
      ParsePadded(s.snr.value, 2);
    }
    Columns(Padded(s.prn, 2), Padded(s.elevation, 2), Padded(s.azimuth, 3), Signal(s));
  }

  lemma BlockLength(s: Reading, standard: bool)
    requires Bounded(s, standard)
    ensures |Block(s)| <= BlockWidth(standard)
  {
    Powers();
    PaddedLength(s.prn, 2, 2);
    PaddedLength(s.elevation, 2, if standard then 2 else 10);
    PaddedLength(s.azimuth, 3, if standard then 3 else 10);
    if s.snr.Some? {
      PaddedLength(s.snr.value, 2, if standard then 2 else 10);
    }
  }

  lemma {:induction false} BlocksLength(a: seq<Reading>, standard: bool)
    requires forall s :: s in a ==> Bounded(s, standard)
    ensures |Blocks(a)| <= if standard then 13 * |a| else 39 * |a|
  {
    if a != [] {
      BlocksLength(a[..|a| - 1], standard);
      BlockLength(a[|a| - 1], standard);
    }
  }

  lemma HeaderLength(c: Constellation, total: nat, number: nat, inView: nat)
    requires total < 10 && number < 10 && inView < 100
    ensures |Header(c, total, number, inView)| <= 13
  {
    Powers();
    PaddedLength(total, 0, 1);
    PaddedLength(number, 0, 1);
    PaddedLength(inView, 2, 2);
  }

  lemma BodyLength(c: Constellation, sel: seq<Reading>, k: nat, standard: bool)
    requires k < SentenceCount(|sel|) && |sel| <= GPS_MAX_SVS
    requires forall s :: s in sel ==> Bounded(s, standard)
    ensures |Body(c, sel, k)| <= 13 + 4 * BlockWidth(standard)
  {
    HeaderLength(c, SentenceCount(|sel|), k + 1, |sel|);
    BlocksLength(Chunk(sel, k), standard);
  }

  /** The conversions of the satellite's numbers to int are defined in C. */
  predicate Converts(s: Satellite) {
    Int32(Rounded(s.elevation)) && Int32(Rounded(s.azimuth)) && Int32(Rounded(s.snr))
  }

  /** Elevation, azimuth and signal strength are in the ranges that the fields are meant for. */
  predicate InRange(s: Satellite) {
    0.0 <= s.elevation <= 90.0 && 0.0 <= s.azimuth <= 360.0 && 0.0 <= s.snr <= 99.0
  }

  lemma {:induction false} SelectedBounded(svs: seq<Satellite>, c: Constellation, standard: bool)
    requires forall s :: s in svs ==> if standard then InRange(s) else Converts(s)
    ensures |Selected(svs, c)| <= |svs|
    ensures forall s :: s in Selected(svs, c) ==> Bounded(s, standard) && c.Has(s.prn)
  {
    if svs != [] {
      SelectedBounded(svs[..|svs| - 1], c, standard);
      assert svs[|svs| - 1] in svs;
    }
  }

  /** Whatever values the satellites of a report have, no sentence overflows the buffer, checksum and
      NUL included. */
  lemma NeverOverflows(svs: seq<Satellite>, c: Constellation, k: nat)
    requires |svs| <= GPS_MAX_SVS && forall s :: s in svs ==> Converts(s)
    requires k < SentenceCount(|Selected(svs, c)|)
    ensures |Body(c, Selected(svs, c), k)| + 5 < NMEA_SENTENCE_MAX_LENGTH
  {
    SelectedBounded(svs, c, false);
    BodyLength(c, Selected(svs, c), k, false);
  }

  /** For values in range, every sentence keeps within the 82 characters of NMEA 0183. */
  lemma StandardLength(svs: seq<Satellite>, c: Constellation, k: nat)
    requires |svs| <= GPS_MAX_SVS && (forall s :: s in svs ==> InRange(s))
    requires k < SentenceCount(|Selected(svs, c)|)
    ensures |Sentence(Body(c, Selected(svs, c), k))| <= 70
  {
    SelectedBounded(svs, c, true);
    BodyLength(c, Selected(svs, c), k, true);
  }

  // ---------- what a receiver reads from a report ----------

  /** The satellites in the first k sentences. */
  function Upto(sel: seq<Reading>, k: nat): seq<Reading> {
    sel[..Min(4 * k, |sel|)]
  }

  lemma UptoNext(sel: seq<Reading>, k: nat)
    requires k < SentenceCount(|sel|)
    ensures Upto(sel, k + 1) == Upto(sel, k) + Chunk(sel, k)
  {
    assert 4 * k < |sel|;
  }

  lemma {:induction false} AssembleFirst(sentences: seq<Option<Gsv>>, sel: seq<Reading>, k: nat)
    requires k <= |sentences| == SentenceCount(|sel|)
    requires forall i :: 0 <= i < k ==> sentences[i] == Some(Gsv(|sentences|, i + 1, |sel|, Chunk(sel, i)))
    ensures Assemble(sentences, k, |sel|) == Some(Upto(sel, k))
  {
    if k > 0 {
      AssembleFirst(sentences, sel, k - 1);
      UptoNext(sel, k - 1);
    }
  }

  lemma SentWhole(c: Constellation, sel: seq<Reading>, k: nat)
    requires k < SentenceCount(|sel|) && |sel| <= GPS_MAX_SVS && forall s :: s in sel ==> Bounded(s, false)
    ensures Transmitted(Body(c, sel, k)).text == Sentence(Body(c, sel, k))
  {
    BodyLength(c, sel, k, false);
    TransmittedWhole(Body(c, sel, k));
  }

  lemma ReadsOne(c: Constellation, sel: seq<Reading>, k: nat)
    requires k < SentenceCount(|sel|) && |sel| <= GPS_MAX_SVS && forall s :: s in sel ==> Bounded(s, false)
    ensures ReadSentence(Transmitted(Body(c, sel, k)).text, c)
         == Some(Gsv(SentenceCount(|sel|), k + 1, |sel|, Chunk(sel, k)))
  {
    SentenceRoundTrip(c, sel, k);
    SentWhole(c, sel, k);
  }

  /** n is what a receiver may conclude about x: the nearest integer, the larger one of two equally near, for values
      from -0.5 up, and the next but one below; either way there is one such integer. */
  predicate Near(n: int, x: real) {
    if x >= -0.5 then -0.5 < n as real - x <= 0.5 else 0.5 <= n as real - x < 1.5
  }

  lemma RoundedIsNear(x: real)
    ensures Near(Rounded(x), x)
  {
  }

  /** A reading tells of a satellite what the report says of it: there is a signal exactly when it is positive. */
  predicate Matches(r: Reading, s: Satellite) {
    && r.prn == s.prn && Near(r.elevation, s.elevation) && Near(r.azimuth, s.azimuth)
    && (if s.snr > 0.0 then r.snr.Some? && Near(r.snr.value, s.snr) else r.snr == None)
  }

  predicate AllMatch(readings: Option<seq<Reading>>, svs: seq<Satellite>) {
    && readings.Some? && |readings.value| == |svs|
    && forall i :: 0 <= i < |svs| ==> Matches(readings.value[i], svs[i])
  }

  /** The satellites of a constellation, in report order: GPS has the numbers from 1 to 32 and GLONASS those from 65
      to 96. */
  function InView(svs: seq<Satellite>, c: Constellation): seq<Satellite> {
    if svs == [] then [] else
      var n := |svs| - 1;
      var first := if c.Gps? then 1 else 65;
      InView(svs[..n], c) + if first <= svs[n].prn < first + 32 then [svs[n]] else []
  }

  lemma {:induction false} SelectedMatch(svs: seq<Satellite>, c: Constellation)
    ensures AllMatch(Some(Selected(svs, c)), InView(svs, c))
  {
    if svs != [] {
      var n := |svs| - 1;
      SelectedMatch(svs[..n], c);
      RoundedIsNear(svs[n].elevation);
      RoundedIsNear(svs[n].azimuth);
      RoundedIsNear(svs[n].snr);
    }
  }

  lemma ReadsSelected(svs: seq<Satellite>, c: Constellation)
    requires |svs| <= GPS_MAX_SVS && forall s :: s in svs ==> Converts(s)
    ensures var sel := Selected(svs, c);
            ReadReport(Messages(Bodies(c, sel), SentenceCount(|sel|)), c, |sel|) == Some(sel)
  {
    var sel := Selected(svs, c);
    var total := SentenceCount(|sel|);
    SelectedBounded(svs, c, false);
    var sentences := ReadSentences(Messages(Bodies(c, sel), total), c);
    forall i | 0 <= i < total ensures sentences[i] == Some(Gsv(total, i + 1, |sel|, Chunk(sel, i))) {
      ReadsOne(c, sel, i);
    }
    AssembleFirst(sentences, sel, total);
    assert Upto(sel, total) == sel;
  }

  /** From the messages sent for a report, a receiver reads the satellites of the constellation that the report lists,
      in their order, none lost, none repeated and none but them, each with its number, with its elevation and azimuth
      rounded, and with its signal, rounded, if it has one. */
  lemma ReportRoundTrip(svs: seq<Satellite>, c: Constellation)
    requires |svs| <= GPS_MAX_SVS && forall s :: s in svs ==> Converts(s)
    ensures var sats := InView(svs, c);
            var sel := Selected(svs, c);
            var sent := Messages(Bodies(c, sel), SentenceCount(|sel|));
            AllMatch(ReadReport(sent, c, |sats|), sats)
  {
    SelectedMatch(svs, c);
    ReadsSelected(svs, c);
  }
}
