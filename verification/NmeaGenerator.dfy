/** The sentence generators of loc_eng_nmea.cpp: what a satellite report and a position report send, and
    what they leave in the cache. */
module NmeaGenerator {
  import opened Options
  import opened NmeaText
  import opened NmeaChecksum
  import opened NmeaBuffer
  import opened NmeaGsv
  import opened NmeaGsa

  // ---------- satellites in view ----------

  function BlankGsv(c: Constellation): string {
    "$" + c.Talker() + "GSV,1,1,0,"
  }

  function GsvSent(c: Constellation, sel: seq<Reading>): seq<Message> {
    if sel == [] then [Transmitted(BlankGsv(c))]
    else Messages(Bodies(c, sel), Fitting(Bodies(c, sel), 0))
  }

  lemma SelectedNext(svs: seq<Satellite>, c: Constellation, j: nat)
    requires j < |svs|
    ensures Selected(svs[..j + 1], c)
         == Selected(svs[..j], c) + if c.Has(svs[j].prn) then [ReadingOf(svs[j])] else []
  {
    assert svs[..j + 1][..j] == svs[..j];
  }

  lemma {:induction false} SelectedPrefix(svs: seq<Satellite>, c: Constellation, j: nat)
    requires j <= |svs|
    ensures Selected(svs[..j], c) <= Selected(svs, c)
    decreases |svs| - j
  {
    if j < |svs| {
      SelectedNext(svs, c, j);
      SelectedPrefix(svs, c, j + 1);
    } else {
      assert svs[..j] == svs;
    }
  }

  /** The two formats of a block: what is written for every satellite, and what for one with a signal. */
  datatype Format = Format(position: Reading -> string, signal: Reading -> string) {
    function Text(r: Reading): string {
      position(r) + if r.snr.Some? then signal(r) else ""
    }
  }

  const GSV_FORMAT := Format(Position, Signal)

  /** A sentence as it grows: a header, then the blocks of some satellites. */
  function Begun(header: string, f: Format, blocks: seq<Reading>): string {
    if blocks == [] then header else
      var n := |blocks| - 1;
      Begun(header, f, blocks[..n]) + f.Text(blocks[n])
  }

  lemma {:induction false} BegunIsBlocks(header: string, blocks: seq<Reading>)
    ensures Begun(header, GSV_FORMAT, blocks) == header + Blocks(blocks)
  {
    if blocks == [] {
      assert header + "" == header;
    } else {
      var n := |blocks| - 1;
      BegunIsBlocks(header, blocks[..n]);
      assert GSV_FORMAT.Text(blocks[n]) == Block(blocks[n]);
      Assoc(header, Blocks(blocks[..n]), Block(blocks[n]));
    }
  }

  lemma {:induction false} BegunGrows(header: string, f: Format, blocks: seq<Reading>, n: nat)
    requires n <= |blocks|
    ensures |Begun(header, f, blocks[..n])| <= |Begun(header, f, blocks)|
  {
    if n < |blocks| {
      BegunGrows(header, f, blocks[..|blocks| - 1], n);
      assert blocks[..|blocks| - 1][..n] == blocks[..n];
    } else {
      assert blocks[..n] == blocks;
    }
  }

  /** Of the first j satellites of the report, m are of the constellation. */
  predicate Passed(svs: seq<Satellite>, c: Constellation, j: nat, m: nat) {
    j <= |svs| && |Selected(svs[..j], c)| == m
  }

  lemma PassedMore(svs: seq<Satellite>, c: Constellation, j: nat, m: nat)
    requires j < |svs| && Passed(svs, c, j, m)
    ensures var sel, has := Selected(svs, c), c.Has(svs[j].prn);
            && Passed(svs, c, j + 1, if has then m + 1 else m)
            && (has ==> m < |sel| && sel[m] == ReadingOf(svs[j]))
  {
    SelectedNext(svs, c, j);
    SelectedPrefix(svs, c, j + 1);
  }

  lemma ChunkNext(svs: seq<Satellite>, c: Constellation, k: nat, j: nat, i: nat)
    requires k < SentenceCount(|Selected(svs, c)|) && j < |svs| && Passed(svs, c, j, 4 * k + i) && i < 4
    ensures !c.Has(svs[j].prn) ==> Passed(svs, c, j + 1, 4 * k + i)
    ensures c.Has(svs[j].prn) ==> var chunk := Chunk(Selected(svs, c), k);
              && i < |chunk| && chunk[i] == ReadingOf(svs[j])
              && Passed(svs, c, j + 1, 4 * k + (i + 1))
  {
    PassedMore(svs, c, j, 4 * k + i);
  }

  lemma BegunMore(header: string, f: Format, blocks: seq<Reading>, i: nat)
    requires i < |blocks|
    ensures Begun(header, f, blocks[..i + 1]) == Begun(header, f, blocks[..i]) + f.Text(blocks[i])
    ensures |Begun(header, f, blocks[..i + 1])| <= |Begun(header, f, blocks)|
  {
    assert blocks[..i + 1][..i] == blocks[..i];
    BegunGrows(header, f, blocks, i + 1);
  }

  lemma PassedAll(svs: seq<Satellite>, c: Constellation, m: nat)
    requires Passed(svs, c, |svs|, m)
    ensures m == |Selected(svs, c)|
  {
    assert svs[..|svs|] == svs;
  }

  /** The two snprintf calls for a satellite, the second only if there is a signal. */
  method AppendBlock(buf: array<char>, pMarker: nat, lengthRemaining: nat, f: Format, r: Reading,
                     ghost body: string, ghost next: string)
    returns (fits: bool, marker: nat, remaining: nat)
    requires pMarker == |body| && pMarker + lengthRemaining == buf.Length && Holds(buf[..], body)
    requires next == body + f.Text(r)
    modifies buf
    ensures fits <==> |next| < buf.Length
    ensures fits ==> Holds(buf[..], next) && marker == |next| && marker + remaining == buf.Length
  {
    fits, marker, remaining := Append(buf, pMarker, lengthRemaining, f.position(r), body, body + f.position(r));
    if fits {
      if r.snr.Some? {
        Assoc(body, f.position(r), f.signal(r));
        fits, marker, remaining := Append(buf, marker, remaining, f.signal(r), body + f.position(r), next);
      } else {
        assert next == body + f.position(r);
      }
    }
  }

  lemma ChunkWhole(svs: seq<Satellite>, c: Constellation, k: nat, j: nat, i: nat)
    requires k < SentenceCount(|Selected(svs, c)|) && Passed(svs, c, j, 4 * k + i)
    requires i <= |Chunk(Selected(svs, c), k)| && (i == 4 || j == |svs|)
    ensures 4 * k + i == Min(4 * k + 4, |Selected(svs, c)|)
    ensures var chunk := Chunk(Selected(svs, c), k); chunk[..i] == chunk
  {
    if j == |svs| {
      PassedAll(svs, c, 4 * k + i);
    }
  }

  /** The blocks of at most four satellites from svNumber on, after the header. */
  method FillBlocks(c: Constellation, svs: seq<Satellite>, ghost header: string, f: Format, first: nat,
                    buf: array<char>, marker: nat, ghost k: nat)
    returns (fits: bool, svNumber: nat)
    requires k < SentenceCount(|Selected(svs, c)|)
    requires 1 <= first && Passed(svs, c, first - 1, 4 * k)
    requires Holds(buf[..], header) && marker == |header|
    modifies buf
    ensures var body := Begun(header, f, Chunk(Selected(svs, c), k));
            (fits <==> |body| < buf.Length) && (fits ==> Holds(buf[..], body))
    ensures 1 <= svNumber && (fits ==> Passed(svs, c, svNumber - 1, Min(4 * k + 4, |Selected(svs, c)|)))
  {
    ghost var chunk := Chunk(Selected(svs, c), k);
    svNumber := first;
    fits := true;
    var pMarker, lengthRemaining := marker, buf.Length - marker;
    assert chunk[..0] == [];
    var i := 0;
    while svNumber <= |svs| && i < 4
      invariant 0 <= i <= |chunk| && 1 <= svNumber && Passed(svs, c, svNumber - 1, 4 * k + i)
      invariant Holds(buf[..], Begun(header, f, chunk[..i])) && fits
      invariant pMarker == |Begun(header, f, chunk[..i])| && pMarker + lengthRemaining == buf.Length
      decreases |svs| - svNumber
    {
      ChunkNext(svs, c, k, svNumber - 1, i);
      if c.Has(svs[svNumber - 1].prn) {
        ghost var body, next := Begun(header, f, chunk[..i]), Begun(header, f, chunk[..i + 1]);
        BegunMore(header, f, chunk, i);
        fits, pMarker, lengthRemaining :=
          AppendBlock(buf, pMarker, lengthRemaining, f, ReadingOf(svs[svNumber - 1]), body, next);
        if !fits {
          return;
        }
        i := i + 1;
      }
      svNumber := svNumber + 1;
    }
    ChunkWhole(svs, c, k, svNumber - 1, i);
  }

  /** One sentence: the header, then the blocks. */
  method FillSentence(c: Constellation, svs: seq<Satellite>, header: string, f: Format, first: nat, buf: array<char>,
                      ghost k: nat)
    returns (fits: bool, svNumber: nat)
    requires k < SentenceCount(|Selected(svs, c)|)
    requires 1 <= first && Passed(svs, c, first - 1, 4 * k)
    requires 0 < buf.Length
    modifies buf
    ensures var body := Begun(header, f, Chunk(Selected(svs, c), k));
            (fits <==> |body| < buf.Length) && (fits ==> Holds(buf[..], body))
    ensures 1 <= svNumber && (fits ==> Passed(svs, c, svNumber - 1, Min(4 * k + 4, |Selected(svs, c)|)))
  {
    var pMarker, lengthRemaining;
    svNumber := first;
    fits, pMarker, lengthRemaining := Append(buf, 0, buf.Length, header, "", header);
    if fits {
      fits, svNumber := FillBlocks(c, svs, header, f, first, buf, pMarker, k);
    } else {
      BegunGrows(header, f, Chunk(Selected(svs, c), k), 0);
    }
  }

  lemma BegunIsBody(c: Constellation, sel: seq<Reading>, k: nat)
    requires k < SentenceCount(|sel|)
    ensures var bodies, header := Bodies(c, sel), Header(c, SentenceCount(|sel|), k + 1, |sel|);
            && k < |bodies| && '\0' !in bodies[k]
            && Begun(header, GSV_FORMAT, Chunk(sel, k)) == bodies[k]
  {
    BegunIsBlocks(Header(c, SentenceCount(|sel|), k + 1, |sel|), Chunk(sel, k));
    NmeaGsv.BodyIsPlain(c, sel, k);
  }

  /** One sentence filled and, unless it does not fit, sent. */
  method NextSentence(c: Constellation, svs: seq<Satellite>, inView: nat, sentenceCount: nat, sentenceNumber: nat,
                      first: nat, buf: array<char>)
    returns (fits: bool, svNumber: nat, m: Message)
    requires buf.Length == NMEA_SENTENCE_MAX_LENGTH
    requires inView == |Selected(svs, c)| && sentenceCount == SentenceCount(inView)
    requires 1 <= sentenceNumber <= sentenceCount
    requires 1 <= first && Passed(svs, c, first - 1, 4 * (sentenceNumber - 1))
    modifies buf
    ensures var bodies, k := Bodies(c, Selected(svs, c)), sentenceNumber - 1;
            && (fits ==> Messages(bodies, k + 1) == Messages(bodies, k) + [m])
            && Fitting(bodies, k) == if fits then Fitting(bodies, k + 1) else k
    ensures 1 <= svNumber && (fits ==> Passed(svs, c, svNumber - 1, Min(4 * sentenceNumber, inView)))
  {
    ghost var k := sentenceNumber - 1;
    var header := Header(c, sentenceCount, sentenceNumber, inView);
    BegunIsBody(c, Selected(svs, c), k);
    fits, svNumber := FillSentence(c, svs, header, GSV_FORMAT, first, buf, k);
    m := SendIf(fits, buf, Bodies(c, Selected(svs, c)), k);
  }

  predicate GsvWhole(c: Constellation, sel: seq<Reading>) {
    Fitting(Bodies(c, sel), 0) == |Bodies(c, sel)|
  }

  /** The GSV sentences of a constellation that has satellites in view; false if one did not fit. */
  method SendSentences(c: Constellation, svs: seq<Satellite>, inView: nat, buf: array<char>)
    returns (sent: seq<Message>, ok: bool)
    requires buf.Length == NMEA_SENTENCE_MAX_LENGTH && inView == |Selected(svs, c)|
    modifies buf
    ensures var bodies := Bodies(c, Selected(svs, c));
            sent == Messages(bodies, Fitting(bodies, 0)) && (ok <==> GsvWhole(c, Selected(svs, c)))
  {
    ghost var bodies := Bodies(c, Selected(svs, c));
    var svNumber, sentenceNumber := 1, 1;
    var sentenceCount := inView / 4 + if inView % 4 != 0 then 1 else 0;
    sent := [];
    while sentenceNumber <= sentenceCount
      invariant 1 <= sentenceNumber <= sentenceCount + 1 && 1 <= svNumber
      invariant Passed(svs, c, svNumber - 1, Min(4 * (sentenceNumber - 1), inView))
      invariant sent == Messages(bodies, sentenceNumber - 1)
      invariant Fitting(bodies, 0) == Fitting(bodies, sentenceNumber - 1)
    {
      var fits, m;
      fits, svNumber, m := NextSentence(c, svs, inView, sentenceCount, sentenceNumber, svNumber, buf);
      if !fits {
        return sent, false;
      }
      sent := sent + [m];
      sentenceNumber := sentenceNumber + 1;
    }
    ok := true;
  }

  /** All GSV sentences of a constellation. */
  method GenerateGsv(c: Constellation, svs: seq<Satellite>, inView: nat, buf: array<char>)
    returns (sent: seq<Message>, ok: bool)
    requires buf.Length == NMEA_SENTENCE_MAX_LENGTH && inView == |Selected(svs, c)|
    modifies buf
    ensures sent == GsvSent(c, Selected(svs, c)) && (ok <==> GsvWhole(c, Selected(svs, c)))
  {
    if inView == 0 {
      var m := SendText(buf, BlankGsv(c));
      sent, ok := [m], true;
    } else {
      sent, ok := SendSentences(c, svs, inView, buf);
    }
  }

  /** How many satellites of each constellation are in view; others are left out. */
  method CountInView(svs: seq<Satellite>) returns (gpsCount: nat, glnCount: nat)
    ensures gpsCount == |Selected(svs, Gps)| && glnCount == |Selected(svs, Glonass)|
  {
    gpsCount, glnCount := 0, 0;
    for svNumber := 0 to |svs|
      invariant Passed(svs, Gps, svNumber, gpsCount) && Passed(svs, Glonass, svNumber, glnCount)
    {
      PassedMore(svs, Gps, svNumber, gpsCount);
      PassedMore(svs, Glonass, svNumber, glnCount);
      if Gps.Has(svs[svNumber].prn) {
        gpsCount := gpsCount + 1;
      } else if Glonass.Has(svs[svNumber].prn) {
        glnCount := glnCount + 1;
      }
    }
    PassedAll(svs, Gps, gpsCount);
    PassedAll(svs, Glonass, glnCount);
  }

  // ---------- satellites used ----------

  /** A GSA sentence as it grows: its head, then n slots. */
  function Slotted(head: string, list: seq<nat>, n: nat): string {
    if n == 0 then head else Slotted(head, list, n - 1) + (Slot(list, n - 1) + ",")
  }

  lemma {:induction false} SlottedIsSlots(head: string, list: seq<nat>, n: nat)
    ensures Slotted(head, list, n) == head + Slots(list, n)
  {
    if n == 0 {
      assert head + "" == head;
    } else {
      SlottedIsSlots(head, list, n - 1);
      Assoc(head, Slots(list, n - 1), Slot(list, n - 1) + ",");
    }
  }

  lemma {:induction false} SlottedGrows(head: string, list: seq<nat>, i: nat, n: nat)
    requires i <= n
    ensures |Slotted(head, list, i)| <= |Slotted(head, list, n)|
  {
    if i < n {
      SlottedGrows(head, list, i, n - 1);
    }
  }

  /** The head and the twelve slots of a GSA sentence; false if one did not fit. */
  method FillSlots(buf: array<char>, head: string, svUsedList: array<nat>, svUsedCount: nat, ghost list: seq<nat>)
    returns (fits: bool, marker: nat, remaining: nat)
    requires 0 < buf.Length && svUsedCount <= svUsedList.Length && list == svUsedList[..svUsedCount]
    modifies buf
    ensures var body := Slotted(head, list, GSA_SLOTS);
            && (fits <==> |body| < buf.Length)
            && (fits ==> Holds(buf[..], body) && marker == |body| && marker + remaining == buf.Length)
  {
    fits, marker, remaining := Append(buf, 0, buf.Length, head, "", head);
    if !fits {
      SlottedGrows(head, list, 0, GSA_SLOTS);
      return;
    }
    for i := 0 to GSA_SLOTS
      invariant Holds(buf[..], Slotted(head, list, i)) && fits
      invariant marker == |Slotted(head, list, i)| && marker + remaining == buf.Length
    {
      ghost var body, next := Slotted(head, list, i), Slotted(head, list, i + 1);
      SlottedGrows(head, list, i + 1, GSA_SLOTS);
      if i < svUsedCount {
        fits, marker, remaining := Append(buf, marker, remaining, Padded(svUsedList[i], 2) + ",", body, next);
      } else {
        fits, marker, remaining := Append(buf, marker, remaining, ",", body, next);
      }
      if !fits {
        return;
      }
    }
  }

  /** The GSA sentence for a mask and what is known of the dilution of precision. */
  method GenerateGsa(mask: nat, dop: Option<Dop>, buf: array<char>) returns (m: Message)
    requires mask < MASK_LIMIT && DopInRange(dop) && buf.Length == NMEA_SENTENCE_MAX_LENGTH
    modifies buf
    ensures m == Transmitted(GsaBody(Positions(mask, 1), dop))
  {
    var svUsedList, svUsedCount := ExpandMask(mask);
    ghost var list, head := Positions(mask, 1), Head(svUsedCount);
    GsaLength(mask, dop);
    SlottedIsSlots(head, list, GSA_SLOTS);
    NmeaGsa.BodyIsPlain(list, dop);
    var fits, pMarker, lengthRemaining := FillSlots(buf, Head(svUsedCount), svUsedList, svUsedCount, list);
    fits, pMarker, lengthRemaining :=
      Append(buf, pMarker, lengthRemaining, DopText(dop), Slotted(head, list, GSA_SLOTS), GsaBody(list, dop));
    m := Send(buf, GsaBody(list, dop));
  }

  const BLANK_GSA := "$GPGSA,A,1,,,,,,,,,,,,,,,"
  const BLANK_VTG := "$GPVTG,,T,,M,,N,,K,N"
  const BLANK_RMC := "$GPRMC,,V,,,,,,,,,,N"
  const BLANK_GGA := "$GPGGA,,,,,,0,,,,,,,,"

  function Blanks(): seq<Message> {
    [Transmitted(BLANK_GSA), Transmitted(BLANK_VTG), Transmitted(BLANK_RMC), Transmitted(BLANK_GGA)]
  }

  lemma {:induction false} EmptySlots(n: nat)
    ensures |Slots([], n)| == n && forall i :: 0 <= i < n ==> Slots([], n)[i] == ','
  {
    if n > 0 {
      EmptySlots(n - 1);
    }
  }

  lemma TwelveSlots()
    ensures Slots([], GSA_SLOTS) == ",,,,,,,,,,,,"
  {
    EmptySlots(GSA_SLOTS);
  }

  lemma BlankIsEmptyGsa()
    ensures BLANK_GSA == GsaBody([], None)
  {
    TwelveSlots();
  }

  /** A receiver of the blank GSA sentence reads that there is no fix. */
  lemma BlankTellsNoFix()
    ensures ReadGsa(Transmitted(BLANK_GSA).text) == Some(Gsa("1", [], ["", "", ""]))
  {
    BlankIsEmptyGsa();
    TransmittedWhole(BLANK_GSA);
    ReadsAll([], None);
  }

  method SendBlanks(buf: array<char>) returns (sent: seq<Message>)
    requires buf.Length == NMEA_SENTENCE_MAX_LENGTH
    modifies buf
    ensures sent == Blanks()
  {
    var gsa := SendText(buf, BLANK_GSA);
    var vtg := SendText(buf, BLANK_VTG);
    var rmc := SendText(buf, BLANK_RMC);
    var gga := SendText(buf, BLANK_GGA);
    sent := [gsa, vtg, rmc, gga];
  }

  // ---------- the reports ----------

  /** Whether a satellite report is handled to its end. */
  predicate SvWhole(svs: seq<Satellite>) {
    GsvWhole(Gps, Selected(svs, Gps)) && GsvWhole(Glonass, Selected(svs, Glonass))
  }

  /** What is sent for a satellite report: the GPS sentences, then the GLONASS ones, then blank sentences
      if no satellite is used; a sentence that does not fit ends it all. */
  function SvSent(svs: seq<Satellite>, usedMask: nat): seq<Message> {
    GsvSent(Gps, Selected(svs, Gps)) +
    (if GsvWhole(Gps, Selected(svs, Gps)) then GsvSent(Glonass, Selected(svs, Glonass)) else []) +
    if SvWhole(svs) && usedMask == 0 then Blanks() else []
  }

  /** The part of loc_eng_data_s_type in which a satellite report leaves values for a position report. */
  class NmeaCache {
    var svUsedMask: nat
    var pdop: Figure
    var hdop: Figure
    var vdop: Figure
    ghost var reports: seq<Report>  // every report handled to its end

    function Value(): Cache
      reads this
    {
      Cache(svUsedMask, Dop(pdop, hdop, vdop))
    }

    /** The cache is what the reports so far make of it: a 32-bit mask and float figures. */
    ghost predicate Valid()
      reads this
    {
      && Value() == CacheAfter(reports)
      && svUsedMask < MASK_LIMIT && FloatRange(pdop) && FloatRange(hdop) && FloatRange(vdop)
    }

    /** So it holds a mask exactly while one waits in it. */
    lemma HoldsWhatWaits()
      requires Valid()
      ensures svUsedMask != 0 <==> exists j: nat :: Waits(reports, j)
    {
      CachedMaskIsLatest(reports);
    }

    constructor ()
      ensures Valid() && reports == []
    {
      svUsedMask, pdop, hdop, vdop, reports := 0, ZERO, ZERO, ZERO, [];
      PowerIsPositive(39);
    }

    /** A report that was just handled joins the run. */
    ghost method Handled(cache: Cache, r: Report)
      requires cache == CacheAfter(reports) && Value() == AfterReport(cache, r)
      requires svUsedMask < MASK_LIMIT && FloatRange(pdop) && FloatRange(hdop) && FloatRange(vdop)
      modifies `reports
      ensures Valid() && reports == old(reports) + [r]
    {
      assert (reports + [r])[..|reports|] == reports;
      reports := reports + [r];
    }

    /** The sentences of a satellite report, and what it caches. */
    method SendSv(svs: seq<Satellite>, usedInFixMask: nat, dop: Option<Dop>) returns (sent: seq<Message>)
      modifies `svUsedMask, `pdop, `hdop, `vdop
      ensures sent == SvSent(svs, usedInFixMask)
      ensures Value() == if SvWhole(svs) then AfterReport(old(Value()), SvReport(usedInFixMask, dop)) else old(Value())
    {
      var sentence := new char[NMEA_SENTENCE_MAX_LENGTH](_ => '\0');
      var gpsCount, glnCount := CountInView(svs);
      var gps, gpsOk := GenerateGsv(Gps, svs, gpsCount, sentence);
      sent := gps;
      if !gpsOk {
        return;
      }
      var gln, glnOk := GenerateGsv(Glonass, svs, glnCount, sentence);
      sent := sent + gln;
      if !glnOk {
        return;
      }
      if usedInFixMask == 0 {
        var blanks := SendBlanks(sentence);
        sent := sent + blanks;
      } else {
        svUsedMask := usedInFixMask;
        if dop.Some? {
          pdop, hdop, vdop := dop.value.pdop, dop.value.hdop, dop.value.vdop;
        } else {
          pdop, hdop, vdop := ZERO, ZERO, ZERO;
        }
      }
    }

    method GenerateSv(svs: seq<Satellite>, usedInFixMask: nat, dop: Option<Dop>) returns (sent: seq<Message>)
      requires Valid() && usedInFixMask < MASK_LIMIT && DopInRange(dop)
      modifies this
      ensures Valid() && sent == SvSent(svs, usedInFixMask)
      ensures reports == old(reports) + if SvWhole(svs) then [SvReport(usedInFixMask, dop)] else []
      ensures !SvWhole(svs) ==> Value() == old(Value())
    {
      ghost var cache := Value();
      sent := SendSv(svs, usedInFixMask, dop);
      if SvWhole(svs) {
        Handled(cache, SvReport(usedInFixMask, dop));
      } else {
        assert reports + [] == reports;
      }
    }

    /** The GSA sentence of a position report, which uses up the cached mask. */
    method UseMask(dop: Option<Dop>, sentence: array<char>) returns (m: Message)
      requires svUsedMask < MASK_LIMIT && sentence.Length == NMEA_SENTENCE_MAX_LENGTH
      requires DopInRange(dop) && FloatRange(pdop) && FloatRange(hdop) && FloatRange(vdop)
      modifies this`svUsedMask, sentence
      ensures m == Transmitted(GsaOf(old(Value()), dop)) && svUsedMask == 0
    {
      var mask := svUsedMask;
      svUsedMask := 0;
      var known := dop;
      if dop.None? && pdop.positive && hdop.positive && vdop.positive {
        known := Some(Dop(pdop, hdop, vdop));
      }
      m := GenerateGsa(mask, known, sentence);
    }

    /** A position report, as far as the GSA sentence and the cache are concerned. */
    method GeneratePos(generate: bool, dop: Option<Dop>) returns (sent: seq<Message>)
      requires Valid() && DopInRange(dop)
      modifies this
      ensures Valid() && reports == old(reports) + [PosReport(generate, dop)]
      ensures sent == if generate then [Transmitted(GsaOf(old(Value()), dop))] else Blanks()
    {
      ghost var cache := Value();
      var sentence := new char[NMEA_SENTENCE_MAX_LENGTH](_ => '\0');
      if generate {
        var m := UseMask(dop, sentence);
        sent := [m];
      } else {
        sent := SendBlanks(sentence);
      }
      pdop, hdop, vdop := ZERO, ZERO, ZERO;
      Handled(cache, PosReport(generate, dop));
    }
  }

  lemma BlankGsvPlain(c: Constellation)
    ensures BlankGsv(c) == if c.Gps? then "$GPGSV,1,1,0," else "$GLGSV,1,1,0,"
    ensures '*' !in BlankGsv(c)
  {
  }

  /** What is sent for a constellation: its satellites as a receiver reads them, or one sentence that tells of none. */
  predicate Tells(sent: seq<Message>, c: Constellation, sats: seq<Satellite>) {
    if sats == [] then
      |sent| == 1 && Decode(sent[0].text) == Some(if c.Gps? then "$GPGSV,1,1,0," else "$GLGSV,1,1,0,")
    else AllMatch(ReadReport(sent, c, |sats|), sats)
  }

  /** Every sentence of a constellation fits, and a receiver reads all its satellites. */
  lemma ConstellationTold(svs: seq<Satellite>, c: Constellation)
    requires |svs| <= GPS_MAX_SVS && forall s :: s in svs ==> Converts(s)
    ensures GsvWhole(c, Selected(svs, c)) && Tells(GsvSent(c, Selected(svs, c)), c, InView(svs, c))
  {
    var bodies := Bodies(c, Selected(svs, c));
    forall k | 0 <= k < |bodies|
      ensures |bodies[k]| < NMEA_SENTENCE_MAX_LENGTH
    {
      NeverOverflows(svs, c, k);
    }
    AllFit(bodies, 0);
    SelectedMatch(svs, c);
    if InView(svs, c) == [] {
      BlankGsvPlain(c);
      TransmittedWhole(BlankGsv(c));
      RoundTrip(BlankGsv(c));
    } else {
      ReportRoundTrip(svs, c);
    }
  }

  /** A report that the device can make is handled to its end, no sentence cut off or left out: first the GPS
      satellites are told, then the GLONASS ones, and four blank sentences follow exactly when no satellite is used. */
  lemma ReportIsWhole(svs: seq<Satellite>, usedMask: nat)
    requires |svs| <= GPS_MAX_SVS && forall s :: s in svs ==> Converts(s)
    ensures SvWhole(svs)
    ensures var sent := SvSent(svs, usedMask);
            exists g, l :: 0 <= g <= l <= |sent|
              && Tells(sent[..g], Gps, InView(svs, Gps)) && Tells(sent[g..l], Glonass, InView(svs, Glonass))
              && sent[l..] == if usedMask == 0 then Blanks() else []
  {
    ConstellationTold(svs, Gps);
    ConstellationTold(svs, Glonass);
    var gps, gln := GsvSent(Gps, Selected(svs, Gps)), GsvSent(Glonass, Selected(svs, Glonass));
    var sent := SvSent(svs, usedMask);
    var g, l := |gps|, |gps| + |gln|;
    assert sent[..g] == gps && sent[g..l] == gln;
  }
}
