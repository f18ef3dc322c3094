/** The GSA sentence (NMEA 0183, satellites used in the fix): the expansion of the used-satellites mask,
    the text of the sentence, a receiver that reads it, and the cache the mask waits in between a satellite
    report and the position report it is used for. */
module NmeaGsa {
  import opened Options
  import opened NmeaText
  import opened NmeaChecksum

  // ---------- the mask ----------

  function Pow2(k: nat): nat {
    if k == 0 then 1 else 2 * Pow2(k - 1)
  }

  predicate Bit(mask: nat, k: nat) {
    if k == 0 then mask % 2 == 1 else Bit(mask / 2, k - 1)
  }

  /** The positions of a mask's bits, from position i for the lowest one. */
  function Positions(mask: nat, i: nat): seq<nat> {
    if mask == 0 then [] else (if mask % 2 == 1 then [i] else []) + Positions(mask / 2, i + 1)
  }

  lemma {:induction false} NoBits(k: nat)
    ensures !Bit(0, k)
  {
    if k > 0 {
      NoBits(k - 1);
    }
  }

  /** Exactly the set bits are listed, and none is listed twice. */
  lemma {:induction false} PositionsAreBits(mask: nat, i: nat, p: nat)
    ensures p in Positions(mask, i) <==> i <= p && Bit(mask, p - i)
    decreases mask, p
  {
    if mask == 0 {
      NoBits(if i <= p then p - i else 0);
    } else {
      PositionsAreBits(mask / 2, i + 1, p);
    }
  }

  predicate Increasing(s: seq<nat>) {
    forall i, j :: 0 <= i < j < |s| ==> s[i] < s[j]
  }

  lemma IncreasingCons(i: nat, rest: seq<nat>)
    requires Increasing(rest) && forall k :: 0 <= k < |rest| ==> i < rest[k]
    ensures Increasing([i] + rest)
  {
  }

  /** They are listed in increasing order, and a mask of n bits lists positions below i + n. */
  lemma {:induction false} PositionsIncrease(mask: nat, i: nat, n: nat)
    requires mask < Pow2(n)
    ensures Increasing(Positions(mask, i)) && |Positions(mask, i)| <= n
    ensures forall k :: 0 <= k < |Positions(mask, i)| ==> i <= Positions(mask, i)[k] < i + n
  {
    if mask != 0 {
      assert n > 0;
      PositionsIncrease(mask / 2, i + 1, n - 1);
      var rest := Positions(mask / 2, i + 1);
      IncreasingCons(i, rest);
      assert [] + rest == rest;
    }
  }

  /** The mask with exactly the bits at these positions, counted from 1. */
  function MaskOf(positions: seq<nat>, i: nat): nat {
    if positions == [] then 0
    else (if positions[0] >= i then Pow2(positions[0] - i) else 0) + MaskOf(positions[1..], i)
  }

  lemma {:induction false} MaskDoubles(positions: seq<nat>, i: nat)
    requires forall k :: 0 <= k < |positions| ==> positions[k] > i
    ensures MaskOf(positions, i) == 2 * MaskOf(positions, i + 1)
  {
    if positions != [] {
      MaskDoubles(positions[1..], i);
    }
  }

  /** The listed positions say what the mask was. */
  lemma {:induction false} PositionsDetermineMask(mask: nat, i: nat, n: nat)
    requires mask < Pow2(n)
    ensures MaskOf(Positions(mask, i), i) == mask
  {
    if mask != 0 {
      PositionsDetermineMask(mask / 2, i + 1, n - 1);
      var rest := Positions(mask / 2, i + 1);
      PositionsIncrease(mask / 2, i + 1, n - 1);
      MaskDoubles(rest, i);
      if mask % 2 == 1 {
        assert ([i] + rest)[1..] == rest;
      } else {
        assert [] + rest == rest;
      }
    }
  }

  /** The number of set bits. */
  function PopCount(mask: nat): nat {
    if mask == 0 then 0 else mask % 2 + PopCount(mask / 2)
  }

  lemma {:induction false} PositionsCount(mask: nat, i: nat)
    ensures |Positions(mask, i)| == PopCount(mask)
  {
    if mask != 0 {
      PositionsCount(mask / 2, i + 1);
    }
  }

  const MASK_BITS: nat := 32
  const MASK_LIMIT: nat := 0x1_0000_0000

  lemma MaskLimit()
    ensures Pow2(MASK_BITS) == MASK_LIMIT
  {
    assert Pow2(8) == 0x100;
    assert Pow2(16) == 0x1_0000;
    assert Pow2(24) == 0x100_0000;
  }
  const GSA_SLOTS := 12

  /** One step of the shift loop. */
  lemma PositionsStep(mask: nat, i: nat, bits: nat, done: seq<nat>)
    requires 0 < mask < Pow2(bits)
    ensures bits > 0 && mask / 2 < Pow2(bits - 1)
    ensures done + Positions(mask, i) == (if mask % 2 == 1 then done + [i] else done) + Positions(mask / 2, i + 1)
  {
    var rest := Positions(mask / 2, i + 1);
    if mask % 2 == 1 {
      assert done + ([i] + rest) == done + [i] + rest;
    } else {
      assert [] + rest == rest;
    }
  }

  /** The list that loc_eng_nmea_generate_pos makes of the mask: the shift loop over an array of 32. */
  method ExpandMask(svUsedMask: nat) returns (svUsedList: array<nat>, svUsedCount: nat)
    requires svUsedMask < MASK_LIMIT
    ensures fresh(svUsedList) && svUsedList.Length == MASK_BITS && svUsedCount <= MASK_BITS
    ensures svUsedList[..svUsedCount] == Positions(svUsedMask, 1)
  {
    svUsedList, svUsedCount := new nat[MASK_BITS](_ => 0), 0;
    var mask: nat := svUsedMask;
    var i: nat := 1;
    ghost var bits: nat := MASK_BITS;
    MaskLimit();
    while mask > 0 && svUsedCount < 32
      invariant svUsedCount < i && i + bits == MASK_BITS + 1 && mask < Pow2(bits)
      invariant svUsedList[..svUsedCount] + Positions(mask, i) == Positions(svUsedMask, 1)
      decreases mask
    {
      ghost var done := svUsedList[..svUsedCount];
      PositionsStep(mask, i, bits, done);
      if mask % 2 == 1 {
        svUsedList[svUsedCount] := i;
        svUsedCount := svUsedCount + 1;
        assert svUsedList[..svUsedCount] == done + [i];
      }
      mask := mask / 2;
      i := i + 1;
      bits := bits - 1;
    }
    assert svUsedList[..svUsedCount] + [] == svUsedList[..svUsedCount];
  }

  // ---------- the sentence ----------

  /** A dilution of precision: the tenths that %.1f prints of it, and whether it is above zero, which a value
      printed as 0.0 can be. */
  datatype Figure = Figure(tenths: nat, positive: bool)

  const ZERO := Figure(0, false)

  datatype Dop = Dop(pdop: Figure, hdop: Figure, vdop: Figure)

  /** No fix; a fix in two dimensions; a fix in three. */
  function FixType(svUsedCount: nat): string {
    if svUsedCount == 0 then "1" else if svUsedCount <= 3 then "2" else "3"
  }

  function Slot(list: seq<nat>, k: nat): string {
    if k < |list| then Padded(list[k], 2) else ""
  }

  /** The first n slots, each followed by a comma. */
  function Slots(list: seq<nat>, n: nat): string {
    if n == 0 then "" else Slots(list, n - 1) + (Slot(list, n - 1) + ",")
  }

  /** %.1f */
  function Tenths(f: Figure): string {
    Padded(f.tenths / 10, 0) + "." + Padded(f.tenths % 10, 0)
  }

  function DopFields(d: Option<Dop>): seq<string> {
    if d.None? then ["", "", ""] else [Tenths(d.value.pdop), Tenths(d.value.hdop), Tenths(d.value.vdop)]
  }

  function DopText(d: Option<Dop>): string {
    var f := DopFields(d);
    f[0] + "," + f[1] + "," + f[2]
  }

  function Head(svUsedCount: nat): string {
    "$GPGSA,A," + FixType(svUsedCount) + ","
  }

  function GsaBody(list: seq<nat>, d: Option<Dop>): string {
    Head(|list|) + Slots(list, GSA_SLOTS) + DopText(d)
  }

  // ---------- the receiver ----------

  datatype Gsa = Gsa(fixType: string, used: seq<int>, dop: seq<string>)

  function WithNext(before: Option<seq<int>>, last: Option<int>): Option<seq<int>> {
    if before.None? || last.None? then None else Some(before.value + [last.value])
  }

  /** Empty slots tell nothing. */
  function ReadSlots(fields: seq<string>): Option<seq<int>> {
    if fields == [] then Some([]) else
      var n := |fields| - 1;
      var before := ReadSlots(fields[..n]);
      if fields[n] == "" then before else WithNext(before, ParseInt(fields[n]))
  }

  function ReadGsa(text: string): Option<Gsa> {
    var body := Decode(text);
    if body.None? then None else
      var f := Split(body.value);
      if |f| != GSA_SLOTS + 6 || f[0] != "$GPGSA" || f[1] != "A" then None else
        var used := ReadSlots(f[3..GSA_SLOTS + 3]);
        if used.None? then None else Some(Gsa(f[2], used.value, f[GSA_SLOTS + 3..]))
  }

  // ---------- the sentence as fields ----------

  function SlotFields(list: seq<nat>, n: nat): seq<string> {
    if n == 0 then [] else SlotFields(list, n - 1) + [Slot(list, n - 1)]
  }

  lemma SlotIsField(list: seq<nat>, k: nat)
    ensures IsField(Slot(list, k))
  {
    if k < |list| {
      PaddedIsField(list[k], 2);
    }
  }

  lemma {:induction false} SlotsAreFields(list: seq<nat>, n: nat)
    ensures |SlotFields(list, n)| == n && AllFields(SlotFields(list, n))
  {
    if n > 0 {
      SlotsAreFields(list, n - 1);
      SlotIsField(list, n - 1);
    }
  }

  predicate Means(field: string, list: seq<int>, k: nat) {
    if k < |list| then field != "" && ParseInt(field) == Some(list[k]) else field == ""
  }

  lemma SlotMeans(list: seq<nat>, k: nat)
    ensures Means(Slot(list, k), list, k)
  {
    if k < |list| {
      ParsePadded(list[k], 2);
    }
  }

  predicate AllMean(fields: seq<string>, list: seq<int>) {
    fields == [] || (var n := |fields| - 1; Means(fields[n], list, n) && AllMean(fields[..n], list))
  }

  lemma {:induction false} SlotsMean(list: seq<nat>, n: nat)
    ensures |SlotFields(list, n)| == n && AllMean(SlotFields(list, n), list)
  {
    if n > 0 {
      SlotsMean(list, n - 1);
      SlotMeans(list, n - 1);
    }
  }

  lemma {:induction false} MeaningReads(fields: seq<string>, list: seq<int>)
    requires AllMean(fields, list)
    ensures ReadSlots(fields) == Some(list[..Min(|fields|, |list|)])
  {
    if fields != [] {
      var n := |fields| - 1;
      MeaningReads(fields[..n], list);
      if n < |list| {
        assert list[..n + 1] == list[..n] + [list[n]];
      }
    }
  }

  lemma SlotsRead(list: seq<nat>, n: nat)
    ensures ReadSlots(SlotFields(list, n)) == Some(list[..Min(n, |list|)])
  {
    SlotsMean(list, n);
    MeaningReads(SlotFields(list, n), list);
  }

  function HeadFields(svUsedCount: nat): seq<string> {
    ["$GPGSA", "A", FixType(svUsedCount)]
  }

  lemma HeadJoin(svUsedCount: nat)
    ensures Join(HeadFields(svUsedCount)) + "," == Head(svUsedCount) && AllFields(HeadFields(svUsedCount))
  {
    var h := HeadFields(svUsedCount);
    JoinMore(["$GPGSA"], "A");
    JoinMore(["$GPGSA"] + ["A"], FixType(svUsedCount));
    assert h == ["$GPGSA"] + ["A"] + [FixType(svUsedCount)];
    assert Join(["$GPGSA"] + ["A"]) == "$GPGSA,A";
  }

  lemma Regroup(joined: string, head: string, slots: string, x: string)
    requires joined + "," == head + "," + slots
    ensures joined + "," + x + "," == head + "," + (slots + (x + ","))
  {
    assert joined + "," + x + "," == (joined + ",") + (x + ",");
    assert head + "," + slots + (x + ",") == head + "," + (slots + (x + ","));
  }

  lemma {:induction false} SlotsJoin(head: seq<string>, list: seq<nat>, n: nat)
    requires head != []
    ensures Join(head + SlotFields(list, n)) + "," == Join(head) + "," + Slots(list, n)
  {
    if n == 0 {
      assert head + [] == head && Join(head) + "," + "" == Join(head) + ",";
    } else {
      SlotsJoin(head, list, n - 1);
      var before, x := head + SlotFields(list, n - 1), Slot(list, n - 1);
      JoinMore(before, x);
      assert head + SlotFields(list, n) == before + [x];
      Regroup(Join(before), Join(head), Slots(list, n - 1), x);
    }
  }

  lemma DopJoin(fields: seq<string>, p: string, h: string, v: string)
    requires fields != []
    ensures Join(fields + [p, h, v]) == Join(fields) + "," + (p + "," + h + "," + v)
  {
    JoinMore(fields, p);
    JoinMore(fields + [p], h);
    JoinMore(fields + [p] + [h], v);
    assert fields + [p, h, v] == fields + [p] + [h] + [v];
  }

  lemma TenthsIsField(f: Figure)
    ensures IsField(Tenths(f))
  {
    PaddedIsField(f.tenths / 10, 0);
    PaddedIsField(f.tenths % 10, 0);
  }

  lemma DopIsFields(d: Option<Dop>)
    ensures AllFields(DopFields(d))
  {
    if d.Some? {
      TenthsIsField(d.value.pdop);
      TenthsIsField(d.value.hdop);
      TenthsIsField(d.value.vdop);
    }
  }

  lemma BodyIsJoin(list: seq<nat>, d: Option<Dop>) returns (fields: seq<string>)
    ensures fields == HeadFields(|list|) + SlotFields(list, GSA_SLOTS) + DopFields(d)
    ensures |SlotFields(list, GSA_SLOTS)| == GSA_SLOTS
    ensures AllFields(fields) && Join(fields) == GsaBody(list, d)
  {
    var head, slots, dop := HeadFields(|list|), SlotFields(list, GSA_SLOTS), DopFields(d);
    fields := head + slots + dop;
    HeadJoin(|list|);
    SlotsAreFields(list, GSA_SLOTS);
    SlotsJoin(head, list, GSA_SLOTS);
    DopIsFields(d);
    DopJoin(head + slots, dop[0], dop[1], dop[2]);
  }

  /** The text can go into a C string and before a checksum. */
  lemma BodyIsPlain(list: seq<nat>, d: Option<Dop>)
    ensures var body := GsaBody(list, d); body != "" && body[0] == '$' && '*' !in body && '\0' !in body
  {
    var fields := BodyIsJoin(list, d);
    JoinPlain(fields);
  }

  lemma ReadFields(text: string, body: string, head: seq<string>, slots: seq<string>, dop: seq<string>, used: seq<int>)
    requires |head| == 3 && |slots| == GSA_SLOTS && |dop| == 3 && head[0] == "$GPGSA" && head[1] == "A"
    requires Decode(text) == Some(body) && Split(body) == head + slots + dop && ReadSlots(slots) == Some(used)
    ensures ReadGsa(text) == Some(Gsa(head[2], used, dop))
  {
    var f := head + slots + dop;
    assert f[3..GSA_SLOTS + 3] == slots && f[GSA_SLOTS + 3..] == dop;
  }

  /** The tenths that a text with one decimal place denotes. */
  function ReadTenths(s: string): Option<int> {
    if |s| < 3 || s[|s| - 2] != '.' then None
    else
      var whole, tenth := ParseInt(s[..|s| - 2]), ParseInt(s[|s| - 1..]);
      if whole.None? || tenth.None? then None else Some(10 * whole.value + tenth.value)
  }

  lemma ReadsTenths(s: string, whole: string, tenth: string, a: int, b: int)
    requires s == whole + "." + tenth && whole != "" && |tenth| == 1
    requires ParseInt(whole) == Some(a) && ParseInt(tenth) == Some(b)
    ensures ReadTenths(s) == Some(10 * a + b)
  {
    assert s[..|s| - 2] == whole && s[|s| - 1..] == tenth;
  }

  lemma PaddedReads(n: nat)
    ensures ParseInt(Padded(n, 0)) == Some(n) && Padded(n, 0) != ""
  {
    ParsePadded(n, 0);
  }

  lemma OneDigit(n: nat)
    requires n < 10
    ensures |Padded(n, 0)| <= 1
  {
    assert Power10(1) == 10;
    PaddedLength(n, 0, 1);
  }

  lemma TenthsParts(n: nat) returns (whole: string, tenth: string)
    ensures Tenths(Figure(n, true)) == Tenths(Figure(n, false)) == whole + "." + tenth
    ensures whole != "" && |tenth| == 1
    ensures ParseInt(whole) == Some(n / 10) && ParseInt(tenth) == Some(n % 10)
  {
    whole, tenth := Padded(n / 10, 0), Padded(n % 10, 0);
    PaddedReads(n / 10);
    PaddedReads(n % 10);
    OneDigit(n % 10);
  }

  lemma TenthsRead(f: Figure)
    ensures ReadTenths(Tenths(f)) == Some(f.tenths)
  {
    var whole, tenth := TenthsParts(f.tenths);
    ReadsTenths(Tenths(f), whole, tenth, f.tenths / 10, f.tenths % 10);
  }

  /** The three fields tell the dilution of precision in position, then horizontally, then vertically; they are empty
      if it is not known. */
  predicate TellsDop(fields: seq<string>, d: Option<Dop>) {
    && |fields| == 3
    && if d.None? then fields[0] == "" && fields[1] == "" && fields[2] == ""
       else ReadTenths(fields[0]) == Some(d.value.pdop.tenths) && ReadTenths(fields[1]) == Some(d.value.hdop.tenths)
            && ReadTenths(fields[2]) == Some(d.value.vdop.tenths)
  }

  lemma DopFieldsTell(d: Option<Dop>)
    ensures TellsDop(DopFields(d), d)
  {
    if d.Some? {
      TenthsRead(d.value.pdop);
      TenthsRead(d.value.hdop);
      TenthsRead(d.value.vdop);
    }
  }

  /** No satellite used, no fix; up to three, a fix in two dimensions; more, a fix in three. */
  predicate TellsFix(fixType: string, used: nat) {
    && (fixType == "1" <==> used == 0)
    && (fixType == "2" <==> 1 <= used <= 3)
    && (fixType == "3" <==> 4 <= used)
  }

  lemma ReadsAll(list: seq<nat>, d: Option<Dop>)
    ensures ReadGsa(Sentence(GsaBody(list, d)))
         == Some(Gsa(FixType(|list|), list[..Min(GSA_SLOTS, |list|)], DopFields(d)))
  {
    var fields := BodyIsJoin(list, d);
    BodyIsPlain(list, d);
    RoundTrip(GsaBody(list, d));
    SplitJoin(fields);
    SlotsRead(list, GSA_SLOTS);
    ReadFields(Sentence(GsaBody(list, d)), GsaBody(list, d), HeadFields(|list|), SlotFields(list, GSA_SLOTS),
               DopFields(d), list[..Min(GSA_SLOTS, |list|)]);
  }

  /** A receiver of the sentence reads the kind of fix, the first twelve positions of the list and the dilution of
      precision. */
  lemma GsaRoundTrip(list: seq<nat>, d: Option<Dop>)
    ensures var g := ReadGsa(Sentence(GsaBody(list, d)));
            && g.Some? && TellsFix(g.value.fixType, |list|) && TellsDop(g.value.dop, d)
            && g.value.used == list[..Min(GSA_SLOTS, |list|)]
  {
    ReadsAll(list, d);
    DopFieldsTell(d);
  }

  // ---------- how long the sentence is ----------

  /** Tenths of what a C float can hold: its largest value is below 10 to the power 39. */
  predicate FloatRange(f: Figure) {
    f.tenths / 10 < Power10(39)
  }

  predicate DopInRange(d: Option<Dop>) {
    d.Some? ==> FloatRange(d.value.pdop) && FloatRange(d.value.hdop) && FloatRange(d.value.vdop)
  }

  lemma TenthsLength(f: Figure)
    requires FloatRange(f)
    ensures |Tenths(f)| <= 41
  {
    assert Power10(1) == 10;
    PaddedLength(f.tenths / 10, 0, 39);
    PaddedLength(f.tenths % 10, 0, 1);
  }

  lemma DopLength(d: Option<Dop>)
    requires DopInRange(d)
    ensures |DopText(d)| <= 125
  {
    if d.Some? {
      TenthsLength(d.value.pdop);
      TenthsLength(d.value.hdop);
      TenthsLength(d.value.vdop);
    }
  }

  lemma {:induction false} SlotsLength(list: seq<nat>, n: nat)
    requires forall i :: 0 <= i < |list| ==> list[i] < 100
    ensures |Slots(list, n)| <= 3 * n
  {
    if n > 0 {
      SlotsLength(list, n - 1);
      if n <= |list| {
        assert Power10(2) == 100;
        PaddedLength(list[n - 1], 2, 2);
      }
    }
  }

  /** Every used satellite takes two columns of the sentence. */
  lemma SlotWidth(mask: nat, k: nat)
    requires mask < MASK_LIMIT && k < |Positions(mask, 1)|
    ensures |Slot(Positions(mask, 1), k)| == 2
  {
    MaskLimit();
    PositionsIncrease(mask, 1, MASK_BITS);
    assert Power10(2) == 100;
    FillsWidth(Positions(mask, 1)[k], 2);
  }

  /** The sentence for any 32-bit mask fits into the buffer with room to spare. */
  lemma GsaLength(mask: nat, d: Option<Dop>)
    requires mask < MASK_LIMIT && DopInRange(d)
    ensures |GsaBody(Positions(mask, 1), d)| <= 172
  {
    MaskLimit();
    PositionsIncrease(mask, 1, MASK_BITS);
    SlotsLength(Positions(mask, 1), GSA_SLOTS);
    DopLength(d);
  }

  // ---------- the cache ----------

  /** A satellite report, or a position report for which sentences are generated or only blank ones. */
  datatype Report = SvReport(usedMask: nat, dop: Option<Dop>) | PosReport(generate: bool, dop: Option<Dop>)

  datatype Cache = Cache(mask: nat, dop: Dop)

  const NO_DOP := Dop(ZERO, ZERO, ZERO)
  const EMPTY_CACHE := Cache(0, NO_DOP)

  function AfterReport(cache: Cache, r: Report): Cache {
    match r
    case SvReport(usedMask, dop) =>
      if usedMask == 0 then cache else Cache(usedMask, if dop.Some? then dop.value else NO_DOP)
    case PosReport(generate, _) =>
      Cache(if generate then 0 else cache.mask, NO_DOP)
  }

  /** Cached values count only when all three are positive. */
  function UsableDop(cached: Dop): Option<Dop> {
    if cached.pdop.positive && cached.hdop.positive && cached.vdop.positive then Some(cached) else None
  }

  /** The text of the GSA sentence for a position report. */
  function GsaOf(cache: Cache, dop: Option<Dop>): string {
    GsaBody(Positions(cache.mask, 1), if dop.Some? then dop else UsableDop(cache.dop))
  }

  function CacheAfter(reports: seq<Report>): Cache {
    if reports == [] then EMPTY_CACHE
    else AfterReport(CacheAfter(reports[..|reports| - 1]), reports[|reports| - 1])
  }

  predicate Stores(r: Report) {
    r.SvReport? && r.usedMask != 0
  }

  predicate Consumes(r: Report) {
    r.PosReport? && r.generate
  }

  /** Report j is the latest to store a mask, and no position report has consumed it. */
  predicate Waits(reports: seq<Report>, j: nat) {
    && j < |reports| && Stores(reports[j])
    && forall i :: j < i < |reports| ==> !Stores(reports[i]) && !Consumes(reports[i])
  }

  /** In any interleaving of reports, what the cache holds is the mask that waits in it, if one does. */
  lemma {:induction false} CachedMaskIsLatest(reports: seq<Report>)
    ensures CacheAfter(reports).mask != 0 <==> exists j: nat :: Waits(reports, j)
    ensures forall j: nat :: Waits(reports, j) ==> CacheAfter(reports).mask == reports[j].usedMask
  {
    if reports != [] {
      var n := |reports| - 1;
      var before, r := reports[..n], reports[n];
      CachedMaskIsLatest(before);
      assert Stores(r) ==> Waits(reports, n);
      forall j: nat | j < n && !Stores(r) && !Consumes(r) ensures Waits(reports, j) <==> Waits(before, j) {
        assert Waits(before, j) ==> forall i :: j < i < n ==> reports[i] == before[i];
      }
      if CacheAfter(before).mask != 0 && !Stores(r) && !Consumes(r) {
        var j: nat :| Waits(before, j);
        assert Waits(reports, j);
      }
    }
  }

  /** Report j is the latest to store a mask, and no position report of any kind came since. */
  predicate DopWaits(reports: seq<Report>, j: nat) {
    && j < |reports| && Stores(reports[j])
    && forall i :: j < i < |reports| ==> !Stores(reports[i]) && !reports[i].PosReport?
  }

  /** The cached precision is that of the latest report to store a mask, if it had one, but it does not
      outlive a position report that leaves the mask in the cache. */
  lemma {:induction false} CachedDopIsLatest(reports: seq<Report>)
    ensures forall j: nat :: DopWaits(reports, j) ==>
              CacheAfter(reports).dop == if reports[j].dop.Some? then reports[j].dop.value else NO_DOP
    ensures (forall j: nat :: !DopWaits(reports, j)) ==> CacheAfter(reports).dop == NO_DOP
  {
    if reports != [] {
      var n := |reports| - 1;
      var before, r := reports[..n], reports[n];
      CachedDopIsLatest(before);
      if Stores(r) {
        assert DopWaits(reports, n);
      } else if r.SvReport? {
        forall j: nat | j < n ensures DopWaits(reports, j) <==> DopWaits(before, j) {
          assert forall i :: 0 <= i < n ==> before[i] == reports[i];
        }
      }
    }
  }

  /** The satellite report whose mask the GSA sentence of position report i lists. */
  predicate Feeds(reports: seq<Report>, j: nat, i: nat) {
    i < |reports| && Consumes(reports[i]) && Waits(reports[..i], j)
  }

  /** A stored mask is listed by at most one GSA sentence. */
  lemma FeedsOnce(reports: seq<Report>, j: nat, i: nat, k: nat)
    requires Feeds(reports, j, i) && Feeds(reports, j, k)
    ensures i == k
  {
  }

  predicate AllPositive(d: Option<Dop>) {
    d.Some? && d.value.pdop.positive && d.value.hdop.positive && d.value.vdop.positive
  }

  /** What a receiver of the GSA sentence of position report i reads: the lowest twelve satellites of the one mask that
      feeds it, or none, and the kind of fix that their number means. */
  lemma ListsWhatFeedsIt(reports: seq<Report>, i: nat)
    requires i < |reports| && Consumes(reports[i])
    ensures var g := ReadGsa(Sentence(GsaOf(CacheAfter(reports[..i]), reports[i].dop)));
            && g.Some?
            && (forall j: nat :: Feeds(reports, j, i) ==>
                  var used := Positions(reports[j].usedMask, 1);
                  TellsFix(g.value.fixType, |used|) && g.value.used == used[..Min(GSA_SLOTS, |used|)])
            && ((forall j: nat :: !Feeds(reports, j, i)) ==> g.value.fixType == "1" && g.value.used == [])
  {
    var cache := CacheAfter(reports[..i]);
    CachedMaskIsLatest(reports[..i]);
    GsaRoundTrip(Positions(cache.mask, 1), if reports[i].dop.Some? then reports[i].dop else UsableDop(cache.dop));
    if j: nat :| Waits(reports[..i], j) {
      assert Feeds(reports, j, i);
    }
  }

  /** And its dilution of precision is that of the position report itself; failing that, that of the latest satellite
      report to store a mask, if it had one above zero in all three respects and no position report came since; and
      otherwise none. */
  lemma TellsLatestDop(reports: seq<Report>, i: nat)
    requires i < |reports| && Consumes(reports[i])
    ensures var g := ReadGsa(Sentence(GsaOf(CacheAfter(reports[..i]), reports[i].dop)));
            && g.Some?
            && (reports[i].dop.Some? ==> TellsDop(g.value.dop, reports[i].dop))
            && (reports[i].dop.None? ==>
                  (forall j: nat :: DopWaits(reports[..i], j) ==>
                     TellsDop(g.value.dop, if AllPositive(reports[j].dop) then reports[j].dop else None))
                  && ((forall j: nat :: !DopWaits(reports[..i], j)) ==> TellsDop(g.value.dop, None)))
  {
    var cache := CacheAfter(reports[..i]);
    CachedDopIsLatest(reports[..i]);
    GsaRoundTrip(Positions(cache.mask, 1), if reports[i].dop.Some? then reports[i].dop else UsableDop(cache.dop));
  }
}
