// The variable part of the hardware scan command: type-length-value records, sized in one pass and
// written in another into a zeroed buffer.
module ScanTlv {
  import opened Bytes
  import opened Wrappers

  const TLV_HEADER := 4
  const TAG_PROBE_REQ := 1
  const TAG_CHAN_LIST := 2
  const TAG_POWER_LIST := 3
  const TAG_DWELL_ON_HOME := 4
  const TAG_SCHED := 5
  const TAG_FILTER := 6
  const TAG_SCHED_PARAMS := 7

  const MAC_ADDR_LEN := 6
  const SSID_MAX_LEN := 32
  // sizeof(struct hw_scan_match_set)
  const MATCH_SET_SIZE := 43
  // sizeof(struct morse_cmd_req_hw_scan): header, flags and dwell time
  const SCAN_REQ_SIZE := 20
  const ENOMEM := 12

  datatype Op = Start | Stop | SchedStart | SchedStop

  datatype Channel = Channel(freqKhz: u32, bwMhz: byte, powerIdx: byte)

  datatype Params = Params(op: Op, channels: seq<Channel>, powers: seq<s32>, probe: Option<seq<byte>>,
                           homeDwellMs: u32, dwellMs: u32, survey: bool, oneMhzProbes: bool)
  {
    predicate Starts() { op == Start || op == SchedStart }
  }

  datatype MatchSetRaw = MatchSet(rssi: s32, bssid: seq<byte>, ssid: seq<byte>)
  type MatchSet = m: MatchSetRaw | |m.bssid| == MAC_ADDR_LEN && |m.ssid| <= SSID_MAX_LEN
    witness MatchSet(0, Zeros(MAC_ADDR_LEN), [])

  datatype Plan = Plan(interval: u32, iterations: u32)

  datatype SchedReq = SchedReq(delay: u32, minRssi: s32, matchSets: Option<seq<MatchSet>>, plans: Option<seq<Plan>>)

  // ----- records and their bytes

  datatype Tlv = Tlv(tag: u16, payload: seq<byte>)

  function TlvBytes(t: Tlv): (r: seq<byte>)
    ensures |r| == TLV_HEADER + |t.payload|
  {
    Le16(t.tag) + Le16(Low16(|t.payload|)) + t.payload
  }

  function AllBytes(ts: seq<Tlv>): seq<byte> {
    if |ts| == 0 then [] else TlvBytes(ts[0]) + AllBytes(ts[1..])
  }

  // morse_ratecode_bw_mhz_to_bw_index
  function BwIndex(bwMhz: nat): nat {
    if bwMhz == 1 then 0 else if bwMhz == 2 then 1 else if bwMhz == 4 then 2 else if bwMhz == 8 then 3 else 1
  }

  // morse_hw_scan_pack_channel: fields of 20, 2, 1, 3 and 6 bits from the low end, each cut to its width.
  function PackChannel(c: Channel): u32 {
    var primBw := if c.bwMhz < 2 then c.bwMhz else 2;
    c.freqKhz % 0x10_0000 + 0x10_0000 * (BwIndex(c.bwMhz) % 4) + 0x40_0000 * (BwIndex(primBw) % 2)
      + 0x80_0000 * 0 + 0x400_0000 * (c.powerIdx % 64)
  }

  function ChannelBytes(cs: seq<Channel>): (r: seq<byte>)
    ensures |r| == 4 * |cs|
  {
    if |cs| == 0 then [] else ChannelBytes(cs[..|cs| - 1]) + Le32(PackChannel(cs[|cs| - 1]))
  }

  function PowerBytes(ps: seq<s32>): (r: seq<byte>)
    ensures |r| == 4 * |ps|
  {
    if |ps| == 0 then [] else PowerBytes(ps[..|ps| - 1]) + Le32(FromS32(ps[|ps| - 1]))
  }

  function MatchSetBytes(m: MatchSet): (r: seq<byte>)
    ensures |r| == MATCH_SET_SIZE
  {
    Le32(FromS32(m.rssi)) + m.bssid + [|m.ssid|] + m.ssid + Zeros(SSID_MAX_LEN - |m.ssid|)
  }

  function FilterBytes(ms: seq<MatchSet>): (r: seq<byte>)
    ensures |r| == MATCH_SET_SIZE * |ms|
  {
    if |ms| == 0 then [] else FilterBytes(ms[..|ms| - 1]) + MatchSetBytes(ms[|ms| - 1])
  }

  function PlanBytes(ps: seq<Plan>): (r: seq<byte>)
    ensures |r| == 8 * |ps|
  {
    if |ps| == 0 then [] else PlanBytes(ps[..|ps| - 1]) + Le32(ps[|ps| - 1].interval) + Le32(ps[|ps| - 1].iterations)
  }

  // ----- what a command carries, and the size reserved for it

  // The channel and power records.
  function ListTlvs(p: Params): seq<Tlv> {
    [Tlv(TAG_CHAN_LIST, ChannelBytes(p.channels)), Tlv(TAG_POWER_LIST, PowerBytes(p.powers))]
  }

  function ScanTlvs(p: Params): seq<Tlv> {
    ListTlvs(p)
    + (if p.homeDwellMs != 0 then [Tlv(TAG_DWELL_ON_HOME, Le32(p.homeDwellMs))] else [])
    + (match p.probe case Some(b) => [Tlv(TAG_PROBE_REQ, b)] case None => [])
  }

  function InfoTlv(r: SchedReq): (t: Tlv)
    ensures |t.payload| == 8
  {
    Tlv(TAG_SCHED_PARAMS, Le32(r.delay) + Le32(FromS32(r.minRssi)))
  }

  function SchedTlvs(r: SchedReq): seq<Tlv> {
    [InfoTlv(r)]
    + (match r.matchSets case Some(ms) => [Tlv(TAG_FILTER, FilterBytes(ms))] case None => [])
    + (match r.plans case Some(ps) => [Tlv(TAG_SCHED, PlanBytes(ps))] case None => [])
  }

  function Tlvs(p: Params, sched: Option<SchedReq>): seq<Tlv> {
    ScanTlvs(p) + match sched case Some(r) => SchedTlvs(r) case None => []
  }

  // morse_hw_scan_get_command_size
  function CommandSize(p: Params, sched: Option<SchedReq>): nat {
    if !p.Starts() then SCAN_REQ_SIZE
    else
      var base := SCAN_REQ_SIZE + (4 + 4 * |p.channels|) + (4 + 4 * |p.powers|)
                  + (match p.probe case Some(b) => 4 + |b| case None => 0)
                  + (if p.homeDwellMs != 0 then 8 else 0);
      match sched
      case None => base
      case Some(r) =>
        base + 12 + (match r.matchSets case Some(ms) => 4 + MATCH_SET_SIZE * |ms| case None => 0)
        + (match r.plans case Some(ps) => 4 + 8 * |ps| case None => 0)
  }

  lemma {:induction false} AllBytesAppend(s: seq<Tlv>, t: seq<Tlv>)
    ensures AllBytes(s + t) == AllBytes(s) + AllBytes(t)
  {
    if |s| == 0 {
      assert s + t == t;
    } else {
      assert (s + t)[1..] == s[1..] + t;
      AllBytesAppend(s[1..], t);
    }
  }

  lemma {:induction false} AllBytesOne(t: Tlv)
    ensures AllBytes([t]) == TlvBytes(t)
  {}

  // The bytes written are exactly the bytes reserved.
  lemma {:induction false} SizeIsExact(p: Params, sched: Option<SchedReq>)
    requires p.Starts()
    ensures CommandSize(p, sched) == SCAN_REQ_SIZE + |AllBytes(Tlvs(p, sched))|
  {
    ScanSize(p);
    match sched {
      case None =>
        assert ScanTlvs(p) + [] == ScanTlvs(p);
      case Some(r) =>
        SchedSize(r);
        AllBytesAppend(ScanTlvs(p), SchedTlvs(r));
    }
  }

  lemma {:induction false} ScanSize(p: Params)
    ensures |AllBytes(ScanTlvs(p))| == (4 + 4 * |p.channels|) + (4 + 4 * |p.powers|)
              + (match p.probe case Some(b) => 4 + |b| case None => 0) + (if p.homeDwellMs != 0 then 8 else 0)
  {
    var cs, ps := Tlv(TAG_CHAN_LIST, ChannelBytes(p.channels)), Tlv(TAG_POWER_LIST, PowerBytes(p.powers));
    var dwell := if p.homeDwellMs != 0 then [Tlv(TAG_DWELL_ON_HOME, Le32(p.homeDwellMs))] else [];
    var probe := match p.probe case Some(b) => [Tlv(TAG_PROBE_REQ, b)] case None => [];
    AllBytesAppend([cs, ps] + dwell, probe);
    AllBytesAppend([cs, ps], dwell);
    assert [cs, ps] == [cs] + [ps];
    AllBytesAppend([cs], [ps]);
    AllBytesOne(cs);
    AllBytesOne(ps);
    if |dwell| > 0 { AllBytesOne(dwell[0]); }
    if |probe| > 0 { AllBytesOne(probe[0]); }
  }

  lemma {:induction false} SchedSize(r: SchedReq)
    ensures |AllBytes(SchedTlvs(r))| == 12
              + (match r.matchSets case Some(ms) => 4 + MATCH_SET_SIZE * |ms| case None => 0)
              + (match r.plans case Some(ps) => 4 + 8 * |ps| case None => 0)
  {
    var info := InfoTlv(r);
    var filter := match r.matchSets case Some(ms) => [Tlv(TAG_FILTER, FilterBytes(ms))] case None => [];
    var plans := match r.plans case Some(ps) => [Tlv(TAG_SCHED, PlanBytes(ps))] case None => [];
    AllBytesAppend([info] + filter, plans);
    AllBytesAppend([info], filter);
    AllBytesOne(info);
    if |filter| > 0 { AllBytesOne(filter[0]); }
    if |plans| > 0 { AllBytesOne(plans[0]); }
  }

  // ----- walking the records

  // The walk of morse_hw_scan_dump_scan_cmd: the offsets at which it finds a record, stepping over each
  // by its length field plus `step`; None when it reads a header beyond the buffer.
  function Walk(buf: seq<byte>, pos: nat, end: nat, step: nat): Option<seq<nat>>
    requires step > 0
    decreases end - pos
  {
    if pos >= end then Some([])
    else if pos + TLV_HEADER > |buf| then None
    else
      match Walk(buf, pos + Read16(buf, pos + 2) + step, end, step)
      case None => None
      case Some(rest) => Some([pos] + rest)
  }

  // Where the records really are.
  function Offsets(ts: seq<Tlv>, base: nat): seq<nat> {
    if |ts| == 0 then [] else [base] + Offsets(ts[1..], base + TLV_HEADER + |ts[0].payload|)
  }

  predicate Fit(ts: seq<Tlv>) {
    forall i :: 0 <= i < |ts| ==> |ts[i].payload| < 0x1_0000
  }

  // The buffer holds the records from `base` on, followed by anything.
  predicate Holds(buf: seq<byte>, base: nat, ts: seq<Tlv>) {
    base + |AllBytes(ts)| <= |buf| && buf[base..base + |AllBytes(ts)|] == AllBytes(ts)
  }

  // A record's bytes read back.
  lemma {:induction false} TlvReads(buf: seq<byte>, at: nat, t: Tlv)
    requires at + |TlvBytes(t)| <= |buf| && buf[at..at + |TlvBytes(t)|] == TlvBytes(t)
    ensures Read16(buf, at) == t.tag && Read16(buf, at + 2) == Low16(|t.payload|)
    ensures buf[at + TLV_HEADER..at + TLV_HEADER + |t.payload|] == t.payload
  {
    var tag, len := Le16(t.tag), Le16(Low16(|t.payload|));
    SliceSplit(buf, at, tag + len, t.payload);
    SliceSplit(buf, at, tag, len);
    Read16Slice(buf, at);
    Read16Slice(buf, at + 2);
    Read16OfLe16(t.tag);
    Read16OfLe16(Low16(|t.payload|));
  }

  lemma {:induction false} HoldsFirst(buf: seq<byte>, base: nat, ts: seq<Tlv>)
    requires Holds(buf, base, ts) && |ts| > 0
    ensures var n := |ts[0].payload|;
            && base + TLV_HEADER + n <= |buf|
            && Read16(buf, base) == ts[0].tag && Read16(buf, base + 2) == Low16(n)
            && buf[base + TLV_HEADER..base + TLV_HEADER + n] == ts[0].payload
            && Holds(buf, base + TLV_HEADER + n, ts[1..])
            && |AllBytes(ts)| == TLV_HEADER + n + |AllBytes(ts[1..])|
  {
    SliceSplit(buf, base, TlvBytes(ts[0]), AllBytes(ts[1..]));
    TlvReads(buf, base, ts[0]);
  }

  // The length fields of the records from `base` on, and the room the records take.
  predicate Chained(buf: seq<byte>, base: nat, ts: seq<Tlv>)
    decreases |ts|
  {
    |ts| > 0 ==>
      var n := |ts[0].payload|;
      && base + TLV_HEADER + n <= |buf|
      && Read16(buf, base + 2) == Low16(n)
      && Chained(buf, base + TLV_HEADER + n, ts[1..])
  }

  function Span(ts: seq<Tlv>): nat {
    if |ts| == 0 then 0 else TLV_HEADER + |ts[0].payload| + Span(ts[1..])
  }

  lemma {:induction false} HoldsChained(buf: seq<byte>, base: nat, ts: seq<Tlv>)
    requires Holds(buf, base, ts)
    ensures Chained(buf, base, ts) && Span(ts) == |AllBytes(ts)|
    decreases |ts|
  {
    if |ts| > 0 {
      HoldsFirst(buf, base, ts);
      HoldsChained(buf, base + TLV_HEADER + |ts[0].payload|, ts[1..]);
    }
  }

  lemma {:induction false} ConsEqual(x: nat, s: seq<nat>, t: seq<nat>)
    ensures [x] + s == [x] + t <==> s == t
  {
    assert ([x] + s)[1..] == s && ([x] + t)[1..] == t;
  }

  // The walk from the first record: on from there by its length field.
  lemma {:induction false} WalkFromFirst(buf: seq<byte>, base: nat, ts: seq<Tlv>, step: nat, end: nat)
    requires Chained(buf, base, ts) && |ts| > 0 && step > 0 && base < end
    ensures Walk(buf, base, end, step) == Some(Offsets(ts, base)) <==>
            Walk(buf, base + Low16(|ts[0].payload|) + step, end, step)
              == Some(Offsets(ts[1..], base + TLV_HEADER + |ts[0].payload|))
  {
    var tail := Walk(buf, base + Low16(|ts[0].payload|) + step, end, step);
    if tail.Some? {
      ConsEqual(base, tail.value, Offsets(ts[1..], base + TLV_HEADER + |ts[0].payload|));
    }
  }

  // A walk that continues from anywhere but the next record is not the list of records.
  lemma {:induction false} OtherStart(buf: seq<byte>, pos: nat, end: nat, step: nat, ts: seq<Tlv>, base: nat)
    requires step > 0 && pos != base && (|ts| > 0 || pos < end)
    ensures Walk(buf, pos, end, step) != Some(Offsets(ts, base))
  {
    if pos < end && Walk(buf, pos, end, step).Some? {
      assert Walk(buf, pos, end, step).value[0] == pos;
    }
  }

  lemma {:induction false} FitRest(ts: seq<Tlv>)
    requires |ts| > 0
    ensures Fit(ts) <==> |ts[0].payload| < 0x1_0000 && Fit(ts[1..])
  {}

  lemma {:induction false} WalkChained(buf: seq<byte>, base: nat, ts: seq<Tlv>)
    requires Chained(buf, base, ts)
    ensures Walk(buf, base, base + Span(ts), TLV_HEADER) == Some(Offsets(ts, base)) <==> Fit(ts)
    decreases |ts|
  {
    if |ts| > 0 {
      var end, n := base + Span(ts), |ts[0].payload|;
      WalkFromFirst(buf, base, ts, TLV_HEADER, end);
      FitRest(ts);
      if n < 0x1_0000 {
        WalkChained(buf, base + n + TLV_HEADER, ts[1..]);
      } else {
        // the next header is looked for inside this payload
        Truncated(n);
        OtherStart(buf, base + Low16(n) + TLV_HEADER, end, TLV_HEADER, ts[1..], base + TLV_HEADER + n);
      }
    }
  }

  // Stepping by the four-byte header finds exactly the records, in order, and stops exactly at the end,
  // if and only if every payload fits its 16-bit length field.
  lemma {:induction false} WalkFindsRecords(buf: seq<byte>, base: nat, ts: seq<Tlv>)
    requires Holds(buf, base, ts)
    ensures Walk(buf, base, base + |AllBytes(ts)|, TLV_HEADER) == Some(Offsets(ts, base)) <==> Fit(ts)
  {
    HoldsChained(buf, base, ts);
    WalkChained(buf, base, ts);
  }

  // The records stand one after the other from `base` on.
  predicate Recorded(buf: seq<byte>, base: nat, ts: seq<Tlv>)
    decreases |ts|
  {
    |ts| > 0 ==> IsRecord(buf, base, ts[0]) && Recorded(buf, base + TLV_HEADER + |ts[0].payload|, ts[1..])
  }

  lemma {:induction false} HoldsRecorded(buf: seq<byte>, base: nat, ts: seq<Tlv>)
    requires Holds(buf, base, ts) && Fit(ts)
    ensures Recorded(buf, base, ts)
    decreases |ts|
  {
    if |ts| > 0 {
      HoldsFirst(buf, base, ts);
      FitRest(ts);
      HoldsRecorded(buf, base + TLV_HEADER + |ts[0].payload|, ts[1..]);
    }
  }

  // At each of the offsets stands the record: its tag, its length and its payload.
  lemma {:induction false} RecordAt(buf: seq<byte>, base: nat, ts: seq<Tlv>, k: nat)
    requires Recorded(buf, base, ts) && k < |ts|
    ensures |Offsets(ts, base)| == |ts| && IsRecord(buf, Offsets(ts, base)[k], ts[k])
    decreases |ts|
  {
    OffsetsLength(ts, base);
    if k > 0 {
      RecordAt(buf, base + TLV_HEADER + |ts[0].payload|, ts[1..], k - 1);
    }
  }

  predicate IsRecord(buf: seq<byte>, at: nat, t: Tlv) {
    && at + TLV_HEADER + |t.payload| <= |buf|
    && Read16(buf, at) == t.tag && Read16(buf, at + 2) == |t.payload|
    && buf[at + TLV_HEADER..at + TLV_HEADER + |t.payload|] == t.payload
  }

  lemma {:induction false} OffsetsLength(ts: seq<Tlv>, base: nat)
    ensures |Offsets(ts, base)| == |ts|
    decreases |ts|
  {
    if |ts| > 0 {
      OffsetsLength(ts[1..], base + TLV_HEADER + |ts[0].payload|);
    }
  }

  // The source steps by the size of a pointer instead. Wherever that is more than four bytes, the walk
  // is right only for at most one record.
  lemma {:induction false} PointerStepWalk(buf: seq<byte>, base: nat, ts: seq<Tlv>, step: nat)
    requires Chained(buf, base, ts) && TLV_HEADER < step < 0x1_0000
    ensures Walk(buf, base, base + Span(ts), step) == Some(Offsets(ts, base)) <==> |ts| <= 1 && Fit(ts)
  {
    if |ts| > 0 {
      var end, n := base + Span(ts), |ts[0].payload|;
      WalkFromFirst(buf, base, ts, step, end);
      FitRest(ts);
      if |ts| > 1 || n >= 0x1_0000 {
        Truncated(n);
        OtherStart(buf, base + Low16(n) + step, end, step, ts[1..], base + TLV_HEADER + n);
      }
    }
  }

  // With two records or more it is wrong, wherever it is told to stop.
  lemma {:induction false} LongStepFails(buf: seq<byte>, base: nat, ts: seq<Tlv>, end: nat, step: nat)
    requires Holds(buf, base, ts) && |ts| >= 2 && TLV_HEADER < step < 0x1_0000
    ensures Walk(buf, base, end, step) != Some(Offsets(ts, base))
  {
    if base < end {
      var n := |ts[0].payload|;
      Truncated(n);
      HoldsChained(buf, base, ts);
      WalkFromFirst(buf, base, ts, step, end);
      OtherStart(buf, base + Low16(n) + step, end, step, ts[1..], base + TLV_HEADER + n);
    }
  }

  // Every scan command carries at least two records, so with eight-byte pointers the walk is wrong for
  // every one of them.
  lemma {:induction false} TwoRecords(p: Params, sched: Option<SchedReq>)
    ensures |Tlvs(p, sched)| >= 2
  {}

  lemma {:induction false} EveryCommandMisread(buf: seq<byte>, base: nat, p: Params, sched: Option<SchedReq>,
                                               end: nat, step: nat)
    requires Holds(buf, base, Tlvs(p, sched)) && TLV_HEADER < step < 0x1_0000
    ensures Walk(buf, base, end, step) != Some(Offsets(Tlvs(p, sched), base))
  {
    TwoRecords(p, sched);
    LongStepFails(buf, base, Tlvs(p, sched), end, step);
  }

  // ----- the packed channel

  function FreqOf(packed: u32): nat { packed % 0x10_0000 }
  function OpBwOf(packed: u32): nat { packed / 0x10_0000 % 4 }
  function PrimBwOf(packed: u32): nat { packed / 0x40_0000 % 2 }
  function PrimIdxOf(packed: u32): nat { packed / 0x80_0000 % 8 }
  function PowerIdxOf(packed: u32): nat { packed / 0x400_0000 % 64 }

  lemma {:induction false} Fields(f: nat, b: nat, w: nat, i: nat)
    requires f < 0x10_0000 && b < 4 && w < 2 && i < 64
    ensures var v := f + 0x10_0000 * b + 0x40_0000 * w + 0x80_0000 * 0 + 0x400_0000 * i;
            && v % 0x10_0000 == f && v / 0x10_0000 % 4 == b && v / 0x40_0000 % 2 == w
            && v / 0x80_0000 % 8 == 0 && v / 0x400_0000 % 64 == i
  {
    var v := f + 0x10_0000 * b + 0x40_0000 * w + 0x80_0000 * 0 + 0x400_0000 * i;
    assert v / 0x10_0000 == b + 4 * w + 64 * i;
    assert v / 0x40_0000 == w + 16 * i;
    assert v / 0x80_0000 == 8 * i;
    assert v / 0x400_0000 == i;
  }

  // Every field of a packed channel reads back, cut to its width.
  lemma {:induction false} PackedFields(c: Channel)
    ensures var v := PackChannel(c);
            && FreqOf(v) == c.freqKhz % 0x10_0000 && OpBwOf(v) == BwIndex(c.bwMhz)
            && PrimBwOf(v) == (if c.bwMhz == 1 then 0 else 1) && PrimIdxOf(v) == 0
            && PowerIdxOf(v) == c.powerIdx % 64
  {
    var primBw := if c.bwMhz < 2 then c.bwMhz else 2;
    Fields(c.freqKhz % 0x10_0000, BwIndex(c.bwMhz) % 4, BwIndex(primBw) % 2, c.powerIdx % 64);
  }

  // The width in MHz that a code stands for.
  function Mhz(code: nat): nat {
    if code == 0 then 1 else if code == 1 then 2 else if code == 2 then 4 else if code == 3 then 8 else 2
  }

  // The width of a packed channel decodes to the channel's own, 2 MHz for one that has none; its primary is at
  // most 2 MHz wide.
  lemma {:induction false} WidthsDecode(c: Channel)
    ensures var v, known := PackChannel(c), c.bwMhz == 1 || c.bwMhz == 2 || c.bwMhz == 4 || c.bwMhz == 8;
            && Mhz(OpBwOf(v)) == (if known then c.bwMhz else 2)
            && Mhz(PrimBwOf(v)) == (if c.bwMhz == 1 then 1 else 2)
  {
    PackedFields(c);
  }

  // The words of the channel list and of the power list.
  lemma {:induction false} ChannelWord(cs: seq<Channel>, i: nat)
    requires i < |cs|
    ensures Read32(ChannelBytes(cs), 4 * i) == PackChannel(cs[i])
  {
    var n := |cs| - 1;
    var head, last := ChannelBytes(cs[..n]), Le32(PackChannel(cs[n]));
    if i == n {
      assert (head + last)[4 * n..4 * n + 4] == last;
      Read32Slice(ChannelBytes(cs), 4 * n);
      Read32OfLe32(PackChannel(cs[n]));
    } else {
      ChannelWord(cs[..n], i);
      assert (head + last)[4 * i..4 * i + 4] == head[4 * i..4 * i + 4];
      Read32Slice(ChannelBytes(cs), 4 * i);
      Read32Slice(head, 4 * i);
    }
  }

  lemma {:induction false} PowerWord(ps: seq<s32>, i: nat)
    requires i < |ps|
    ensures ToS32(Read32(PowerBytes(ps), 4 * i)) == ps[i]
  {
    var n := |ps| - 1;
    var head, last := PowerBytes(ps[..n]), Le32(FromS32(ps[n]));
    if i == n {
      assert (head + last)[4 * n..4 * n + 4] == last;
      Read32Slice(PowerBytes(ps), 4 * n);
      Read32OfLe32(FromS32(ps[n]));
    } else {
      PowerWord(ps[..n], i);
      assert (head + last)[4 * i..4 * i + 4] == head[4 * i..4 * i + 4];
      Read32Slice(PowerBytes(ps), 4 * i);
      Read32Slice(head, 4 * i);
    }
  }

  lemma {:induction false} IndexInWord(cs: seq<Channel>, i: nat)
    requires i < |cs|
    ensures PowerIdxOf(Read32(ChannelBytes(cs), 4 * i)) == cs[i].powerIdx % 64
  {
    ChannelWord(cs, i);
    PackedFields(cs[i]);
  }

  // What a six-bit field keeps of an index.
  function SixBits(n: nat): (r: nat)
    ensures r < 64 && (n < 64 ==> r == n)
  {
    n % 64
  }

  // What the firmware reads: the entry of the power list that a channel's word points at.
  function DecodedPower(channelList: seq<byte>, powerList: seq<byte>, i: nat): Option<s32>
    requires 4 * i + 4 <= |channelList|
  {
    var k := PowerIdxOf(Read32(channelList, 4 * i));
    if 4 * k + 4 <= |powerList| then Some(ToS32(Read32(powerList, 4 * k))) else None
  }

  lemma {:induction false} PowerOfChannel(cs: seq<Channel>, ps: seq<s32>, i: nat)
    requires i < |cs|
    ensures var k := SixBits(cs[i].powerIdx);
            DecodedPower(ChannelBytes(cs), PowerBytes(ps), i) == if k < |ps| then Some(ps[k]) else None
  {
    IndexInWord(cs, i);
    if SixBits(cs[i].powerIdx) < |ps| {
      PowerWord(ps, SixBits(cs[i].powerIdx));
    }
  }

  // ----- plans and match sets

  lemma {:induction false} PlanAt(ps: seq<Plan>, i: nat)
    requires i < |ps|
    ensures PlanBytes(ps)[8 * i..8 * i + 8] == Le32(ps[i].interval) + Le32(ps[i].iterations)
  {
    var init, last := ps[..|ps| - 1], ps[|ps| - 1];
    var head, tail := PlanBytes(init), Le32(last.interval) + Le32(last.iterations);
    Regroup(head, Le32(last.interval), Le32(last.iterations));
    if i < |init| {
      PlanAt(init, i);
      InFirst(head, tail, 8 * i, 8 * i + 8);
    } else {
      IsSecond(head, tail, 8 * i, 8 * i + 8);
    }
  }

  // Every scan plan reads back.
  lemma {:induction false} PlanReadsBack(ps: seq<Plan>, i: nat)
    requires i < |ps|
    ensures Plan(Read32(PlanBytes(ps), 8 * i), Read32(PlanBytes(ps), 8 * i + 4)) == ps[i]
  {
    PlanAt(ps, i);
    SliceSplit(PlanBytes(ps), 8 * i, Le32(ps[i].interval), Le32(ps[i].iterations));
    Read32Slice(PlanBytes(ps), 8 * i);
    Read32Slice(PlanBytes(ps), 8 * i + 4);
    Read32OfLe32(ps[i].interval);
    Read32OfLe32(ps[i].iterations);
  }

  function ParseMatchSet(b: seq<byte>): Option<MatchSet>
    requires |b| == MATCH_SET_SIZE
  {
    if b[10] > SSID_MAX_LEN then None else Some(MatchSet(ToS32(Read32(b, 0)), b[4..10], b[11..11 + b[10]]))
  }

  lemma {:induction false} MatchSetParses(m: MatchSet)
    ensures ParseMatchSet(MatchSetBytes(m)) == Some(m)
  {
    var b, rssi := MatchSetBytes(m), Le32(FromS32(m.rssi));
    assert b[0..4] == rssi && b[4..10] == m.bssid && b[10] == |m.ssid| && b[11..11 + |m.ssid|] == m.ssid;
    Read32Slice(b, 0);
    Read32OfLe32(FromS32(m.rssi));
  }

  // Every match set reads back.
  lemma {:induction false} MatchSetReadsBack(ms: seq<MatchSet>, i: nat)
    requires i < |ms|
    ensures ParseMatchSet(FilterBytes(ms)[MATCH_SET_SIZE * i..MATCH_SET_SIZE * i + MATCH_SET_SIZE]) == Some(ms[i])
  {
    var init, last := ms[..|ms| - 1], ms[|ms| - 1];
    var head, tail, pos := FilterBytes(init), MatchSetBytes(last), MATCH_SET_SIZE * i;
    if i < |init| {
      MatchSetReadsBack(init, i);
      InFirst(head, tail, pos, pos + MATCH_SET_SIZE);
    } else {
      MatchSetParses(last);
      IsSecond(head, tail, pos, pos + MATCH_SET_SIZE);
    }
  }

  // ----- the writers

  // Write more bytes right after those already written since `start`.
  method PutNext(buf: array<byte>, ghost start: seq<byte>, ghost pos: nat, ghost done: seq<byte>, at: nat, bytes: seq<byte>)
    requires at == pos + |done| && at + |bytes| <= buf.Length
    requires Wrote(start, buf[..], pos, done)
    modifies buf
    ensures Wrote(start, buf[..], pos, done + bytes)
  {
    ghost var before := buf[..];
    Put(buf, at, bytes);
    WroteTwice(start, before, buf[..], pos, done, bytes);
  }

  function HeaderBytes(tag: u16, len: nat): (r: seq<byte>)
    ensures |r| == TLV_HEADER
  {
    Le16(tag) + Le16(Low16(len))
  }

  // hw_scan_add_channel_list_tlv
  method AddChannelList(buf: array<byte>, pos: nat, cs: seq<Channel>) returns (end: nat)
    requires pos + TLV_HEADER + 4 * |cs| <= buf.Length
    modifies buf
    ensures end == pos + TLV_HEADER + 4 * |cs|
    ensures Wrote(old(buf[..]), buf[..], pos, TlvBytes(Tlv(TAG_CHAN_LIST, ChannelBytes(cs))))
  {
    ghost var start := buf[..];
    var header := HeaderBytes(TAG_CHAN_LIST, 4 * |cs|);
    Put(buf, pos, header);
    end := pos + TLV_HEADER;
    for i := 0 to |cs|
      invariant end == pos + TLV_HEADER + 4 * i
      invariant Wrote(start, buf[..], pos, header + ChannelBytes(cs[..i]))
    {
      PutNext(buf, start, pos, header + ChannelBytes(cs[..i]), end, Le32(PackChannel(cs[i])));
      assert cs[..i + 1][..i] == cs[..i];
      Regroup(header, ChannelBytes(cs[..i]), Le32(PackChannel(cs[i])));
      end := end + 4;
    }
    assert cs[..|cs|] == cs;
  }

  lemma {:induction false} Regroup(a: seq<byte>, b: seq<byte>, c: seq<byte>)
    ensures a + b + c == a + (b + c)
  {}

  // hw_scan_add_power_list_tlv; the powers are stored as the host keeps them, little-endian.
  method AddPowerList(buf: array<byte>, pos: nat, ps: seq<s32>) returns (end: nat)
    requires pos + TLV_HEADER + 4 * |ps| <= buf.Length
    modifies buf
    ensures end == pos + TLV_HEADER + 4 * |ps|
    ensures Wrote(old(buf[..]), buf[..], pos, TlvBytes(Tlv(TAG_POWER_LIST, PowerBytes(ps))))
  {
    ghost var start := buf[..];
    var header := HeaderBytes(TAG_POWER_LIST, 4 * |ps|);
    Put(buf, pos, header);
    end := pos + TLV_HEADER;
    for i := 0 to |ps|
      invariant end == pos + TLV_HEADER + 4 * i
      invariant Wrote(start, buf[..], pos, header + PowerBytes(ps[..i]))
    {
      PutNext(buf, start, pos, header + PowerBytes(ps[..i]), end, Le32(FromS32(ps[i])));
      assert ps[..i + 1][..i] == ps[..i];
      Regroup(header, PowerBytes(ps[..i]), Le32(FromS32(ps[i])));
      end := end + 4;
    }
    assert ps[..|ps|] == ps;
  }

  // hw_scan_add_dwell_on_home_tlv, hw_scan_add_probe_req_tlv and hw_scan_add_scheduled_params_tlv: a
  // header and one block.
  method AddBlock(buf: array<byte>, pos: nat, tag: u16, payload: seq<byte>) returns (end: nat)
    requires pos + TLV_HEADER + |payload| <= buf.Length
    modifies buf
    ensures end == pos + TLV_HEADER + |payload|
    ensures Wrote(old(buf[..]), buf[..], pos, TlvBytes(Tlv(tag, payload)))
  {
    ghost var start := buf[..];
    var header := HeaderBytes(tag, |payload|);
    Put(buf, pos, header);
    PutNext(buf, start, pos, header, pos + TLV_HEADER, payload);
    end := pos + TLV_HEADER + |payload|;
  }

  // hw_scan_add_scheduled_tlv
  method AddPlans(buf: array<byte>, pos: nat, ps: seq<Plan>) returns (end: nat)
    requires pos + TLV_HEADER + 8 * |ps| <= buf.Length
    modifies buf
    ensures end == pos + TLV_HEADER + 8 * |ps|
    ensures Wrote(old(buf[..]), buf[..], pos, TlvBytes(Tlv(TAG_SCHED, PlanBytes(ps))))
  {
    ghost var start := buf[..];
    var header := HeaderBytes(TAG_SCHED, 8 * |ps|);
    Put(buf, pos, header);
    end := pos + TLV_HEADER;
    for i := 0 to |ps|
      invariant end == pos + TLV_HEADER + 8 * i
      invariant Wrote(start, buf[..], pos, header + PlanBytes(ps[..i]))
    {
      ghost var done := header + PlanBytes(ps[..i]);
      PutNext(buf, start, pos, done, end, Le32(ps[i].interval));
      PutNext(buf, start, pos, done + Le32(ps[i].interval), end + 4, Le32(ps[i].iterations));
      assert ps[..i + 1][..i] == ps[..i];
      Regroup(header, PlanBytes(ps[..i]), Le32(ps[i].interval));
      Regroup(header, PlanBytes(ps[..i]) + Le32(ps[i].interval), Le32(ps[i].iterations));
      end := end + 8;
    }
    assert ps[..|ps|] == ps;
  }

  // One match set; the bytes of the name that it does not fill keep the zeros of the allocation.
  method PutMatchSet(buf: array<byte>, ghost start: seq<byte>, ghost pos: nat, ghost done: seq<byte>, at: nat, m: MatchSet)
    requires at == pos + |done| && at + MATCH_SET_SIZE <= buf.Length
    requires Wrote(start, buf[..], pos, done)
    requires forall k :: at <= k < at + MATCH_SET_SIZE ==> start[k] == 0
    modifies buf
    ensures Wrote(start, buf[..], pos, done + MatchSetBytes(m))
  {
    var fixed := Le32(FromS32(m.rssi)) + m.bssid + [|m.ssid|];
    PutNext(buf, start, pos, done, at, fixed);
    PutNext(buf, start, pos, done + fixed, at + 11, m.ssid);
    ghost var written := done + fixed + m.ssid;
    ghost var rest := SSID_MAX_LEN - |m.ssid|;
    WroteZeros(start, buf[..], pos, written, rest);
    assert written + Zeros(rest) == done + MatchSetBytes(m);
  }

  // hw_scan_add_filter_tlv
  method AddFilter(buf: array<byte>, pos: nat, ms: seq<MatchSet>) returns (end: nat)
    requires pos + TLV_HEADER + MATCH_SET_SIZE * |ms| <= buf.Length
    requires forall k :: pos <= k < buf.Length ==> buf[k] == 0
    modifies buf
    ensures end == pos + TLV_HEADER + MATCH_SET_SIZE * |ms|
    ensures Wrote(old(buf[..]), buf[..], pos, TlvBytes(Tlv(TAG_FILTER, FilterBytes(ms))))
  {
    ghost var start := buf[..];
    var header := HeaderBytes(TAG_FILTER, MATCH_SET_SIZE * |ms|);
    Put(buf, pos, header);
    end := pos + TLV_HEADER;
    for i := 0 to |ms|
      invariant end == pos + TLV_HEADER + MATCH_SET_SIZE * i
      invariant Wrote(start, buf[..], pos, header + FilterBytes(ms[..i]))
    {
      PutMatchSet(buf, start, pos, header + FilterBytes(ms[..i]), end, ms[i]);
      assert ms[..i + 1][..i] == ms[..i];
      Regroup(header, FilterBytes(ms[..i]), MatchSetBytes(ms[i]));
      end := end + MATCH_SET_SIZE;
    }
    assert ms[..|ms|] == ms;
  }

  // The records ts have been written from pos to end since `start`.
  ghost predicate Written(start: seq<byte>, now: seq<byte>, pos: nat, ts: seq<Tlv>, end: nat) {
    Wrote(start, now, pos, AllBytes(ts)) && end == pos + |AllBytes(ts)|
  }

  lemma {:induction false} WrittenNext(start: seq<byte>, before: seq<byte>, after: seq<byte>, pos: nat,
                                       ts: seq<Tlv>, at: nat, t: Tlv)
    requires Written(start, before, pos, ts, at) && Wrote(before, after, at, TlvBytes(t))
    ensures Written(start, after, pos, ts + [t], at + |TlvBytes(t)|)
  {
    WroteTwice(start, before, after, pos, AllBytes(ts), TlvBytes(t));
    AllBytesAppend(ts, [t]);
    AllBytesOne(t);
  }

  method NextChannels(buf: array<byte>, ghost start: seq<byte>, ghost pos: nat, ghost ts: seq<Tlv>, at: nat,
                      cs: seq<Channel>) returns (end: nat)
    requires Written(start, buf[..], pos, ts, at) && at + TLV_HEADER + 4 * |cs| <= buf.Length
    modifies buf
    ensures Written(start, buf[..], pos, ts + [Tlv(TAG_CHAN_LIST, ChannelBytes(cs))], end)
    ensures end == at + TLV_HEADER + 4 * |cs|
  {
    ghost var before := buf[..];
    end := AddChannelList(buf, at, cs);
    WrittenNext(start, before, buf[..], pos, ts, at, Tlv(TAG_CHAN_LIST, ChannelBytes(cs)));
  }

  method NextPowers(buf: array<byte>, ghost start: seq<byte>, ghost pos: nat, ghost ts: seq<Tlv>, at: nat,
                    ps: seq<s32>) returns (end: nat)
    requires Written(start, buf[..], pos, ts, at) && at + TLV_HEADER + 4 * |ps| <= buf.Length
    modifies buf
    ensures Written(start, buf[..], pos, ts + [Tlv(TAG_POWER_LIST, PowerBytes(ps))], end)
    ensures end == at + TLV_HEADER + 4 * |ps|
  {
    ghost var before := buf[..];
    end := AddPowerList(buf, at, ps);
    WrittenNext(start, before, buf[..], pos, ts, at, Tlv(TAG_POWER_LIST, PowerBytes(ps)));
  }

  method NextBlock(buf: array<byte>, ghost start: seq<byte>, ghost pos: nat, ghost ts: seq<Tlv>, at: nat,
                   tag: u16, payload: seq<byte>) returns (end: nat)
    requires Written(start, buf[..], pos, ts, at) && at + TLV_HEADER + |payload| <= buf.Length
    modifies buf
    ensures Written(start, buf[..], pos, ts + [Tlv(tag, payload)], end)
    ensures end == at + TLV_HEADER + |payload|
  {
    ghost var before := buf[..];
    end := AddBlock(buf, at, tag, payload);
    WrittenNext(start, before, buf[..], pos, ts, at, Tlv(tag, payload));
  }

  method NextFilter(buf: array<byte>, ghost start: seq<byte>, ghost pos: nat, ghost ts: seq<Tlv>, at: nat,
                    ms: seq<MatchSet>) returns (end: nat)
    requires Written(start, buf[..], pos, ts, at) && at + TLV_HEADER + MATCH_SET_SIZE * |ms| <= buf.Length
    requires forall k :: pos <= k < |start| ==> start[k] == 0
    modifies buf
    ensures Written(start, buf[..], pos, ts + [Tlv(TAG_FILTER, FilterBytes(ms))], end)
    ensures end == at + TLV_HEADER + MATCH_SET_SIZE * |ms|
  {
    ghost var before := buf[..];
    assert forall k :: at <= k < buf.Length ==> before[k] == start[k];
    end := AddFilter(buf, at, ms);
    WrittenNext(start, before, buf[..], pos, ts, at, Tlv(TAG_FILTER, FilterBytes(ms)));
  }

  method NextPlans(buf: array<byte>, ghost start: seq<byte>, ghost pos: nat, ghost ts: seq<Tlv>, at: nat,
                   ps: seq<Plan>) returns (end: nat)
    requires Written(start, buf[..], pos, ts, at) && at + TLV_HEADER + 8 * |ps| <= buf.Length
    modifies buf
    ensures Written(start, buf[..], pos, ts + [Tlv(TAG_SCHED, PlanBytes(ps))], end)
    ensures end == at + TLV_HEADER + 8 * |ps|
  {
    ghost var before := buf[..];
    end := AddPlans(buf, at, ps);
    WrittenNext(start, before, buf[..], pos, ts, at, Tlv(TAG_SCHED, PlanBytes(ps)));
  }

  method InsertLists(buf: array<byte>, pos: nat, p: Params) returns (end: nat)
    requires pos + 2 * TLV_HEADER + 4 * |p.channels| + 4 * |p.powers| <= buf.Length
    modifies buf
    ensures Written(old(buf[..]), buf[..], pos, ListTlvs(p), end)
    ensures end == pos + 2 * TLV_HEADER + 4 * |p.channels| + 4 * |p.powers|
  {
    ghost var start, channels := buf[..], Tlv(TAG_CHAN_LIST, ChannelBytes(p.channels));
    WroteNothing(start, pos);
    end := NextChannels(buf, start, pos, [], pos, p.channels);
    end := NextPowers(buf, start, pos, [] + [channels], end, p.powers);
    assert [] + [channels] + [Tlv(TAG_POWER_LIST, PowerBytes(p.powers))] == ListTlvs(p);
  }

  // morse_hw_scan_insert_tlvs, the records every scan has.
  method InsertScanTlvs(buf: array<byte>, pos: nat, p: Params) returns (end: nat)
    requires pos + |AllBytes(ScanTlvs(p))| <= buf.Length
    modifies buf
    ensures Written(old(buf[..]), buf[..], pos, ScanTlvs(p), end)
  {
    ghost var start, ts := buf[..], ListTlvs(p);
    ScanSize(p);
    end := InsertLists(buf, pos, p);
    if p.homeDwellMs != 0 {
      end := NextBlock(buf, start, pos, ts, end, TAG_DWELL_ON_HOME, Le32(p.homeDwellMs));
      ts := ts + [Tlv(TAG_DWELL_ON_HOME, Le32(p.homeDwellMs))];
    }
    if p.probe.Some? {
      end := NextBlock(buf, start, pos, ts, end, TAG_PROBE_REQ, p.probe.value);
      ts := ts + [Tlv(TAG_PROBE_REQ, p.probe.value)];
    }
    assert ts == ScanTlvs(p);
  }

  method InsertInfo(buf: array<byte>, pos: nat, r: SchedReq) returns (end: nat)
    requires pos + 12 <= buf.Length
    modifies buf
    ensures Written(old(buf[..]), buf[..], pos, [InfoTlv(r)], end) && end == pos + 12
  {
    ghost var start := buf[..];
    WroteNothing(start, pos);
    end := NextBlock(buf, start, pos, [], pos, TAG_SCHED_PARAMS, Le32(r.delay) + Le32(FromS32(r.minRssi)));
    assert [] + [InfoTlv(r)] == [InfoTlv(r)];
  }

  // morse_hw_scan_insert_tlvs, the records of a scheduled scan.
  method InsertSchedTlvs(buf: array<byte>, pos: nat, r: SchedReq) returns (end: nat)
    requires pos + |AllBytes(SchedTlvs(r))| <= buf.Length
    requires forall k :: pos <= k < buf.Length ==> buf[k] == 0
    modifies buf
    ensures Written(old(buf[..]), buf[..], pos, SchedTlvs(r), end)
  {
    ghost var start, ts := buf[..], [InfoTlv(r)];
    SchedSize(r);
    end := InsertInfo(buf, pos, r);
    if r.matchSets.Some? {
      end := NextFilter(buf, start, pos, ts, end, r.matchSets.value);
      ts := ts + [Tlv(TAG_FILTER, FilterBytes(r.matchSets.value))];
    }
    if r.plans.Some? {
      end := NextPlans(buf, start, pos, ts, end, r.plans.value);
      ts := ts + [Tlv(TAG_SCHED, PlanBytes(r.plans.value))];
    }
    assert ts == SchedTlvs(r);
  }

  // morse_hw_scan_insert_tlvs
  method InsertTlvs(buf: array<byte>, pos: nat, p: Params, sched: Option<SchedReq>) returns (end: nat)
    requires pos + |AllBytes(Tlvs(p, sched))| <= buf.Length
    requires forall k :: pos <= k < buf.Length ==> buf[k] == 0
    modifies buf
    ensures end == pos + |AllBytes(Tlvs(p, sched))|
    ensures Wrote(old(buf[..]), buf[..], pos, AllBytes(Tlvs(p, sched)))
  {
    ghost var start := buf[..];
    assert sched.Some? ==> Tlvs(p, sched) == ScanTlvs(p) + SchedTlvs(sched.value);
    assert sched.None? ==> Tlvs(p, sched) == ScanTlvs(p);
    if sched.Some? {
      AllBytesAppend(ScanTlvs(p), SchedTlvs(sched.value));
    }
    end := InsertScanTlvs(buf, pos, p);
    if sched.None? {
      return;
    }
    ghost var before := buf[..];
    end := InsertSchedTlvs(buf, end, sched.value);
    WroteTwice(start, before, buf[..], pos, AllBytes(ScanTlvs(p)), AllBytes(SchedTlvs(sched.value)));
  }

  lemma {:induction false} WroteHolds(before: seq<byte>, after: seq<byte>, pos: nat, ts: seq<Tlv>)
    requires Wrote(before, after, pos, AllBytes(ts))
    ensures Holds(after, pos, ts)
    ensures |after| == |before| && forall k :: pos + |AllBytes(ts)| <= k < |after| ==> after[k] == before[k]
  {}

  // ----- the fixed part of the request

  const CMD_HEADER_SIZE := 12
  const CMD_ID_HW_SCAN := 0x44

  const FLAG_START := 1
  const FLAG_ABORT := 2
  const FLAG_SURVEY := 4
  const FLAG_STORE := 8
  const FLAG_1MHZ_PROBES := 16
  const FLAG_SCHED_START := 32
  const FLAG_SCHED_STOP := 64

  function Flags(p: Params, store: bool): (r: u32)
    ensures r < 128
  {
    (if store then FLAG_STORE else if p.op == Start then FLAG_START else if p.op == Stop then FLAG_ABORT else 0)
    + (if p.op == SchedStart then FLAG_SCHED_START else if p.op == SchedStop then FLAG_SCHED_STOP else 0)
    + (if p.survey then FLAG_SURVEY else 0) + (if p.oneMhzProbes then FLAG_1MHZ_PROBES else 0)
  }

  predicate HasFlag(flags: u32, flag: nat)
    requires flag > 0
  {
    flags / flag % 2 == 1
  }

  // Each flag can be told from the others; a stored scan is not started.
  lemma {:induction false} FlagsTell(p: Params, store: bool)
    ensures var f := Flags(p, store);
            && (HasFlag(f, FLAG_START) <==> p.op == Start && !store)
            && (HasFlag(f, FLAG_ABORT) <==> p.op == Stop && !store)
            && (HasFlag(f, FLAG_STORE) <==> store)
            && (HasFlag(f, FLAG_SURVEY) <==> p.survey)
            && (HasFlag(f, FLAG_1MHZ_PROBES) <==> p.oneMhzProbes)
            && (HasFlag(f, FLAG_SCHED_START) <==> p.op == SchedStart)
            && (HasFlag(f, FLAG_SCHED_STOP) <==> p.op == SchedStop)
  {}

  // morse_cmd_init: message id and length, for a length that does not wrap below the header's.
  function CmdHeader(size: nat): (r: seq<byte>)
    ensures |r| == CMD_HEADER_SIZE
  {
    if Low16(size) < CMD_HEADER_SIZE then Zeros(CMD_HEADER_SIZE)
    else Zeros(2) + Le16(CMD_ID_HW_SCAN) + Le16(Low16(size) - CMD_HEADER_SIZE) + Zeros(6)
  }

  function FixedPart(p: Params, store: bool, size: nat): (r: seq<byte>)
    ensures |r| == SCAN_REQ_SIZE
  {
    CmdHeader(size) + Le32(Flags(p, store)) + Le32(if p.Starts() then p.dwellMs else 0)
  }

  lemma {:induction false} HeaderLength(buf: seq<byte>, size: nat)
    requires |buf| >= CMD_HEADER_SIZE && buf[..CMD_HEADER_SIZE] == CmdHeader(size) && size >= SCAN_REQ_SIZE
    ensures CMD_HEADER_SIZE + Read16(buf, 4) == size <==> size < 0x1_0000
    ensures size < 0x1_0000 ==> Read16(buf, 2) == CMD_ID_HW_SCAN
  {
    var h := buf[..CMD_HEADER_SIZE];
    assert h[2..4] == buf[2..4] && h[4..6] == buf[4..6];
    Read16Slice(buf, 2);
    Read16Slice(buf, 4);
    Truncated(size);
    if Low16(size) < CMD_HEADER_SIZE {
      assert h[4..6] == [0, 0];
    } else {
      assert h[2..4] == Le16(CMD_ID_HW_SCAN) && h[4..6] == Le16(Low16(size) - CMD_HEADER_SIZE);
      Read16OfLe16(CMD_ID_HW_SCAN);
      Read16OfLe16(Low16(size) - CMD_HEADER_SIZE);
    }
  }

  // The fixed part reads back: flags, dwell time, and a length that leads to the end of the command
  // exactly when the command is shorter than 65536 bytes.
  lemma {:induction false} FixedPartReads(buf: seq<byte>, p: Params, store: bool, size: nat)
    requires |buf| >= SCAN_REQ_SIZE && buf[..SCAN_REQ_SIZE] == FixedPart(p, store, size) && size >= SCAN_REQ_SIZE
    ensures Read32(buf, 12) == Flags(p, store)
    ensures Read32(buf, 16) == if p.Starts() then p.dwellMs else 0
    ensures CMD_HEADER_SIZE + Read16(buf, 4) == size <==> size < 0x1_0000
  {
    var flags, dwell := Flags(p, store), if p.Starts() then p.dwellMs else 0;
    assert buf[0..SCAN_REQ_SIZE] == buf[..SCAN_REQ_SIZE];
    SliceSplit(buf, 0, CmdHeader(size) + Le32(flags), Le32(dwell));
    SliceSplit(buf, 0, CmdHeader(size), Le32(flags));
    assert buf[0..CMD_HEADER_SIZE] == buf[..CMD_HEADER_SIZE];
    HeaderLength(buf, size);
    Read32Slice(buf, 12);
    Read32Slice(buf, 16);
    Read32OfLe32(flags);
    Read32OfLe32(dwell);
  }

  // morse_cmd_init
  method InitHeader(buf: array<byte>, size: nat)
    requires buf.Length >= CMD_HEADER_SIZE && buf[..CMD_HEADER_SIZE] == Zeros(CMD_HEADER_SIZE)
    modifies buf
    ensures buf[..CMD_HEADER_SIZE] == CmdHeader(size)
    ensures buf[CMD_HEADER_SIZE..] == old(buf[CMD_HEADER_SIZE..])
  {
    if Low16(size) < CMD_HEADER_SIZE {
      return;
    }
    ghost var before := buf[..];
    var fields := Le16(CMD_ID_HW_SCAN) + Le16(Low16(size) - CMD_HEADER_SIZE);
    Put(buf, 2, fields);
    assert buf[..] == before[..2] + fields + before[6..];
    assert before[..2] == Zeros(2) && before[6..] == Zeros(6) + before[CMD_HEADER_SIZE..];
  }

  // The rest of the fixed part: the dwell time of a start, and the flags.
  method PutFixed(buf: array<byte>, p: Params, store: bool, size: nat)
    requires buf.Length >= SCAN_REQ_SIZE && buf[..SCAN_REQ_SIZE] == Zeros(SCAN_REQ_SIZE)
    modifies buf
    ensures buf[..SCAN_REQ_SIZE] == FixedPart(p, store, size)
    ensures buf[SCAN_REQ_SIZE..] == old(buf[SCAN_REQ_SIZE..])
  {
    ghost var b0 := buf[..];
    ghost var dwell := if p.Starts() then p.dwellMs else 0;
    if p.Starts() {
      Put(buf, 16, Le32(p.dwellMs));
    } else {
      assert b0[16..20] == Le32(0);
    }
    assert buf[..] == b0[..16] + Le32(dwell) + b0[20..];
    Put(buf, 12, Le32(Flags(p, store)));
    assert buf[..] == b0[..12] + (Le32(Flags(p, store)) + Le32(dwell) + b0[20..]);
    assert buf[12..] == Le32(Flags(p, store)) + Le32(dwell) + b0[20..];
    InitHeader(buf, size);
    assert buf[..] == buf[..12] + buf[12..];
  }

  lemma {:induction false} HoldsBehind(before: seq<byte>, after: seq<byte>, base: nat, ts: seq<Tlv>)
    requires Holds(before, base, ts) && base <= |after| && after[base..] == before[base..]
    ensures Holds(after, base, ts)
  {
    var n := |AllBytes(ts)|;
    assert before[base..][..n] == before[base..base + n];
    assert after[base..][..n] == after[base..base + n];
  }

  // What a reader that walks the command finds: the records, in order, exactly when they fit their length
  // fields; and never with the step of the source where a pointer is longer than a record's header.
  lemma {:induction false} CommandWalks(buf: seq<byte>, p: Params, sched: Option<SchedReq>)
    requires p.Starts() && Holds(buf, SCAN_REQ_SIZE, Tlvs(p, sched))
    ensures var ts, end := Tlvs(p, sched), CommandSize(p, sched);
            && (Walk(buf, SCAN_REQ_SIZE, end, TLV_HEADER) == Some(Offsets(ts, SCAN_REQ_SIZE)) <==> Fit(ts))
            && (forall step :: TLV_HEADER < step < 0x1_0000 ==>
                  Walk(buf, SCAN_REQ_SIZE, end, step) != Some(Offsets(ts, SCAN_REQ_SIZE)))
  {
    SizeIsExact(p, sched);
    WalkFindsRecords(buf, SCAN_REQ_SIZE, Tlvs(p, sched));
    forall step | TLV_HEADER < step < 0x1_0000
      ensures Walk(buf, SCAN_REQ_SIZE, CommandSize(p, sched), step) != Some(Offsets(Tlvs(p, sched), SCAN_REQ_SIZE))
    {
      EveryCommandMisread(buf, SCAN_REQ_SIZE, p, sched, CommandSize(p, sched), step);
    }
  }

  // The command in a zeroed buffer of the size computed.
  method FillCommand(buf: array<byte>, p: Params, store: bool, sched: Option<SchedReq>) returns (end: nat)
    requires buf.Length == RoundToWord(CommandSize(p, sched)) && ZeroIn(buf[..], 0, buf.Length)
    modifies buf
    ensures end == CommandSize(p, sched)
    ensures buf[..SCAN_REQ_SIZE] == FixedPart(p, store, end)
    ensures p.Starts() ==> Holds(buf[..], SCAN_REQ_SIZE, Tlvs(p, sched))
    ensures ZeroIn(buf[..], end, buf.Length)
  {
    ghost var zeros := buf[..];
    end := SCAN_REQ_SIZE;
    if p.Starts() {
      SizeIsExact(p, sched);
      end := InsertTlvs(buf, SCAN_REQ_SIZE, p, sched);
      WroteHolds(zeros, buf[..], SCAN_REQ_SIZE, Tlvs(p, sched));
    }
    assert buf[..SCAN_REQ_SIZE] == zeros[..SCAN_REQ_SIZE] == Zeros(SCAN_REQ_SIZE);
    ghost var before := buf[..];
    PutFixed(buf, p, store, end);
    if p.Starts() {
      HoldsBehind(before, buf[..], SCAN_REQ_SIZE, Tlvs(p, sched));
    }
    ZeroBehind(before, buf[..], SCAN_REQ_SIZE, end, buf.Length);
  }

  lemma {:induction false} ZeroBehind(before: seq<byte>, after: seq<byte>, base: nat, from: nat, to: nat)
    requires base <= from && base <= |after| == |before| && after[base..] == before[base..]
    requires ZeroIn(before, from, to)
    ensures ZeroIn(after, from, to)
  {
    assert after == after[..base] + before[base..];
  }

  // morse_cmd_hw_scan up to sending: the buffer is zeroed and rounded up to whole words, and the records
  // go behind the fixed part of the request.
  method BuildCommand(p: Params, store: bool, sched: Option<SchedReq>, memory: bool)
    returns (ret: int, buf: array?<byte>, end: nat)
    ensures ret == if memory then 0 else -ENOMEM
    ensures buf == null <==> ret != 0
    ensures buf != null ==>
              && end == CommandSize(p, sched) && buf.Length == RoundToWord(end)
              && buf[..SCAN_REQ_SIZE] == FixedPart(p, store, end)
              && (p.Starts() ==> Holds(buf[..], SCAN_REQ_SIZE, Tlvs(p, sched)))
              && ZeroIn(buf[..], end, buf.Length)
  {
    if !memory {
      return -ENOMEM, null, 0;
    }
    var req := new byte[RoundToWord(CommandSize(p, sched))](_ => 0);
    end := FillCommand(req, p, store, sched);
    ret, buf := 0, req;
  }
}
