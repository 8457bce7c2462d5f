// From the lists of a scan to the bytes of its command and back.
module ScanWire {
  import opened Bytes
  import opened Wrappers
  import opened ScanTlv
  import ScanLists

  // The firmware finds power q for channel i.
  ghost predicate Decodes(cs: seq<Channel>, ps: seq<s32>, i: nat, q: s32)
    requires i < |cs|
  {
    DecodedPower(ChannelBytes(cs), PowerBytes(ps), i) == Some(q)
  }

  lemma {:induction false} DecodesByIndex(cs: seq<Channel>, ps: seq<s32>, i: nat, q: s32)
    requires i < |cs|
    ensures var k := SixBits(cs[i].powerIdx); Decodes(cs, ps, i, q) <==> k < |ps| && ps[k] == q
  {
    PowerOfChannel(cs, ps, i);
  }

  ghost predicate AllDecode(cs: seq<Channel>, ps: seq<s32>, qs: seq<s32>)
    requires |cs| == |qs|
  {
    forall i :: 0 <= i < |cs| ==> Decodes(cs, ps, i, qs[i])
  }

  // Channel i points at its power in the list.
  ghost predicate Points(ps: seq<s32>, cs: seq<Channel>, qs: seq<s32>) {
    |cs| == |qs| && forall i :: 0 <= i < |cs| ==> ScanLists.PointsTo(ps, cs[i].powerIdx, qs[i])
  }

  lemma {:induction false} SixBitsSuffice(cs: seq<Channel>, ps: seq<s32>, qs: seq<s32>)
    requires Points(ps, cs, qs) && |ps| <= 64
    ensures AllDecode(cs, ps, qs)
  {
    forall i | 0 <= i < |cs|
      ensures Decodes(cs, ps, i, qs[i])
    {
      DecodesByIndex(cs, ps, i, qs[i]);
    }
  }

  // A list without repeats is no longer than a list that holds all of it.
  lemma {:induction false} Pigeonhole(d: seq<s32>, e: seq<s32>)
    requires ScanLists.NoRepeats(d) && forall x :: x in d ==> x in e
    ensures |d| <= |e|
    decreases |e|
  {
    if |d| > 0 {
      var x, rest := d[0], d[1..];
      assert x in d;
      var k :| 0 <= k < |e| && e[k] == x;
      var e' := e[..k] + e[k + 1..];
      forall y | y in rest
        ensures y in e'
      {
        assert y in d && y != x;
        var j :| 0 <= j < |e| && e[j] == y;
        assert j < k ==> e'[j] == y;
        assert j > k ==> e'[j - 1] == y;
      }
      Pigeonhole(rest, e');
    }
  }

  // Six bits tell at most 64 powers apart, whatever the list and the indices are.
  lemma {:induction false} SixBitsTell64(cs: seq<Channel>, ps: seq<s32>, qs: seq<s32>)
    requires |cs| == |qs| && AllDecode(cs, ps, qs)
    ensures |ScanLists.Dedup(qs)| <= 64
  {
    var d, e := ScanLists.Dedup(qs), ScanLists.Take(ps, 64);
    ScanLists.DedupMembers(qs);
    forall x | x in d
      ensures x in e
    {
      var i :| 0 <= i < |qs| && qs[i] == x;
      DecodesByIndex(cs, ps, i, x);
      assert e[SixBits(cs[i].powerIdx)] == x;
    }
    Pigeonhole(d, e);
  }

  // From a list of the distinct powers every channel's power is recovered exactly when there are at most 64.
  lemma {:induction false} WireIsLossless(cs: seq<Channel>, ps: seq<s32>, qs: seq<s32>)
    requires |cs| == |qs|
    requires |ScanLists.Dedup(qs)| <= 64 ==> ps == ScanLists.Dedup(qs) && Points(ps, cs, qs)
    ensures AllDecode(cs, ps, qs) <==> |ScanLists.Dedup(qs)| <= 64
  {
    if |ScanLists.Dedup(qs)| <= 64 {
      SixBitsSuffice(cs, ps, qs);
    } else if AllDecode(cs, ps, qs) {
      SixBitsTell64(cs, ps, qs);
    }
  }

  // The channels are those of the list, with their frequencies and widths.
  ghost predicate Packed(cs: seq<Channel>, t: ScanLists.Tables, list: seq<ScanLists.Chan>) {
    |cs| == |list| && forall i :: 0 <= i < |list| ==> cs[i].freqKhz == t.freqKhz(list[i]) && cs[i].bwMhz == t.bwMhz(list[i])
  }

  // The channels of the list as they go into the command.
  method PackList(sp: ScanLists.ScanParams, t: ScanLists.Tables) returns (cs: seq<Channel>)
    requires sp.Valid()
    ensures |cs| == sp.numChans && Packed(cs, t, sp.list) && forall i :: 0 <= i < |cs| ==> cs[i].powerIdx == sp.channels[i].powerIdx
  {
    cs := [];
    for i := 0 to sp.numChans
      invariant |cs| == i
      invariant forall k :: 0 <= k < i ==>
                  cs[k] == Channel(t.freqKhz(sp.list[k]), t.bwMhz(sp.list[k]), sp.channels[k].powerIdx)
    {
      var e := sp.channels[i];
      cs := cs + [Channel(t.freqKhz(e.chan), t.bwMhz(e.chan), e.powerIdx)];
    }
  }

  // The power list, and what goes into the command: the firmware recovers every channel's power exactly when
  // there are at most 64 distinct powers.
  method PreparePowers(sp: ScanLists.ScanParams, t: ScanLists.Tables, p: Params, canAllocate: bool)
    returns (ret: int, overrun: bool, p': Params)
    requires sp.Valid()
    modifies sp`powers, sp`nPowers, sp.channels
    ensures sp.Valid()
    ensures !canAllocate ==> ret == -ScanLists.ENOMEM && !overrun
    ensures var ps := ScanLists.PowersOf(t, sp.list);
            canAllocate ==>
              && (overrun <==> ScanLists.FirstPowerMissed(t, ps))
              && ret == if overrun && ScanLists.CoarseCount(ps) < 255 then -ScanLists.EFAULT else 0
    ensures ret != 0 ==> p' == p
    ensures ret == 0 ==> p' == p.(channels := p'.channels, powers := p'.powers) && Packed(p'.channels, t, sp.list)
    ensures var qs := ScanLists.Converted(t, ScanLists.PowersOf(t, sp.list));
            ret == 0 ==> (AllDecode(p'.channels, p'.powers, qs) <==> |ScanLists.Dedup(qs)| <= 64)
  {
    p' := p;
    ret, overrun := sp.BuildPowers(t, canAllocate);
    if ret != 0 {
      return;
    }
    ghost var qs := ScanLists.Converted(t, ScanLists.PowersOf(t, sp.list));
    var cs := PackList(sp, t);
    p' := p.(channels := cs, powers := sp.powers[..sp.nPowers]);
    assert sp.HoldsPowers(qs) ==> Points(p'.powers, cs, qs);
    WireIsLossless(cs, p'.powers, qs);
  }

  // ----- reading a command

  // The payload of the first record with the given tag.
  function Find(buf: seq<byte>, offsets: seq<nat>, tag: u16): Option<seq<byte>> {
    if |offsets| == 0 || offsets[0] + TLV_HEADER > |buf| then None
    else
      var payload, len := offsets[0] + TLV_HEADER, Read16(buf, offsets[0] + 2);
      if Read16(buf, offsets[0]) != tag then Find(buf, offsets[1..], tag)
      else if payload + len > |buf| then None
      else Some(buf[payload..payload + len])
  }

  // What a reader that walks the command by its headers finds under a tag.
  function ReadRecord(buf: seq<byte>, end: nat, tag: u16): Option<seq<byte>> {
    match Walk(buf, SCAN_REQ_SIZE, end, TLV_HEADER)
    case None => None
    case Some(offsets) => Find(buf, offsets, tag)
  }

  // The payload of the first record with the given tag, among the records themselves.
  function PayloadOf(ts: seq<Tlv>, tag: u16): Option<seq<byte>> {
    if |ts| == 0 then None else if ts[0].tag == tag then Some(ts[0].payload) else PayloadOf(ts[1..], tag)
  }

  lemma {:induction false} FindsPayload(buf: seq<byte>, base: nat, ts: seq<Tlv>, tag: u16)
    requires Recorded(buf, base, ts)
    ensures Find(buf, Offsets(ts, base), tag) == PayloadOf(ts, tag)
    decreases |ts|
  {
    if |ts| > 0 {
      var rest := Offsets(ts[1..], base + TLV_HEADER + |ts[0].payload|);
      FindsPayload(buf, base + TLV_HEADER + |ts[0].payload|, ts[1..], tag);
      assert ([base] + rest)[1..] == rest;
    }
  }

  // Reading a command under a tag gives the payload that was put there.
  lemma {:induction false} ReadsRecord(buf: seq<byte>, p: Params, sched: Option<SchedReq>, tag: u16)
    requires p.Starts() && Holds(buf, SCAN_REQ_SIZE, Tlvs(p, sched)) && Fit(Tlvs(p, sched))
    ensures ReadRecord(buf, CommandSize(p, sched), tag) == PayloadOf(Tlvs(p, sched), tag)
  {
    var ts, base := Tlvs(p, sched), SCAN_REQ_SIZE;
    SizeIsExact(p, sched);
    WalkFindsRecords(buf, base, ts);
    HoldsRecorded(buf, base, ts);
    FindsPayload(buf, base, ts, tag);
  }

  lemma {:induction false} PayloadAppend(s: seq<Tlv>, t: seq<Tlv>, tag: u16)
    ensures PayloadOf(s + t, tag) == if PayloadOf(s, tag).Some? then PayloadOf(s, tag) else PayloadOf(t, tag)
  {
    if |s| == 0 {
      assert s + t == t;
    } else {
      assert (s + t)[1..] == s[1..] + t;
      PayloadAppend(s[1..], t, tag);
    }
  }

  lemma {:induction false} PayloadOfOne(t: Tlv, tag: u16)
    ensures PayloadOf([t], tag) == if t.tag == tag then Some(t.payload) else None
  {}

  lemma {:induction false} ScanPayloads(p: Params, tag: u16)
    ensures PayloadOf(ScanTlvs(p), tag) ==
            if tag == 2 then Some(ChannelBytes(p.channels))
            else if tag == 3 then Some(PowerBytes(p.powers))
            else if tag == 4 && p.homeDwellMs != 0 then Some(Le32(p.homeDwellMs))
            else if tag == 1 then p.probe
            else None
  {
    var cs, ps := Tlv(TAG_CHAN_LIST, ChannelBytes(p.channels)), Tlv(TAG_POWER_LIST, PowerBytes(p.powers));
    var dwell := if p.homeDwellMs != 0 then [Tlv(TAG_DWELL_ON_HOME, Le32(p.homeDwellMs))] else [];
    var probe := match p.probe case Some(b) => [Tlv(TAG_PROBE_REQ, b)] case None => [];
    assert ListTlvs(p) == [cs] + [ps];
    PayloadAppend([cs], [ps], tag);
    PayloadAppend([cs] + [ps], dwell, tag);
    PayloadAppend([cs] + [ps] + dwell, probe, tag);
    PayloadOfOne(cs, tag);
    PayloadOfOne(ps, tag);
    if |dwell| > 0 { PayloadOfOne(dwell[0], tag); }
    if |probe| > 0 { PayloadOfOne(probe[0], tag); }
  }

  lemma {:induction false} SchedPayloads(r: SchedReq, tag: u16)
    ensures PayloadOf(SchedTlvs(r), tag) ==
            if tag == 7 then Some(Le32(r.delay) + Le32(FromS32(r.minRssi)))
            else if tag == 6 && r.matchSets.Some? then Some(FilterBytes(r.matchSets.value))
            else if tag == 5 && r.plans.Some? then Some(PlanBytes(r.plans.value))
            else None
  {
    var filter := match r.matchSets case Some(ms) => [Tlv(TAG_FILTER, FilterBytes(ms))] case None => [];
    var plans := match r.plans case Some(ps) => [Tlv(TAG_SCHED, PlanBytes(ps))] case None => [];
    PayloadAppend([InfoTlv(r)], filter, tag);
    PayloadAppend([InfoTlv(r)] + filter, plans, tag);
    PayloadOfOne(InfoTlv(r), tag);
    if |filter| > 0 { PayloadOfOne(filter[0], tag); }
    if |plans| > 0 { PayloadOfOne(plans[0], tag); }
  }

  // Walking a command finds its channel and power records and, exactly when they were asked for, the dwell
  // time on the home channel and the probe request.
  lemma {:induction false} ReadsScan(buf: seq<byte>, p: Params, sched: Option<SchedReq>)
    requires p.Starts() && Holds(buf, SCAN_REQ_SIZE, Tlvs(p, sched)) && Fit(Tlvs(p, sched))
    ensures var end := CommandSize(p, sched);
            && ReadRecord(buf, end, 2) == Some(ChannelBytes(p.channels))
            && ReadRecord(buf, end, 3) == Some(PowerBytes(p.powers))
            && (p.homeDwellMs == 0 ==> ReadRecord(buf, end, 4) == None)
            && (p.homeDwellMs != 0 ==> ReadRecord(buf, end, 4) == Some(Le32(p.homeDwellMs)))
            && ReadRecord(buf, end, 1) == p.probe
  {
    forall tag: u16 | 1 <= tag <= 4
      ensures ReadRecord(buf, CommandSize(p, sched), tag) == PayloadOf(ScanTlvs(p), tag)
    {
      ReadsRecord(buf, p, sched, tag);
      match sched {
        case None => assert Tlvs(p, sched) == ScanTlvs(p);
        case Some(r) =>
          PayloadAppend(ScanTlvs(p), SchedTlvs(r), tag);
          SchedPayloads(r, tag);
      }
    }
    ScanPayloads(p, 1);
    ScanPayloads(p, 2);
    ScanPayloads(p, 3);
    ScanPayloads(p, 4);
  }

  // A scheduled scan has its delay and threshold as well, and its match sets and plans exactly when given.
  lemma {:induction false} ReadsSched(buf: seq<byte>, p: Params, r: SchedReq)
    requires p.Starts() && Holds(buf, SCAN_REQ_SIZE, Tlvs(p, Some(r))) && Fit(Tlvs(p, Some(r)))
    ensures var end := CommandSize(p, Some(r));
            && ReadRecord(buf, end, 7) == Some(Le32(r.delay) + Le32(FromS32(r.minRssi)))
            && ReadRecord(buf, end, 6) == (if r.matchSets.Some? then Some(FilterBytes(r.matchSets.value)) else None)
            && ReadRecord(buf, end, 5) == (if r.plans.Some? then Some(PlanBytes(r.plans.value)) else None)
  {
    forall tag: u16 | 5 <= tag <= 7
      ensures ReadRecord(buf, CommandSize(p, Some(r)), tag) == PayloadOf(SchedTlvs(r), tag)
    {
      ReadsRecord(buf, p, Some(r), tag);
      PayloadAppend(ScanTlvs(p), SchedTlvs(r), tag);
      ScanPayloads(p, tag);
    }
    SchedPayloads(r, 5);
    SchedPayloads(r, 6);
    SchedPayloads(r, 7);
  }

  // The two words of the scheduled scan info, and the one of the dwell time.
  lemma {:induction false} InfoReadsBack(r: SchedReq, dwellMs: u32)
    ensures var info := Le32(r.delay) + Le32(FromS32(r.minRssi));
            Read32(info, 0) == r.delay && ToS32(Read32(info, 4)) == r.minRssi
    ensures Read32(Le32(dwellMs), 0) == dwellMs
  {
    var a, b := Le32(r.delay), Le32(FromS32(r.minRssi));
    var info := a + b;
    assert info[0..4] == a && info[4..8] == b;
    Read32Slice(info, 0);
    Read32Slice(info, 4);
    Read32OfLe32(r.delay);
    Read32OfLe32(FromS32(r.minRssi));
    Read32OfLe32(dwellMs);
  }

  // ----- from a request to the bytes of its command

  // The words of a channel record are the channels of the list, in order.
  ghost predicate CarriesChannels(record: seq<byte>, t: ScanLists.Tables, list: seq<ScanLists.Chan>) {
    |record| == 4 * |list| && forall i :: 0 <= i < |list| ==> CarriesChannel(record, i, t, list[i])
  }

  ghost predicate CarriesChannel(record: seq<byte>, i: nat, t: ScanLists.Tables, c: ScanLists.Chan)
    requires 4 * i + 4 <= |record|
  {
    var word := Read32(record, 4 * i);
    FreqOf(word) == t.freqKhz(c) % 0x10_0000 && Mhz(OpBwOf(word)) == if t.bwMhz(c) == 0 then 2 else t.bwMhz(c)
  }

  lemma {:induction false} PackedCarries(cs: seq<Channel>, t: ScanLists.Tables, list: seq<ScanLists.Chan>)
    requires Packed(cs, t, list)
    ensures CarriesChannels(ChannelBytes(cs), t, list)
  {
    forall i | 0 <= i < |list|
      ensures CarriesChannel(ChannelBytes(cs), i, t, list[i])
    {
      ChannelWord(cs, i);
      PackedFields(cs[i]);
      WidthsDecode(cs[i]);
    }
  }

  // The powers of the channels can be recovered from a channel record and a power record.
  ghost predicate CarriesPowers(channels: seq<byte>, powers: seq<byte>, qs: seq<s32>)
    requires |channels| == 4 * |qs|
  {
    forall i :: 0 <= i < |qs| ==> DecodedPower(channels, powers, i) == Some(qs[i])
  }

  // The command carries the channels of the list, and their powers exactly when 64 suffice.
  ghost predicate Carries(buf: seq<byte>, end: nat, t: ScanLists.Tables, list: seq<ScanLists.Chan>) {
    var qs := ScanLists.Converted(t, ScanLists.PowersOf(t, list));
    match (ReadRecord(buf, end, TAG_CHAN_LIST), ReadRecord(buf, end, TAG_POWER_LIST))
    case (Some(channels), Some(powers)) =>
      CarriesChannels(channels, t, list) && (CarriesPowers(channels, powers, qs) <==> |ScanLists.Dedup(qs)| <= 64)
    case _ => false
  }

  lemma {:induction false} CommandCarries(buf: seq<byte>, p: Params, sched: Option<SchedReq>, t: ScanLists.Tables,
                                          list: seq<ScanLists.Chan>)
    requires p.Starts() && Holds(buf, SCAN_REQ_SIZE, Tlvs(p, sched)) && Fit(Tlvs(p, sched))
    requires Packed(p.channels, t, list)
    requires var qs := ScanLists.Converted(t, ScanLists.PowersOf(t, list));
             AllDecode(p.channels, p.powers, qs) <==> |ScanLists.Dedup(qs)| <= 64
    ensures Carries(buf, CommandSize(p, sched), t, list)
  {
    var qs := ScanLists.Converted(t, ScanLists.PowersOf(t, list));
    ReadsScan(buf, p, sched);
    PackedCarries(p.channels, t, list);
    assert AllDecode(p.channels, p.powers, qs) <==> CarriesPowers(ChannelBytes(p.channels), PowerBytes(p.powers), qs) by {
      forall i | 0 <= i < |qs|
        ensures Decodes(p.channels, p.powers, i, qs[i]) <==>
                DecodedPower(ChannelBytes(p.channels), PowerBytes(p.powers), i) == Some(qs[i])
      {}
    }
  }

  // Which allocations succeed: of the channel list, the power list and the command.
  datatype Memory = Memory(channels: bool, powers: bool, command: bool)

  // From a request to its command. Reading the bytes by the headers of the records gives back the channels of
  // the list, which is the whole list asked for exactly when its room suffices, and the power of every channel
  // exactly when there are at most 64 distinct powers. What building the lists returns is not looked at: lists
  // that could not be allocated are sent as they are.
  method BuildScan(t: ScanLists.Tables, survey: bool, reqs: seq<int>, p: Params, store: bool,
                   sched: Option<SchedReq>, memory: Memory)
    returns (lists: int, ret: int, p': Params, buf: array?<byte>, end: nat, ghost list: seq<ScanLists.Chan>)
    ensures list == if memory.channels then ScanLists.Take(ScanLists.Dedup(ScanLists.Wanted(t, survey, reqs)),
                                                           Low16(ScanLists.Budget(t, survey, reqs))) else []
    ensures memory.channels ==>
              (ScanLists.RoomSuffices(t, survey, reqs) <==> list == ScanLists.Dedup(ScanLists.Wanted(t, survey, reqs)))
    ensures memory.channels && ScanLists.RoomSuffices(t, survey, reqs) ==>
              ScanLists.NoRepeats(list) && forall c :: c in list <==> ScanLists.AskedByOne(t, survey, reqs, c)
    ensures var ps := ScanLists.PowersOf(t, list);
            lists == if !memory.channels || !memory.powers then -ScanLists.ENOMEM
                     else if ScanLists.FirstPowerMissed(t, ps) && ScanLists.CoarseCount(ps) < 255 then -ScanLists.EFAULT
                     else 0
    ensures lists != -ScanLists.EFAULT ==> ret == if memory.command then 0 else -ScanTlv.ENOMEM
    ensures lists != -ScanLists.EFAULT ==>
              && p' == p.(channels := p'.channels, powers := p'.powers) && Packed(p'.channels, t, list)
              && (lists != 0 ==> p'.powers == [])
    ensures buf != null <==> lists != -ScanLists.EFAULT && ret == 0
    ensures buf != null ==> end == CommandSize(p', sched) <= buf.Length
    ensures buf != null && lists == 0 && p.Starts() && Fit(Tlvs(p', sched)) ==> Carries(buf[..], end, t, list)
  {
    ret, p', buf, end := 0, p, null, 0;
    var sp := new ScanLists.ScanParams();
    ghost var refused;
    lists, refused := sp.BuildChannels(t, survey, reqs, memory.channels);
    list := sp.list;
    ScanLists.ScanListExact(t, survey, reqs);
    if lists == 0 {
      var overrun;
      lists, overrun, p' := PreparePowers(sp, t, p, memory.powers);
    }
    if lists == -ScanLists.EFAULT {
      return;
    }
    if lists != 0 {
      var cs := PackList(sp, t);
      p' := p.(channels := cs, powers := []);
    }
    ret, buf, end := BuildCommand(p', store, sched, memory.command);
    if buf != null && lists == 0 && p.Starts() && Fit(Tlvs(p', sched)) {
      CommandCarries(buf[..], p', sched, t, list);
    }
  }
}
