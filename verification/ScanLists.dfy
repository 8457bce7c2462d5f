// The channel list and the power list of a hardware scan: requested channels, with wide ones taken
// apart into their primaries, each channel once; and the distinct transmit powers, with an index per
// channel.
module ScanLists {
  import opened Bytes
  import opened Wrappers

  const ENOMEM := 12
  const EFAULT := 14
  const EINVAL := 22
  const INT_MIN := -0x8000_0000

  // An entry of the driver's table of S1G channels; entries are compared by address.
  type Chan = nat

  // What ch_flag_to_chan_bw makes of a channel's flags; 0 for flags it does not know.
  type Bandwidth = x: nat | x == 0 || x == 1 || x == 2 || x == 4 || x == 8

  // The channel tables and the unit conversion, which stay as they are while lists are built:
  // the S1G channel a requested channel maps to, a channel's width, frequency and regulatory power, and
  // the primary of a wide channel at a given width and index, where it is defined.
  datatype Tables = Tables(toS1g: int -> Option<Chan>, bwMhz: Chan -> Bandwidth, freqKhz: Chan -> u32,
                           maxPower: Chan -> s32, primary: (Chan, nat, nat) -> Option<Chan>, toQdbm: s32 -> s32)

  // ----- lists without repeats

  // The elements of s in order of first appearance.
  function Dedup<T(==)>(s: seq<T>): seq<T> {
    if |s| == 0 then []
    else
      var d := Dedup(s[..|s| - 1]);
      if s[|s| - 1] in d then d else d + [s[|s| - 1]]
  }

  predicate NoRepeats<T(==)>(s: seq<T>) {
    forall i, j :: 0 <= i < j < |s| ==> s[i] != s[j]
  }

  lemma {:induction false} DedupMembers<T>(s: seq<T>)
    ensures forall x :: x in Dedup(s) <==> x in s
    ensures NoRepeats(Dedup(s)) && |Dedup(s)| <= |s|
  {
    if |s| > 0 {
      var n := |s| - 1;
      DedupMembers(s[..n]);
      assert s == s[..n] + [s[n]];
    }
  }

  lemma {:induction false} DedupAppend<T>(s: seq<T>, x: T)
    ensures Dedup(s + [x]) == if x in Dedup(s) then Dedup(s) else Dedup(s) + [x]
  {}

  function Take<T>(s: seq<T>, n: nat): seq<T> {
    if n <= |s| then s[..n] else s
  }

  // A list filled to capacity stays the same whatever else is asked for.
  lemma {:induction false} FullStaysFull<T>(s: seq<T>, more: seq<T>, list: seq<T>, capacity: nat)
    requires list == Take(Dedup(s), capacity) && |list| == capacity
    ensures list == Take(Dedup(s + more), capacity)
  {
    assert (s + more)[..|s|] == s;
    DedupPrefix(s + more, |s|);
  }

  // ----- what a request asks for

  // The primaries of width `bw` of channel c from index i on.
  function PrimariesFrom(t: Tables, c: Chan, bw: nat, i: nat): seq<Chan>
    requires bw > 0
    decreases t.bwMhz(c) - i
  {
    if i >= t.bwMhz(c) then []
    else
      (match t.primary(c, bw, i) case Some(p) => [p] case None => []) + PrimariesFrom(t, c, bw, i + bw)
  }

  function Primaries(t: Tables, c: Chan): seq<Chan> {
    PrimariesFrom(t, c, 1, 0) + PrimariesFrom(t, c, 2, 0)
  }

  // The channels to insert for one requested channel, and for a whole request, in order.
  function Expand(t: Tables, survey: bool, req: int): seq<Chan> {
    match t.toS1g(req)
    case None => []
    case Some(c) => if !survey && t.bwMhz(c) > 2 then Primaries(t, c) else [c]
  }

  function Wanted(t: Tables, survey: bool, reqs: seq<int>): seq<Chan> {
    if |reqs| == 0 then []
    else Wanted(t, survey, reqs[..|reqs| - 1]) + Expand(t, survey, reqs[|reqs| - 1])
  }

  // The room set aside in advance.
  function Room(t: Tables, survey: bool, req: int): nat {
    match t.toS1g(req)
    case None => 0
    case Some(c) => if !survey && t.bwMhz(c) > 2 then t.bwMhz(c) / 1 + t.bwMhz(c) / 2 else 1
  }

  function Budget(t: Tables, survey: bool, reqs: seq<int>): nat {
    if |reqs| == 0 then 0
    else Budget(t, survey, reqs[..|reqs| - 1]) + Room(t, survey, reqs[|reqs| - 1])
  }

  // An 8 MHz channel has eight 1 MHz and four 2 MHz primaries, a 4 MHz channel four and two.
  lemma {:induction false} RoomMeans(t: Tables, survey: bool, req: int)
    ensures t.toS1g(req).None? ==> Room(t, survey, req) == 0
    ensures t.toS1g(req).Some? ==>
              var bw := t.bwMhz(t.toS1g(req).value);
              Room(t, survey, req) == if !survey && bw == 8 then 12 else if !survey && bw == 4 then 6 else 1
  {}

  lemma {:induction false} PrimariesCount(t: Tables, c: Chan, bw: nat, i: nat)
    requires bw == 1 || bw == 2
    ensures i <= t.bwMhz(c) ==> |PrimariesFrom(t, c, bw, i)| * bw <= t.bwMhz(c) - i + bw - 1
    decreases t.bwMhz(c) - i
  {
    if i < t.bwMhz(c) {
      PrimariesCount(t, c, bw, i + bw);
    }
  }

  lemma {:induction false} ExpandFits(t: Tables, survey: bool, req: int)
    ensures |Expand(t, survey, req)| <= Room(t, survey, req)
  {
    match t.toS1g(req) {
      case None =>
      case Some(c) =>
        PrimariesCount(t, c, 1, 0);
        PrimariesCount(t, c, 2, 0);
    }
  }

  // The precomputed room is always enough.
  lemma {:induction false} WantedFits(t: Tables, survey: bool, reqs: seq<int>)
    ensures |Wanted(t, survey, reqs)| <= Budget(t, survey, reqs)
  {
    if |reqs| > 0 {
      WantedFits(t, survey, reqs[..|reqs| - 1]);
      ExpandFits(t, survey, reqs[|reqs| - 1]);
    }
  }

  // p is a defined 1 or 2 MHz primary of the wide channel c.
  ghost predicate IsPrimary(t: Tables, c: Chan, p: Chan) {
    exists bw, i :: 1 <= bw <= 2 && 0 <= i < t.bwMhz(c) && i % bw == 0 && t.primary(c, bw, i) == Some(p)
  }

  lemma {:induction false} PrimariesFromMembers(t: Tables, c: Chan, bw: nat, i: nat, p: Chan)
    requires 1 <= bw <= 2 && i % bw == 0
    ensures p in PrimariesFrom(t, c, bw, i) <==>
            exists k :: i <= k < t.bwMhz(c) && k % bw == 0 && t.primary(c, bw, k) == Some(p)
    decreases t.bwMhz(c) - i
  {
    if i < t.bwMhz(c) {
      PrimariesFromMembers(t, c, bw, i + bw, p);
      if p in PrimariesFrom(t, c, bw, i + bw) {
        var k :| i + bw <= k < t.bwMhz(c) && k % bw == 0 && t.primary(c, bw, k) == Some(p);
        assert i <= k;
      }
      assert forall k :: i <= k < t.bwMhz(c) && k % bw == 0 ==> k == i || i + bw <= k;
    }
  }

  lemma {:induction false} PrimariesMembers(t: Tables, c: Chan, p: Chan)
    ensures p in Primaries(t, c) <==> IsPrimary(t, c, p)
  {
    PrimariesFromMembers(t, c, 1, 0, p);
    PrimariesFromMembers(t, c, 2, 0, p);
    if IsPrimary(t, c, p) {
      var bw, i :| 1 <= bw <= 2 && 0 <= i < t.bwMhz(c) && i % bw == 0 && t.primary(c, bw, i) == Some(p);
      assert bw == 1 || bw == 2;
    }
  }

  // Channel p belongs in the scan for request r.
  ghost predicate Asked(t: Tables, survey: bool, r: int, p: Chan) {
    match t.toS1g(r)
    case None => false
    case Some(c) => if survey || t.bwMhz(c) <= 2 then p == c else IsPrimary(t, c, p)
  }

  lemma {:induction false} ExpandMembers(t: Tables, survey: bool, r: int, p: Chan)
    ensures p in Expand(t, survey, r) <==> Asked(t, survey, r, p)
  {
    match t.toS1g(r) {
      case None =>
      case Some(c) => PrimariesMembers(t, c, p);
    }
  }

  ghost predicate AskedByOne(t: Tables, survey: bool, reqs: seq<int>, p: Chan) {
    exists r :: r in reqs && Asked(t, survey, r, p)
  }

  lemma {:induction false} WantedMembers(t: Tables, survey: bool, reqs: seq<int>, p: Chan)
    ensures p in Wanted(t, survey, reqs) <==> AskedByOne(t, survey, reqs, p)
  {
    if |reqs| > 0 {
      var n := |reqs| - 1;
      var before := reqs[..n];
      WantedMembers(t, survey, before, p);
      ExpandMembers(t, survey, reqs[n], p);
      assert reqs == before + [reqs[n]];
      if AskedByOne(t, survey, before, p) {
        var r :| r in before && Asked(t, survey, r, p);
        assert r in reqs;
      } else if AskedByOne(t, survey, reqs, p) {
        var r :| r in reqs && Asked(t, survey, r, p);
        assert r in before || r == reqs[n];
      }
    }
  }

  // The list built is free of repeats and holds exactly the channels asked for: outside survey mode the
  // requested narrow channels and every defined 1 and 2 MHz primary of the requested wide ones, in
  // survey mode the requested channels themselves; and the room set aside for it suffices.
  lemma {:induction false} ScanListExact(t: Tables, survey: bool, reqs: seq<int>)
    ensures var list := Dedup(Wanted(t, survey, reqs));
            && NoRepeats(list)
            && (forall p :: p in list <==> AskedByOne(t, survey, reqs, p))
            && |list| <= Budget(t, survey, reqs)
  {
    DedupMembers(Wanted(t, survey, reqs));
    WantedFits(t, survey, reqs);
    forall p: Chan
      ensures p in Wanted(t, survey, reqs) <==> AskedByOne(t, survey, reqs, p)
    {
      WantedMembers(t, survey, reqs, p);
    }
  }

  // The room set aside suffices: its size, kept in 16 bits, is no less than the list.
  predicate RoomSuffices(t: Tables, survey: bool, reqs: seq<int>) {
    |Dedup(Wanted(t, survey, reqs))| <= Low16(Budget(t, survey, reqs))
  }

  // It does whenever the room itself fits 16 bits.
  lemma {:induction false} SmallRoomSuffices(t: Tables, survey: bool, reqs: seq<int>)
    requires Budget(t, survey, reqs) < 0x1_0000
    ensures RoomSuffices(t, survey, reqs)
  {
    ScanListExact(t, survey, reqs);
  }

  lemma {:induction false} NarrowRequest(t: Tables, survey: bool, req: int, c: Chan)
    requires t.bwMhz(c) <= 2 && t.toS1g(req) == Some(c)
    ensures Expand(t, survey, req) == [c] && Room(t, survey, req) == 1
  {}

  lemma {:induction false} SameRequest(t: Tables, survey: bool, reqs: seq<int>, c: Chan)
    requires t.bwMhz(c) <= 2 && forall i :: 0 <= i < |reqs| ==> t.toS1g(reqs[i]) == Some(c)
    ensures Budget(t, survey, reqs) == |reqs|
    ensures Dedup(Wanted(t, survey, reqs)) == if |reqs| == 0 then [] else [c]
  {
    if |reqs| > 0 {
      var before, last := reqs[..|reqs| - 1], reqs[|reqs| - 1];
      SameRequest(t, survey, before, c);
      NarrowRequest(t, survey, last, c);
      DedupAppend(Wanted(t, survey, before), c);
    }
  }

  // It does not when one narrow channel is requested 65536 times: the room wraps to nothing.
  lemma {:induction false} RoomWraps(t: Tables, survey: bool, reqs: seq<int>, c: Chan)
    requires |reqs| == 0x1_0000
    requires t.bwMhz(c) <= 2 && forall i :: 0 <= i < |reqs| ==> t.toS1g(reqs[i]) == Some(c)
    ensures Low16(Budget(t, survey, reqs)) == 0 && !RoomSuffices(t, survey, reqs)
  {
    SameRequest(t, survey, reqs, c);
  }

  // ----- the power dictionary

  // The regulatory powers of a list of channels, and the powers as sent.
  function PowersOf(t: Tables, chans: seq<Chan>): (r: seq<s32>)
    ensures |r| == |chans| && forall i :: 0 <= i < |chans| ==> r[i] == t.maxPower(chans[i])
  {
    seq(|chans|, i requires 0 <= i < |chans| => t.maxPower(chans[i]))
  }

  function Converted(t: Tables, ps: seq<s32>): (r: seq<s32>)
    ensures |r| == |ps| && forall i :: 0 <= i < |ps| ==> r[i] == t.toQdbm(ps[i])
  {
    seq(|ps|, i requires 0 <= i < |ps| => t.toQdbm(ps[i]))
  }

  // The first pass: changes of power along the list, starting from INT_MIN.
  function CoarseCount(ps: seq<s32>): nat {
    if |ps| == 0 then 0
    else
      var n := |ps| - 1;
      CoarseCount(ps[..n]) + (if ps[n] != (if n == 0 then INT_MIN else ps[n - 1]) then 1 else 0)
  }

  predicate StartsAtIntMin(ps: seq<s32>) {
    |ps| > 0 && ps[0] == INT_MIN
  }

  // A change of power at k that brings back a power sent earlier in the list.
  predicate BringsBack(ps: seq<s32>, qs: seq<s32>, k: nat) {
    0 < k < |ps| <= |qs| && ps[k] != ps[k - 1] && qs[k] in qs[..k]
  }

  ghost predicate Recurs(ps: seq<s32>, qs: seq<s32>) {
    exists k: nat :: BringsBack(ps, qs, k)
  }

  lemma {:induction false} RecursStep(ps: seq<s32>, qs: seq<s32>)
    requires |ps| == |qs| > 0
    ensures var n := |ps| - 1; Recurs(ps, qs) <==> Recurs(ps[..n], qs[..n]) || BringsBack(ps, qs, n)
  {
    var n := |ps| - 1;
    if Recurs(ps, qs) && !BringsBack(ps, qs, n) {
      var k: nat :| BringsBack(ps, qs, k);
      assert qs[..n][..k] == qs[..k];
      assert BringsBack(ps[..n], qs[..n], k);
    }
    if Recurs(ps[..n], qs[..n]) {
      var k: nat :| BringsBack(ps[..n], qs[..n], k);
      assert qs[..n][..k] == qs[..k];
      assert BringsBack(ps, qs, k);
    }
  }

  // What the first pass counts, corrected for a first power of INT_MIN: each change of power may bring a new
  // power, so there are never more distinct powers, and as many exactly when no power comes back.
  lemma {:induction false} CountsChanges(t: Tables, ps: seq<s32>)
    ensures var qs := Converted(t, ps);
            var changes := CoarseCount(ps) + if StartsAtIntMin(ps) then 1 else 0;
            |Dedup(qs)| <= changes && (|Dedup(qs)| == changes <==> !Recurs(ps, qs))
  {
    if |ps| > 0 {
      var n := |ps| - 1;
      var qs := Converted(t, ps);
      CountsChanges(t, ps[..n]);
      assert qs[..n] == Converted(t, ps[..n]);
      DedupMembers(qs[..n]);
      RecursStep(ps, qs);
      if n > 0 && ps[n] == ps[n - 1] {
        assert qs[..n][n - 1] == qs[n];
      }
    }
  }

  // The distinct powers fit the array sized by the first pass unless the first power is INT_MIN, which the
  // count misses; and then exactly when a change of power brings back an earlier one, which makes up for it.
  lemma {:induction false} PowersFitExactly(t: Tables, ps: seq<s32>)
    ensures |Dedup(Converted(t, ps))| <= CoarseCount(ps) <==>
            !StartsAtIntMin(ps) || Recurs(ps, Converted(t, ps))
  {
    CountsChanges(t, ps);
  }

  // The array is written past its end: the count misses the first power, nothing makes up for it, and the
  // 8-bit count of powers reaches the end of the array before it wraps.
  ghost predicate FirstPowerMissed(t: Tables, ps: seq<s32>) {
    StartsAtIntMin(ps) && !Recurs(ps, Converted(t, ps)) && CoarseCount(ps) <= 255
  }

  // One channel of power INT_MIN leaves no room for its power.
  lemma {:induction false} IntMinIsMissed(t: Tables)
    ensures |Dedup(Converted(t, [INT_MIN]))| > CoarseCount([INT_MIN])
  {}

  lemma {:induction false} DedupPrefix<T>(s: seq<T>, i: nat)
    requires i <= |s|
    ensures Dedup(s[..i]) <= Dedup(s)
    decreases |s| - i
  {
    if i < |s| {
      DedupPrefix(s, i + 1);
      assert s[..i + 1][..i] == s[..i];
    } else {
      assert s[..i] == s;
    }
  }

  // ----- the driver's lists

  datatype Entry = Entry(chan: Chan, powerIdx: byte)

  predicate PointsTo(list: seq<s32>, i: nat, x: s32) {
    i < |list| && list[i] == x
  }

  class ScanParams {
    var channels: array?<Entry>
    var numChans: nat     // 16 bits
    var capacity: nat     // allocated_chans, 16 bits
    var powers: array?<s32>
    var nPowers: nat      // 8 bits
    // the channels of the list
    ghost var list: seq<Chan>

    constructor ()
      ensures Valid() && channels == null && powers == null && nPowers == 0
    {
      channels, powers, numChans, capacity, nPowers, list := null, null, 0, 0, 0, [];
    }

    ghost predicate Valid()
      reads this, channels
    {
      && |list| == numChans
      && (channels == null ==> numChans == 0)
      && (channels != null ==> numChans <= capacity <= channels.Length)
      && (forall i :: 0 <= i < numChans ==> channels[i].chan == list[i])
    }

    // channel_is_in_hw_scan_list
    method IsInList(chan: Chan) returns (found: bool)
      requires Valid()
      ensures found <==> chan in list
    {
      for i := 0 to numChans
        invariant forall k :: 0 <= k < i ==> list[k] != chan
      {
        if channels[i].chan == chan {
          return true;
        }
      }
      return false;
    }

    // The list is what has been asked for so far, as far as there is room.
    ghost predicate Lists(asked: seq<Chan>)
      reads this
    {
      list == Take(Dedup(asked), capacity)
    }

    // insert_channel_into_hw_scan_list; pre is what has been asked for so far. A full list refuses even
    // the channels it holds.
    method Insert(chan: Chan, ghost pre: seq<Chan>) returns (ret: int)
      requires Valid() && (channels != null ==> Lists(pre))
      modifies this`numChans, this`list, channels
      ensures Valid()
      ensures ret == if channels == null then -EFAULT else if old(numChans) >= capacity then -ENOMEM else 0
      ensures channels != null ==> Lists(pre + [chan])
      ensures ret != 0 ==> list == old(list)
    {
      if channels == null {
        return -EFAULT;
      }
      if numChans >= capacity {
        FullStaysFull(pre, [chan], list, capacity);
        return -ENOMEM;
      }
      DedupAppend(pre, chan);
      var known := IsInList(chan);
      if known {
        return 0;
      }
      channels[numChans] := Entry(chan, channels[numChans].powerIdx);
      numChans := numChans + 1;
      list := list + [chan];
      ret := 0;
    }

    // The inner loop of deconstruct_scan_channel_into_scan_list: the primaries of one width.
    method InsertPrimaries(t: Tables, chan: Chan, bw: nat, ghost pre: seq<Chan>) returns (ret: int)
      requires Valid() && (channels != null ==> Lists(pre)) && bw > 0
      modifies this`numChans, this`list, channels
      ensures Valid() && (channels != null ==> Lists(pre + PrimariesFrom(t, chan, bw, 0)))
      ensures ret == 0 || (ret == -EFAULT && channels == null) || (ret == -ENOMEM && numChans == capacity)
      ensures channels != null && |pre| + |PrimariesFrom(t, chan, bw, 0)| <= capacity ==> ret == 0
    {
      var opBw: nat := t.bwMhz(chan);
      var i := 0;
      ghost var post, rest, all := pre, PrimariesFrom(t, chan, bw, 0), pre + PrimariesFrom(t, chan, bw, 0);
      while i < opBw
        invariant 0 <= i && Valid() && (channels != null ==> Lists(post))
        invariant rest == PrimariesFrom(t, chan, bw, i) && post + rest == all
      {
        ghost var after := PrimariesFrom(t, chan, bw, i + bw);
        match t.primary(chan, bw, i) {
          case None =>
            assert rest == after;
          case Some(p) =>
            assert rest == [p] + after;
            Shift(post, p, after, all);
            DedupMembers(post);
            ret := Insert(p, post);
            if ret == -ENOMEM {
              FullStaysFull(post, rest, list, capacity);
            }
            if ret != 0 {
              return;
            }
            post := post + [p];
        }
        rest := after;
        i := i + bw;
      }
      assert rest == [] && post + [] == post;
      ret := 0;
    }

    // deconstruct_scan_channel_into_scan_list
    method Deconstruct(t: Tables, chan: Chan, ghost pre: seq<Chan>) returns (ret: int)
      requires Valid() && (channels != null ==> Lists(pre))
      modifies this`numChans, this`list, channels
      ensures Valid() && (channels != null ==> Lists(if t.bwMhz(chan) > 2 then pre + Primaries(t, chan) else pre))
      ensures t.bwMhz(chan) <= 2 <==> ret == -EINVAL
      ensures ret == 0 || ret == -EINVAL || (ret == -EFAULT && channels == null)
              || (ret == -ENOMEM && numChans == capacity)
      ensures t.bwMhz(chan) > 2 && channels != null && |pre| + |Primaries(t, chan)| <= capacity ==> ret == 0
    {
      var opBw: nat := t.bwMhz(chan);
      if opBw <= 2 || opBw > 8 {
        return -EINVAL;
      }
      ghost var ones, twos := PrimariesFrom(t, chan, 1, 0), PrimariesFrom(t, chan, 2, 0);
      assert pre + ones + twos == pre + Primaries(t, chan);
      var primBw := 1;
      while primBw <= 2
        invariant 1 <= primBw <= 3 && Valid()
        invariant channels != null ==>
                    Lists(if primBw == 1 then pre else if primBw == 2 then pre + ones else pre + ones + twos)
      {
        ret := InsertPrimaries(t, chan, primBw, if primBw == 1 then pre else pre + ones);
        if primBw == 1 && ret == -ENOMEM && channels != null {
          FullStaysFull(pre + ones, twos, list, capacity);
        }
        if ret != 0 {
          return;
        }
        primBw := primBw + 1;
      }
      ret := 0;
    }

    // One requested channel.
    method InsertOne(t: Tables, survey: bool, req: int, ghost pre: seq<Chan>) returns (ret: int)
      requires Valid() && channels != null && Lists(pre)
      modifies this`numChans, this`list, channels
      ensures Valid() && Lists(pre + Expand(t, survey, req))
      ensures |pre| + |Expand(t, survey, req)| <= capacity ==> ret == 0
    {
      ret := 0;
      match t.toS1g(req) {
        case None =>
          assert pre + [] == pre;
        case Some(chan) =>
          if !survey && t.bwMhz(chan) > 2 {
            ret := Deconstruct(t, chan, pre);
          } else {
            DedupMembers(pre);
            ret := Insert(chan, pre);
          }
      }
    }

    // The loop over the requested channels. What the insertions return is not looked at; `refused` says
    // whether one failed.
    method InsertRequested(t: Tables, survey: bool, reqs: seq<int>) returns (ghost refused: bool)
      requires Valid() && channels != null && numChans == 0
      modifies this`numChans, this`list, channels
      ensures Valid() && Lists(Wanted(t, survey, reqs))
      ensures Budget(t, survey, reqs) <= capacity ==> !refused
    {
      refused := false;
      for i := 0 to |reqs|
        invariant Valid() && Lists(Wanted(t, survey, reqs[..i]))
        invariant Budget(t, survey, reqs) <= capacity ==> !refused
      {
        assert reqs[..i + 1][..i] == reqs[..i];
        WantedPrefixFits(t, survey, reqs, i);
        var ret := InsertOne(t, survey, reqs[i], Wanted(t, survey, reqs[..i]));
        refused := refused || ret != 0;
      }
      assert reqs[..|reqs|] == reqs;
    }

    // hw_scan_initialise_channel_and_power_lists up to the power list. The capacity is kept in 16 bits.
    method BuildChannels(t: Tables, survey: bool, reqs: seq<int>, canAllocate: bool)
      returns (ret: int, ghost refused: bool)
      modifies this
      ensures Valid() && powers == old(powers) && nPowers == old(nPowers)
      ensures ret == if canAllocate then 0 else -ENOMEM
      ensures ret != 0 ==> list == []
      ensures ret == 0 ==> channels != null && fresh(channels)
      ensures ret == 0 ==> list == Take(Dedup(Wanted(t, survey, reqs)), Low16(Budget(t, survey, reqs)))
      ensures ret == 0 ==> NoRepeats(list)
      ensures ret == 0 ==>
                (list == Dedup(Wanted(t, survey, reqs)) <==> RoomSuffices(t, survey, reqs))
      ensures Budget(t, survey, reqs) < 0x1_0000 ==> !refused
    {
      refused := false;
      var toAllocate := CountRoom(t, survey, reqs);
      channels, numChans, capacity, list := null, 0, 0, [];
      if !canAllocate {
        return -ENOMEM, false;
      }
      channels := new Entry[toAllocate](_ => Entry(0, 0));
      capacity := Low16(toAllocate);
      refused := InsertRequested(t, survey, reqs);
      DedupMembers(Wanted(t, survey, reqs));
      ret := 0;
    }

    // A rough estimate of the number of powers.
    method CountPowers(t: Tables) returns (n: nat)
      requires Valid()
      ensures n == CoarseCount(PowersOf(t, list))
    {
      ghost var ps := PowersOf(t, list);
      n := 0;
      var last := INT_MIN;
      for i := 0 to numChans
        invariant n == CoarseCount(ps[..i])
        invariant last == if i == 0 then INT_MIN else ps[i - 1]
      {
        assert ps[..i + 1][..i] == ps[..i];
        var power := t.maxPower(channels[i].chan);
        if power != last {
          last := power;
          n := n + 1;
        }
      }
      assert ps[..numChans] == ps;
    }

    // Find the power in the list, or add it at the end; the count is kept in 8 bits. `overrun` when it was
    // written past the end of the array, `failed` when the count shows it.
    method IndexPower(power: s32) returns (j: byte, overrun: bool, failed: bool)
      requires powers != null && nPowers <= powers.Length && nPowers < 0x100
      modifies this`nPowers, powers
      ensures nPowers < 0x100 && (failed <==> nPowers > powers.Length)
      ensures var known := old(powers[..nPowers]);
              if power in known
              then !overrun && j < |known| && known[j] == power && nPowers == |known| && powers[..nPowers] == known
              else (overrun <==> |known| == powers.Length)
                   && (failed <==> overrun && |known| < 255)
                   && (!overrun && |known| < 255 ==>
                         j == |known| && nPowers == |known| + 1 && powers[..nPowers] == known + [power])
    {
      j, overrun, failed := 0, false, false;
      while j < nPowers && powers[j] != power
        invariant j <= nPowers && power !in powers[..j]
      {
        j := j + 1;
      }
      if j == nPowers {
        if j < powers.Length {
          powers[j] := power;
        } else {
          overrun := true;
        }
        nPowers := (nPowers + 1) % 0x100;
        failed := nPowers > powers.Length;
      }
    }

    // Every channel carries the index of its power.
    ghost predicate Indexed(qs: seq<s32>, n: nat)
      requires n <= numChans && n <= |qs| && Valid()
      reads this, channels
    {
      forall i :: 0 <= i < n ==> PointsTo(Dedup(qs), channels[i].powerIdx, qs[i])
    }

    // The power list after i channels: the distinct powers so far, unless they are too many to count.
    ghost predicate Filled(qs: seq<s32>, i: nat, overrun: bool)
      requires i <= numChans && i <= |qs| && Valid()
      reads this, powers, channels
    {
      && powers != null && nPowers <= powers.Length && nPowers < 0x100
      && (|Dedup(qs[..i])| <= 255 ==> powers[..nPowers] == Dedup(qs[..i]) && Indexed(qs, i))
      && (overrun <==> powers.Length < |Dedup(qs[..i])| && powers.Length <= 255)
      && (overrun ==> powers.Length == 255)
    }

    // The power list is the distinct powers, and every channel points at its own.
    ghost predicate HoldsPowers(qs: seq<s32>)
      requires Valid() && |qs| == numChans
      reads this, powers, channels
    {
      powers != null && nPowers <= powers.Length && powers[..nPowers] == Dedup(qs) && Indexed(qs, numChans)
    }

    // One channel's turn in the loop that fills the power list.
    method AssignPower(i: nat, power: s32, overrun: bool, ghost qs: seq<s32>) returns (overrun': bool, failed: bool)
      requires Valid() && i < numChans == |qs| && power == qs[i]
      requires Filled(qs, i, overrun)
      modifies this`nPowers, powers, channels
      ensures Valid()
      ensures !failed ==> Filled(qs, i + 1, overrun')
      ensures failed ==> overrun' && powers.Length < |Dedup(qs)| && powers.Length < 255
    {
      NextDistinct(qs, i);
      var j, over;
      j, over, failed := IndexPower(power);
      overrun' := overrun || over;
      if !failed {
        assert |Dedup(qs[..i + 1])| <= 255 ==> PointsTo(Dedup(qs), j, power) && Indexed(qs, i);
        channels[i] := Entry(channels[i].chan, j);
        assert |Dedup(qs[..i + 1])| <= 255 ==> Indexed(qs, i + 1);
      }
    }

    // The loop that fills the power list and gives every channel its index. The array is overrun when the
    // distinct powers outnumber it and the 8-bit count can get that far; the count shows it except at its
    // very end.
    method FillPowers(t: Tables, ghost qs: seq<s32>) returns (ret: int, overrun: bool)
      requires Valid() && powers != null && nPowers == 0
      requires qs == Converted(t, PowersOf(t, list))
      modifies this`nPowers, powers, channels
      ensures Valid()
      ensures overrun <==> powers.Length < |Dedup(qs)| && powers.Length <= 255
      ensures ret == if overrun && powers.Length < 255 then -EFAULT else 0
      ensures ret == 0 ==> nPowers <= powers.Length && (HoldsPowers(qs) <==> |Dedup(qs)| <= 255)
    {
      overrun := false;
      for i := 0 to numChans
        invariant Valid() && Filled(qs, i, overrun)
      {
        var power := t.toQdbm(t.maxPower(channels[i].chan));
        var failed;
        overrun, failed := AssignPower(i, power, overrun, qs);
        if failed {
          return -EFAULT, true;
        }
      }
      assert qs[..numChans] == qs;
      ret := 0;
    }

    // hw_scan_initialise_channel_and_power_lists, the power list.
    method BuildPowers(t: Tables, canAllocate: bool) returns (ret: int, overrun: bool)
      requires Valid()
      modifies this`powers, this`nPowers, channels
      ensures Valid() && (powers == null || fresh(powers))
      ensures !canAllocate <==> ret == -ENOMEM
      ensures !canAllocate ==> !overrun && powers == null && nPowers == old(nPowers)
      ensures var ps := PowersOf(t, list); var qs := Converted(t, ps);
              canAllocate ==>
                && (overrun <==> FirstPowerMissed(t, ps))
                && ret == (if overrun && CoarseCount(ps) < 255 then -EFAULT else 0)
                && (ret == 0 ==> powers != null && nPowers <= powers.Length)
                && (ret == 0 ==> (HoldsPowers(qs) <==> |Dedup(qs)| <= 255))
    {
      ghost var ps := PowersOf(t, list);
      var coarse := CountPowers(t);
      powers := null;
      if !canAllocate {
        return -ENOMEM, false;
      }
      powers := new s32[coarse];
      nPowers := 0;
      ret, overrun := FillPowers(t, Converted(t, ps));
      PowersFitExactly(t, ps);
    }
  }

  lemma {:induction false} Shift<T>(s: seq<T>, x: T, rest: seq<T>, all: seq<T>)
    requires s + ([x] + rest) == all
    ensures (s + [x]) + rest == all && |s| < |all|
  {}

  // The distinct elements of one more element.
  lemma {:induction false} NextDistinct(qs: seq<s32>, i: nat)
    requires i < |qs|
    ensures Dedup(qs[..i + 1]) == if qs[i] in Dedup(qs[..i]) then Dedup(qs[..i]) else Dedup(qs[..i]) + [qs[i]]
    ensures Dedup(qs[..i + 1]) <= Dedup(qs)
  {
    assert qs[..i + 1] == qs[..i] + [qs[i]];
    DedupAppend(qs[..i], qs[i]);
    DedupPrefix(qs, i + 1);
  }

  // The loop that determines how many channels to allocate for.
  method CountRoom(t: Tables, survey: bool, reqs: seq<int>) returns (n: nat)
    ensures n == Budget(t, survey, reqs)
  {
    n := 0;
    for i := 0 to |reqs|
      invariant n == Budget(t, survey, reqs[..i])
    {
      assert reqs[..i + 1][..i] == reqs[..i];
      match t.toS1g(reqs[i]) {
        case None =>
        case Some(chan) =>
          var opBw: nat := t.bwMhz(chan);
          if !survey && opBw > 2 {
            n := n + (opBw / 1 + opBw / 2);
          } else {
            n := n + 1;
          }
      }
    }
    assert reqs[..|reqs|] == reqs;
  }

  lemma {:induction false} BudgetGrows(t: Tables, survey: bool, reqs: seq<int>, i: nat)
    requires i <= |reqs|
    ensures Budget(t, survey, reqs[..i]) <= Budget(t, survey, reqs)
    decreases |reqs| - i
  {
    if i < |reqs| {
      BudgetGrows(t, survey, reqs, i + 1);
      assert reqs[..i + 1][..i] == reqs[..i];
    } else {
      assert reqs[..i] == reqs;
    }
  }

  lemma {:induction false} WantedPrefixFits(t: Tables, survey: bool, reqs: seq<int>, i: nat)
    requires i < |reqs|
    ensures |Wanted(t, survey, reqs[..i])| + |Expand(t, survey, reqs[i])| <= Budget(t, survey, reqs)
  {
    var before, upTo := reqs[..i], reqs[..i + 1];
    WantedFits(t, survey, before);
    ExpandFits(t, survey, reqs[i]);
    assert upTo[..i] == before;
    BudgetGrows(t, survey, reqs, i + 1);
  }
}
