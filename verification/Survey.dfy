// The channel survey table: a fixed array of usage records, filled from the front, that has to behave
// like a map from channel (frequency and bandwidth) to accumulated usage.
module Survey {
  import opened Bytes
  import opened Wrappers

  const EEXIST := 17
  const ENOMEM := 12

  datatype Record = Record(listen: u64, rx: u64, freq: u32, bw: byte, noise: s8)

  datatype Key = Key(freq: u32, bw: byte)
  datatype Usage = Usage(listen: u64, rx: u64, noise: s8)

  const EMPTY := Record(0, 0, 0, 0, 0)

  function KeyOf(r: Record): Key { Key(r.freq, r.bw) }
  function UsageOf(r: Record): Usage { Usage(r.listen, r.rx, r.noise) }

  // 64-bit addition.
  function Add64(a: u64, b: u64): u64 { (a + b) % 0x1_0000_0000_0000_0000 }

  // Times accumulate; the latest noise figure replaces the one before.
  function Merge(u: Usage, r: Record): Usage {
    Usage(Add64(u.listen, r.listen), Add64(u.rx, r.rx), r.noise)
  }

  // ----- the array as a map

  // The number of records before the first empty slot.
  function Used(t: seq<Record>): (n: nat)
    ensures n <= |t|
    ensures forall i :: 0 <= i < n ==> t[i].freq != 0
    ensures n < |t| ==> t[n].freq == 0
  {
    if |t| == 0 || t[0].freq == 0 then 0 else 1 + Used(t[1..])
  }

  ghost function View(t: seq<Record>): map<Key, Usage> {
    if |t| == 0 || t[0].freq == 0 then map[]
    else View(t[1..])[KeyOf(t[0]) := UsageOf(t[0])]
  }

  // Used slots come first and no channel repeats (see ValidMeans).
  ghost predicate Valid(t: seq<Record>) {
    if |t| == 0 then true
    else if t[0].freq == 0 then forall i :: 0 <= i < |t| ==> t[i].freq == 0
    else Valid(t[1..]) && KeyOf(t[0]) !in View(t[1..])
  }

  // A channel is in the map exactly when a used slot holds it, with that slot's usage.
  lemma {:induction false} ViewHas(t: seq<Record>, k: Key) returns (j: nat)
    requires k in View(t)
    ensures j < Used(t) && KeyOf(t[j]) == k && UsageOf(t[j]) == View(t)[k]
    decreases |t|
  {
    if KeyOf(t[0]) == k {
      j := 0;
    } else {
      j := ViewHas(t[1..], k);
      j := j + 1;
    }
  }

  lemma {:induction false} ViewAt(t: seq<Record>, j: nat)
    requires Valid(t) && j < Used(t)
    ensures KeyOf(t[j]) in View(t) && View(t)[KeyOf(t[j])] == UsageOf(t[j])
    decreases j
  {
    if j > 0 {
      ViewAt(t[1..], j - 1);
    }
  }

  lemma {:induction false} NotInView(t: seq<Record>, k: Key)
    requires forall j :: 0 <= j < Used(t) ==> KeyOf(t[j]) != k
    ensures k !in View(t)
  {
    if k in View(t) {
      var j := ViewHas(t, k);
    }
  }

  lemma {:induction false} ViewSize(t: seq<Record>)
    requires Valid(t)
    ensures |View(t)| == Used(t)
    decreases |t|
  {
    if |t| > 0 && t[0].freq != 0 {
      ViewSize(t[1..]);
    }
  }

  // What validity means slot by slot: the used slots are a prefix in which no channel repeats.
  lemma {:induction false} ValidMeans(t: seq<Record>)
    ensures Valid(t) <==>
            && (forall i :: Used(t) <= i < |t| ==> t[i].freq == 0)
            && (forall i, j :: 0 <= i < j < Used(t) ==> KeyOf(t[i]) != KeyOf(t[j]))
    decreases |t|
  {
    if |t| > 0 && t[0].freq != 0 {
      var s := t[1..];
      ValidMeans(s);
      assert forall i :: 1 <= i < |t| ==> t[i] == s[i - 1];
      assert forall i :: 0 <= i < |s| ==> s[i] == t[i + 1];
      if Valid(s) && KeyOf(t[0]) in View(s) {
        var j := ViewHas(s, KeyOf(t[0]));
        assert KeyOf(t[0]) == KeyOf(t[j + 1]);
      } else if Valid(s) {
        forall j | 1 <= j < Used(t)
          ensures KeyOf(t[0]) != KeyOf(t[j])
        {
          ViewAt(s, j - 1);
        }
      }
    }
  }

  // Writing a record of channel k where k was, or into the first empty slot, updates the map at k.
  lemma {:induction false} Store(t: seq<Record>, i: nat, r: Record)
    requires Valid(t) && i < |t| && i <= Used(t) && r.freq != 0
    requires forall j :: 0 <= j < i ==> KeyOf(t[j]) != KeyOf(r)
    requires i < Used(t) ==> KeyOf(t[i]) == KeyOf(r)
    ensures Valid(t[i := r])
    ensures View(t[i := r]) == View(t)[KeyOf(r) := UsageOf(r)]
    decreases i
  {
    var s := t[1..];
    if i == 0 {
      assert t[0 := r][1..] == s;
      assert Valid(s) && KeyOf(r) !in View(s) by {
        assert forall j :: 0 <= j < |s| ==> s[j] == t[j + 1];
        assert t[0].freq == 0 ==> forall j :: 0 <= j < |s| ==> s[j].freq == 0;
      }
    } else {
      Store(s, i - 1, r);
      assert t[i := r][1..] == s[i - 1 := r];
    }
  }

  // A record without a frequency is written into the first empty slot, which stays empty.
  lemma {:induction false} StoreNothing(t: seq<Record>, r: Record)
    requires Valid(t) && Used(t) < |t| && r.freq == 0
    ensures Valid(t[Used(t) := r]) && View(t[Used(t) := r]) == View(t)
    decreases |t|
  {
    var n := Used(t);
    if n > 0 {
      StoreNothing(t[1..], r);
      assert t[n := r][1..] == t[1..][n - 1 := r];
    }
  }

  // ----- specification of an addition, and of runs of additions

  // The map after adding r to a table of the given capacity, and whether the addition succeeded. It
  // fails only when every slot holds another channel.
  ghost function AddTo(m: map<Key, Usage>, capacity: nat, r: Record): (map<Key, Usage>, bool) {
    if r.freq == 0 then (m, |m| < capacity)
    else if KeyOf(r) in m then (m[KeyOf(r) := Merge(m[KeyOf(r)], r)], true)
    else if |m| < capacity then (m[KeyOf(r) := UsageOf(r)], true)
    else (m, false)
  }

  ghost function AddAll(capacity: nat, adds: seq<Record>): map<Key, Usage> {
    if |adds| == 0 then map[]
    else AddTo(AddAll(capacity, adds[..|adds| - 1]), capacity, adds[|adds| - 1]).0
  }

  // The listen and receive times of channel k summed over a list of additions, and its latest noise.
  function SumListen(adds: seq<Record>, k: Key): nat {
    if |adds| == 0 then 0
    else
      var r := adds[|adds| - 1];
      SumListen(adds[..|adds| - 1], k) + if r.freq == k.freq && r.bw == k.bw then r.listen else 0
  }

  function SumRx(adds: seq<Record>, k: Key): nat {
    if |adds| == 0 then 0
    else
      var r := adds[|adds| - 1];
      SumRx(adds[..|adds| - 1], k) + if r.freq == k.freq && r.bw == k.bw then r.rx else 0
  }

  function LatestNoise(adds: seq<Record>, k: Key): Option<s8> {
    if |adds| == 0 then None
    else
      var r := adds[|adds| - 1];
      if r.freq == k.freq && r.bw == k.bw then Some(r.noise) else LatestNoise(adds[..|adds| - 1], k)
  }

  // The usage of channel k that a list of additions amounts to: sums modulo 2^64 and latest noise.
  function Total(adds: seq<Record>, k: Key): Option<Usage> {
    match LatestNoise(adds, k)
    case None => None
    case Some(noise) =>
      Some(Usage(SumListen(adds, k) % 0x1_0000_0000_0000_0000, SumRx(adds, k) % 0x1_0000_0000_0000_0000, noise))
  }

  lemma {:induction false} AddModulo(sum: nat, x: u64)
    ensures Add64(sum % 0x1_0000_0000_0000_0000, x) == (sum + x) % 0x1_0000_0000_0000_0000
  {}

  lemma {:induction false} NothingSummed(adds: seq<Record>, k: Key)
    requires LatestNoise(adds, k) == None
    ensures SumListen(adds, k) == 0 && SumRx(adds, k) == 0
  {
    if |adds| > 0 {
      NothingSummed(adds[..|adds| - 1], k);
    }
  }

  // The channels added; a record without a frequency is none.
  function Channels(adds: seq<Record>): set<Key> {
    if |adds| == 0 then {}
    else
      var r := adds[|adds| - 1];
      Channels(adds[..|adds| - 1]) + if r.freq != 0 then {KeyOf(r)} else {}
  }

  // After any additions the table holds, for each channel it has, exactly that channel's total; a
  // channel it lacks was turned away because the table was already full, and stays out for good; and
  // the table holds as many channels as there were, up to its capacity.
  lemma {:induction false} TableIsTotals(capacity: nat, adds: seq<Record>)
    ensures HoldsTotals(AddAll(capacity, adds), capacity, adds)
  {
    if |adds| > 0 {
      var n := |adds| - 1;
      TableIsTotals(capacity, adds[..n]);
      if adds[n].freq != 0 {
        OneMoreTotal(AddAll(capacity, adds[..n]), capacity, adds);
      } else {
        SameTotals(AddAll(capacity, adds[..n]), capacity, adds);
      }
    }
  }

  ghost predicate HoldsTotals(m: map<Key, Usage>, capacity: nat, adds: seq<Record>) {
    && (forall k :: k in m ==> k.freq != 0 && Total(adds, k) == Some(m[k]))
    && m.Keys <= Channels(adds)
    && (m.Keys == Channels(adds) || |m| == capacity)
    && |m| <= capacity
  }

  lemma {:induction false} SameTotals(m: map<Key, Usage>, capacity: nat, adds: seq<Record>)
    requires |adds| > 0 && adds[|adds| - 1].freq == 0
    requires HoldsTotals(m, capacity, adds[..|adds| - 1])
    ensures HoldsTotals(m, capacity, adds)
  {
    assert Channels(adds) == Channels(adds[..|adds| - 1]);
  }

  // The totals and channels of one more addition.
  lemma {:induction false} LastAddition(adds: seq<Record>, k: Key)
    requires |adds| > 0
    ensures var before, r := adds[..|adds| - 1], adds[|adds| - 1];
            && (KeyOf(r) != k ==> Total(adds, k) == Total(before, k))
            && (KeyOf(r) == k ==>
                  Total(adds, k) ==
                  match Total(before, k) case None => Some(UsageOf(r)) case Some(u) => Some(Merge(u, r)))
            && (r.freq != 0 ==> Channels(adds) == Channels(before) + {KeyOf(r)})
  {
    var before, r := adds[..|adds| - 1], adds[|adds| - 1];
    AddModulo(SumListen(before, k), r.listen);
    AddModulo(SumRx(before, k), r.rx);
    if LatestNoise(before, k) == None {
      NothingSummed(before, k);
    }
  }

  lemma {:induction false} OneMoreTotal(m: map<Key, Usage>, capacity: nat, adds: seq<Record>)
    requires |adds| > 0 && adds[|adds| - 1].freq != 0
    requires HoldsTotals(m, capacity, adds[..|adds| - 1])
    ensures HoldsTotals(AddTo(m, capacity, adds[|adds| - 1]).0, capacity, adds)
  {
    var before, r := adds[..|adds| - 1], adds[|adds| - 1];
    var m' := AddTo(m, capacity, r).0;
    forall k | k in m'
      ensures k.freq != 0 && Total(adds, k) == Some(m'[k])
    {
      TotalOf(m, capacity, before, r, adds, k);
    }
    LastAddition(adds, KeyOf(r));
    KeysOf(m, capacity, Channels(before), r);
  }

  lemma {:induction false} TotalOf(m: map<Key, Usage>, capacity: nat, before: seq<Record>, r: Record,
                                   adds: seq<Record>, k: Key)
    requires |adds| > 0 && before == adds[..|adds| - 1] && r == adds[|adds| - 1] && r.freq != 0
    requires HoldsTotals(m, capacity, before) && k in AddTo(m, capacity, r).0
    ensures k.freq != 0 && Total(adds, k) == Some(AddTo(m, capacity, r).0[k])
  {
    LastAddition(adds, k);
    if k !in m {
      NoTotal(before, k);
    }
  }

  lemma {:induction false} KeysOf(m: map<Key, Usage>, capacity: nat, channels: set<Key>, r: Record)
    requires r.freq != 0 && m.Keys <= channels && (m.Keys == channels || |m| == capacity) && |m| <= capacity
    ensures var m' := AddTo(m, capacity, r).0;
            && m'.Keys <= channels + {KeyOf(r)}
            && (m'.Keys == channels + {KeyOf(r)} || |m'| == capacity)
            && |m'| <= capacity
  {
    var m' := AddTo(m, capacity, r).0;
    assert m'.Keys == m.Keys || m'.Keys == m.Keys + {KeyOf(r)};
  }

  lemma {:induction false} NoTotal(adds: seq<Record>, k: Key)
    requires k !in Channels(adds) && k.freq != 0
    ensures Total(adds, k) == None
  {
    if |adds| > 0 {
      var n := |adds| - 1;
      NoTotal(adds[..n], k);
    }
  }

  // ----- the driver's table

  class Table {
    // mors->channel_survey, null until initialised
    var records: array?<Record>
    // the additions since initialisation
    ghost var history: seq<Record>

    ghost predicate TableValid()
      reads this, records
    {
      records != null ==> Valid(records[..]) && View(records[..]) == AddAll(records.Length, history)
    }

    constructor ()
      ensures records == null
    {
      records, history := null, [];
    }

    // morse_survey_init_usage_records
    method Init(numChannels: nat, surveyAllocated: bool, recordsAllocated: bool) returns (ret: int)
      modifies this
      ensures TableValid()
      ensures ret == if surveyAllocated && recordsAllocated then 0 else -ENOMEM
      ensures ret == 0 ==> records != null && fresh(records) && records.Length == numChannels && history == []
      ensures ret != 0 ==> records == null
    {
      records, history := null, [];
      if !surveyAllocated || !recordsAllocated {
        return -ENOMEM;
      }
      records := new Record[numChannels](_ => EMPTY);
      ret := 0;
    }

    // morse_survey_add_channel_usage
    method AddUsage(r: Record) returns (ret: int)
      requires TableValid()
      modifies records, this`history
      ensures TableValid() && records == old(records) && history == old(history) + [r]
      ensures records == null ==> ret == -EEXIST
      ensures records != null ==>
                && (View(records[..]), ret == 0) == AddTo(old(View(records[..])), records.Length, r)
                && (ret == 0 || ret == -1)
      ensures records != null && r.freq != 0 ==>
                (ret != 0 <==> |old(View(records[..]))| == records.Length && Key(r.freq, r.bw) !in old(View(records[..])))
    {
      history := history + [r];
      if records == null {
        return -EEXIST;
      }
      ghost var t := records[..];
      ViewSize(t);
      assert history[..|history| - 1] == old(history);
      for i := 0 to records.Length
        invariant records[..] == t
        invariant i <= Used(t)
        invariant r.freq != 0 ==> forall j :: 0 <= j < i ==> KeyOf(t[j]) != KeyOf(r)
      {
        if records[i].freq == 0 {
          records[i] := r;
          assert records[..] == t[i := r];
          if r.freq != 0 {
            NotInView(t, KeyOf(r));
            Store(t, i, r);
          } else {
            StoreNothing(t, r);
          }
          return 0;
        } else if r.freq == records[i].freq && r.bw == records[i].bw {
          ViewAt(t, i);
          var merged := Merge(UsageOf(records[i]), r);
          records[i] := Record(merged.listen, merged.rx, records[i].freq, records[i].bw, merged.noise);
          assert records[..] == t[i := records[i]];
          Store(t, i, records[i]);
          return 0;
        }
      }
      if r.freq != 0 {
        NotInView(t, KeyOf(r));
      }
      ret := -1;
    }

    // morse_survey_get_record
    method GetRecord(freq: u32, bw: byte) returns (r: Option<Record>)
      requires TableValid()
      ensures r.Some? <==> records != null && freq != 0 && bw != 0 && Key(freq, bw) in View(records[..])
      ensures r.Some? ==> KeyOf(r.value) == Key(freq, bw) && UsageOf(r.value) == View(records[..])[Key(freq, bw)]
    {
      if records == null || freq == 0 || bw == 0 {
        return None;
      }
      ghost var t := records[..];
      for i := 0 to records.Length
        invariant i <= Used(t)
        invariant forall j :: 0 <= j < i ==> KeyOf(t[j]) != Key(freq, bw)
      {
        if freq == records[i].freq && bw == records[i].bw {
          ViewAt(t, i);
          return Some(records[i]);
        } else if records[i].freq == 0 {
          break;
        }
      }
      NotInView(t, Key(freq, bw));
      return None;
    }
  }
}
