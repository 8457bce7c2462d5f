// Writing the coredump: a sizing pass over the regions and notes, then a pass that fills in program
// headers and payload, skipping regions and losing those that cannot be read.
module Coredump {
  import opened Bytes
  import opened CoreFile
  import opened Wrappers

  const ENOMEM := 12

  // ----- steps of the layout

  lemma {:induction false} LayHeader(before: seq<byte>, after: seq<byte>, ehdr: seq<byte>, table: seq<byte>,
                                     ph: seq<byte>, payload: seq<byte>, at: nat)
    requires Laid(before, ehdr, table, payload, at)
    requires |ehdr| + |table| + |ph| <= at
    requires Wrote(before, after, |ehdr| + |table|, ph)
    ensures Laid(after, ehdr, table + ph, payload, at)
  {}

  lemma {:induction false} LayData(before: seq<byte>, after: seq<byte>, ehdr: seq<byte>, table: seq<byte>,
                                   payload: seq<byte>, data: seq<byte>, at: nat)
    requires Laid(before, ehdr, table, payload, at)
    requires Wrote(before, after, at + |payload|, data)
    ensures Laid(after, ehdr, table, payload + data, at)
  {}

  // A header at pos, then the bytes it describes at offset.
  lemma {:induction false} LayBoth(before: seq<byte>, mid: seq<byte>, after: seq<byte>, ehdr: seq<byte>,
                                   table: seq<byte>, table': seq<byte>, payload: seq<byte>, payload': seq<byte>,
                                   header: seq<byte>, data: seq<byte>, at: nat, pos: nat, offset: nat)
    requires Laid(before, ehdr, table, payload, at) && pos + |header| <= at
    requires pos == |ehdr| + |table| && Wrote(before, mid, pos, header)
    requires offset == at + |payload| && Wrote(mid, after, offset, data)
    requires table' == table + header && payload' == payload + data
    ensures Laid(after, ehdr, table', payload', at)
  {
    LayHeader(before, mid, ehdr, table, header, payload, at);
    LayData(mid, after, ehdr, table', payload, data, at);
  }

  // One more segment.
  lemma {:induction false} LayStep(before: seq<byte>, mid: seq<byte>, after: seq<byte>, phnum: nat,
                                   ss: seq<Segment>, s: Segment)
    requires LaidOut(before, phnum, ss) && Slot(|ss| + 1) <= DataOffset(phnum)
    requires Wrote(before, mid, Slot(|ss|), PhdrBytes(s, DataOffset(phnum) + |Payload(ss)|))
    requires Wrote(mid, after, DataOffset(phnum) + |Payload(ss)|, s.data)
    ensures LaidOut(after, phnum, ss + [s])
  {
    var at, offset := DataOffset(phnum), DataOffset(phnum) + |Payload(ss)|;
    PayloadSnoc(ss, s);
    TableSnoc(ss, s, at);
    LayBoth(before, mid, after, Ehdr(phnum), Table(ss, at), Table(ss + [s], at), Payload(ss), Payload(ss + [s]),
            PhdrBytes(s, offset), s.data, at, Slot(|ss|), offset);
  }

  // Overwriting the middle of what was written.
  lemma {:induction false} WroteOver(b0: seq<byte>, b1: seq<byte>, b2: seq<byte>, pos: nat,
                                     x: seq<byte>, y: seq<byte>, y': seq<byte>, z: seq<byte>)
    requires Wrote(b0, b1, pos, x + y + z) && Wrote(b1, b2, pos + |x|, y') && |y'| == |y|
    ensures Wrote(b0, b2, pos, x + y' + z)
  {}

  // ----- the notes

  // An entry of the list of notes; `variable` holds the padded name and the data.
  datatype StoredNote = StoredNote(kind: u32, namesz: nat, datasz: nat, variable: seq<byte>)

  ghost predicate Holds(e: StoredNote, n: Note) {
    e == StoredNote(n.kind, NameSize(n), |n.data|, Variable(n))
  }

  ghost predicate HoldAll(list: seq<StoredNote>, ns: seq<Note>) {
    |list| == |ns| && forall i :: 0 <= i < |ns| ==> Holds(list[i], ns[i])
  }

  class NoteList {
    var list: seq<StoredNote>
    ghost var notes: seq<Note>

    ghost predicate Valid()
      reads this
    {
      HoldAll(list, notes)
    }

    constructor ()
      ensures Valid() && notes == []
    {
      list, notes := [], [];
    }

    // meta_append; `memory` says whether the allocation succeeds.
    method Append(name: seq<byte>, data: seq<byte>, kind: u32, memory: bool) returns (ret: int)
      requires Valid() && 0 !in name
      modifies this
      ensures Valid()
      ensures ret == if memory then 0 else -ENOMEM
      ensures notes == if memory then old(notes) + [Note(name, kind, data)] else old(notes)
    {
      ghost var note: Note := Note(name, kind, data);
      var namesz := RoundToWord(|name| + 1);
      if !memory {
        return -ENOMEM;
      }
      var buf := new byte[namesz + |data|](_ => 0);
      Put(buf, 0, name);
      assert buf[..] == name + Zeros(namesz + |data| - |name|);
      assert buf[..namesz] == name + Zeros(namesz - |name|);
      Put(buf, namesz, data);
      assert buf[..] == Variable(note);
      list := list + [StoredNote(kind, namesz, |data|, buf[..])];
      notes := notes + [note];
      return 0;
    }
  }

  // ----- the sizing pass

  method SizeOfRegions(rs: seq<Region>, counted: nat) returns (size: nat, count: nat)
    ensures size == RegionsSize(rs) && count == counted + |rs|
  {
    size, count := 0, counted;
    for i := 0 to |rs|
      invariant size == RegionsSize(rs[..i]) && count == counted + i
    {
      assert rs[..i + 1][..i] == rs[..i];
      size := size + PHDR_SIZE;
      size := size + rs[i].len;
      count := count + 1;
    }
    assert rs[..|rs|] == rs;
  }

  method SizeOfNotes(list: seq<StoredNote>, counted: nat, ghost ns: seq<Note>) returns (size: nat, count: nat)
    requires HoldAll(list, ns)
    ensures size == NotesSize(ns) && count == counted + |ns|
  {
    size, count := 0, counted;
    for i := 0 to |list|
      invariant size == NotesSize(ns[..i]) && count == counted + i
    {
      assert ns[..i + 1][..i] == ns[..i];
      assert Holds(list[i], ns[i]);
      size := size + PHDR_SIZE;
      size := size + RoundToWord(NHDR_SIZE + list[i].namesz + list[i].datasz);
      count := count + 1;
    }
    assert ns[..|ns|] == ns;
  }

  // Before region i there is still room for it, and before note i for that.
  lemma {:induction false} RegionRoom(rs: seq<Region>, i: nat)
    requires i < |rs|
    ensures RegionsSize(rs[..i]) + PHDR_SIZE * (|rs| - i) + rs[i].len <= RegionsSize(rs)
  {
    var n := |rs| - 1;
    if i < n {
      RegionRoom(rs[..n], i);
      assert rs[..n][..i] == rs[..i];
    }
  }

  lemma {:induction false} NoteRoom(ns: seq<Note>, i: nat)
    requires i < |ns|
    ensures NotesSize(ns[..i]) + PHDR_SIZE * (|ns| - i) + NoteSize(ns[i]) <= NotesSize(ns)
  {
    var n := |ns| - 1;
    if i < n {
      NoteRoom(ns[..n], i);
      assert ns[..n][..i] == ns[..i];
    }
  }

  // ----- the layout pass

  function SizeFields(size: u32): (r: seq<byte>)
    ensures |r| == 8
  {
    Le32(size) + Le32(size)
  }

  // Header and payload of one region. On the way `mid` is the file with just the header written.
  method CopyRegion(file: array<byte>, r: Region, phdr: nat, offset: nat) returns (ghost mid: seq<byte>, read: nat)
    requires r.general && phdr + PHDR_SIZE <= file.Length && offset + r.len <= file.Length
    modifies file
    ensures read == |Contents(r)|
    ensures Wrote(old(file[..]), mid, phdr, PhdrBytes(LoadOf(r)[0], offset))
    ensures Wrote(mid, file[..], offset, Contents(r))
  {
    ghost var b0 := file[..];
    ghost var front := Le32(PT_LOAD) + Le32(Low32(offset)) + Le32(r.start) + Le32(r.start);
    ghost var back := Le32(PF_RWX) + Le32(0);
    Put(file, phdr, Le32(PT_LOAD) + Le32(Low32(offset)) + Le32(r.start) + Le32(r.start)
                    + SizeFields(r.len) + (Le32(PF_RWX) + Le32(0)));
    ghost var b1 := file[..];
    match r.content {
      case Some(bytes) =>
        Put(file, offset, bytes);
        mid, read := b1, r.len;
      case None =>
        Put(file, phdr + 16, SizeFields(0));
        WroteOver(b0, b1, file[..], phdr, front, SizeFields(r.len), SizeFields(0), back);
        mid, read := file[..], 0;
        WroteNothing(mid, offset);
    }
    PhdrSplit(LoadOf(r)[0], offset);
  }

  lemma {:induction false} PhdrSplit(s: Segment, offset: nat)
    ensures PhdrBytes(s, offset) ==
            Le32(s.kind) + Le32(Low32(offset)) + Le32(s.addr) + Le32(s.addr)
            + SizeFields(Low32(|s.data|)) + (Le32(s.flags) + Le32(0))
  {}

  // The segments ss are written; the next header goes to phdr and the next bytes to offset. `sound` unless
  // there are too many headers to count.
  ghost predicate Reached(file: seq<byte>, phnum: nat, ss: seq<Segment>, phdr: nat, offset: nat, sound: bool) {
    && phdr == Slot(|ss|) && offset == DataOffset(phnum) + |Payload(ss)|
    && (sound ==> LaidOut(file, phnum, ss))
  }

  // The loop body of elf_copy_memory_regions.
  method PlaceRegion(file: array<byte>, r: Region, phdr: nat, offset: nat, ghost phnum: nat, ghost ss: seq<Segment>,
                     ghost sound: bool)
    returns (phdr': nat, offset': nat)
    requires Reached(file[..], phnum, ss, phdr, offset, sound)
    requires phdr + PHDR_SIZE <= file.Length && offset + r.len <= file.Length
    requires sound ==> Slot(|ss| + 1) <= DataOffset(phnum)
    modifies file
    ensures Reached(file[..], phnum, ss + LoadOf(r), phdr', offset', sound)
  {
    phdr', offset' := phdr, offset;
    if !r.general {
      assert ss + LoadOf(r) == ss;
      return;
    }
    ghost var before, s := file[..], LoadOf(r)[0];
    ghost var mid;
    var read;
    mid, read := CopyRegion(file, r, phdr, offset);
    if sound {
      LayStep(before, mid, file[..], phnum, ss, s);
    }
    PayloadSnoc(ss, s);
    offset' := offset + read;
    phdr' := phdr + PHDR_SIZE;
  }

  lemma {:induction false} RegionFits(rs: seq<Region>, i: nat)
    requires i < |rs|
    ensures Loads(rs[..i + 1]) == Loads(rs[..i]) + LoadOf(rs[i])
    ensures |Loads(rs[..i])| <= i
    ensures |Payload(Loads(rs[..i]))| + rs[i].len <= RegionsSize(rs) - PHDR_SIZE * |rs|
  {
    assert rs[..i + 1][..i] == rs[..i];
    LoadsCount(rs[..i]);
    LoadsSize(rs[..i]);
    RegionRoom(rs, i);
  }

  method CopyMemoryRegions(file: array<byte>, rs: seq<Region>, phnum: nat) returns (phdr: nat, offset: nat)
    requires |rs| <= phnum && Slot(phnum) + RegionsSize(rs) - PHDR_SIZE * |rs| <= file.Length
    modifies file
    ensures phdr == Slot(|Loads(rs)|) && offset == DataOffset(phnum) + |Payload(Loads(rs))|
    ensures LaidOut(old(file[..]), phnum, []) && phnum < 0x1_0000 ==> LaidOut(file[..], phnum, Loads(rs))
  {
    phdr, offset := EHDR_SIZE, DataOffset(phnum);
    ghost var sound := LaidOut(file[..], phnum, []) && phnum < 0x1_0000;
    for i := 0 to |rs|
      invariant Reached(file[..], phnum, Loads(rs[..i]), phdr, offset, sound)
    {
      RegionFits(rs, i);
      phdr, offset := PlaceRegion(file, rs[i], phdr, offset, phnum, Loads(rs[..i]), sound);
    }
    assert rs[..|rs|] == rs;
  }

  method PutNoteHeader(file: array<byte>, size: u32, phdr: nat, offset: nat) returns (ghost mid: seq<byte>)
    requires phdr + PHDR_SIZE <= file.Length
    modifies file
    ensures Wrote(old(file[..]), mid, phdr, Le32(PT_NOTE) + Le32(Low32(offset)))
    ensures Wrote(mid, file[..], phdr + 16, SizeFields(size))
  {
    Put(file, phdr, Le32(PT_NOTE) + Le32(Low32(offset)));
    mid := file[..];
    Put(file, phdr + 16, SizeFields(size));
  }

  method PutNote(file: array<byte>, e: StoredNote, offset: nat, ghost n: Note)
    requires Holds(e, n) && offset + NoteSize(n) <= file.Length
    modifies file
    ensures Wrote(old(file[..]), file[..], offset, NoteHeader(n) + Variable(n))
  {
    ghost var b0 := file[..];
    Put(file, offset, Le32(Low32(e.namesz)) + Le32(Low32(e.datasz)) + Le32(e.kind));
    ghost var b1 := file[..];
    Put(file, offset + NHDR_SIZE, e.variable);
    WroteTwice(b0, b1, file[..], offset, NoteHeader(n), Variable(n));
  }

  // The fields and the padding that are not written are zero from the start.
  ghost predicate Blank(file: seq<byte>, phdr: nat, offset: nat, n: Note) {
    phdr + PHDR_SIZE <= offset && ZeroIn(file, phdr, phdr + PHDR_SIZE) && ZeroIn(file, offset, offset + NoteSize(n))
  }

  // Header and payload of one note.
  method CopyNote(file: array<byte>, e: StoredNote, phdr: nat, offset: nat, ghost n: Note)
    returns (ghost mid: seq<byte>, advance: nat)
    requires Holds(e, n) && phdr + PHDR_SIZE <= file.Length && offset + NoteSize(n) <= file.Length
    modifies file
    ensures advance == Low32(NoteSize(n))
    ensures Blank(old(file[..]), phdr, offset, n) ==>
              && Wrote(old(file[..]), mid, phdr, PhdrBytes(NoteSegment(n), offset))
              && Wrote(mid, file[..], offset, NoteBytes(n))
  {
    ghost var b0 := file[..];
    var size: u32 := Low32(RoundToWord(NHDR_SIZE + e.namesz + e.datasz));
    ghost var b1 := PutNoteHeader(file, size, phdr, offset);
    mid := file[..];
    PutNote(file, e, offset, n);
    advance := size;
    if Blank(b0, phdr, offset, n) {
      NoteHeaderWritten(b0, b1, mid, phdr, offset, NoteBytes(n));
      NoteZeros(b0, b1, mid, phdr, Le32(PT_NOTE) + Le32(Low32(offset)), SizeFields(size), offset, NoteSize(n));
      WroteZeros(mid, file[..], offset, NoteHeader(n) + Variable(n), NotePadding(n));
    }
  }

  lemma {:induction false} NoteZeros(b0: seq<byte>, b1: seq<byte>, b2: seq<byte>, phdr: nat,
                                     x: seq<byte>, y: seq<byte>, from: nat, size: nat)
    requires |x| == 8 && |y| == 8 && Wrote(b0, b1, phdr, x) && Wrote(b1, b2, phdr + 16, y)
    requires phdr + PHDR_SIZE <= from && from + size <= |b0| && ZeroIn(b0, from, from + size)
    ensures ZeroIn(b2, from, from + size)
  {}

  lemma {:induction false} NoteHeaderWritten(b0: seq<byte>, b1: seq<byte>, b2: seq<byte>, phdr: nat, offset: nat,
                                             data: seq<byte>)
    requires phdr + PHDR_SIZE <= |b0| && ZeroIn(b0, phdr, phdr + PHDR_SIZE)
    requires Wrote(b0, b1, phdr, Le32(PT_NOTE) + Le32(Low32(offset)))
    requires Wrote(b1, b2, phdr + 16, SizeFields(Low32(|data|)))
    ensures Wrote(b0, b2, phdr, PhdrBytes(Segment(PT_NOTE, 0, 0, data), offset))
  {}

  lemma {:induction false} BlankAhead(file: seq<byte>, phnum: nat, ss: seq<Segment>, n: Note)
    requires LaidOut(file, phnum, ss) && Slot(|ss| + 1) <= DataOffset(phnum)
    ensures Blank(file, Slot(|ss|), DataOffset(phnum) + |Payload(ss)|, n)
  {}

  // The loop body of elf_copy_notes. The offset advances by the 32-bit size field.
  method PlaceNote(file: array<byte>, e: StoredNote, phdr: nat, offset: nat, ghost n: Note, ghost phnum: nat,
                   ghost ss: seq<Segment>)
    returns (phdr': nat, offset': nat)
    requires Holds(e, n) && phdr + PHDR_SIZE <= file.Length && offset + NoteSize(n) <= file.Length
    modifies file
    ensures phdr' == phdr + PHDR_SIZE && offset' == offset + Low32(NoteSize(n))
    ensures && LaidOut(old(file[..]), phnum, ss) && Slot(|ss| + 1) <= DataOffset(phnum)
            && phdr == Slot(|ss|) && offset == DataOffset(phnum) + |Payload(ss)| ==>
              LaidOut(file[..], phnum, ss + [NoteSegment(n)])
  {
    ghost var before := file[..];
    ghost var mid;
    var advance;
    mid, advance := CopyNote(file, e, phdr, offset, n);
    if LaidOut(before, phnum, ss) && Slot(|ss| + 1) <= DataOffset(phnum)
       && phdr == Slot(|ss|) && offset == DataOffset(phnum) + |Payload(ss)| {
      BlankAhead(before, phnum, ss, n);
      LayStep(before, mid, file[..], phnum, ss, NoteSegment(n));
    }
    offset' := offset + advance;
    phdr' := phdr + PHDR_SIZE;
  }

  lemma {:induction false} NoteFits(rs: seq<Region>, ns: seq<Note>, i: nat)
    requires i < |ns|
    ensures Segments(rs, ns[..i + 1]) == Segments(rs, ns[..i]) + [NoteSegment(ns[i])]
    ensures |Segments(rs, ns[..i])| == |Loads(rs)| + i && |Loads(rs)| <= |rs|
    ensures |Payload(Segments(rs, ns[..i + 1]))| == |Payload(Segments(rs, ns[..i]))| + NoteSize(ns[i])
    ensures Slot(|rs| + |ns|) + |Payload(Segments(rs, ns[..i]))| + NoteSize(ns[i]) <= FileSize(rs, ns)
  {
    assert ns[..i + 1][..i] == ns[..i];
    SegmentsStep(rs, ns[..i + 1]);
    PayloadSnoc(Segments(rs, ns[..i]), NoteSegment(ns[i]));
    FilledExactly(rs, ns[..i]);
    LoadsCount(rs);
    NoteRoom(ns, i);
  }

  // After i notes: where the next header and the next note go, and what the file holds (`sound` unless the
  // headers or a note's size are too many for their fields).
  ghost predicate Placed(file: seq<byte>, rs: seq<Region>, ns: seq<Note>, i: nat, phdr: nat, offset: nat, sound: bool)
    requires i <= |ns|
  {
    var end := DataOffset(|rs| + |ns|) + |Payload(Segments(rs, ns[..i]))|;
    && phdr == Slot(|Loads(rs)| + i) && offset <= end
    && (sound ==> offset == end && LaidOut(file, |rs| + |ns|, Segments(rs, ns[..i])))
  }

  ghost predicate Countable(rs: seq<Region>, ns: seq<Note>) {
    |rs| + |ns| < 0x1_0000 && AllFit(ns)
  }

  method PlaceNext(file: array<byte>, e: StoredNote, phdr: nat, offset: nat, ghost rs: seq<Region>,
                   ghost ns: seq<Note>, ghost i: nat, ghost sound: bool)
    returns (phdr': nat, offset': nat)
    requires i < |ns| && Holds(e, ns[i]) && FileSize(rs, ns) <= file.Length
    requires Placed(file[..], rs, ns, i, phdr, offset, sound) && (sound ==> Countable(rs, ns))
    modifies file
    ensures Placed(file[..], rs, ns, i + 1, phdr', offset', sound)
  {
    NoteFits(rs, ns, i);
    ghost var phnum, ss := |rs| + |ns|, Segments(rs, ns[..i]);
    assert DataOffset(phnum) <= Slot(phnum);
    phdr', offset' := PlaceNote(file, e, phdr, offset, ns[i], phnum, ss);
  }

  method CopyNotes(file: array<byte>, list: seq<StoredNote>, phdr: nat, offset: nat, ghost rs: seq<Region>,
                   ghost ns: seq<Note>)
    requires HoldAll(list, ns) && FileSize(rs, ns) <= file.Length
    requires phdr == Slot(|Loads(rs)|) && offset == DataOffset(|rs| + |ns|) + |Payload(Loads(rs))|
    modifies file
    ensures LaidOut(old(file[..]), |rs| + |ns|, Loads(rs)) && Countable(rs, ns) ==>
              LaidOut(file[..], |rs| + |ns|, Segments(rs, ns))
  {
    ghost var sound := LaidOut(file[..], |rs| + |ns|, Loads(rs)) && Countable(rs, ns);
    var at, to := phdr, offset;
    assert Segments(rs, ns[..0]) == Loads(rs);
    for i := 0 to |list|
      invariant Placed(file[..], rs, ns, i, at, to, sound)
    {
      at, to := PlaceNext(file, list[i], at, to, rs, ns, i, sound);
    }
    assert ns[..|ns|] == ns;
  }

  // ----- coredump_build

  lemma {:induction false} BlankFile(file: seq<byte>, before: seq<byte>, phnum: nat)
    requires ZeroIn(before, 0, |before|) && Slot(phnum) <= |before|
    requires Wrote(before, file, 0, Ehdr(phnum))
    ensures LaidOut(file, phnum, [])
  {}

  lemma {:induction false} RoomForAll(rs: seq<Region>, ns: seq<Note>)
    ensures Slot(|rs| + |ns|) + RegionsSize(rs) - PHDR_SIZE * |rs| <= FileSize(rs, ns)
    ensures PHDR_SIZE * |rs| <= RegionsSize(rs)
  {
    NotesPayload(ns);
    LoadsSize(rs);
  }

  // Header, regions and notes, into a zeroed file of the size computed.
  method Fill(file: array<byte>, rs: seq<Region>, list: seq<StoredNote>, phnum: nat, ghost ns: seq<Note>)
    requires HoldAll(list, ns) && phnum == |rs| + |ns| && file.Length == FileSize(rs, ns)
    requires ZeroIn(file[..], 0, file.Length)
    modifies file
    ensures Countable(rs, ns) ==> LaidOut(file[..], |rs| + |ns|, Segments(rs, ns))
  {
    ghost var before := file[..];
    RoomForAll(rs, ns);
    Put(file, 0, Ehdr(phnum));
    BlankFile(file[..], before, phnum);
    var phdr, offset := CopyMemoryRegions(file, rs, phnum);
    CopyNotes(file, list, phdr, offset, rs, ns);
  }

  // The file of a dump, or -ENOMEM and none. All writes stay inside the file for all regions and notes. When
  // the program headers can be counted in 16 bits the file is laid out as its segments, and when the file
  // is within the 32-bit offsets of the format it reads back as the regions read and the notes given.
  method Build(rs: seq<Region>, list: seq<StoredNote>, memory: bool, ghost ns: seq<Note>)
    returns (ret: int, cd: array?<byte>, size: nat)
    requires HoldAll(list, ns)
    ensures ret == if memory then 0 else -ENOMEM
    ensures cd == null <==> ret != 0
    ensures size == if memory then FileSize(rs, ns) else 0
    ensures cd != null ==> cd.Length == size
    ensures cd != null && Countable(rs, ns) ==> LaidOut(cd[..], |rs| + |ns|, Segments(rs, ns))
    ensures cd != null && |rs| + |ns| < 0x1_0000 && size < 0x1_0000_0000 ==>
              && ReadCore(cd[..]) == Some(Segments(rs, ns))
              && LoadsIn(Segments(rs, ns)) == Loads(rs)
              && NotesIn(Segments(rs, ns)) == ns
  {
    var regions, counted := SizeOfRegions(rs, 0);
    var notes, phnum := SizeOfNotes(list, counted, ns);
    if !memory {
      return -ENOMEM, null, 0;
    }
    ret, size := 0, EHDR_SIZE + regions + notes;
    var file := new byte[size](_ => 0);
    cd := file;
    Fill(file, rs, list, phnum, ns);
    if |rs| + |ns| < 0x1_0000 && size < 0x1_0000_0000 {
      NotesFit(ns);
      CoreReadsBack(cd[..], rs, ns);
    }
  }
}
