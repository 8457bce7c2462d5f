// The coredump file: an ELF32 core file whose size is computed in one pass over the memory regions and
// notes, and which a second pass fills in, skipping regions and losing those that cannot be read.
// Layout after chapter 5 of the System V ABI (gABI), "Program Header" and "Note Section".
module CoreFile {
  import opened Bytes
  import opened Wrappers

  const EHDR_SIZE := 52
  const PHDR_SIZE := 32
  const NHDR_SIZE := 12

  const PT_NULL := 0
  const PT_LOAD := 1
  const PT_NOTE := 4
  const PF_RWX := 7

  // A memory region of the chip and what reading it yields, if the read succeeds.
  datatype RegionRaw = Region(general: bool, start: u32, len: u32, content: Option<seq<byte>>)
  type Region = r: RegionRaw | r.content.Some? ==> |r.content.value| == r.len witness Region(true, 0, 0, None)

  // A note: its name is a C string.
  datatype NoteRaw = Note(name: seq<byte>, kind: u32, data: seq<byte>)
  type Note = n: NoteRaw | 0 !in n.name witness Note([], 0, [])

  // ----- notes

  // meta_append pads the name, with its terminator, to whole words.
  function NameSize(n: Note): nat { RoundToWord(|n.name| + 1) }

  function NotePadding(n: Note): nat { NoteSize(n) - (NHDR_SIZE + NameSize(n) + |n.data|) }

  // The room a note takes in the file.
  function NoteSize(n: Note): (r: nat)
    ensures r >= NHDR_SIZE + NameSize(n) + |n.data|
  {
    RoundToWord(NHDR_SIZE + NameSize(n) + |n.data|)
  }

  // What meta_append keeps for a note: the padded name and the data.
  function Variable(n: Note): (r: seq<byte>)
    ensures |r| == NameSize(n) + |n.data|
  {
    n.name + Zeros(NameSize(n) - |n.name|) + n.data
  }

  function NoteHeader(n: Note): (r: seq<byte>)
    ensures |r| == NHDR_SIZE
  {
    Le32(Low32(NameSize(n))) + Le32(Low32(|n.data|)) + Le32(n.kind)
  }

  function NoteBytes(n: Note): (r: seq<byte>)
    ensures |r| == NoteSize(n)
  {
    NoteHeader(n) + Variable(n) + Zeros(NotePadding(n))
  }

  // A reader of notes: name up to its terminator, type, data.
  function CString(s: seq<byte>): seq<byte> {
    if |s| == 0 || s[0] == 0 then [] else [s[0]] + CString(s[1..])
  }

  function ParseNote(s: seq<byte>): Option<Note> {
    if |s| < NHDR_SIZE then None
    else
      var nameSize, dataSize := Read32(s, 0), Read32(s, 4);
      if |s| < NHDR_SIZE + nameSize + dataSize then None
      else
        var name := CString(s[NHDR_SIZE..NHDR_SIZE + nameSize]);
        CStringHasNoZero(s[NHDR_SIZE..NHDR_SIZE + nameSize]);
        Some(Note(name, Read32(s, 8), s[NHDR_SIZE + nameSize..NHDR_SIZE + nameSize + dataSize]))
  }

  lemma {:induction false} CStringHasNoZero(s: seq<byte>)
    ensures 0 !in CString(s)
  {
    if |s| > 0 && s[0] != 0 {
      CStringHasNoZero(s[1..]);
    }
  }

  lemma {:induction false} CStringOfPadded(name: seq<byte>, pad: seq<byte>)
    requires 0 !in name && |pad| > 0 && pad[0] == 0
    ensures CString(name + pad) == name
  {
    if |name| > 0 {
      assert name[0] in name;
      assert (name + pad)[1..] == name[1..] + pad;
      CStringOfPadded(name[1..], pad);
    } else {
      assert name + pad == pad;
    }
  }

  lemma {:induction false} HeaderFields(n: Note, s: seq<byte>)
    requires |s| >= NHDR_SIZE && s[..NHDR_SIZE] == NoteHeader(n)
    ensures Read32(s, 0) == Low32(NameSize(n)) && Read32(s, 4) == Low32(|n.data|) && Read32(s, 8) == n.kind
  {}

  lemma {:induction false} NoteParts(n: Note)
    ensures var s := NoteBytes(n);
            var pad := Zeros(NameSize(n) - |n.name|);
            && s[..NHDR_SIZE] == NoteHeader(n)
            && s[NHDR_SIZE..NHDR_SIZE + NameSize(n)] == n.name + pad
            && s[NHDR_SIZE + NameSize(n)..NHDR_SIZE + NameSize(n) + |n.data|] == n.data
  {}

  // A note parses back to its name, type and data exactly when both sizes fit the format's 32-bit fields.
  lemma {:induction false} NoteRoundTrip(n: Note)
    ensures ParseNote(NoteBytes(n)) == Some(n) <==> NameSize(n) < 0x1_0000_0000 && |n.data| < 0x1_0000_0000
  {
    if NameSize(n) < 0x1_0000_0000 && |n.data| < 0x1_0000_0000 {
      NoteParsesBack(n);
    } else {
      LargeNoteIsLost(n);
    }
  }

  lemma {:induction false} NoteParsesBack(n: Note)
    requires NameSize(n) < 0x1_0000_0000 && |n.data| < 0x1_0000_0000
    ensures ParseNote(NoteBytes(n)) == Some(n)
  {
    NoteParts(n);
    HeaderFields(n, NoteBytes(n));
    CStringOfPadded(n.name, Zeros(NameSize(n) - |n.name|));
    ParseIs(NoteBytes(n), n, NameSize(n));
  }

  lemma {:induction false} ParseIs(s: seq<byte>, n: Note, nameSize: u32)
    requires var end := NHDR_SIZE + nameSize;
             && end + |n.data| <= |s|
             && Read32(s, 0) == nameSize && Read32(s, 4) == |n.data| && Read32(s, 8) == n.kind
             && CString(s[NHDR_SIZE..end]) == n.name && s[end..end + |n.data|] == n.data
    ensures ParseNote(s) == Some(n)
  {}

  lemma {:induction false} LargeNoteIsLost(n: Note)
    requires NameSize(n) >= 0x1_0000_0000 || |n.data| >= 0x1_0000_0000
    ensures ParseNote(NoteBytes(n)) != Some(n)
  {
    NoteParts(n);
    HeaderFields(n, NoteBytes(n));
    if ParseNote(NoteBytes(n)).Some? {
      ParsedLengths(NoteBytes(n));
    }
    Truncated(NameSize(n));
    Truncated(|n.data|);
  }

  lemma {:induction false} ParsedLengths(s: seq<byte>)
    requires |s| >= NHDR_SIZE && ParseNote(s).Some?
    ensures |ParseNote(s).value.name| <= Read32(s, 0) && |ParseNote(s).value.data| == Read32(s, 4)
  {
    CStringLength(s[NHDR_SIZE..NHDR_SIZE + Read32(s, 0)]);
  }

  lemma {:induction false} CStringLength(s: seq<byte>)
    ensures |CString(s)| <= |s|
  {
    if |s| > 0 && s[0] != 0 {
      CStringLength(s[1..]);
    }
  }

  // ----- segments

  // A segment of the file: its type, address and flags, and its bytes.
  datatype Segment = Segment(kind: u32, addr: u32, flags: u32, data: seq<byte>)

  // Regions that are not general have no segment; one that cannot be read has an empty segment.
  function LoadOf(r: Region): seq<Segment> {
    if r.general then [Segment(PT_LOAD, r.start, PF_RWX, Contents(r))] else []
  }

  function Contents(r: Region): (b: seq<byte>)
    ensures |b| <= r.len
  {
    match r.content case Some(b) => b case None => []
  }

  function Loads(rs: seq<Region>): seq<Segment> {
    if |rs| == 0 then [] else Loads(rs[..|rs| - 1]) + LoadOf(rs[|rs| - 1])
  }

  function NoteSegment(n: Note): Segment { Segment(PT_NOTE, 0, 0, NoteBytes(n)) }

  function NoteSegments(ns: seq<Note>): (r: seq<Segment>)
    ensures |r| == |ns|
  {
    if |ns| == 0 then [] else NoteSegments(ns[..|ns| - 1]) + [NoteSegment(ns[|ns| - 1])]
  }

  function Segments(rs: seq<Region>, ns: seq<Note>): seq<Segment> {
    Loads(rs) + NoteSegments(ns)
  }

  function Payload(ss: seq<Segment>): seq<byte> {
    if |ss| == 0 then [] else Payload(ss[..|ss| - 1]) + ss[|ss| - 1].data
  }

  // A program header: offsets and sizes are 32-bit fields.
  function PhdrBytes(s: Segment, offset: nat): (r: seq<byte>)
    ensures |r| == PHDR_SIZE
  {
    Le32(s.kind) + Le32(Low32(offset)) + Le32(s.addr) + Le32(s.addr)
    + Le32(Low32(|s.data|)) + Le32(Low32(|s.data|)) + Le32(s.flags) + Le32(0)
  }

  // The headers of segments laid out one after the other from offset `at`.
  function Table(ss: seq<Segment>, at: nat): (r: seq<byte>)
    ensures |r| == PHDR_SIZE * |ss|
  {
    if |ss| == 0 then []
    else
      var n := |ss| - 1;
      Table(ss[..n], at) + PhdrBytes(ss[n], at + |Payload(ss[..n])|)
  }

  // ----- sizes

  function RegionsSize(rs: seq<Region>): nat {
    if |rs| == 0 then 0 else RegionsSize(rs[..|rs| - 1]) + PHDR_SIZE + rs[|rs| - 1].len
  }

  function NotesSize(ns: seq<Note>): nat {
    if |ns| == 0 then 0 else NotesSize(ns[..|ns| - 1]) + PHDR_SIZE + NoteSize(ns[|ns| - 1])
  }

  function FileSize(rs: seq<Region>, ns: seq<Note>): nat {
    EHDR_SIZE + RegionsSize(rs) + NotesSize(ns)
  }

  // Where the payload starts: e_phnum is a 16-bit field.
  function DataOffset(phnum: nat): nat {
    EHDR_SIZE + PHDR_SIZE * Low16(phnum)
  }

  // Nothing of a region's length goes unused.
  predicate Used(r: Region) {
    (r.general && r.content.Some?) || r.len == 0
  }

  // One more region: its segment, if it is general, goes to the end.
  lemma {:induction false} LoadsStep(rs: seq<Region>)
    requires |rs| > 0
    ensures var n := |rs| - 1;
            && Loads(rs) == Loads(rs[..n]) + LoadOf(rs[n])
            && Payload(Loads(rs)) == Payload(Loads(rs[..n])) + Payload(LoadOf(rs[n]))
  {
    PayloadAppend(Loads(rs[..|rs| - 1]), LoadOf(rs[|rs| - 1]));
  }

  lemma {:induction false} LoadSize(r: Region)
    ensures |LoadOf(r)| == if r.general then 1 else 0
    ensures |Payload(LoadOf(r))| <= r.len
    ensures |Payload(LoadOf(r))| == r.len <==> Used(r)
  {}

  predicate AllUsed(rs: seq<Region>) { forall i :: 0 <= i < |rs| ==> Used(rs[i]) }
  predicate AllGeneral(rs: seq<Region>) { forall i :: 0 <= i < |rs| ==> rs[i].general }

  lemma {:induction false} LoadsCount(rs: seq<Region>)
    ensures |Loads(rs)| <= |rs|
    ensures |Loads(rs)| == |rs| <==> AllGeneral(rs)
  {
    if |rs| > 0 {
      LoadsCount(rs[..|rs| - 1]);
      LoadSize(rs[|rs| - 1]);
      AllStep(rs);
    }
  }

  lemma {:induction false} LoadsSize(rs: seq<Region>)
    ensures PHDR_SIZE * |rs| + |Payload(Loads(rs))| <= RegionsSize(rs)
    ensures PHDR_SIZE * |rs| + |Payload(Loads(rs))| == RegionsSize(rs) <==> AllUsed(rs)
  {
    if |rs| > 0 {
      LoadsSize(rs[..|rs| - 1]);
      LoadsStep(rs);
      LoadSize(rs[|rs| - 1]);
      AllStep(rs);
    }
  }

  lemma {:induction false} AllStep(rs: seq<Region>)
    requires |rs| > 0
    ensures var n := |rs| - 1;
            && (AllUsed(rs) <==> AllUsed(rs[..n]) && Used(rs[n]))
            && (AllGeneral(rs) <==> AllGeneral(rs[..n]) && rs[n].general)
  {}

  lemma {:induction false} NotesPayload(ns: seq<Note>)
    ensures PHDR_SIZE * |ns| + |Payload(NoteSegments(ns))| == NotesSize(ns)
  {
    if |ns| > 0 {
      var n := |ns| - 1;
      NotesPayload(ns[..n]);
      assert NoteSegments(ns)[..n] == NoteSegments(ns[..n]);
    }
  }

  // One more segment at the end.
  lemma {:induction false} PayloadSnoc(ss: seq<Segment>, s: Segment)
    ensures Payload(ss + [s]) == Payload(ss) + s.data
  {}

  lemma {:induction false} TableSnoc(ss: seq<Segment>, s: Segment, at: nat)
    ensures Table(ss + [s], at) == Table(ss, at) + PhdrBytes(s, at + |Payload(ss)|)
  {}

  lemma {:induction false} Associate(x: seq<byte>, y: seq<byte>, z: seq<byte>)
    ensures x + y + z == x + (y + z)
  {}

  lemma {:induction false} PayloadAppend(s: seq<Segment>, t: seq<Segment>)
    ensures Payload(s + t) == Payload(s) + Payload(t)
  {
    if |t| == 0 {
      assert s + t == s;
    } else {
      var init, last := t[..|t| - 1], t[|t| - 1];
      PayloadAppend(s, init);
      assert s + t == s + init + [last];
      PayloadSnoc(s + init, last);
      Associate(Payload(s), Payload(init), last.data);
    }
  }

  // The payload always fits the size computed beforehand, and the file is filled to its last byte, with
  // every program header in use, exactly when every region is general and every one that is not empty
  // could be read.
  lemma {:induction false} FilledExactly(rs: seq<Region>, ns: seq<Note>)
    ensures var ss := Segments(rs, ns);
            var end := EHDR_SIZE + PHDR_SIZE * (|rs| + |ns|) + |Payload(ss)|;
            && |ss| <= |rs| + |ns|
            && end <= FileSize(rs, ns)
            && (end == FileSize(rs, ns) <==> AllUsed(rs))
            && (|ss| == |rs| + |ns| <==> AllGeneral(rs))
  {
    LoadsCount(rs);
    LoadsSize(rs);
    NotesPayload(ns);
    PayloadAppend(Loads(rs), NoteSegments(ns));
  }

  // ----- layout

  // The file so far: header, program headers, payload from offset `at`, and zeros everywhere else.
  ghost predicate Laid(file: seq<byte>, ehdr: seq<byte>, table: seq<byte>, payload: seq<byte>, at: nat) {
    && |ehdr| + |table| <= at && at + |payload| <= |file|
    && file[..|ehdr|] == ehdr
    && file[|ehdr|..|ehdr| + |table|] == table
    && ZeroIn(file, |ehdr| + |table|, at)
    && file[at..at + |payload|] == payload
    && ZeroIn(file, at + |payload|, |file|)
  }

  // The ELF header elf_init_header writes into a zeroed buffer.
  function Ident(): (r: seq<byte>)
    ensures |r| == 16
  {
    [0x7f, 'E' as int, 'L' as int, 'F' as int, 1, 1, 1, 0, 0, 0, 0, 0, 0, 0, 0, 0]
  }

  function Ehdr(phnum: nat): (r: seq<byte>)
    ensures |r| == EHDR_SIZE
  {
    Ident() + EhdrMiddle() + Le16(Low16(phnum)) + Zeros(6)
  }

  // e_type ET_CORE, e_machine EM_RISCV, e_version, e_entry, e_phoff, e_shoff, e_flags, e_ehsize, e_phentsize
  function EhdrMiddle(): (r: seq<byte>)
    ensures |r| == 28
  {
    Le16(4) + Le16(243) + Le32(1) + Le32(0) + Le32(EHDR_SIZE) + Le32(0) + Le32(0) + Le16(EHDR_SIZE) + Le16(PHDR_SIZE)
  }

  // ----- a reader of core files

  // A program header: p_type, p_offset, p_vaddr, p_paddr, p_filesz, p_memsz, p_flags, p_align.
  datatype Phdr = Phdr(kind: u32, offset: u32, vaddr: u32, paddr: u32, filesz: u32, memsz: u32, flags: u32, align: u32)

  function PhdrAt(file: seq<byte>, pos: nat): Phdr
    requires pos + 32 <= |file|
  {
    Phdr(Read32(file, pos), Read32(file, pos + 4), Read32(file, pos + 8), Read32(file, pos + 12),
         Read32(file, pos + 16), Read32(file, pos + 20), Read32(file, pos + 24), Read32(file, pos + 28))
  }

  // The segment a program header describes; none for an unused header.
  function SegmentOf(file: seq<byte>, h: Phdr): Option<seq<Segment>> {
    if h.kind == 0 then Some([])
    else if h.offset + h.filesz > |file| || h.paddr != h.vaddr || h.memsz != h.filesz || h.align != 0 then None
    else Some([Segment(h.kind, h.vaddr, h.flags, file[h.offset..h.offset + h.filesz])])
  }

  function SegmentAt(file: seq<byte>, pos: nat): Option<seq<Segment>>
    requires pos + 32 <= |file|
  {
    SegmentOf(file, PhdrAt(file, pos))
  }

  // The segments of `count` program headers, `size` bytes apart, from `at` on.
  function ReadSegments(file: seq<byte>, at: nat, size: nat, count: nat): Option<seq<Segment>>
    decreases count
  {
    if count == 0 then Some([])
    else if at + 32 > |file| then None
    else
      match (SegmentAt(file, at), ReadSegments(file, at + size, size, count - 1))
      case (Some(s), Some(rest)) => Some(s + rest)
      case _ => None
  }

  // A 32-bit little-endian ELF file, version 1, of type ET_CORE for RISC-V, whose header is 52 bytes long.
  predicate IsCore(file: seq<byte>)
    requires |file| >= 52
  {
    && file[0] == 0x7f && file[1] == 'E' as int && file[2] == 'L' as int && file[3] == 'F' as int
    && file[4] == 1 && file[5] == 1 && file[6] == 1 && file[7] == 0
    && Read16(file, 16) == 4 && Read16(file, 18) == 243 && Read32(file, 20) == 1 && Read16(file, 40) == 52
  }

  // The program headers are found by e_phoff, e_phentsize and e_phnum.
  function ReadCore(file: seq<byte>): Option<seq<Segment>> {
    if |file| < 52 || !IsCore(file) || Read16(file, 42) < 32 then None
    else ReadSegments(file, Read32(file, 28), Read16(file, 42), Read16(file, 44))
  }

  // The notes, and the loadable segments, among the segments of a file.
  function NotesIn(ss: seq<Segment>): seq<Note> {
    if |ss| == 0 then []
    else
      var s := ss[|ss| - 1];
      NotesIn(ss[..|ss| - 1]) +
      if s.kind != 4 then [] else match ParseNote(s.data) case Some(n) => [n] case None => []
  }

  function LoadsIn(ss: seq<Segment>): seq<Segment> {
    if |ss| == 0 then []
    else
      var s := ss[|ss| - 1];
      LoadsIn(ss[..|ss| - 1]) + if s.kind == 1 then [s] else []
  }

  // Where segment i starts.
  function Offset(ss: seq<Segment>, at: nat, i: nat): nat
    requires i <= |ss|
  {
    at + |Payload(ss[..i])|
  }

  // Segments follow one another: none overlaps a later one.
  lemma {:induction false} SegmentsApart(ss: seq<Segment>, at: nat, i: nat, j: nat)
    requires i < j <= |ss|
    ensures at <= Offset(ss, at, i)
    ensures Offset(ss, at, i) + |ss[i].data| <= Offset(ss, at, j)
  {
    if j == i + 1 {
      assert ss[..j][..i] == ss[..i];
    } else {
      SegmentsApart(ss, at, i, j - 1);
      assert ss[..j][..j - 1] == ss[..j - 1];
    }
  }

  // The bytes of segment i within the payload.
  lemma {:induction false} PayloadAt(ss: seq<Segment>, i: nat)
    requires i < |ss|
    ensures var from := |Payload(ss[..i])|;
            && from + |ss[i].data| <= |Payload(ss)|
            && Payload(ss)[from..from + |ss[i].data|] == ss[i].data
  {
    var init, last := ss[..|ss| - 1], ss[|ss| - 1];
    var from := |Payload(ss[..i])|;
    if i < |init| {
      PayloadAt(init, i);
      assert init[..i] == ss[..i];
      InFirst(Payload(init), last.data, from, from + |ss[i].data|);
    } else {
      IsSecond(Payload(init), last.data, from, from + |last.data|);
    }
  }

  // The header of segment i within the table.
  lemma {:induction false} TableAt(ss: seq<Segment>, at: nat, i: nat)
    requires i < |ss|
    ensures Table(ss, at)[PHDR_SIZE * i..PHDR_SIZE * i + PHDR_SIZE] == PhdrBytes(ss[i], Offset(ss, at, i))
  {
    var init, last := ss[..|ss| - 1], ss[|ss| - 1];
    var pos, header := PHDR_SIZE * i, PhdrBytes(last, at + |Payload(init)|);
    if i < |init| {
      TableAt(init, at, i);
      assert init[..i] == ss[..i];
      InFirst(Table(init, at), header, pos, pos + PHDR_SIZE);
    } else {
      IsSecond(Table(init, at), header, pos, pos + PHDR_SIZE);
    }
  }

  // The header of a segment that starts at the given offset.
  function PhdrOf(s: Segment, offset: nat): Phdr {
    Phdr(s.kind, Low32(offset), s.addr, s.addr, Low32(|s.data|), Low32(|s.data|), s.flags, 0)
  }

  lemma {:induction false} PhdrFields(s: Segment, offset: nat, file: seq<byte>, pos: nat)
    requires pos + PHDR_SIZE <= |file| && file[pos..pos + PHDR_SIZE] == PhdrBytes(s, offset)
    ensures PhdrAt(file, pos) == PhdrOf(s, offset)
  {
    var size: u32 := Low32(|s.data|);
    var front := Le32(s.kind) + Le32(Low32(offset)) + Le32(s.addr) + Le32(s.addr);
    var back := Le32(size) + Le32(size) + Le32(s.flags) + Le32(0);
    assert PhdrBytes(s, offset) == front + back;
    SliceSplit(file, pos, front, back);
    FourFields(file, pos, s.kind, Low32(offset), s.addr, s.addr);
    FourFields(file, pos + 16, size, size, s.flags, 0);
  }

  lemma {:induction false} FourFields(file: seq<byte>, pos: nat, a: u32, b: u32, c: u32, d: u32)
    requires pos + 16 <= |file| && file[pos..pos + 16] == Le32(a) + Le32(b) + Le32(c) + Le32(d)
    ensures Read32(file, pos) == a && Read32(file, pos + 4) == b && Read32(file, pos + 8) == c && Read32(file, pos + 12) == d
  {
    SliceSplit(file, pos, Le32(a) + Le32(b) + Le32(c), Le32(d));
    SliceSplit(file, pos, Le32(a) + Le32(b), Le32(c));
    SliceSplit(file, pos, Le32(a), Le32(b));
    FieldAt(file, pos, a);
    FieldAt(file, pos + 4, b);
    FieldAt(file, pos + 8, c);
    FieldAt(file, pos + 12, d);
  }

  lemma {:induction false} FieldAt(file: seq<byte>, pos: nat, v: u32)
    requires pos + 4 <= |file| && file[pos..pos + 4] == Le32(v)
    ensures Read32(file, pos) == v
  {
    Read32Slice(file, pos);
    Read32OfLe32(v);
  }

  // A slice of a slice.
  lemma {:induction false} SubSlice(file: seq<byte>, at: nat, part: seq<byte>, from: nat, size: nat)
    requires at + |part| <= |file| && file[at..at + |part|] == part
    requires from + size <= |part|
    ensures file[at + from..at + from + size] == part[from..from + size]
  {
    var x, y, z := part[..from], part[from..from + size], part[from + size..];
    assert part == x + y + z;
    SliceSplit(file, at, x + y, z);
    SliceSplit(file, at, x, y);
  }

  // Where program header i stands.
  function Slot(i: nat): nat { EHDR_SIZE + PHDR_SIZE * i }

  lemma {:induction false} SegmentOfHeader(file: seq<byte>, s: Segment, offset: nat)
    requires |file| < 0x1_0000_0000 && s.kind != PT_NULL
    requires offset + |s.data| <= |file| && file[offset..offset + |s.data|] == s.data
    ensures SegmentOf(file, PhdrOf(s, offset)) == Some([s])
  {}

  // A header and the bytes it points at make up its segment.
  lemma {:induction false} SegmentFound(file: seq<byte>, pos: nat, s: Segment, offset: nat)
    requires pos + PHDR_SIZE <= |file| < 0x1_0000_0000
    requires PhdrAt(file, pos) == PhdrOf(s, offset)
    requires offset + |s.data| <= |file| && file[offset..offset + |s.data|] == s.data
    requires s.kind != PT_NULL
    ensures SegmentAt(file, pos) == Some([s])
  {
    SegmentOfHeader(file, s, offset);
  }

  lemma {:induction false} HeaderInPlace(file: seq<byte>, table: seq<byte>, ss: seq<Segment>, at: nat, i: nat)
    requires i < |ss| && table == Table(ss, at)
    requires EHDR_SIZE + |table| <= |file| && file[EHDR_SIZE..EHDR_SIZE + |table|] == table
    ensures Slot(i + 1) <= |file|
    ensures file[Slot(i)..Slot(i) + PHDR_SIZE] == PhdrBytes(ss[i], Offset(ss, at, i))
  {
    TableAt(ss, at, i);
    SubSlice(file, EHDR_SIZE, table, PHDR_SIZE * i, PHDR_SIZE);
  }

  lemma {:induction false} DataInPlace(file: seq<byte>, ehdr: seq<byte>, ss: seq<Segment>, at: nat, i: nat)
    requires Laid(file, ehdr, Table(ss, at), Payload(ss), at)
    requires i < |ss|
    ensures var from := Offset(ss, at, i);
            from + |ss[i].data| <= |file| && file[from..from + |ss[i].data|] == ss[i].data
  {
    PayloadAt(ss, i);
    SubSlice(file, at, Payload(ss), |Payload(ss[..i])|, |ss[i].data|);
  }

  // In a laid-out file the reader finds segment i behind header i, and nothing behind the headers past
  // the last segment.
  lemma {:induction false} HeaderMeans(file: seq<byte>, ehdr: seq<byte>, ss: seq<Segment>, at: nat, i: nat)
    requires |ehdr| == EHDR_SIZE && Laid(file, ehdr, Table(ss, at), Payload(ss), at)
    requires NoneUnused(ss) && |file| < 0x1_0000_0000 && Slot(i + 1) <= at
    ensures SegmentAt(file, Slot(i)) == Some(if i < |ss| then [ss[i]] else [])
  {
    if i < |ss| {
      HeaderInPlace(file, Table(ss, at), ss, at, i);
      DataInPlace(file, ehdr, ss, at, i);
      PhdrFields(ss[i], Offset(ss, at, i), file, Slot(i));
      SegmentFound(file, Slot(i), ss[i], Offset(ss, at, i));
    } else {
      UnusedHeader(file, |ehdr| + |Table(ss, at)|, at, Slot(i));
    }
  }

  lemma {:induction false} UnusedHeader(file: seq<byte>, from: nat, to: nat, pos: nat)
    requires from <= pos && pos + PHDR_SIZE <= to <= |file| && ZeroIn(file, from, to)
    ensures SegmentAt(file, pos) == Some([])
  {}

  ghost predicate NoneUnused(ss: seq<Segment>) {
    forall i :: 0 <= i < |ss| ==> ss[i].kind != PT_NULL
  }

  // The segments from index i on.
  function From(ss: seq<Segment>, i: nat): seq<Segment> {
    if i <= |ss| then ss[i..] else []
  }

  lemma {:induction false} FromStep(ss: seq<Segment>, i: nat)
    ensures (if i < |ss| then [ss[i]] else []) + From(ss, i + 1) == From(ss, i)
  {}

  lemma {:induction false} ReadStep(file: seq<byte>, at: nat, next: nat, count: nat, s: seq<Segment>, rest: seq<Segment>)
    requires at + PHDR_SIZE <= |file| && next == at + PHDR_SIZE
    requires SegmentAt(file, at) == Some(s) && ReadSegments(file, next, PHDR_SIZE, count) == Some(rest)
    ensures ReadSegments(file, at, PHDR_SIZE, count + 1) == Some(s + rest)
  {}

  // The reader finds these segments behind the headers from index i on.
  ghost predicate Finds(file: seq<byte>, ss: seq<Segment>, i: nat, count: nat) {
    ReadSegments(file, Slot(i), PHDR_SIZE, count) == Some(From(ss, i))
  }

  // Header i describes segment i, or nothing behind the last.
  ghost predicate Describes(file: seq<byte>, ss: seq<Segment>, i: nat) {
    Slot(i + 1) <= |file| && SegmentAt(file, Slot(i)) == Some(if i < |ss| then [ss[i]] else [])
  }

  lemma {:induction false} FindsStep(file: seq<byte>, ss: seq<Segment>, i: nat, count: nat)
    requires Finds(file, ss, i + 1, count) && Describes(file, ss, i)
    ensures Finds(file, ss, i, count + 1)
  {
    FromStep(ss, i);
    ReadStep(file, Slot(i), Slot(i + 1), count, if i < |ss| then [ss[i]] else [], From(ss, i + 1));
  }

  lemma {:induction false} FindsNone(file: seq<byte>, ss: seq<Segment>, i: nat)
    requires |ss| <= i
    ensures Finds(file, ss, i, 0)
  {
    assert From(ss, i) == [];
  }

  lemma {:induction false} ReadsSegments(file: seq<byte>, ss: seq<Segment>, i: nat, count: nat)
    requires |ss| <= i + count && forall k :: i <= k < i + count ==> Describes(file, ss, k)
    ensures Finds(file, ss, i, count)
    decreases count
  {
    if count > 0 {
      ReadsSegments(file, ss, i + 1, count - 1);
      FindsStep(file, ss, i, count - 1);
    } else {
      FindsNone(file, ss, i);
    }
  }

  // A laid-out file reads as its segments.
  lemma {:induction false} LaidReads(file: seq<byte>, ehdr: seq<byte>, ss: seq<Segment>, at: nat, count: nat)
    requires |ehdr| == EHDR_SIZE && Laid(file, ehdr, Table(ss, at), Payload(ss), at)
    requires NoneUnused(ss) && |file| < 0x1_0000_0000 && |ss| <= count && Slot(count) <= at
    ensures ReadSegments(file, Slot(0), PHDR_SIZE, count) == Some(ss)
  {
    forall k | 0 <= k < count
      ensures Describes(file, ss, k)
    {
      HeaderMeans(file, ehdr, ss, at, k);
    }
    ReadsSegments(file, ss, 0, count);
    assert From(ss, 0) == ss;
  }

  // The 28 bytes between the identification and e_phnum, field by field.
  lemma {:induction false} MiddleFields(m: seq<byte>)
    requires m == EhdrMiddle()
    ensures Read16(m, 0) == 4 && Read16(m, 2) == 243 && Read32(m, 4) == 1 && Read32(m, 8) == 0
    ensures Read32(m, 12) == 52 && Read32(m, 16) == 0 && Read32(m, 20) == 0
    ensures Read16(m, 24) == 52 && Read16(m, 26) == 32
  {}

  lemma {:induction false} MiddleInPlace(file: seq<byte>, m: seq<byte>)
    requires |m| == 28 && |file| >= 44 && file[16..44] == m
    ensures Read16(file, 16) == Read16(m, 0) && Read16(file, 18) == Read16(m, 2) && Read32(file, 20) == Read32(m, 4)
    ensures Read32(file, 24) == Read32(m, 8) && Read32(file, 28) == Read32(m, 12) && Read32(file, 32) == Read32(m, 16)
    ensures Read32(file, 36) == Read32(m, 20) && Read16(file, 40) == Read16(m, 24) && Read16(file, 42) == Read16(m, 26)
  {
    assert forall i :: 0 <= i < 28 ==> m[i] == file[16..44][i];
  }

  // Every field of the ELF header: a core file with program headers behind the header and no sections.
  lemma {:induction false} EhdrFields(file: seq<byte>, phnum: nat)
    requires |file| >= EHDR_SIZE && file[..EHDR_SIZE] == Ehdr(phnum)
    ensures IsCore(file)
    ensures Read32(file, 28) == 52 && Read16(file, 42) == 32 && Read16(file, 44) == Low16(phnum)
    ensures Read32(file, 24) == 0 && Read32(file, 32) == 0 && Read32(file, 36) == 0
  {
    var id, middle, num := Ident(), EhdrMiddle(), Le16(Low16(phnum));
    assert file[0..EHDR_SIZE] == file[..EHDR_SIZE];
    SliceSplit(file, 0, id + middle + num, Zeros(6));
    SliceSplit(file, 0, id + middle, num);
    SliceSplit(file, 0, id, middle);
    MiddleFields(middle);
    MiddleInPlace(file, middle);
    Read16Slice(file, 44);
    Read16OfLe16(Low16(phnum));
    IdentFields(file);
  }

  lemma {:induction false} ReadsByHeader(file: seq<byte>, phnum: nat)
    requires |file| >= EHDR_SIZE && file[..EHDR_SIZE] == Ehdr(phnum)
    ensures ReadCore(file) == ReadSegments(file, Slot(0), PHDR_SIZE, Low16(phnum))
  {
    EhdrFields(file, phnum);
  }

  lemma {:induction false} IdentFields(file: seq<byte>)
    requires |file| >= 16 && file[0..16] == Ident()
    ensures file[0] == 0x7f && file[1] == 'E' as int && file[2] == 'L' as int && file[3] == 'F' as int
    ensures file[4] == 1 && file[5] == 1 && file[6] == 1 && file[7] == 0
  {
    assert forall i :: 0 <= i < 8 ==> file[i] == Ident()[i];
  }

  lemma {:induction false} KindsOf(rs: seq<Region>, ns: seq<Note>)
    ensures forall i :: 0 <= i < |Loads(rs)| ==> Loads(rs)[i].kind == PT_LOAD
    ensures forall i :: 0 <= i < |ns| ==> NoteSegments(ns)[i].kind == PT_NOTE
    decreases |rs| + |ns|
  {
    if |rs| > 0 {
      KindsOf(rs[..|rs| - 1], ns);
    } else if |ns| > 0 {
      KindsOf(rs, ns[..|ns| - 1]);
    }
  }

  lemma {:induction false} SegmentsInUse(rs: seq<Region>, ns: seq<Note>)
    ensures NoneUnused(Segments(rs, ns))
  {
    KindsOf(rs, ns);
  }

  lemma {:induction false} LoadsSelected(ls: seq<Segment>)
    requires forall i :: 0 <= i < |ls| ==> ls[i].kind == PT_LOAD
    ensures LoadsIn(ls) == ls && NotesIn(ls) == []
  {
    if |ls| > 0 {
      var n := |ls| - 1;
      LoadsSelected(ls[..n]);
      assert ls == ls[..n] + [ls[n]];
    }
  }

  // One more note goes to the end of the segments.
  lemma {:induction false} SegmentsStep(rs: seq<Region>, ns: seq<Note>)
    requires |ns| > 0
    ensures var n := |ns| - 1;
            Segments(rs, ns) == Segments(rs, ns[..n]) + [NoteSegment(ns[n])]
  {}

  lemma {:induction false} SelectStep(ss: seq<Segment>, n: Note)
    requires NoteSize(n) < 0x1_0000_0000
    ensures var ss' := ss + [NoteSegment(n)];
            LoadsIn(ss') == LoadsIn(ss) && NotesIn(ss') == NotesIn(ss) + [n]
  {
    var ss' := ss + [NoteSegment(n)];
    assert ss'[..|ss|] == ss;
    NoteParsesBack(n);
  }

  // Every note fits the format's 32-bit sizes.
  predicate AllFit(ns: seq<Note>) {
    forall i :: 0 <= i < |ns| ==> NoteSize(ns[i]) < 0x1_0000_0000
  }

  lemma {:induction false} SelectsLoads(rs: seq<Region>)
    ensures LoadsIn(Segments(rs, [])) == Loads(rs) && NotesIn(Segments(rs, [])) == []
  {
    assert Segments(rs, []) == Loads(rs);
    KindsOf(rs, []);
    LoadsSelected(Loads(rs));
  }

  // Selecting from the segments of a file gives back its notes and its loadable segments.
  lemma {:induction false} SelectsBack(rs: seq<Region>, ns: seq<Note>)
    requires AllFit(ns)
    ensures LoadsIn(Segments(rs, ns)) == Loads(rs) && NotesIn(Segments(rs, ns)) == ns
  {
    if |ns| == 0 {
      SelectsLoads(rs);
    } else {
      var init, last := ns[..|ns| - 1], ns[|ns| - 1];
      assert ns == init + [last];
      SelectsBack(rs, init);
      SegmentsStep(rs, ns);
      SelectStep(Segments(rs, init), last);
    }
  }

  // How many of the first i regions are general.
  function GeneralBefore(rs: seq<Region>, i: nat): nat
    requires i <= |rs|
  {
    if i == 0 then 0 else GeneralBefore(rs, i - 1) + if rs[i - 1].general then 1 else 0
  }

  lemma {:induction false} LoadsCounted(rs: seq<Region>, i: nat)
    requires i <= |rs|
    ensures |Loads(rs[..i])| == GeneralBefore(rs, i)
  {
    if i > 0 {
      LoadsCounted(rs, i - 1);
      assert rs[..i][..i - 1] == rs[..i - 1];
    }
  }

  lemma {:induction false} LoadsPrefix(rs: seq<Region>, i: nat)
    requires i <= |rs|
    ensures Loads(rs[..i]) <= Loads(rs)
    decreases |rs| - i
  {
    if i < |rs| {
      LoadsPrefix(rs, i + 1);
      assert rs[..i + 1][..i] == rs[..i];
    } else {
      assert rs[..i] == rs;
    }
  }

  // Every general region, in order, has a loadable, readable, writable and executable segment at its start
  // address that holds what was read of it, or nothing.
  lemma {:induction false} LoadOfRegion(rs: seq<Region>, i: nat)
    requires i < |rs| && rs[i].general
    ensures var k := GeneralBefore(rs, i);
            k < |Loads(rs)|
            && Loads(rs)[k] == Segment(1, rs[i].start, 7, if rs[i].content.Some? then rs[i].content.value else [])
  {
    LoadsCounted(rs, i);
    LoadsPrefix(rs, i + 1);
    assert rs[..i + 1][..i] == rs[..i];
  }

  // Names, data and notes are aligned to words, with less than a word of padding.
  lemma {:induction false} NotesAligned(n: Note)
    ensures (NHDR_SIZE + NameSize(n)) % 4 == 0 && |n.name| < NameSize(n) <= |n.name| + 4
    ensures NoteSize(n) % 4 == 0 && NHDR_SIZE + NameSize(n) + |n.data| <= NoteSize(n) < NHDR_SIZE + NameSize(n) + |n.data| + 4
  {}

  // No segment overlaps the program headers, a later segment, or the end of the file.
  lemma {:induction false} SegmentsDisjoint(rs: seq<Region>, ns: seq<Note>, i: nat, j: nat)
    requires |rs| + |ns| < 0x1_0000 && i < j < |Segments(rs, ns)|
    ensures var ss, at := Segments(rs, ns), DataOffset(|rs| + |ns|);
            && Slot(|rs| + |ns|) <= Offset(ss, at, i)
            && Offset(ss, at, i) + |ss[i].data| <= Offset(ss, at, j)
            && Offset(ss, at, j) + |ss[j].data| <= FileSize(rs, ns)
  {
    var ss, at := Segments(rs, ns), DataOffset(|rs| + |ns|);
    SegmentsApart(ss, at, i, j);
    SegmentsApart(ss, at, j, |ss|);
    assert ss[..|ss|] == ss;
    FilledExactly(rs, ns);
  }

  // A file laid out for regions and notes that the format can represent reads back as exactly its
  // segments: every note with its name, type and data, every readable general region with its address
  // and contents.
  lemma {:induction false} CoreReadsBack(file: seq<byte>, rs: seq<Region>, ns: seq<Note>)
    requires |rs| + |ns| < 0x1_0000 && |file| == FileSize(rs, ns) < 0x1_0000_0000
    requires LaidOut(file, |rs| + |ns|, Segments(rs, ns))
    ensures ReadCore(file) == Some(Segments(rs, ns))
    ensures LoadsIn(Segments(rs, ns)) == Loads(rs) && NotesIn(Segments(rs, ns)) == ns
  {
    var ss, at, phnum := Segments(rs, ns), DataOffset(|rs| + |ns|), |rs| + |ns|;
    FilledExactly(rs, ns);
    SegmentsInUse(rs, ns);
    ReadsByHeader(file, phnum);
    LaidReads(file, Ehdr(phnum), ss, at, phnum);
    NotesFit(ns);
    SelectsBack(rs, ns);
  }

  // A file with room for phnum headers that holds these segments so far.
  ghost predicate LaidOut(file: seq<byte>, phnum: nat, ss: seq<Segment>) {
    Laid(file, Ehdr(phnum), Table(ss, DataOffset(phnum)), Payload(ss), DataOffset(phnum))
  }

  // The payload starts behind all program headers exactly when their number fits e_phnum.
  lemma {:induction false} ClearOfHeaders(phnum: nat)
    ensures Slot(phnum) <= DataOffset(phnum) <==> phnum < 0x1_0000
  {}

  lemma {:induction false} NotesFit(ns: seq<Note>)
    ensures forall i :: 0 <= i < |ns| ==> NoteSize(ns[i]) <= NotesSize(ns)
  {
    if |ns| > 0 {
      NotesFit(ns[..|ns| - 1]);
    }
  }
}
