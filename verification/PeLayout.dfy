/**
 * The PE format, printed field by field in the order of its structures (IMAGE_DOS_HEADER,
 * IMAGE_FILE_HEADER, IMAGE_OPTIONAL_HEADER64, IMAGE_DATA_DIRECTORY, IMAGE_SECTION_HEADER,
 * IMAGE_IMPORT_DESCRIPTOR), and read back by the parser.
 */
module PeLayout {
  import opened Common
  import opened PeBytes
  import opened PeSections
  import opened PeParser

  type ushort = x: int | 0 <= x < 0x1_0000

  type ulong = x: int | 0 <= x < 0x1_0000_0000_0000_0000

  function Word(v: ushort): (b: seq<byte>)
    ensures |b| == 2
  {
    [v % 0x100, v / 0x100]
  }

  function Dword(v: uint): (b: seq<byte>)
    ensures |b| == 4
  {
    [v % 0x100, v / 0x100 % 0x100, v / 0x1_0000 % 0x100, v / 0x100_0000]
  }

  function Qword(v: ulong): (b: seq<byte>)
    ensures |b| == 8
  {
    Dword(v % 0x1_0000_0000) + Dword(v / 0x1_0000_0000)
  }

  datatype FileHeader = FileHeader(
    machine: ushort, numberOfSections: ushort, timeDateStamp: uint, pointerToSymbolTable: uint, numberOfSymbols: uint,
    sizeOfOptionalHeader: ushort, characteristics: ushort)

  function FileHeaderBytes(h: FileHeader): (b: seq<byte>)
    ensures |b| == 20
  {
    Word(h.machine) + Word(h.numberOfSections) + Dword(h.timeDateStamp) + Dword(h.pointerToSymbolTable)
    + Dword(h.numberOfSymbols) + Word(h.sizeOfOptionalHeader) + Word(h.characteristics)
  }

  datatype Directory = Directory(virtualAddress: uint, size: uint)

  function DirectoryBytes(d: Directory): (b: seq<byte>)
    ensures |b| == 8
  {
    Dword(d.virtualAddress) + Dword(d.size)
  }

  datatype Standard = Standard(
    magic: ushort, majorLinkerVersion: byte, minorLinkerVersion: byte, sizeOfCode: uint, sizeOfInitializedData: uint,
    sizeOfUninitializedData: uint, addressOfEntryPoint: uint, baseOfCode: uint)

  function StandardBytes(o: Standard): (b: seq<byte>)
    ensures |b| == 24
  {
    Word(o.magic) + ([o.majorLinkerVersion, o.minorLinkerVersion] + Dword(o.sizeOfCode) + Dword(o.sizeOfInitializedData)
    + Dword(o.sizeOfUninitializedData) + Dword(o.addressOfEntryPoint) + Dword(o.baseOfCode))
  }

  datatype Windows = Windows(
    imageBase: ulong, sectionAlignment: uint, fileAlignment: uint,
    majorOperatingSystemVersion: ushort, minorOperatingSystemVersion: ushort,
    majorImageVersion: ushort, minorImageVersion: ushort, majorSubsystemVersion: ushort, minorSubsystemVersion: ushort,
    win32VersionValue: uint, sizeOfImage: uint, sizeOfHeaders: uint, checkSum: uint,
    subsystem: ushort, dllCharacteristics: ushort,
    sizeOfStackReserve: ulong, sizeOfStackCommit: ulong, sizeOfHeapReserve: ulong, sizeOfHeapCommit: ulong,
    loaderFlags: uint)

  function WindowsBytes(o: Windows): (b: seq<byte>)
    ensures |b| == 84
  {
    Qword(o.imageBase) + Dword(o.sectionAlignment) + Dword(o.fileAlignment)
    + Word(o.majorOperatingSystemVersion) + Word(o.minorOperatingSystemVersion)
    + Word(o.majorImageVersion) + Word(o.minorImageVersion)
    + Word(o.majorSubsystemVersion) + Word(o.minorSubsystemVersion)
    + Dword(o.win32VersionValue) + Dword(o.sizeOfImage) + Dword(o.sizeOfHeaders) + Dword(o.checkSum)
    + Word(o.subsystem) + Word(o.dllCharacteristics)
    + Qword(o.sizeOfStackReserve) + Qword(o.sizeOfStackCommit) + Qword(o.sizeOfHeapReserve) + Qword(o.sizeOfHeapCommit)
    + Dword(o.loaderFlags)
  }

  /** `others` is all that follows the import directory in the optional header. */
  datatype OptionalHeader = OptionalHeader(
    standard: Standard, windows: Windows, numberOfRvaAndSizes: uint, exports: Directory, imports: Directory,
    others: seq<byte>)

  function OptionalHeaderBytes(o: OptionalHeader): (b: seq<byte>)
    ensures |b| == 128 + |o.others|
  {
    StandardBytes(o.standard)
    + (WindowsBytes(o.windows)
       + (Dword(o.numberOfRvaAndSizes) + (DirectoryBytes(o.exports) + (DirectoryBytes(o.imports) + o.others))))
  }

  datatype SectionRow = SectionRow(
    name: seq<byte>, virtualSize: uint, virtualAddress: uint, sizeOfRawData: uint, pointerToRawData: uint,
    pointerToRelocations: uint, pointerToLinenumbers: uint, numberOfRelocations: ushort, numberOfLinenumbers: ushort,
    characteristics: uint)

  function SectionRowBytes(s: SectionRow): (b: seq<byte>)
    requires |s.name| == 8
    ensures |b| == 40
  {
    s.name + (Dword(s.virtualSize) + (Dword(s.virtualAddress) + (Dword(s.sizeOfRawData) + (Dword(s.pointerToRawData)
    + (Dword(s.pointerToRelocations) + Dword(s.pointerToLinenumbers) + Word(s.numberOfRelocations)
       + Word(s.numberOfLinenumbers) + Dword(s.characteristics))))))
  }

  predicate RowsNamed(rows: seq<SectionRow>) { forall i | 0 <= i < |rows| :: |rows[i].name| == 8 }

  function RowsBytes(rows: seq<SectionRow>): (b: seq<byte>)
    requires RowsNamed(rows)
    ensures |b| == 40 * |rows|
  {
    if rows == [] then [] else SectionRowBytes(rows[0]) + RowsBytes(rows[1..])
  }

  /** `dos` is the DOS header between its signature and `e_lfanew`; `stub` is what lies before the PE header. */
  datatype Executable = Executable(
    dos: seq<byte>, stub: seq<byte>, file: FileHeader, optional: OptionalHeader, rows: seq<SectionRow>, rest: seq<byte>)
  {
    /** The sizes that one part of a file gives of another. */
    ghost predicate Consistent() {
      && |dos| == 58 && |stub| < 0x1000_0000 && RowsNamed(rows)
      && file.numberOfSections == |rows|
      && file.sizeOfOptionalHeader == |OptionalHeaderBytes(optional)|
    }
  }

  function PeBytesOf(e: Executable): seq<byte>
    requires RowsNamed(e.rows)
  {
    [0x50, 0x45, 0, 0] + (FileHeaderBytes(e.file) + (OptionalHeaderBytes(e.optional) + (RowsBytes(e.rows) + e.rest)))
  }

  function ExecutableBytes(e: Executable): seq<byte>
    requires e.Consistent()
  {
    [0x4d, 0x5a] + (e.dos + (Dword(64 + |e.stub|) + (e.stub + PeBytesOf(e))))
  }

  // ----- reading a field where it was printed -----

  ghost predicate Lies(b: seq<byte>, at: nat, piece: seq<byte>) {
    at + |piece| <= |b| && b[at..at + |piece|] == piece
  }

  lemma Apart(b: seq<byte>, at: nat, x: seq<byte>, y: seq<byte>)
    requires Lies(b, at, x + y)
    ensures Lies(b, at, x) && Lies(b, at + |x|, y)
  {
    assert b[at..at + |x|] == b[at..at + |x + y|][..|x|] == x;
    assert b[at + |x|..at + |x| + |y|] == b[at..at + |x + y|][|x|..] == y;
  }

  lemma WordAt(b: Image, at: nat, v: ushort)
    requires Lies(b, at, Word(v))
    ensures at + 2 <= |b| && U16(b, at) == v
  {
    Digits(b, at);
    assert b[at] == b[at..at + 2][0] && b[at + 1] == b[at..at + 2][1];
  }

  lemma DwordAt(b: Image, at: nat, v: uint)
    requires Lies(b, at, Dword(v))
    ensures at + 4 <= |b| && U32(b, at) == v
  {
    Digits(b, at);
    var s := b[at..at + 4];
    assert b[at] == s[0] && b[at + 1] == s[1] && b[at + 2] == s[2] && b[at + 3] == s[3];
    FourDigits(v);
  }

  lemma FourDigits(v: uint)
    ensures v == Sum4(v % 0x100, v / 0x100 % 0x100, v / 0x1_0000 % 0x100, v / 0x100_0000)
  {
    assert v / 0x100 / 0x100 == v / 0x1_0000 && v / 0x1_0000 / 0x100 == v / 0x100_0000;
  }

  lemma FileHeaderAt(b: Image, at: nat, h: FileHeader)
    requires Lies(b, at, FileHeaderBytes(h))
    ensures at + 20 <= |b| && U16(b, at) == h.machine && U16(b, at + 2) == h.numberOfSections
    ensures U16(b, at + 16) == h.sizeOfOptionalHeader
  {
    var first := Word(h.machine) + Word(h.numberOfSections);
    var second := first + Dword(h.timeDateStamp) + Dword(h.pointerToSymbolTable) + Dword(h.numberOfSymbols);
    Apart(b, at, second + Word(h.sizeOfOptionalHeader), Word(h.characteristics));
    Apart(b, at, second, Word(h.sizeOfOptionalHeader));
    Apart(b, at, first + Dword(h.timeDateStamp) + Dword(h.pointerToSymbolTable), Dword(h.numberOfSymbols));
    Apart(b, at, first + Dword(h.timeDateStamp), Dword(h.pointerToSymbolTable));
    Apart(b, at, first, Dword(h.timeDateStamp));
    Apart(b, at, Word(h.machine), Word(h.numberOfSections));
    WordAt(b, at, h.machine);
    WordAt(b, at + 2, h.numberOfSections);
    WordAt(b, at + 16, h.sizeOfOptionalHeader);
  }

  lemma OptionalHeaderAt(b: Image, at: nat, o: OptionalHeader)
    requires Lies(b, at, OptionalHeaderBytes(o))
    ensures at + 128 <= |b| && U16(b, at) == o.standard.magic && U32(b, at + 108) == o.numberOfRvaAndSizes
    ensures U32(b, at + 120) == o.imports.virtualAddress && U32(b, at + 124) == o.imports.size
  {
    var imports := DirectoryBytes(o.imports) + o.others;
    var directories := DirectoryBytes(o.exports) + imports;
    var counted := Dword(o.numberOfRvaAndSizes) + directories;
    Apart(b, at, StandardBytes(o.standard), WindowsBytes(o.windows) + counted);
    Apart(b, at + 24, WindowsBytes(o.windows), counted);
    Apart(b, at + 108, Dword(o.numberOfRvaAndSizes), directories);
    Apart(b, at + 112, DirectoryBytes(o.exports), imports);
    Apart(b, at + 120, DirectoryBytes(o.imports), o.others);
    Apart(b, at + 120, Dword(o.imports.virtualAddress), Dword(o.imports.size));
    MagicFirst(b, at, o.standard);
    DwordAt(b, at + 108, o.numberOfRvaAndSizes);
    DwordAt(b, at + 120, o.imports.virtualAddress);
    DwordAt(b, at + 124, o.imports.size);
  }

  lemma MagicFirst(b: Image, at: nat, o: Standard)
    requires Lies(b, at, StandardBytes(o))
    ensures U16(b, at) == o.magic
  {
    Apart(b, at, Word(o.magic), StandardBytes(o)[2..]);
    WordAt(b, at, o.magic);
  }

  function SectionOf(row: SectionRow): Section {
    Section(virtualAddress := row.virtualAddress, virtualSize := row.virtualSize, rawSize := row.sizeOfRawData,
            rawPointer := row.pointerToRawData)
  }

  lemma SectionRowAt(b: Image, at: nat, row: SectionRow)
    requires |row.name| == 8 && Lies(b, at, SectionRowBytes(row))
    ensures at + ROW <= |b| && SectionAt(b, at) == SectionOf(row)
  {
    var tail := Dword(row.pointerToRelocations) + Dword(row.pointerToLinenumbers) + Word(row.numberOfRelocations)
              + Word(row.numberOfLinenumbers) + Dword(row.characteristics);
    var pointer := Dword(row.pointerToRawData) + tail;
    var size := Dword(row.sizeOfRawData) + pointer;
    var address := Dword(row.virtualAddress) + size;
    Apart(b, at, row.name, Dword(row.virtualSize) + address);
    Apart(b, at + 8, Dword(row.virtualSize), address);
    Apart(b, at + 12, Dword(row.virtualAddress), size);
    Apart(b, at + 16, Dword(row.sizeOfRawData), pointer);
    Apart(b, at + 20, Dword(row.pointerToRawData), tail);
    DwordAt(b, at + 8, row.virtualSize);
    DwordAt(b, at + 12, row.virtualAddress);
    DwordAt(b, at + 16, row.sizeOfRawData);
    DwordAt(b, at + 20, row.pointerToRawData);
  }

  lemma {:induction false} RowAt(b: seq<byte>, at: nat, rows: seq<SectionRow>, k: nat)
    requires RowsNamed(rows) && Lies(b, at, RowsBytes(rows)) && k < |rows|
    ensures Lies(b, at + ROW * k, SectionRowBytes(rows[k]))
    decreases k
  {
    hide Lies, SectionRowBytes;
    Apart(b, at, SectionRowBytes(rows[0]), RowsBytes(rows[1..]));
    if k > 0 {
      RowAt(b, at + ROW, rows[1..], k - 1);
      assert at + ROW + ROW * (k - 1) == at + ROW * k;
    }
  }

  function SectionsOf(rows: seq<SectionRow>): (s: seq<Section>)
    ensures |s| == |rows|
  {
    seq(|rows|, k requires 0 <= k < |rows| => SectionOf(rows[k]))
  }

  lemma RowsAt(b: Image, at: nat, rows: seq<SectionRow>)
    requires RowsNamed(rows) && Lies(b, at, RowsBytes(rows))
    ensures SectionsAt(b, at, |rows|) == SectionsOf(rows)
  {
    hide SectionAt, SectionOf, RowsBytes, Lies;
    assert at + ROW * |rows| <= |b| by { LiesInside(b, at, RowsBytes(rows)); }
    forall k: nat | k < |rows|
      ensures at + ROW * k + ROW <= |b| && SectionAt(b, at + ROW * k) == SectionOf(rows[k])
    {
      RowSection(b, at, rows, k);
    }
    assert SectionsAt(b, at, |rows|) == SectionsOf(rows);
  }

  lemma RowSection(b: Image, at: nat, rows: seq<SectionRow>, k: nat)
    requires RowsNamed(rows) && Lies(b, at, RowsBytes(rows)) && k < |rows|
    ensures at + ROW * k + ROW <= |b| && SectionAt(b, at + ROW * k) == SectionOf(rows[k])
  {
    hide SectionAt, SectionOf, SectionRowBytes, RowsBytes, Lies;
    RowAt(b, at, rows, k);
    SectionRowAt(b, at + ROW * k, rows[k]);
  }

  lemma LiesInside(b: seq<byte>, at: nat, piece: seq<byte>)
    requires Lies(b, at, piece)
    ensures at + |piece| <= |b|
  {}

  /** What the parser is to find in a header that is consistent: the rejections in their order, or the fields by name. */
  function HeaderExpected(e: Executable): Result<Header, Code> {
    if e.file.machine != 0x8664 || |e.rows| == 0 || |e.rows| > 96 || e.file.sizeOfOptionalHeader < 224 then
      Err(LayoutUnsupported)
    else if e.optional.standard.magic != 0x20b then Err(NotPe32Plus)
    else if e.optional.numberOfRvaAndSizes < 2 then Err(ImportDirectoryAbsent)
    else
      Ok(Header(sections := SectionsOf(e.rows),
                importRva := e.optional.imports.virtualAddress, importSize := e.optional.imports.size))
  }

  /** Where the parts of the file lie. */
  lemma PartsLie(e: Executable, b: Image)
    requires e.Consistent() && b == ExecutableBytes(e)
    ensures var pe := 64 + |e.stub|;
      && Lies(b, 0, [0x4d, 0x5a]) && Lies(b, 60, Dword(pe)) && Lies(b, pe, PeBytesOf(e))
  {
    var pe := 64 + |e.stub|;
    assert Lies(b, 0, b);
    Apart(b, 0, [0x4d, 0x5a], e.dos + (Dword(pe) + (e.stub + PeBytesOf(e))));
    Apart(b, 2, e.dos, Dword(pe) + (e.stub + PeBytesOf(e)));
    Apart(b, 60, Dword(pe), e.stub + PeBytesOf(e));
    Apart(b, 64, e.stub, PeBytesOf(e));
  }

  lemma PePartsLie(e: Executable, b: Image, pe: nat)
    requires e.Consistent() && Lies(b, pe, PeBytesOf(e))
    ensures Lies(b, pe, [0x50, 0x45, 0, 0]) && Lies(b, pe + 4, FileHeaderBytes(e.file))
    ensures Lies(b, pe + 24, OptionalHeaderBytes(e.optional))
    ensures Lies(b, pe + 24 + e.file.sizeOfOptionalHeader, RowsBytes(e.rows))
  {
    hide Lies, FileHeaderBytes, OptionalHeaderBytes, RowsBytes;
    var table := RowsBytes(e.rows) + e.rest;
    Apart(b, pe, [0x50, 0x45, 0, 0], FileHeaderBytes(e.file) + (OptionalHeaderBytes(e.optional) + table));
    Apart(b, pe + 4, FileHeaderBytes(e.file), OptionalHeaderBytes(e.optional) + table);
    Apart(b, pe + 24, OptionalHeaderBytes(e.optional), table);
    Apart(b, pe + 24 + e.file.sizeOfOptionalHeader, RowsBytes(e.rows), e.rest);
  }

  /** Every header that was printed is read back: for all values of all fields. */
  lemma HeaderReadsBack(e: Executable, b: Image)
    requires e.Consistent() && b == ExecutableBytes(e)
    ensures HeaderOf(b) == HeaderExpected(e)
  {
    var pe := 64 + |e.stub|;
    PartsLie(e, b);
    PePartsLie(e, b, pe);
    assert Dword(pe) == b[60..64];
    DwordAt(b, 60, pe);
    assert Word(0x5a4d) == [0x4d, 0x5a];
    WordAt(b, 0, 0x5a4d);
    assert PeOffsetOf(b) == Ok(pe);
    PeHeaderReadsBack(e, b, pe);
  }

  lemma PeHeaderReadsBack(e: Executable, b: Image, pe: nat)
    requires e.Consistent() && Lies(b, pe, PeBytesOf(e)) && pe + HEADER <= |b|
    ensures HeaderAt(b, pe) == HeaderExpected(e)
  {
    hide SectionsAt, SectionsOf, U16, U32, FileHeaderBytes, OptionalHeaderBytes, RowsBytes, Lies;
    PePartsLie(e, b, pe);
    assert Dword(0x4550) == [0x50, 0x45, 0, 0];
    DwordAt(b, pe, 0x4550);
    FileHeaderAt(b, pe + 4, e.file);
    OptionalHeaderAt(b, pe + 24, e.optional);
    RowsAt(b, pe + 24 + e.file.sizeOfOptionalHeader, e.rows);
    LiesInside(b, pe + 24, OptionalHeaderBytes(e.optional));
    LiesInside(b, pe + 24 + e.file.sizeOfOptionalHeader, RowsBytes(e.rows));
  }

  // ----- the import table -----

  datatype ImportDescriptor = ImportDescriptor(
    originalFirstThunk: uint, timeDateStamp: uint, forwarderChain: uint, name: uint, firstThunk: uint)

  function DescriptorBytes(d: ImportDescriptor): (b: seq<byte>)
    ensures |b| == 20
  {
    Dword(d.originalFirstThunk) + (Dword(d.timeDateStamp) + (Dword(d.forwarderChain) + (Dword(d.name) + Dword(d.firstThunk))))
  }

  /** The table, and the descriptor of zeros that ends it. */
  function TableBytes(table: seq<ImportDescriptor>): (b: seq<byte>) {
    if table == [] then DescriptorBytes(ImportDescriptor(0, 0, 0, 0, 0))
    else DescriptorBytes(table[0]) + TableBytes(table[1..])
  }

  lemma DescriptorAt(b: Image, at: nat, d: ImportDescriptor)
    requires Lies(b, at, DescriptorBytes(d))
    ensures at + ENTRY <= |b| && U32(b, at + 12) == d.name
    ensures EntryZero(b, at) <==> d == ImportDescriptor(0, 0, 0, 0, 0)
  {
    var name := Dword(d.name) + Dword(d.firstThunk);
    var forwarder := Dword(d.forwarderChain) + name;
    var time := Dword(d.timeDateStamp) + forwarder;
    Apart(b, at, Dword(d.originalFirstThunk), time);
    Apart(b, at + 4, Dword(d.timeDateStamp), forwarder);
    Apart(b, at + 8, Dword(d.forwarderChain), name);
    Apart(b, at + 12, Dword(d.name), Dword(d.firstThunk));
    DwordAt(b, at, d.originalFirstThunk);
    DwordAt(b, at + 4, d.timeDateStamp);
    DwordAt(b, at + 8, d.forwarderChain);
    DwordAt(b, at + 12, d.name);
    DwordAt(b, at + 16, d.firstThunk);
  }

  /** A library name: visible ASCII without a path or drive separator, and not too long. */
  predicate LibraryName(name: string) {
    && 0 < |name| < 512
    && forall i | 0 <= i < |name| :: 0x21 <= name[i] as int <= 0x7e && name[i] != '\\' && name[i] != '/' && name[i] != ':'
  }

  /** The descriptor's name address is backed by a zero-terminated `name`. */
  ghost predicate NameLies(b: Image, sections: seq<Section>, d: ImportDescriptor, name: string) {
    && d.name != 0 && LibraryName(name)
    && MapRva(sections, d.name, |b|).Ok?
    && Lies(b, MapRva(sections, d.name, |b|).value, Bytes(name) + [0])
  }

  /** The text in capitals. */
  ghost predicate InCapitals(u: string, name: string) {
    SameLetters(u, name) && forall i | 0 <= i < |u| :: !('a' <= u[i] <= 'z')
  }

  lemma NameReadsBack(b: Image, sections: seq<Section>, at: nat, d: ImportDescriptor, name: string)
    requires Lies(b, at, DescriptorBytes(d)) && NameLies(b, sections, d, name)
    ensures at + ENTRY <= |b| && !EntryZero(b, at)
    ensures forall u :: EntryName(b, sections, at) == Ok(u) <==> InCapitals(u, name)
  {
    hide EntryZero, Lies, DescriptorBytes, U32, MapRva, AsciiZ, Bytes, Upper;
    DescriptorAt(b, at, d);
    var offset := MapRva(sections, d.name, |b|).value;
    MapRvaInside(sections, d.name, |b|);
    TextReadsBack(b, offset, name);
    forall u ensures u == Upper(name) <==> InCapitals(u, name) {
      UpperExact(name, u);
    }
  }

  lemma TextReadsBack(b: Image, offset: nat, name: string)
    requires offset < |b| && LibraryName(name) && Lies(b, offset, Bytes(name) + [0])
    ensures AsciiZ(b, offset, MAX_NAME) == Ok(name)
  {
    hide AsciiZ;
    var end := offset + |name|;
    Apart(b, offset, Bytes(name), [0]);
    assert b[end] == b[end..end + 1][0] == 0;
    forall i | offset <= i < end ensures b[i] == name[i - offset] as int {
      assert b[i] == b[offset..end][i - offset];
    }
    assert NameEndsAt(b, offset, end, MAX_NAME);
    assert Ascii(b[offset..end]) == name;
    AsciiZExact(b, offset, MAX_NAME, name);
  }

  /** And only such a text is read, from the start to the zero behind it. */
  lemma TextIsThere(b: Image, offset: nat, text: string)
    requires offset < |b| && AsciiZ(b, offset, MAX_NAME) == Ok(text)
    ensures 0 < |text| < 512 && forall i | 0 <= i < |text| :: 0x21 <= text[i] as int <= 0x7e
    ensures Lies(b, offset, Bytes(text) + [0])
  {
    hide AsciiZ;
    AsciiZExact(b, offset, MAX_NAME, text);
    var end: nat :| end <= |b| && NameEndsAt(b, offset, end, MAX_NAME) && text == Ascii(b[offset..end]);
    assert Bytes(text) == b[offset..end];
    assert b[offset..end + 1] == b[offset..end] + [0];
  }

  /** The name of the descriptor at `at`, with its address in the file. */
  ghost predicate NameStands(b: Image, sections: seq<Section>, at: nat, name: string)
    requires at + ENTRY <= |b|
  {
    && U32(b, at + 12) != 0 && LibraryName(name)
    && MapRva(sections, U32(b, at + 12), |b|).Ok?
    && Lies(b, MapRva(sections, U32(b, at + 12), |b|).value, Bytes(name) + [0])
  }

  /** A descriptor is given a name if and only if a library name stands where it points, and then that one in capitals. */
  lemma NameExact(b: Image, sections: seq<Section>, at: nat, u: string)
    requires at + ENTRY <= |b|
    ensures EntryName(b, sections, at) == Ok(u) <==>
              exists name: string :: NameStands(b, sections, at, name) && InCapitals(u, name)
  {
    hide Lies, U32, MapRva, AsciiZ, Bytes, Upper;
    var nameRva := U32(b, at + 12);
    if EntryName(b, sections, at) == Ok(u) {
      MapRvaInside(sections, nameRva, |b|);
      var offset := MapRva(sections, nameRva, |b|).value;
      var text := AsciiZ(b, offset, MAX_NAME).value;
      TextIsThere(b, offset, text);
      UpperExact(text, u);
      assert NameStands(b, sections, at, text);
    }
    forall name: string | NameStands(b, sections, at, name) && InCapitals(u, name)
      ensures EntryName(b, sections, at) == Ok(u)
    {
      MapRvaInside(sections, nameRva, |b|);
      TextReadsBack(b, MapRva(sections, nameRva, |b|).value, name);
      UpperExact(name, u);
    }
  }

  lemma {:induction false} DescriptorLies(b: seq<byte>, at: nat, table: seq<ImportDescriptor>, k: nat)
    requires Lies(b, at, TableBytes(table)) && k <= |table|
    ensures Lies(b, at + ENTRY * k, DescriptorBytes(if k < |table| then table[k] else ImportDescriptor(0, 0, 0, 0, 0)))
    decreases k
  {
    if table != [] {
      Apart(b, at, DescriptorBytes(table[0]), TableBytes(table[1..]));
      if k > 0 {
        DescriptorLies(b, at + ENTRY, table[1..], k - 1);
        assert at + ENTRY + ENTRY * (k - 1) == at + ENTRY * k;
      }
    }
  }

  function Capitals(names: seq<string>): (u: seq<string>)
    ensures |u| == |names|
  {
    seq(|names|, k requires 0 <= k < |names| => Upper(names[k]))
  }

  /** Descriptor `k` of the printed table is there, and has the name it was given. */
  lemma ImportAt(b: Image, sections: seq<Section>, descriptor: nat, table: seq<ImportDescriptor>, names: seq<string>, k: nat)
    requires k < |table| == |names| && Lies(b, descriptor, TableBytes(table)) && NameLies(b, sections, table[k], names[k])
    ensures Live(b, descriptor, k) && Named(b, sections, descriptor, k, Capitals(names)[k])
    ensures InCapitals(Capitals(names)[k], names[k])
  {
    hide NameLies, Lies, EntryName, EntryZero, TableBytes, DescriptorBytes;
    DescriptorLies(b, descriptor, table, k);
    UpperExact(names[k], Upper(names[k]));
    NameReadsBack(b, sections, descriptor + ENTRY * k, table[k], names[k]);
  }

  lemma TableEnds(b: Image, descriptor: nat, table: seq<ImportDescriptor>)
    requires Lies(b, descriptor, TableBytes(table))
    ensures Inside(b, descriptor, |table|) && !Live(b, descriptor, |table|)
  {
    hide EntryZero, Lies, U32, TableBytes, DescriptorBytes;
    DescriptorLies(b, descriptor, table, |table|);
    DescriptorAt(b, descriptor + ENTRY * |table|, ImportDescriptor(0, 0, 0, 0, 0));
  }

  /** A printed import table with its names is read back as exactly those names, in capitals and in order. */
  lemma ImportsReadBack(b: Image, h: Header, table: seq<ImportDescriptor>, names: seq<string>)
    requires h.importRva != 0 && |table| < EntryLimit(h.importSize) && |names| == |table|
    requires MapRva(h.sections, h.importRva, |b|).Ok?
    requires Lies(b, MapRva(h.sections, h.importRva, |b|).value, TableBytes(table))
    requires forall k | 0 <= k < |table| :: NameLies(b, h.sections, table[k], names[k])
    ensures Imports(b, h).Ok? && |Imports(b, h).value| == |names|
    ensures forall k | 0 <= k < |names| :: InCapitals(Imports(b, h).value[k], names[k])
  {
    hide NameLies, Lies, Live, Named, Inside, InCapitals, MapRva, Imports, TableBytes, Capitals;
    var descriptor := MapRva(h.sections, h.importRva, |b|).value;
    forall k: nat | k < |table|
      ensures Live(b, descriptor, k) && Named(b, h.sections, descriptor, k, Capitals(names)[k])
      ensures InCapitals(Capitals(names)[k], names[k])
    {
      ImportAt(b, h.sections, descriptor, table, names, k);
    }
    TableEnds(b, descriptor, table);
    ImportsExact(b, h, Capitals(names));
  }

  /** From the printed file to its import list: header, section mapping and walk together. */
  lemma FileReadsBack(e: Executable, b: Image, table: seq<ImportDescriptor>, names: seq<string>, at: nat)
    requires e.Consistent() && b == ExecutableBytes(e) && HeaderExpected(e).Ok? && |names| == |table|
    requires e.optional.imports.virtualAddress != 0 && |table| < EntryLimit(e.optional.imports.size)
    requires MapRva(SectionsOf(e.rows), e.optional.imports.virtualAddress, |b|) == Ok(at) && Lies(b, at, TableBytes(table))
    requires forall k | 0 <= k < |table| :: NameLies(b, SectionsOf(e.rows), table[k], names[k])
    ensures InventoryOf(b).Ok? && |InventoryOf(b).value.imports| == |names|
    ensures forall k | 0 <= k < |names| :: InCapitals(InventoryOf(b).value.imports[k], names[k])
  {
    hide NameLies, Lies, InCapitals, MapRva, Imports, TableBytes, HeaderOf, ExecutableBytes, InventoryOf, SectionsOf;
    HeaderReadsBack(e, b);
    ImportsReadBack(b, HeaderExpected(e).value, table, names);
    NotEmpty(e, b);
    InventoryFrom(b, HeaderExpected(e).value);
  }

  lemma InventoryFrom(b: Image, h: Header)
    requires 0 < |b| <= MAX_SIZE && HeaderOf(b) == Ok(h) && Imports(b, h).Ok?
    ensures InventoryOf(b).Ok? && InventoryOf(b).value.imports == Imports(b, h).value
  {
    hide HeaderOf, Imports, Occurs;
  }

  lemma NotEmpty(e: Executable, b: Image)
    requires e.Consistent() && b == ExecutableBytes(e)
    ensures 0 < |b| <= MAX_SIZE
  {}
}
