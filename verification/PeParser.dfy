/**
 * `PeParser.Parse`: from the bytes of an executable to the upper-cased names of the
 * libraries it imports and whether its manifest asks for `highestAvailable`.
 */
module PeParser {
  import opened Common
  import opened PeBytes
  import opened PeSections

  datatype Header = Header(sections: seq<Section>, importRva: nat, importSize: nat)

  datatype Inventory = Inventory(imports: seq<string>, highestAvailable: bool)

  const HEADER := 24
  const ROW := 40
  const ENTRY := 20
  const MAX_ENTRIES := 4096
  const MAX_NAME := 512

  // ----- the header, read at places already known to be inside the file -----

  function SectionAt(b: Image, at: nat): (s: Section)
    requires at + ROW <= |b|
    ensures s.Fits()
  {
    Digits(b, at + 8);
    Digits(b, at + 12);
    Digits(b, at + 16);
    Digits(b, at + 20);
    Section(U32(b, at + 12), U32(b, at + 8), U32(b, at + 16), U32(b, at + 20))
  }

  function SectionsAt(b: Image, table: nat, count: nat): (s: seq<Section>)
    requires table + ROW * count <= |b|
    ensures |s| == count && AllFit(s)
  {
    seq(count, k requires 0 <= k < count => SectionAt(b, table + ROW * k))
  }

  predicate Supported(b: Image, pe: nat)
    requires pe + HEADER <= |b|
  {
    U16(b, pe + 4) == 0x8664 && 1 <= U16(b, pe + 6) <= 96 && U16(b, pe + 20) >= 224
  }

  /** Where the PE header starts. */
  function PeOffsetOf(b: Image): Result<nat, Code> {
    if |b| < 2 then Err(BoundsRejected)
    else if U16(b, 0) != 0x5a4d then Err(DosSignatureInvalid)
    else if |b| < 0x40 then Err(BoundsRejected)
    else if U32(b, 0x3c) + HEADER > |b| then Err(BoundsRejected)
    else Ok(U32(b, 0x3c))
  }

  /**
   * The header accepted at `pe`. Only the two bounds tests can reject it for being out of
   * the file: once the optional header lies inside, its fields are simply there.
   */
  function HeaderAt(b: Image, pe: nat): Result<Header, Code>
    requires pe + HEADER <= |b|
  {
    if U32(b, pe) != 0x4550 then Err(SignatureInvalid)
    else if !Supported(b, pe) then Err(LayoutUnsupported)
    else
      var optional, size, count := pe + HEADER, U16(b, pe + 20), U16(b, pe + 6);
      if optional + size > |b| then Err(BoundsRejected)
      else if U16(b, optional) != 0x20b then Err(NotPe32Plus)
      else if U32(b, optional + 108) < 2 then Err(ImportDirectoryAbsent)
      else if optional + size + ROW * count > |b| then Err(BoundsRejected)
      else Ok(Header(SectionsAt(b, optional + size, count), U32(b, optional + 120), U32(b, optional + 124)))
  }

  function HeaderOf(b: Image): Result<Header, Code> {
    var pe :- PeOffsetOf(b);
    HeaderAt(b, pe)
  }

  /** A read written `.value` is proved never to be rejected; one written `:-` can be. */
  method ReadPeOffset(bytes: Image) returns (r: Result<nat, Code>)
    ensures r == PeOffsetOf(bytes)
    ensures r.Ok? ==> r.value + HEADER <= |bytes|
  {
    var dos :- ReadU16(bytes, 0);
    if dos != 0x5a4d {
      return Err(DosSignatureInvalid);
    }
    var peOffsetRaw :- ReadU32(bytes, 0x3c);
    r := CheckedOffset(peOffsetRaw, HEADER, |bytes|);
  }

  method ReadHeader(bytes: Image, peOffset: nat) returns (r: Result<Header, Code>)
    requires peOffset + HEADER <= |bytes|
    ensures r == HeaderAt(bytes, peOffset)
    ensures r.Ok? ==> AllFit(r.value.sections) && r.value.importRva < 0x1_0000_0000 && r.value.importSize < 0x1_0000_0000
  {
    var signature := ReadU32(bytes, peOffset).value;
    if signature != 0x4550 {
      return Err(SignatureInvalid);
    }
    var machine := ReadU16(bytes, peOffset + 4).value;
    var sectionCount := ReadU16(bytes, peOffset + 6).value;
    var optionalSize := ReadU16(bytes, peOffset + 20).value;
    if machine != 0x8664 || sectionCount == 0 || sectionCount > 96 || optionalSize < 224 {
      return Err(LayoutUnsupported);
    }
    var optional := Checked(peOffset + HEADER);
    var _ :- CheckedOffset(CheckedUnsigned(optional), optionalSize, |bytes|);
    r := ReadOptional(bytes, optional, optionalSize, sectionCount);
  }

  method ReadOptional(bytes: Image, optional: nat, optionalSize: nat, sectionCount: nat) returns (r: Result<Header, Code>)
    requires 224 <= optionalSize && optional + optionalSize <= |bytes| && 1 <= sectionCount <= 96
    ensures r == if U16(bytes, optional) != 0x20b then Err(NotPe32Plus)
                 else if U32(bytes, optional + 108) < 2 then Err(ImportDirectoryAbsent)
                 else if optional + optionalSize + ROW * sectionCount > |bytes| then Err(BoundsRejected)
                 else Ok(Header(SectionsAt(bytes, optional + optionalSize, sectionCount),
                                U32(bytes, optional + 120), U32(bytes, optional + 124)))
    ensures r.Ok? ==> AllFit(r.value.sections) && r.value.importRva < 0x1_0000_0000 && r.value.importSize < 0x1_0000_0000
  {
    var magic := ReadU16(bytes, optional).value;
    if magic != 0x20b {
      return Err(NotPe32Plus);
    }
    var directoryCount := ReadU32(bytes, optional + 108).value;
    if directoryCount < 2 {
      return Err(ImportDirectoryAbsent);
    }
    var importRva := ReadU32(bytes, optional + 120).value;
    var importSize := ReadU32(bytes, optional + 124).value;
    var sections :- ReadSections(bytes, Checked(optional + optionalSize), sectionCount);
    return Ok(Header(sections, importRva, importSize));
  }

  method ReadSections(bytes: Image, sectionOffset: nat, sectionCount: nat) returns (r: Result<seq<Section>, Code>)
    requires sectionOffset <= |bytes| && sectionCount <= 96
    ensures r == if sectionOffset + ROW * sectionCount > |bytes| then Err(BoundsRejected)
                 else Ok(SectionsAt(bytes, sectionOffset, sectionCount))
  {
    var sections := [];
    for index := 0 to sectionCount
      invariant sectionOffset + ROW * index <= |bytes|
      invariant sections == SectionsAt(bytes, sectionOffset, index)
    {
      var current :- CheckedOffset(CheckedUnsigned(Checked(sectionOffset + Checked(index * ROW))), ROW, |bytes|);
      var virtualSize := ReadU32(bytes, current + 8).value;
      var virtualAddress := ReadU32(bytes, current + 12).value;
      var rawSize := ReadU32(bytes, current + 16).value;
      var rawPointer := ReadU32(bytes, current + 20).value;
      sections := sections + [Section(virtualAddress, virtualSize, rawSize, rawPointer)];
    }
    return Ok(sections);
  }

  // ----- names -----

  predicate Printable(c: byte) { 0x21 <= c <= 0x7e }

  function Ascii(b: seq<byte>): (s: string)
    requires forall i | 0 <= i < |b| :: b[i] < 0x80
    ensures |s| == |b|
  {
    seq(|b|, i requires 0 <= i < |b| => b[i] as char)
  }

  /** A printable, non-empty, zero-terminated name at `offset`, its terminator within `maximum` bytes. */
  ghost predicate NameEndsAt(b: Image, offset: nat, end: nat, maximum: nat) {
    && offset < end < |b| && end < offset + maximum
    && b[end] == 0
    && forall i | offset <= i < end :: 0x21 <= b[i] <= 0x7e
  }

  /** `ReadAsciiZ`. */
  method ReadAsciiZ(bytes: Image, offset: nat, maximum: nat) returns (r: Result<string, Code>)
    requires offset < |bytes| && maximum <= MAX_NAME
    ensures r == AsciiZ(bytes, offset, maximum)
  {
    var end := offset;
    var limit := if |bytes| <= Checked(offset + maximum) then |bytes| else offset + maximum;
    while end < limit && bytes[end] != 0
      invariant offset <= end <= limit
      invariant forall i | offset <= i < end :: Printable(bytes[i])
      invariant ScanName(bytes, offset, limit) == ScanName(bytes, end, limit)
    {
      if bytes[end] < 0x21 || bytes[end] > 0x7e {
        return Err(AsciiNameInvalid);
      }
      end := end + 1;
    }
    if end == offset || end == limit {
      return Err(AsciiNameUnterminated);
    }
    return Ok(Ascii(bytes[offset..end]));
  }

  function ScanName(b: Image, at: nat, limit: nat): (r: Result<nat, Code>)
    requires at <= limit <= |b|
    ensures r.Ok? ==> at <= r.value <= limit && forall i | at <= i < r.value :: Printable(b[i])
    decreases limit - at
  {
    if at == limit || b[at] == 0 then Ok(at)
    else if !Printable(b[at]) then Err(AsciiNameInvalid)
    else ScanName(b, at + 1, limit)
  }

  function AsciiZ(b: Image, offset: nat, maximum: nat): Result<string, Code>
    requires offset < |b|
  {
    var limit := if |b| <= offset + maximum then |b| else offset + maximum;
    var end :- ScanName(b, offset, limit);
    if end == offset || end == limit then Err(AsciiNameUnterminated) else Ok(Ascii(b[offset..end]))
  }

  lemma {:induction false} ScanNameStops(b: Image, at: nat, end: nat, limit: nat)
    requires at <= end < limit <= |b| && b[end] == 0
    requires forall i | at <= i < end :: Printable(b[i])
    ensures ScanName(b, at, limit) == Ok(end)
    decreases end - at
  {
    if at < end { ScanNameStops(b, at + 1, end, limit); }
  }

  lemma {:induction false} ScanNameFound(b: Image, at: nat, limit: nat)
    requires at <= limit <= |b|
    requires ScanName(b, at, limit).Ok? && ScanName(b, at, limit).value < limit
    ensures b[ScanName(b, at, limit).value] == 0
    decreases limit - at
  {
    if at < limit && b[at] != 0 { ScanNameFound(b, at + 1, limit); }
  }

  lemma AsciiZExact(b: Image, offset: nat, maximum: nat, name: string)
    requires offset < |b|
    ensures AsciiZ(b, offset, maximum) == Ok(name) <==>
              exists end: nat | end <= |b| :: NameEndsAt(b, offset, end, maximum) && name == Ascii(b[offset..end])
  {
    var limit := if |b| <= offset + maximum then |b| else offset + maximum;
    if AsciiZ(b, offset, maximum) == Ok(name) {
      ScanNameFound(b, offset, limit);
      assert NameEndsAt(b, offset, ScanName(b, offset, limit).value, maximum);
    }
    forall end: nat | end <= |b| && NameEndsAt(b, offset, end, maximum)
      ensures AsciiZ(b, offset, maximum) == Ok(Ascii(b[offset..end]))
    {
      ScanNameStops(b, offset, end, limit);
    }
  }

  // ----- the import table -----

  predicate EntryZero(b: Image, at: nat)
    requires at + ENTRY <= |b|
  {
    U32(b, at) == 0 && U32(b, at + 4) == 0 && U32(b, at + 8) == 0 && U32(b, at + 12) == 0 && U32(b, at + 16) == 0
  }

  predicate Separated(name: string) { '\\' in name || '/' in name || ':' in name }

  /** The upper-cased library name of the import descriptor at `at`. */
  function EntryName(b: Image, sections: seq<Section>, at: nat): Result<string, Code>
    requires at + ENTRY <= |b|
  {
    var nameRva := U32(b, at + 12);
    if nameRva == 0 then Err(ImportNameMissing)
    else
      var offset :- MapRva(sections, nameRva, |b|);
      MapRvaInside(sections, nameRva, |b|);
      var name :- AsciiZ(b, offset, MAX_NAME);
      if Separated(name) then Err(ImportNameInvalid) else Ok(Upper(name))
  }

  /** One descriptor: `None` is the all-zero one that ends the table. */
  function Entry(b: Image, sections: seq<Section>, at: nat): Result<Option<string>, Code>
    requires at + ENTRY <= |b|
  {
    if EntryZero(b, at) then Ok(None)
    else
      var name :- EntryName(b, sections, at);
      Ok(Some(name))
  }

  function EntriesFrom(b: Image, sections: seq<Section>, at: nat, left: nat): Result<seq<string>, Code>
    decreases left
  {
    if left == 0 then Ok([])
    else if at + ENTRY > |b| then Err(BoundsRejected)
    else
      var entry :- Entry(b, sections, at);
      if entry.None? then Ok([]) else Appended([entry.value], EntriesFrom(b, sections, at + ENTRY, left - 1))
  }

  function Appended(before: seq<string>, rest: Result<seq<string>, Code>): Result<seq<string>, Code> {
    match rest
    case Ok(names) => Ok(before + names)
    case Err(e) => Err(e)
  }

  lemma AppendedStep(before: seq<string>, name: string, rest: Result<seq<string>, Code>)
    ensures Appended(before, Appended([name], rest)) == Appended(before + [name], rest)
  {
    if rest.Ok? { assert before + ([name] + rest.value) == before + [name] + rest.value; }
  }

  function Imports(b: Image, h: Header): Result<seq<string>, Code> {
    if h.importRva == 0 || h.importSize < ENTRY then Ok([])
    else
      var descriptor :- MapRva(h.sections, h.importRva, |b|);
      EntriesFrom(b, h.sections, descriptor, EntryLimit(h.importSize))
  }

  function EntryLimit(importSize: nat): nat {
    if importSize / ENTRY < MAX_ENTRIES then importSize / ENTRY else MAX_ENTRIES
  }

  method ReadEntry(bytes: Image, sections: seq<Section>, current: nat)
    returns (r: Result<Option<string>, Code>)
    requires current + ENTRY <= |bytes| && AllFit(sections)
    ensures r == Entry(bytes, sections, current)
  {
    var originalThunk := ReadU32(bytes, current).value;
    var time := ReadU32(bytes, current + 4).value;
    var forwarder := ReadU32(bytes, current + 8).value;
    var nameRva := ReadU32(bytes, current + 12).value;
    var firstThunk := ReadU32(bytes, current + 16).value;
    if originalThunk == 0 && time == 0 && forwarder == 0 && nameRva == 0 && firstThunk == 0 {
      return Ok(None);
    }
    if nameRva == 0 {
      return Err(ImportNameMissing);
    }
    var offset :- RvaToOffset(nameRva, sections, |bytes|);
    MapRvaInside(sections, nameRva, |bytes|);
    var name :- ReadAsciiZ(bytes, offset, MAX_NAME);
    if '\\' in name || '/' in name || ':' in name {
      return Err(ImportNameInvalid);
    }
    return Ok(Some(Upper(name)));
  }

  /** Descriptor `k` of the table at `descriptor` and those after it. */
  function EntriesAt(b: Image, sections: seq<Section>, descriptor: nat, k: nat, maximum: nat): Result<seq<string>, Code>
    requires k <= maximum
  {
    EntriesFrom(b, sections, descriptor + ENTRY * k, maximum - k)
  }

  lemma EntriesAtStep(b: Image, sections: seq<Section>, descriptor: nat, k: nat, maximum: nat, before: seq<string>)
    requires k < maximum
    ensures
      var at := descriptor + ENTRY * k;
      if at + ENTRY > |b| then EntriesAt(b, sections, descriptor, k, maximum) == Err(BoundsRejected)
      else match Entry(b, sections, at)
        case Err(e) => EntriesAt(b, sections, descriptor, k, maximum) == Err(e)
        case Ok(None) => EntriesAt(b, sections, descriptor, k, maximum) == Ok([])
        case Ok(Some(name)) =>
          Appended(before, EntriesAt(b, sections, descriptor, k, maximum))
          == Appended(before + [name], EntriesAt(b, sections, descriptor, k + 1, maximum))
  {
    var at := descriptor + ENTRY * k;
    assert at + ENTRY == descriptor + ENTRY * (k + 1);
    if at + ENTRY <= |b| && Entry(b, sections, at).Ok? && Entry(b, sections, at).value.Some? {
      AppendedStep(before, Entry(b, sections, at).value.value, EntriesAt(b, sections, descriptor, k + 1, maximum));
    }
  }

  method ReadEntries(bytes: Image, sections: seq<Section>, descriptor: nat, maximum: nat)
    returns (r: Result<seq<string>, Code>)
    requires AllFit(sections) && descriptor < |bytes| && maximum <= MAX_ENTRIES
    ensures r == EntriesAt(bytes, sections, descriptor, 0, maximum)
  {
    var imports := [];
    ghost var whole := EntriesAt(bytes, sections, descriptor, 0, maximum);
    assert Appended([], whole) == whole by {
      if whole.Ok? { assert [] + whole.value == whole.value; }
    }
    for index := 0 to maximum
      invariant Appended(imports, EntriesAt(bytes, sections, descriptor, index, maximum)) == whole
    {
      EntriesAtStep(bytes, sections, descriptor, index, maximum, imports);
      var current :- CheckedOffset(CheckedUnsigned(Checked(descriptor + Checked(index * ENTRY))), ENTRY, |bytes|);
      var entry :- ReadEntry(bytes, sections, current);
      if entry.None? {
        assert imports + [] == imports;
        return Ok(imports);
      }
      imports := imports + [entry.value];
    }
    assert imports + [] == imports;
    return Ok(imports);
  }

  method ReadImports(bytes: Image, h: Header) returns (r: Result<seq<string>, Code>)
    requires AllFit(h.sections) && h.importRva < 0x1_0000_0000 && h.importSize < 0x1_0000_0000
    ensures r == Imports(bytes, h)
  {
    if h.importRva != 0 && h.importSize >= ENTRY {
      var descriptor :- RvaToOffset(h.importRva, h.sections, |bytes|);
      MapRvaInside(h.sections, h.importRva, |bytes|);
      var maximum := Checked(h.importSize / ENTRY);
      r := ReadEntries(bytes, h.sections, descriptor, if maximum < MAX_ENTRIES then maximum else MAX_ENTRIES);
    } else {
      r := Ok([]);
    }
  }

  // ----- what the walk finds -----

  ghost predicate Inside(b: Image, descriptor: nat, k: nat) { descriptor + ENTRY * k + ENTRY <= |b| }

  /** Descriptor `k` is inside the file and not all zero. */
  ghost predicate Live(b: Image, descriptor: nat, k: nat) {
    Inside(b, descriptor, k) && !EntryZero(b, descriptor + ENTRY * k)
  }

  ghost predicate Named(b: Image, sections: seq<Section>, descriptor: nat, k: nat, name: string) {
    Inside(b, descriptor, k) && EntryName(b, sections, descriptor + ENTRY * k) == Ok(name)
  }

  /** The walk ends before descriptor `n`: the limit, or the first one that is all zero. */
  ghost predicate WalkEnds(b: Image, descriptor: nat, limit: nat, n: nat) {
    && n <= limit
    && (forall k: nat | k < n :: Live(b, descriptor, k))
    && (n < limit ==> Inside(b, descriptor, n) && !Live(b, descriptor, n))
  }

  ghost predicate NamesAre(b: Image, sections: seq<Section>, descriptor: nat, names: seq<string>) {
    forall k: nat | k < |names| :: Named(b, sections, descriptor, k, names[k])
  }

  lemma {:induction false} EntriesExact(b: Image, sections: seq<Section>, at: nat, left: nat, names: seq<string>)
    ensures EntriesFrom(b, sections, at, left) == Ok(names) <==>
              WalkEnds(b, at, left, |names|) && NamesAre(b, sections, at, names)
    decreases left
  {
    if left == 0 || !Live(b, at, 0) || names == [] {
      EntriesEnd(b, sections, at, left, names);
    } else {
      EntriesExact(b, sections, at + ENTRY, left - 1, names[1..]);
      EntriesStep(b, sections, at, left, names);
    }
  }

  lemma EntriesEnd(b: Image, sections: seq<Section>, at: nat, left: nat, names: seq<string>)
    requires left == 0 || !Live(b, at, 0) || names == []
    ensures EntriesFrom(b, sections, at, left) == Ok(names) <==>
              WalkEnds(b, at, left, |names|) && NamesAre(b, sections, at, names)
  {}

  lemma EntriesStep(b: Image, sections: seq<Section>, at: nat, left: nat, names: seq<string>)
    requires left > 0 && Live(b, at, 0) && names != []
    requires EntriesFrom(b, sections, at + ENTRY, left - 1) == Ok(names[1..]) <==>
               WalkEnds(b, at + ENTRY, left - 1, |names| - 1) && NamesAre(b, sections, at + ENTRY, names[1..])
    ensures EntriesFrom(b, sections, at, left) == Ok(names) <==>
              WalkEnds(b, at, left, |names|) && NamesAre(b, sections, at, names)
  {
    var first := EntryName(b, sections, at) == Ok(names[0]);
    var tailRead := EntriesFrom(b, sections, at + ENTRY, left - 1) == Ok(names[1..]);
    assert (WalkEnds(b, at, left, |names|) && NamesAre(b, sections, at, names)) == (first && tailRead) by {
      DescriptorsStep(b, sections, at, left, names);
    }
    EntriesUnfold(b, sections, at, left, names);
  }

  lemma DescriptorsStep(b: Image, sections: seq<Section>, at: nat, left: nat, names: seq<string>)
    requires left > 0 && Live(b, at, 0) && names != []
    ensures WalkEnds(b, at, left, |names|) && NamesAre(b, sections, at, names) <==>
              && EntryName(b, sections, at) == Ok(names[0])
              && WalkEnds(b, at + ENTRY, left - 1, |names| - 1) && NamesAre(b, sections, at + ENTRY, names[1..])
  {
    var walked := WalkEnds(b, at, left, |names|);
    var named := NamesAre(b, sections, at, names);
    assert walked == WalkEnds(b, at + ENTRY, left - 1, |names| - 1) by { WalkShift(b, at, left, |names|); }
    assert named == (EntryName(b, sections, at) == Ok(names[0]) && NamesAre(b, sections, at + ENTRY, names[1..])) by {
      NamesShift(b, sections, at, names);
    }
  }

  lemma EntriesUnfold(b: Image, sections: seq<Section>, at: nat, left: nat, names: seq<string>)
    requires left > 0 && at + ENTRY <= |b| && !EntryZero(b, at) && names != []
    ensures EntriesFrom(b, sections, at, left) == Ok(names) <==>
              EntryName(b, sections, at) == Ok(names[0]) && EntriesFrom(b, sections, at + ENTRY, left - 1) == Ok(names[1..])
  {
    assert names == [names[0]] + names[1..];
    var tail := EntriesFrom(b, sections, at + ENTRY, left - 1);
    assert tail.Ok? ==> forall name: string :: ([name] + tail.value)[1..] == tail.value && ([name] + tail.value)[0] == name;
  }

  lemma LiveShift(b: Image, at: nat, k: nat)
    ensures Inside(b, at + ENTRY, k) <==> Inside(b, at, k + 1)
    ensures Live(b, at + ENTRY, k) <==> Live(b, at, k + 1)
  {
    assert at + ENTRY + ENTRY * k == at + ENTRY * (k + 1);
  }

  lemma NamedShift(b: Image, sections: seq<Section>, at: nat, k: nat, name: string)
    ensures Named(b, sections, at + ENTRY, k, name) <==> Named(b, sections, at, k + 1, name)
  {
    assert at + ENTRY + ENTRY * k == at + ENTRY * (k + 1);
  }

  lemma WalkShift(b: Image, at: nat, left: nat, n: nat)
    requires left > 0 && n > 0
    ensures WalkEnds(b, at, left, n) <==> Live(b, at, 0) && WalkEnds(b, at + ENTRY, left - 1, n - 1)
  {
    var next := at + ENTRY;
    LiveShift(b, at, n - 1);
    forall k: nat | k < n - 1 ensures Live(b, next, k) <==> Live(b, at, k + 1) {
      LiveShift(b, at, k);
    }
    if Live(b, at, 0) && WalkEnds(b, next, left - 1, n - 1) {
      forall k: nat | k < n ensures Live(b, at, k) {
        if k > 0 { assert Live(b, next, k - 1); }
      }
    }
  }

  lemma NamesShift(b: Image, sections: seq<Section>, at: nat, names: seq<string>)
    requires names != []
    ensures NamesAre(b, sections, at, names) <==>
              Named(b, sections, at, 0, names[0]) && NamesAre(b, sections, at + ENTRY, names[1..])
  {
    forall k: nat | k < |names| - 1
      ensures Named(b, sections, at + ENTRY, k, names[1..][k]) <==> Named(b, sections, at, k + 1, names[k + 1])
    {
      NamedShift(b, sections, at, k, names[k + 1]);
    }
    if Named(b, sections, at, 0, names[0]) && NamesAre(b, sections, at + ENTRY, names[1..]) {
      forall k: nat | k < |names| ensures Named(b, sections, at, k, names[k]) {
        if k > 0 { assert Named(b, sections, at + ENTRY, k - 1, names[1..][k - 1]); }
      }
    }
  }

  /**
   * The import list is exactly the names of the descriptors before the first all-zero one
   * or before the limit, in order, and none exists unless every one of them is sound.
   */
  lemma ImportsExact(b: Image, h: Header, names: seq<string>)
    requires h.importRva != 0 && h.importSize >= ENTRY
    ensures Imports(b, h) == Ok(names) <==>
              && MapRva(h.sections, h.importRva, |b|).Ok?
              && var descriptor := MapRva(h.sections, h.importRva, |b|).value;
                 WalkEnds(b, descriptor, EntryLimit(h.importSize), |names|) && NamesAre(b, h.sections, descriptor, names)
  {
    var descriptor := MapRva(h.sections, h.importRva, |b|);
    if descriptor.Ok? {
      EntriesExact(b, h.sections, descriptor.value, EntryLimit(h.importSize), names);
    }
  }

  // ----- the substring search -----

  /** `Contains`. */
  method Contains(haystack: seq<byte>, needle: seq<byte>) returns (found: bool)
    ensures found <==> Occurs(haystack, needle)
  {
    var index := 0;
    while index <= |haystack| - |needle|
      invariant 0 <= index
      invariant forall at: nat | at < index :: !OccursAt(haystack, needle, at)
    {
      var offset := 0;
      while offset < |needle| && haystack[index + offset] == needle[offset]
        invariant 0 <= offset <= |needle|
        invariant forall i | 0 <= i < offset :: haystack[index + i] == needle[i]
      {
        offset := offset + 1;
      }
      if offset == |needle| {
        assert OccursAt(haystack, needle, index);
        return true;
      }
      assert haystack[index..index + |needle|][offset] == haystack[index + offset] != needle[offset];
      index := index + 1;
    }
    return false;
  }

  /** `Encoding.Unicode.GetBytes` of an ASCII text: each byte followed by a zero. */
  function Utf16(ascii: seq<byte>): seq<byte> {
    if ascii == [] then [] else [ascii[0], 0] + Utf16(ascii[1..])
  }

  const HIGHEST_AVAILABLE: seq<byte> :=
    [0x68, 0x69, 0x67, 0x68, 0x65, 0x73, 0x74, 0x41, 0x76, 0x61, 0x69, 0x6c, 0x61, 0x62, 0x6c, 0x65]

  lemma {:induction false} Utf16At(ascii: seq<byte>, i: nat)
    requires i < |ascii|
    ensures |Utf16(ascii)| == 2 * |ascii| && Utf16(ascii)[2 * i] == ascii[i] && Utf16(ascii)[2 * i + 1] == 0
  {
    if |ascii| > 1 {
      Utf16At(ascii[1..], if i > 0 then i - 1 else 0);
    }
  }

  /** The marker, and its two spellings. */
  lemma HighestAvailableIs(marker: string)
    requires marker == "highestAvailable"
    ensures HIGHEST_AVAILABLE == Bytes(marker)
  {}

  function Bytes(ascii: string): (b: seq<byte>)
    requires forall i | 0 <= i < |ascii| :: ascii[i] < 0x80 as char
    ensures |b| == |ascii|
  {
    seq(|ascii|, i requires 0 <= i < |ascii| => ascii[i] as int)
  }

  function InventoryOf(b: seq<byte>): Result<Inventory, Code> {
    if |b| == 0 || |b| > MAX_SIZE then Err(SizeOutOfRange)
    else
      var h :- HeaderOf(b);
      var imports :- Imports(b, h);
      Ok(Inventory(imports, Occurs(b, HIGHEST_AVAILABLE) || Occurs(b, Utf16(HIGHEST_AVAILABLE))))
  }

  // ----- reading the file -----

  /** An open file. Reads may return any shorter piece of what is left, or fail. */
  class FileHandle {
    const content: seq<byte>
    var position: nat

    constructor (content: seq<byte>)
      ensures this.content == content && position == 0
    {
      this.content := content;
      position := 0;
    }

    method Rewind() returns (ok: bool)
      modifies this
      ensures ok ==> position == 0
    {
      ok := *;
      if ok {
        position := 0;
      }
    }

    method Read(chunk: array<byte>, wanted: nat) returns (ok: bool, read: nat)
      requires wanted <= chunk.Length
      modifies this, chunk
      ensures ok ==> read <= wanted && old(position) + read <= |content| && position == old(position) + read
      ensures ok ==> chunk[..read] == content[old(position)..position]
    {
      ok := *;
      var n: int := *;
      if position > |content| {
        return false, 0;
      }
      read := if 0 <= n <= wanted && position + n <= |content| then n else 0;
      if ok {
        for i := 0 to read
          invariant chunk[..i] == content[position..position + i]
          modifies chunk
        {
          chunk[i] := content[position + i];
        }
        position := position + read;
      }
    }
  }

  method BlockCopy(source: array<byte>, target: array<byte>, offset: nat, count: nat)
    requires source != target && count <= source.Length && offset + count <= target.Length
    modifies target
    ensures target[..offset + count] == old(target[..offset]) + source[..count]
  {
    forall i | 0 <= i < count {
      target[offset + i] := source[i];
    }
  }

  /** `ReadAll`: the first `length` bytes of the file, however the reads are split. */
  method ReadAll(handle: FileHandle, length: nat) returns (r: Result<array<byte>, Code>)
    modifies handle
    ensures r.Ok? ==> fresh(r.value) && length <= |handle.content| && r.value[..] == handle.content[..length]
    ensures r.Err? ==> r.error in {SeekFailed, ReadFailed, UnexpectedEof, ResetFailed}
  {
    var ok := handle.Rewind();
    if !ok {
      return Err(SeekFailed);
    }
    var bytes := new byte[length];
    var chunk := new byte[128 * 1024];
    var offset := 0;
    while offset < length
      invariant 0 <= offset <= length && offset == handle.position <= |handle.content|
      invariant bytes[..offset] == handle.content[..offset]
      modifies handle, bytes, chunk
    {
      var wanted := if chunk.Length < length - offset then chunk.Length else length - offset;
      var read;
      ok, read := handle.Read(chunk, wanted);
      if !ok {
        return Err(ReadFailed);
      }
      if read == 0 {
        return Err(UnexpectedEof);
      }
      BlockCopy(chunk, bytes, offset, read);
      offset := offset + read;
    }
    assert bytes[..] == bytes[..offset];
    ok := handle.Rewind();
    if !ok {
      return Err(ResetFailed);
    }
    return Ok(bytes);
  }

  /**
   * `PeParser.Parse` of the first `length` bytes of a file, whatever its own length. Every
   * outcome is an inventory or one of the controlled codes; indices and checked arithmetic
   * are all proved in range.
   */
  method Parse(handle: FileHandle, length: int) returns (r: Result<Inventory, Code>)
    modifies handle
    ensures length <= 0 || length > MAX_SIZE ==> r == Err(SizeOutOfRange)
    ensures 0 < length <= MAX_SIZE ==>
              || (length <= |handle.content| && r == InventoryOf(handle.content[..length]))
              || (r.Err? && r.error in {SeekFailed, ReadFailed, UnexpectedEof, ResetFailed})
  {
    if length <= 0 || length > MAX_SIZE {
      return Err(SizeOutOfRange);
    }
    var buffer :- ReadAll(handle, length);
    r := ParseBytes(buffer[..]);
  }

  /** What `Parse` does with the bytes once it has them. */
  method ParseBytes(bytes: Image) returns (r: Result<Inventory, Code>)
    requires |bytes| > 0
    ensures r == InventoryOf(bytes)
  {
    var peOffset :- ReadPeOffset(bytes);
    var header :- ReadHeader(bytes, peOffset);
    var imports :- ReadImports(bytes, header);
    var highest := Contains(bytes, HIGHEST_AVAILABLE);
    if !highest {
      highest := Contains(bytes, Utf16(HIGHEST_AVAILABLE));
    }
    return Ok(Inventory(imports, highest));
  }
}
