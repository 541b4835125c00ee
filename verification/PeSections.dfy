/** `PeParser.RvaToOffset`: from a virtual address to a file offset, over any section list. */
module PeSections {
  import opened Common
  import opened PeBytes

  /** Four unsigned 32-bit header fields. */
  datatype Section = Section(virtualAddress: nat, virtualSize: nat, rawSize: nat, rawPointer: nat) {
    predicate Fits() {
      virtualAddress < 0x1_0000_0000 && virtualSize < 0x1_0000_0000 && rawSize < 0x1_0000_0000
      && rawPointer < 0x1_0000_0000
    }

    /** The section's virtual span, the larger of its two sizes, contains `rva`. */
    predicate Spans(rva: nat) {
      virtualAddress <= rva < virtualAddress + (if virtualSize >= rawSize then virtualSize else rawSize)
    }

    /** `rva` is backed by the section's own bytes of a file of `length` bytes, at offset `m`. */
    predicate Backs(rva: nat, length: nat, m: nat) {
      && Spans(rva)
      && rva - virtualAddress < rawSize
      && m == rawPointer + (rva - virtualAddress) < length
    }
  }

  predicate AllFit(sections: seq<Section>) { forall s | s in sections :: s.Fits() }

  /** `PeParser.RvaToOffset`. The 64-bit sums of the source stay below 2^33. */
  method RvaToOffset(rva: nat, sections: seq<Section>, length: nat) returns (r: Result<nat, Code>)
    requires rva < 0x1_0000_0000 && length <= MAX_SIZE && AllFit(sections)
    ensures r == MapFrom(sections, rva, length, -1)
  {
    var match_ := -1;
    for index := 0 to |sections|
      invariant -1 <= match_ < length
      invariant MapFrom(sections[index..], rva, length, match_) == MapFrom(sections, rva, length, -1)
    {
      var section := sections[index];
      assert sections[index..][1..] == sections[index + 1..];
      var start := section.virtualAddress;
      var span := if section.virtualSize >= section.rawSize then section.virtualSize else section.rawSize;
      var end := start + span;
      assert section.Fits() && end < 0x2_0000_0000;
      if rva >= start && rva < end {
        var delta := rva - start;
        if delta >= section.rawSize {
          return Err(RvaNotFileBacked);
        }
        var raw := section.rawPointer + delta;
        if raw >= length || match_ >= 0 {
          return Err(RvaAmbiguous);
        }
        match_ := Checked(raw);
      }
    }
    if match_ < 0 {
      return Err(RvaUnmapped);
    }
    return Ok(match_);
  }

  /** The search over the sections left, `found` being the offset so far or -1. */
  function MapFrom(sections: seq<Section>, rva: nat, length: nat, found: int): Result<nat, Code> {
    if sections == [] then
      if found < 0 then Err(RvaUnmapped) else Ok(found)
    else if !sections[0].Spans(rva) then MapFrom(sections[1..], rva, length, found)
    else
      var delta := rva - sections[0].virtualAddress;
      if delta >= sections[0].rawSize then Err(RvaNotFileBacked)
      else if sections[0].rawPointer + delta >= length || found >= 0 then Err(RvaAmbiguous)
      else MapFrom(sections[1..], rva, length, sections[0].rawPointer + delta)
  }

  function MapRva(sections: seq<Section>, rva: nat, length: nat): Result<nat, Code> {
    MapFrom(sections, rva, length, -1)
  }

  /** The sections whose span contains `rva`, in order. */
  function Hits(sections: seq<Section>, rva: nat): seq<Section> {
    if sections == [] then []
    else (if sections[0].Spans(rva) then [sections[0]] else []) + Hits(sections[1..], rva)
  }

  lemma {:induction false} MapFromHits(sections: seq<Section>, rva: nat, length: nat, found: int, m: nat)
    ensures MapFrom(sections, rva, length, found) == Ok(m) <==>
              var hits := Hits(sections, rva);
              if found >= 0 then m == found && hits == [] else |hits| == 1 && hits[0].Backs(rva, length, m)
    decreases |sections|
  {
    if sections != [] {
      MapFromHits(sections[1..], rva, length, found, m);
      var s := sections[0];
      if s.Spans(rva) && found < 0 {
        MapFromHits(sections[1..], rva, length, s.rawPointer + (rva - s.virtualAddress), m);
      }
    }
  }

  lemma {:induction false} HitsAreTheSpanning(sections: seq<Section>, rva: nat, s: Section)
    ensures multiset(Hits(sections, rva))[s] == if s.Spans(rva) then multiset(sections)[s] else 0
  {
    if sections != [] {
      HitsAreTheSpanning(sections[1..], rva, s);
      assert sections == [sections[0]] + sections[1..];
      assert multiset(sections) == multiset([sections[0]]) + multiset(sections[1..]);
    }
  }

  lemma {:induction false} OneHit(sections: seq<Section>, rva: nat)
    ensures |Hits(sections, rva)| == 1 <==>
              exists i | 0 <= i < |sections| :: OnlyHit(sections, rva, i)
    ensures forall i | 0 <= i < |sections| && OnlyHit(sections, rva, i) :: Hits(sections, rva) == [sections[i]]
    ensures Hits(sections, rva) == [] <==> forall i | 0 <= i < |sections| :: !sections[i].Spans(rva)
    decreases |sections|
  {
    if sections != [] {
      var tail := sections[1..];
      OneHit(tail, rva);
      assert forall i | 0 < i < |sections| :: sections[i] == tail[i - 1];
      if sections[0].Spans(rva) {
        assert Hits(tail, rva) == [] <==> OnlyHit(sections, rva, 0);
        assert forall i | 0 < i < |sections| :: !OnlyHit(sections, rva, i);
      } else {
        forall i | 0 < i < |sections| ensures OnlyHit(sections, rva, i) <==> OnlyHit(tail, rva, i - 1) {
          assert sections[i] == tail[i - 1];
        }
        if |Hits(tail, rva)| == 1 {
          var j :| 0 <= j < |tail| && OnlyHit(tail, rva, j);
          assert OnlyHit(sections, rva, j + 1);
        }
        assert !OnlyHit(sections, rva, 0);
      }
    }
  }

  ghost predicate OnlyHit(sections: seq<Section>, rva: nat, i: int)
    requires 0 <= i < |sections|
  {
    sections[i].Spans(rva) && forall j | 0 <= j < |sections| && j != i :: !sections[j].Spans(rva)
  }

  /** `rva` lies in the virtual or in the raw size of the section. */
  predicate Covers(s: Section, rva: nat) {
    s.virtualAddress <= rva && (rva < s.virtualAddress + s.virtualSize || rva < s.virtualAddress + s.rawSize)
  }

  /** Of all sections only this one covers `rva`, with bytes of its own inside the file, and `m` is where they are. */
  ghost predicate MapsTo(sections: seq<Section>, i: nat, rva: nat, length: nat, m: nat)
    requires i < |sections|
  {
    && (forall j | 0 <= j < |sections| :: Covers(sections[j], rva) <==> j == i)
    && rva < sections[i].virtualAddress + sections[i].rawSize
    && m - sections[i].rawPointer == rva - sections[i].virtualAddress
    && m < length
  }

  /**
   * The mapping is exact: `m` comes back if and only if one section alone covers `rva` and
   * backs it at `m`. Unmapped, overlapping and not file-backed addresses are all rejected.
   */
  lemma MapRvaExact(sections: seq<Section>, rva: nat, length: nat, m: nat)
    ensures MapRva(sections, rva, length) == Ok(m) <==>
              exists i | 0 <= i < |sections| :: MapsTo(sections, i, rva, length, m)
  {
    MapFromHits(sections, rva, length, -1, m);
    OneHit(sections, rva);
    forall i | 0 <= i < |sections|
      ensures MapsTo(sections, i, rva, length, m) <==> OnlyHit(sections, rva, i) && sections[i].Backs(rva, length, m)
    {
      OnlyHitCovers(sections, rva, i);
    }
    if |Hits(sections, rva)| == 1 {
      var i :| 0 <= i < |sections| && OnlyHit(sections, rva, i);
      assert Hits(sections, rva) == [sections[i]];
    }
  }

  lemma OnlyHitCovers(sections: seq<Section>, rva: nat, i: nat)
    requires i < |sections|
    ensures OnlyHit(sections, rva, i) <==> forall j | 0 <= j < |sections| :: Covers(sections[j], rva) <==> j == i
  {
    assert forall j | 0 <= j < |sections| :: Covers(sections[j], rva) <==> sections[j].Spans(rva);
  }

  lemma HitsOrderFree(sections: seq<Section>, others: seq<Section>, rva: nat)
    requires multiset(sections) == multiset(others)
    ensures |Hits(sections, rva)| == |Hits(others, rva)|
    ensures |Hits(sections, rva)| == 1 ==> Hits(sections, rva) == Hits(others, rva)
  {
    forall s: Section ensures multiset(Hits(sections, rva))[s] == multiset(Hits(others, rva))[s] {
      HitsAreTheSpanning(sections, rva, s);
      HitsAreTheSpanning(others, rva, s);
    }
    SameMultiset(Hits(sections, rva), Hits(others, rva));
  }

  lemma SameMultiset(a: seq<Section>, b: seq<Section>)
    requires multiset(a) == multiset(b)
    ensures |a| == |b| && (|a| == 1 ==> a == b)
  {
    assert |a| == |multiset(a)| == |multiset(b)| == |b|;
    if |a| == 1 {
      assert a[0] in multiset(a) && a[0] in multiset(b);
    }
  }

  lemma MapRvaOrderFreeAt(sections: seq<Section>, others: seq<Section>, rva: nat, length: nat, m: nat)
    requires multiset(sections) == multiset(others) && MapRva(sections, rva, length) == Ok(m)
    ensures MapRva(others, rva, length) == Ok(m)
  {
    HitsOrderFree(sections, others, rva);
    MapFromHits(sections, rva, length, -1, m);
    MapFromHits(others, rva, length, -1, m);
  }

  /** The offset, or the fact of a rejection, does not depend on the order of the sections. */
  lemma MapRvaOrderFree(sections: seq<Section>, others: seq<Section>, rva: nat, length: nat)
    requires multiset(sections) == multiset(others)
    ensures MapRva(sections, rva, length).Ok? <==> MapRva(others, rva, length).Ok?
    ensures MapRva(sections, rva, length).Ok? ==> MapRva(sections, rva, length) == MapRva(others, rva, length)
  {
    if MapRva(sections, rva, length).Ok? {
      MapRvaOrderFreeAt(sections, others, rva, length, MapRva(sections, rva, length).value);
    }
    if MapRva(others, rva, length).Ok? {
      MapRvaOrderFreeAt(others, sections, rva, length, MapRva(others, rva, length).value);
    }
  }

  /** An answer is an offset inside the file. */
  lemma MapRvaInside(sections: seq<Section>, rva: nat, length: nat)
    ensures MapRva(sections, rva, length).Ok? ==> MapRva(sections, rva, length).value < length
  {
    if MapRva(sections, rva, length).Ok? {
      MapRvaExact(sections, rva, length, MapRva(sections, rva, length).value);
    }
  }
}
