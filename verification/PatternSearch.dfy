/** Searching images for compiled patterns: byte spans, mapped modules, and image files. */
module PatternSearch {
  import opened Common
  import opened SignaturePattern

  const IMAGE_SCN_CNT_CODE: nat := 0x20
  const IMAGE_SCN_MEM_EXECUTE: nat := 0x2000_0000

  datatype SectionRange = SectionRange(
    virtualAddress: U32, virtualSize: U32, rawOffset: U32, rawSize: U32, characteristics: U32)

  /** A mapped module: the bytes from its base on, as many as its image size. */
  datatype Module = Module(image: seq<Byte>, sections: seq<SectionRange>)

  /** The image size is a 32-bit number. */
  type MappedModule = m: Module | |m.image| < 0x1_0000_0000 witness Module([], [])

  // ---------------------------------------------------------------- matches in a span

  predicate MatchesAt(haystack: seq<Byte>, pattern: seq<PatternByte>, offset: nat) {
    && offset + |pattern| <= |haystack|
    && forall i | 0 <= i < |pattern| :: pattern[i].wildcard || haystack[offset + i] == pattern[i].value
  }

  /** The offsets below `n` at which the pattern matches, in order. */
  function MatchesBelow(haystack: seq<Byte>, pattern: seq<PatternByte>, n: nat): seq<nat> {
    if n == 0 then []
    else MatchesBelow(haystack, pattern, n - 1) + if MatchesAt(haystack, pattern, n - 1) then [n - 1] else []
  }

  /** An empty pattern matches nowhere. */
  function AllMatches(haystack: seq<Byte>, pattern: seq<PatternByte>): seq<nat> {
    if pattern == [] then [] else MatchesBelow(haystack, pattern, |haystack|)
  }

  lemma {:induction false} MatchesBelowExactly(haystack: seq<Byte>, pattern: seq<PatternByte>, n: nat, offset: nat)
    ensures offset in MatchesBelow(haystack, pattern, n) <==> offset < n && MatchesAt(haystack, pattern, offset)
  {
    if n > 0 { MatchesBelowExactly(haystack, pattern, n - 1, offset); }
  }

  lemma {:induction false} MatchesAscend(haystack: seq<Byte>, pattern: seq<PatternByte>, n: nat)
    ensures forall i, j | 0 <= i < j < |MatchesBelow(haystack, pattern, n)| ::
              MatchesBelow(haystack, pattern, n)[i] < MatchesBelow(haystack, pattern, n)[j]
  {
    if n > 0 {
      MatchesAscend(haystack, pattern, n - 1);
      var earlier := MatchesBelow(haystack, pattern, n - 1);
      forall i | 0 <= i < |earlier| ensures earlier[i] < n - 1 {
        assert earlier[i] in earlier;
        MatchesBelowExactly(haystack, pattern, n - 1, earlier[i]);
      }
    }
  }

  /** `AllMatches` lists every matching offset, once, in increasing order. */
  lemma AllMatchesExactly(haystack: seq<Byte>, pattern: seq<PatternByte>, offset: nat)
    requires pattern != []
    ensures offset in AllMatches(haystack, pattern) <==> MatchesAt(haystack, pattern, offset)
    ensures forall i, j | 0 <= i < j < |AllMatches(haystack, pattern)| ::
              AllMatches(haystack, pattern)[i] < AllMatches(haystack, pattern)[j]
  {
    MatchesBelowExactly(haystack, pattern, |haystack|, offset);
    MatchesAscend(haystack, pattern, |haystack|);
  }

  lemma {:induction false} MatchesGrow(haystack: seq<Byte>, pattern: seq<PatternByte>, m: nat, n: nat)
    requires m <= n
    ensures MatchesBelow(haystack, pattern, m) <= MatchesBelow(haystack, pattern, n)
    ensures m > |haystack| - |pattern| ==> MatchesBelow(haystack, pattern, m) == MatchesBelow(haystack, pattern, n)
  {
    if m < n { MatchesGrow(haystack, pattern, m, n - 1); }
  }

  lemma MatchesNext(haystack: seq<Byte>, pattern: seq<PatternByte>, n: nat)
    ensures MatchesBelow(haystack, pattern, 0) == []
    ensures MatchesBelow(haystack, pattern, n + 1) ==
            MatchesBelow(haystack, pattern, n) + if MatchesAt(haystack, pattern, n) then [n] else []
  {
  }

  method FindPattern(haystack: seq<Byte>, pattern: seq<PatternByte>, maxMatches: nat) returns (matches: seq<nat>)
    ensures matches == FirstOf(AllMatches(haystack, pattern), maxMatches)
  {
    hide MatchesBelow;
    matches := [];
    MatchesNext(haystack, pattern, 0);
    if pattern == [] || |haystack| < |pattern| || maxMatches == 0 {
      if pattern != [] && |haystack| < |pattern| { MatchesGrow(haystack, pattern, 0, |haystack|); }
      return;
    }
    var lastStart := |haystack| - |pattern|;
    var offset := 0;
    while offset <= lastStart
      invariant 0 <= offset <= lastStart + 1
      invariant matches == MatchesBelow(haystack, pattern, offset) && |matches| < maxMatches
    {
      var matched := true;
      var index := 0;
      while index < |pattern|
        invariant 0 <= index <= |pattern|
        invariant matched <==> forall i | 0 <= i < index ::
          pattern[i].wildcard || haystack[offset + i] == pattern[i].value
      {
        if !pattern[index].wildcard && haystack[offset + index] != pattern[index].value {
          matched := false;
          index := index + 1;
          break;
        }
        index := index + 1;
      }
      assert matched <==> MatchesAt(haystack, pattern, offset);
      MatchesNext(haystack, pattern, offset);
      if matched {
        matches := matches + [offset];
        if |matches| >= maxMatches {
          MatchesGrow(haystack, pattern, offset + 1, |haystack|);
          return;
        }
      }
      offset := offset + 1;
    }
    MatchesGrow(haystack, pattern, offset, |haystack|);
  }

  // ---------------------------------------------------------------- matches in a mapped module

  predicate HasFlag(characteristics: U32, flag: nat)
    requires flag > 0
  {
    characteristics / flag % 2 == 1
  }

  predicate Executable(section: SectionRange) {
    HasFlag(section.characteristics, IMAGE_SCN_CNT_CODE) || HasFlag(section.characteristics, IMAGE_SCN_MEM_EXECUTE)
  }

  /** The part of a section that is searched: its size clamped to the image, nothing if its code
      flags are clear. */
  function ScanSize(m: Module, section: SectionRange): nat {
    var size := if section.virtualSize != 0 then section.virtualSize else section.rawSize;
    if !Executable(section) || section.virtualAddress >= |m.image| then 0
    else if size <= |m.image| - section.virtualAddress then size
    else |m.image| - section.virtualAddress
  }

  function Shift(offsets: seq<nat>, base: nat): seq<nat> {
    seq(|offsets|, i requires 0 <= i < |offsets| => base + offsets[i])
  }

  function SectionRvas(m: Module, section: SectionRange, pattern: seq<PatternByte>): seq<nat> {
    var size := ScanSize(m, section);
    if size == 0 then []
    else
      var va := section.virtualAddress;
      Shift(AllMatches(m.image[va..va + size], pattern), va)
  }

  function RvasOf(m: Module, sections: seq<SectionRange>, pattern: seq<PatternByte>): seq<nat> {
    if sections == [] then []
    else RvasOf(m, sections[..|sections| - 1], pattern) + SectionRvas(m, sections[|sections| - 1], pattern)
  }

  /** Matches section by section, in the order of the sections. */
  function AllRvas(m: Module, pattern: seq<PatternByte>): seq<nat> { RvasOf(m, m.sections, pattern) }

  /** The pattern matches at `rva`, wholly inside the searched part of `section`. */
  ghost predicate MatchIn(m: Module, section: SectionRange, pattern: seq<PatternByte>, rva: nat) {
    && section.virtualAddress <= rva
    && rva + |pattern| <= section.virtualAddress + ScanSize(m, section)
    && MatchesAt(m.image, pattern, rva)
  }

  lemma SectionRvasExactly(m: Module, section: SectionRange, pattern: seq<PatternByte>, rva: nat)
    requires pattern != []
    ensures rva in SectionRvas(m, section, pattern) <==> MatchIn(m, section, pattern, rva)
    ensures MatchIn(m, section, pattern, rva) ==> rva + |pattern| <= |m.image|
  {
    var va, size := section.virtualAddress, ScanSize(m, section);
    if size > 0 {
      var span := m.image[va..va + size];
      forall offset: nat ensures offset in AllMatches(span, pattern) <==> MatchesAt(span, pattern, offset) {
        AllMatchesExactly(span, pattern, offset);
      }
      if rva >= va {
        var offsets := AllMatches(span, pattern);
        if rva - va in offsets {
          var i :| 0 <= i < |offsets| && offsets[i] == rva - va;
          assert Shift(offsets, va)[i] == rva;
        }
        assert MatchesAt(span, pattern, rva - va) <==> MatchIn(m, section, pattern, rva);
      }
    }
  }

  /** The search reports exactly the matches inside the clamped executable sections; every reported
      window lies inside the image, so adding the section address never overflows 32 bits. */
  lemma {:induction false} RvasExactly(m: Module, sections: seq<SectionRange>, pattern: seq<PatternByte>, rva: nat)
    requires pattern != []
    ensures rva in RvasOf(m, sections, pattern) <==> exists s :: s in sections && MatchIn(m, s, pattern, rva)
    ensures rva in RvasOf(m, sections, pattern) ==> rva + |pattern| <= |m.image|
  {
    hide SectionRvas, MatchesAt, ScanSize;
    if sections != [] {
      var before, last := sections[..|sections| - 1], sections[|sections| - 1];
      RvasExactly(m, before, pattern, rva);
      SectionRvasExactly(m, last, pattern, rva);
      assert sections == before + [last];
    }
  }

  /** The bytes at an address match, and the window lies in a section that holds code or may be executed,
      before the end of that section (of its raw size if it has no virtual size) and of the image. */
  ghost predicate FoundIn(m: Module, section: SectionRange, pattern: seq<PatternByte>, rva: nat) {
    && (section.characteristics / 0x20 % 2 == 1 || section.characteristics / 0x2000_0000 % 2 == 1)
    && section.virtualAddress <= rva && rva + |pattern| <= |m.image|
    && rva + |pattern| <= section.virtualAddress +
                          (if section.virtualSize != 0 then section.virtualSize else section.rawSize)
    && forall i | 0 <= i < |pattern| :: pattern[i].wildcard || m.image[rva + i] == pattern[i].value
  }

  lemma FoundInExactly(m: Module, section: SectionRange, pattern: seq<PatternByte>, rva: nat)
    requires pattern != []
    ensures FoundIn(m, section, pattern, rva) <==> MatchIn(m, section, pattern, rva)
    ensures rva in SectionRvas(m, section, pattern) <==> FoundIn(m, section, pattern, rva)
  {
    SectionRvasExactly(m, section, pattern, rva);
    hide SectionRvas;
  }

  /** An address is reported exactly if the bytes match there inside some section that is searched. */
  lemma ReportedExactly(m: Module, pattern: seq<PatternByte>, rva: nat)
    requires pattern != []
    ensures rva in AllRvas(m, pattern) <==> exists s :: s in m.sections && FoundIn(m, s, pattern, rva)
  {
    RvasExactly(m, m.sections, pattern, rva);
    hide RvasOf, FoundIn, MatchIn;
    forall s ensures FoundIn(m, s, pattern, rva) <==> MatchIn(m, s, pattern, rva) {
      FoundInExactly(m, s, pattern, rva);
    }
  }

  /** Within one section the addresses ascend, so none is reported twice. */
  lemma SectionAscends(m: Module, section: SectionRange, pattern: seq<PatternByte>)
    requires pattern != []
    ensures var rvas := SectionRvas(m, section, pattern); forall i, j | 0 <= i < j < |rvas| :: rvas[i] < rvas[j]
  {
    if ScanSize(m, section) > 0 {
      var va := section.virtualAddress;
      AllMatchesExactly(m.image[va..va + ScanSize(m, section)], pattern, 0);
    }
  }

  /** The addresses are those of matches, section by section in the order of the sections and ascending
      within each: `from` names the section of every address. */
  ghost predicate Ordered(m: Module, sections: seq<SectionRange>, pattern: seq<PatternByte>, rvas: seq<nat>,
                          from: seq<nat>)
  {
    && |from| == |rvas|
    && (forall i | 0 <= i < |from| :: from[i] < |sections| && FoundIn(m, sections[from[i]], pattern, rvas[i]))
    && (forall i, j | 0 <= i < j < |from| :: from[i] < from[j] || (from[i] == from[j] && rvas[i] < rvas[j]))
  }

  predicate Named(rvas: seq<nat>, from: seq<nat>, k: nat, rva: nat) {
    exists i :: 0 <= i < |from| && i < |rvas| && from[i] == k && rvas[i] == rva
  }

  lemma OneMoreSection(m: Module, sections: seq<SectionRange>, pattern: seq<PatternByte>, before: seq<nat>,
                       more: seq<nat>, from: seq<nat>)
    requires sections != [] && Ordered(m, sections[..|sections| - 1], pattern, before, from)
    requires forall i | 0 <= i < |more| :: FoundIn(m, sections[|sections| - 1], pattern, more[i])
    requires forall i, j | 0 <= i < j < |more| :: more[i] < more[j]
    ensures Ordered(m, sections, pattern, before + more, from + seq(|more|, _ => |sections| - 1))
  {
    hide FoundIn;
    var n := |sections| - 1;
    assert forall i | 0 <= i < |from| :: sections[..n][from[i]] == sections[from[i]];
  }

  lemma NamedEarlier(before: seq<nat>, more: seq<nat>, from: seq<nat>, n: nat, k: nat, rva: nat)
    requires |from| == |before|
    ensures Named(before, from, k, rva) || (k == n && rva in more) ==>
            Named(before + more, from + seq(|more|, _ => n), k, rva)
  {
    var rvas, whole := before + more, from + seq(|more|, _ => n);
    if Named(before, from, k, rva) {
      var i :| 0 <= i < |from| && i < |before| && from[i] == k && before[i] == rva;
      assert whole[i] == k && rvas[i] == rva;
    } else if k == n && rva in more {
      var i :| 0 <= i < |more| && more[i] == rva;
      assert whole[|before| + i] == k && rvas[|before| + i] == rva;
    }
  }

  /** The reports come section by section in the order of the sections, ascending within each, and every
      match of every section has one. */
  lemma {:induction false} ReportsInOrder(m: Module, sections: seq<SectionRange>, pattern: seq<PatternByte>)
    returns (from: seq<nat>)
    requires pattern != []
    ensures var rvas := RvasOf(m, sections, pattern);
            && Ordered(m, sections, pattern, rvas, from)
            && (forall k: nat, rva: nat | k < |sections| && FoundIn(m, sections[k], pattern, rva) ::
                  Named(rvas, from, k, rva))
  {
    hide SectionRvas, FoundIn, Named;
    if sections == [] {
      from := [];
    } else {
      var n, last := |sections| - 1, sections[|sections| - 1];
      var before, more := RvasOf(m, sections[..n], pattern), SectionRvas(m, last, pattern);
      var earlier := ReportsInOrder(m, sections[..n], pattern);
      SectionAscends(m, last, pattern);
      from := earlier + seq(|more|, _ => n);
      forall rva: nat ensures rva in more <==> FoundIn(m, last, pattern, rva) {
        FoundInExactly(m, last, pattern, rva);
      }
      assert RvasOf(m, sections, pattern) == before + more;
      assert forall i | 0 <= i < |more| :: more[i] in more;
      OneMoreSection(m, sections, pattern, before, more, earlier);
      hide Ordered, RvasOf;
      forall k: nat, rva: nat | k < |sections| && FoundIn(m, sections[k], pattern, rva)
        ensures Named(before + more, from, k, rva)
      {
        assert k < n ==> sections[..n][k] == sections[k];
        NamedEarlier(before, more, earlier, n, k, rva);
      }
    }
  }

  /** The pattern is found at this address in one section, and nowhere else in that or another. */
  ghost predicate FoundOnce(m: Module, pattern: seq<PatternByte>, rva: nat) {
    exists k: nat :: FoundOnlyIn(m, pattern, rva, k)
  }

  ghost predicate FoundOnlyIn(m: Module, pattern: seq<PatternByte>, rva: nat, k: nat) {
    && k < |m.sections| && FoundIn(m, m.sections[k], pattern, rva)
    && forall j: nat, other: nat | j < |m.sections| && FoundIn(m, m.sections[j], pattern, other) ::
         j == k && other == rva
  }

  /** There is exactly one report, and it is this one, exactly if the pattern is found once. */
  lemma OneReportExactly(m: Module, pattern: seq<PatternByte>, rva: nat)
    requires pattern != []
    ensures AllRvas(m, pattern) == [rva] <==> FoundOnce(m, pattern, rva)
  {
    hide FoundIn, RvasOf;
    var from := ReportsInOrder(m, m.sections, pattern);
    var rvas := AllRvas(m, pattern);
    if rvas == [rva] {
      assert FoundOnlyIn(m, pattern, rva, from[0]);
    }
    if FoundOnce(m, pattern, rva) {
      var k: nat :| FoundOnlyIn(m, pattern, rva, k);
      var i :| 0 <= i < |from| && from[i] == k && rvas[i] == rva;
      assert from[0] == from[|from| - 1] == k && rvas[0] == rvas[|from| - 1] == rva;
      assert rvas == [rvas[0]];
    }
  }

  lemma {:induction false} RvasGrow(m: Module, k: nat, pattern: seq<PatternByte>)
    requires k <= |m.sections|
    ensures RvasOf(m, m.sections[..k], pattern) <= AllRvas(m, pattern)
    ensures k < |m.sections| ==> RvasOf(m, m.sections[..k + 1], pattern) ==
                                 RvasOf(m, m.sections[..k], pattern) + SectionRvas(m, m.sections[k], pattern)
    decreases |m.sections| - k
  {
    if k < |m.sections| {
      RvasGrow(m, k + 1, pattern);
      assert m.sections[..k + 1][..k] == m.sections[..k];
    } else {
      assert m.sections[..k] == m.sections;
    }
  }

  lemma {:induction false} NothingFor(m: Module, sections: seq<SectionRange>)
    ensures RvasOf(m, sections, []) == []
  {
    if sections != [] { NothingFor(m, sections[..|sections| - 1]); }
  }

  lemma TooSmall(haystack: seq<Byte>, pattern: seq<PatternByte>)
    requires |haystack| < |pattern|
    ensures AllMatches(haystack, pattern) == []
  {
    MatchesGrow(haystack, pattern, 0, |haystack|);
  }

  /** `found` is a full budget of matches from the front of those of section `k`. */
  lemma BudgetSpent(m: Module, k: nat, pattern: seq<PatternByte>, found: seq<nat>, max: nat)
    requires k < |m.sections| && found <= SectionRvas(m, m.sections[k], pattern)
    requires |RvasOf(m, m.sections[..k], pattern)| + |found| == max
    ensures RvasOf(m, m.sections[..k], pattern) + found == FirstOf(AllRvas(m, pattern), max)
  {
    RvasGrow(m, k, pattern);
    RvasGrow(m, k + 1, pattern);
  }

  /** Scanning one section with the budget that is left; the test for overflow never fails. */
  method ScanSection(m: MappedModule, section: SectionRange, pattern: seq<PatternByte>, budget: nat)
    returns (found: seq<nat>)
    requires pattern != [] && budget > 0
    ensures found == FirstOf(SectionRvas(m, section, pattern), budget)
  {
    hide MatchesBelow, AllMatches;
    found := [];
    if !HasFlag(section.characteristics, IMAGE_SCN_CNT_CODE) &&
       !HasFlag(section.characteristics, IMAGE_SCN_MEM_EXECUTE) {
      return;
    }
    var sectionSize := if section.virtualSize != 0 then section.virtualSize else section.rawSize;
    if sectionSize == 0 || section.virtualAddress >= |m.image| {
      return;
    }
    var maxSize := |m.image| - section.virtualAddress;
    var scanSize := if maxSize < sectionSize then maxSize else sectionSize;
    var va := section.virtualAddress;
    var bytes := m.image[va..va + scanSize];
    if scanSize < |pattern| {
      TooSmall(bytes, pattern);
      return;
    }
    var matches := FindPattern(bytes, pattern, budget);
    for j := 0 to |matches|
      invariant found == Shift(matches[..j], va)
    {
      AllMatchesExactly(bytes, pattern, matches[j]);
      assert matches[j] in AllMatches(bytes, pattern);
      assert matches[..j + 1] == matches[..j] + [matches[j]];
      if matches[j] <= 0xffff_ffff - va {
        found := found + [va + matches[j]];
      }
    }
    assert matches[..|matches|] == matches;
  }

  /** `find_pattern_rvas` */
  method FindPatternRvas(m: MappedModule, pattern: seq<PatternByte>, maxMatches: nat) returns (matches: seq<nat>)
    ensures matches == FirstOf(AllRvas(m, pattern), maxMatches)
  {
    matches := [];
    if pattern == [] || maxMatches == 0 {
      if pattern == [] { NothingFor(m, m.sections); }
      return;
    }
    for k := 0 to |m.sections|
      invariant matches == RvasOf(m, m.sections[..k], pattern) && |matches| < maxMatches
    {
      RvasGrow(m, k, pattern);
      var found := ScanSection(m, m.sections[k], pattern, maxMatches - |matches|);
      if |matches| + |found| >= maxMatches {
        BudgetSpent(m, k, pattern, found, maxMatches);
        return matches + found;
      }
      matches := matches + found;
    }
    assert m.sections[..|m.sections|] == m.sections;
  }

  /** Asking for at most three matches never changes whether there are none, one or several, nor
      which one it is. */
  lemma CapKeepsVerdict<T>(all: seq<T>)
    ensures var found := FirstOf(all, 3);
            && (found == [] <==> all == [])
            && (forall x :: found == [x] <==> all == [x])
            && (|found| > 1 <==> |all| > 1)
  {
    forall x ensures FirstOf(all, 3) == [x] <==> all == [x] {
      if |all| == 1 { assert all == [all[0]]; }
    }
  }

  // ---------------------------------------------------------------- image files

  predicate RawBacked(section: SectionRange, offset: nat) {
    section.rawOffset <= offset < section.rawOffset + section.rawSize
  }

  /** The address at which the loader puts the byte at `offset` of the file: that of the first
      section whose raw bytes hold it; bytes in front of all sections keep their offset. */
  function RvaOfOffset(sections: seq<SectionRange>, first: nat, offset: nat): Option<nat>
    decreases |sections|
  {
    if sections == [] then if offset < first then Some(offset) else None
    else if RawBacked(sections[0], offset) then
      var rva := sections[0].virtualAddress + (offset - sections[0].rawOffset);
      if rva > 0xffff_ffff then None else Some(rva)
    else RvaOfOffset(sections[1..], first, offset)
  }

  function FirstSectionOffset(sections: seq<SectionRange>): nat {
    if sections == [] then 0 else sections[0].rawOffset
  }

  lemma RvaTold(sections: seq<SectionRange>, offset: nat)
    ensures var rva := RvaOfOffset(sections, FirstSectionOffset(sections), offset);
            && (forall k: nat | FirstHolding(sections, k, offset) ::
                  var address := sections[k].virtualAddress + offset - sections[k].rawOffset;
                  rva == if address < 0x1_0000_0000 then Some(address) else None)
            && ((forall k: nat :: !FirstHolding(sections, k, offset)) ==>
                  rva == if sections != [] && offset < sections[0].rawOffset then Some(offset) else None)
  {
    forall k: nat | FirstHolding(sections, k, offset)
      ensures var address := sections[k].virtualAddress + offset - sections[k].rawOffset;
              RvaOfOffset(sections, FirstSectionOffset(sections), offset) ==
              if address < 0x1_0000_0000 then Some(address) else None
    {
      ConvertsHeld(sections, FirstSectionOffset(sections), k, offset);
    }
    if forall k: nat :: !FirstHolding(sections, k, offset) {
      ConvertsUnheld(sections, FirstSectionOffset(sections), offset);
    }
  }

  /** `PeImageFile::rva_from_file_offset` */
  method RvaFromFileOffset(sections: seq<SectionRange>, offset: nat) returns (rva: Option<nat>)
    ensures rva == if offset > 0xffff_ffff then None
                   else RvaOfOffset(sections, FirstSectionOffset(sections), offset)
    ensures forall k: nat | FirstHolding(sections, k, offset) && offset <= 0xffff_ffff ::
              var address := sections[k].virtualAddress + offset - sections[k].rawOffset;
              rva == if address < 0x1_0000_0000 then Some(address) else None
    ensures (forall k: nat :: !FirstHolding(sections, k, offset)) && offset <= 0xffff_ffff ==>
            rva == if sections != [] && offset < sections[0].rawOffset then Some(offset) else None
  {
    if offset <= 0xffff_ffff { RvaTold(sections, offset); }
    hide FirstHolding;
    if offset > 0xffff_ffff {
      return None;
    }
    ghost var first := FirstSectionOffset(sections);
    for k := 0 to |sections|
      invariant RvaOfOffset(sections, first, offset) == RvaOfOffset(sections[k..], first, offset)
    {
      var section := sections[k];
      var rawBegin := section.rawOffset;
      var rawEnd := rawBegin + section.rawSize;
      if offset >= rawBegin && offset < rawEnd {
        var delta := offset - rawBegin;
        if delta > 0xffff_ffff - section.virtualAddress {
          return None;
        }
        return Some(section.virtualAddress + delta);
      }
      assert sections[k..][1..] == sections[k + 1..];
    }
    var firstSectionOffset := if sections == [] then 0 else sections[0].rawOffset;
    if offset < firstSectionOffset {
      return Some(offset);
    }
    return None;
  }

  /** No byte of the file belongs to two sections. */
  ghost predicate RawDisjoint(sections: seq<SectionRange>) {
    forall i, j, offset: nat | 0 <= i < j < |sections| ::
      !(RawBacked(sections[i], offset) && RawBacked(sections[j], offset))
  }

  /** The address an offset in the raw bytes of section `k` is converted to. */
  lemma {:induction false} RvaOfSection(sections: seq<SectionRange>, first: nat, k: nat, delta: nat)
    requires k < |sections| && RawBacked(sections[k], sections[k].rawOffset + delta) && RawDisjoint(sections)
    ensures var rva := sections[k].virtualAddress + delta;
            RvaOfOffset(sections, first, sections[k].rawOffset + delta) == if rva > 0xffff_ffff then None else Some(rva)
    decreases |sections|
  {
    if k > 0 {
      assert RawBacked(sections[k], sections[k].rawOffset + delta);
      assert !RawBacked(sections[0], sections[k].rawOffset + delta);
      RvaOfSection(sections[1..], first, k - 1, delta);
    }
  }

  /** The first section whose raw bytes hold an offset. */
  ghost predicate FirstHolding(sections: seq<SectionRange>, k: nat, offset: nat) {
    && k < |sections| && sections[k].rawOffset <= offset < sections[k].rawOffset + sections[k].rawSize
    && forall j | 0 <= j < k :: !(sections[j].rawOffset <= offset < sections[j].rawOffset + sections[j].rawSize)
  }

  /** An offset held by sections is converted beside itself in the first of them, unless that address is
      no 32-bit number. */
  lemma {:induction false} ConvertsHeld(sections: seq<SectionRange>, first: nat, k: nat, offset: nat)
    requires FirstHolding(sections, k, offset)
    ensures var rva := sections[k].virtualAddress + offset - sections[k].rawOffset;
            RvaOfOffset(sections, first, offset) == if rva < 0x1_0000_0000 then Some(rva) else None
    decreases |sections|
  {
    if k > 0 {
      assert !RawBacked(sections[0], offset);
      assert forall j | 0 <= j < k - 1 :: sections[1..][j] == sections[j + 1];
      ConvertsHeld(sections[1..], first, k - 1, offset);
    }
  }

  lemma LaterHolding(sections: seq<SectionRange>, k: nat, offset: nat)
    requires sections != [] && !FirstHolding(sections, 0, offset)
    ensures FirstHolding(sections[1..], k, offset) ==> FirstHolding(sections, k + 1, offset)
  {
    if FirstHolding(sections[1..], k, offset) {
      forall j | 0 <= j < k + 1
        ensures !(sections[j].rawOffset <= offset < sections[j].rawOffset + sections[j].rawSize)
      {
        if j > 0 { assert sections[1..][j - 1] == sections[j]; }
      }
    }
  }

  /** An offset held by none is its own address in front of the first section, and has none behind it. */
  lemma {:induction false} ConvertsUnheld(sections: seq<SectionRange>, first: nat, offset: nat)
    requires forall k: nat :: !FirstHolding(sections, k, offset)
    ensures RvaOfOffset(sections, first, offset) == if offset < first then Some(offset) else None
    decreases |sections|
  {
    if sections != [] {
      assert !FirstHolding(sections, 0, offset);
      forall k: nat ensures FirstHolding(sections[1..], k, offset) ==> FirstHolding(sections, k + 1, offset) {
        LaterHolding(sections, k, offset);
      }
      ConvertsUnheld(sections[1..], first, offset);
    }
  }

  function RoomFor(m: Module, section: SectionRange): nat {
    if section.virtualAddress + section.rawSize <= |m.image| then section.rawSize
    else if section.virtualAddress <= |m.image| then |m.image| - section.virtualAddress
    else 0
  }

  /** The loader has copied the raw bytes of a section to its virtual address, as far as the image
      reaches. */
  predicate Copied(file: seq<Byte>, m: Module, section: SectionRange) {
    var va, raw, n := section.virtualAddress, section.rawOffset, RoomFor(m, section);
    raw + section.rawSize <= |file| && (n > 0 ==> m.image[va..va + n] == file[raw..raw + n])
  }

  lemma SliceOfSlice<T>(s: seq<T>, a: nat, n: nat, d: nat, e: nat)
    requires d <= e <= n && a + n <= |s|
    ensures s[a + d..a + e] == s[a..a + n][d..e]
  {
    var x, y := s[a + d..a + e], s[a..a + n][d..e];
    forall i | 0 <= i < e - d ensures x[i] == y[i] {
      assert y[i] == s[a..a + n][d + i];
    }
  }

  lemma SameWindow(a: seq<Byte>, x: nat, b: seq<Byte>, y: nat, pattern: seq<PatternByte>)
    requires x + |pattern| <= |a| && y + |pattern| <= |b|
    requires a[x..x + |pattern|] == b[y..y + |pattern|]
    ensures MatchesAt(a, pattern, x) <==> MatchesAt(b, pattern, y)
  {
    forall i | 0 <= i < |pattern|
      ensures pattern[i].wildcard || a[x + i] == pattern[i].value <==>
              pattern[i].wildcard || b[y + i] == pattern[i].value
    {
      assert a[x..x + |pattern|][i] == b[y..y + |pattern|][i];
    }
  }

  lemma WindowCopied(file: seq<Byte>, m: MappedModule, section: SectionRange, pattern: seq<PatternByte>, delta: nat)
    requires pattern != [] && Copied(file, m, section)
    requires delta + |pattern| <= section.rawSize && section.virtualAddress + delta + |pattern| <= |m.image|
    ensures MatchesAt(m.image, pattern, section.virtualAddress + delta) <==>
            MatchesAt(file, pattern, section.rawOffset + delta)
  {
    var va, raw, n := section.virtualAddress, section.rawOffset, RoomFor(m, section);
    var end := delta + |pattern|;
    assert end <= n && va + n <= |m.image| && raw + n <= |file|;
    hide MatchesAt;
    SliceOfSlice(m.image, va, n, delta, end);
    SliceOfSlice(file, raw, n, delta, end);
    SameWindow(m.image, va + delta, file, raw + delta, pattern);
  }

  predicate InFile(file: seq<Byte>, pattern: seq<PatternByte>, offset: nat) { offset in AllMatches(file, pattern) }

  predicate InSection(m: Module, section: SectionRange, pattern: seq<PatternByte>, rva: nat) {
    rva in SectionRvas(m, section, pattern)
  }

  predicate InModule(m: Module, pattern: seq<PatternByte>, rva: nat) { rva in AllRvas(m, pattern) }

  /** A window of `n` bytes lies inside the searched part of a section. */
  predicate Inside(m: Module, section: SectionRange, rva: nat, n: nat) {
    section.virtualAddress <= rva && rva + n <= section.virtualAddress + ScanSize(m, section)
  }

  ghost predicate Searched(m: Module, rva: nat, n: nat) { exists s :: s in m.sections && Inside(m, s, rva, n) }

  lemma InFileExactly(file: seq<Byte>, pattern: seq<PatternByte>, offset: nat)
    requires pattern != []
    ensures InFile(file, pattern, offset) <==> MatchesAt(file, pattern, offset)
  {
    AllMatchesExactly(file, pattern, offset);
  }

  lemma InSectionExactly(m: Module, section: SectionRange, pattern: seq<PatternByte>, rva: nat)
    requires pattern != []
    ensures InSection(m, section, pattern, rva) <==>
            Inside(m, section, rva, |pattern|) && MatchesAt(m.image, pattern, rva)
    ensures Inside(m, section, rva, |pattern|) ==> rva + |pattern| <= |m.image|
  {
    SectionRvasExactly(m, section, pattern, rva);
  }

  lemma InModuleExactly(m: Module, pattern: seq<PatternByte>, rva: nat)
    requires pattern != []
    ensures InModule(m, pattern, rva) <==> Searched(m, rva, |pattern|) && MatchesAt(m.image, pattern, rva)
    ensures Searched(m, rva, |pattern|) ==> rva + |pattern| <= |m.image|
  {
    RvasExactly(m, m.sections, pattern, rva);
    hide RvasOf, MatchesAt, ScanSize;
    if s :| s in m.sections && Inside(m, s, rva, |pattern|) {
      InSectionExactly(m, s, pattern, rva);
      assert MatchIn(m, s, pattern, rva) <==> MatchesAt(m.image, pattern, rva);
    }
  }

  /** Within one section: the mapped search finds the address exactly when the file search finds the
      offset and the window lies inside the searched part of the section. */
  lemma SectionAgrees(file: seq<Byte>, m: MappedModule, section: SectionRange, pattern: seq<PatternByte>, delta: nat)
    requires pattern != [] && Copied(file, m, section) && delta + |pattern| <= section.rawSize
    ensures InSection(m, section, pattern, section.virtualAddress + delta) <==>
            InFile(file, pattern, section.rawOffset + delta) && delta + |pattern| <= ScanSize(m, section)
  {
    hide InFile, InSection, MatchesAt, Copied, ScanSize;
    var rva := section.virtualAddress + delta;
    InSectionExactly(m, section, pattern, rva);
    InFileExactly(file, pattern, section.rawOffset + delta);
    if Inside(m, section, rva, |pattern|) {
      WindowCopied(file, m, section, pattern, delta);
    }
  }

  /** Over the whole module: the same with the searched part of any section. */
  lemma ModuleAgrees(file: seq<Byte>, m: MappedModule, section: SectionRange, pattern: seq<PatternByte>, delta: nat)
    requires pattern != [] && Copied(file, m, section) && delta + |pattern| <= section.rawSize
    ensures InModule(m, pattern, section.virtualAddress + delta) <==>
            InFile(file, pattern, section.rawOffset + delta) && Searched(m, section.virtualAddress + delta, |pattern|)
  {
    hide InFile, InModule, MatchesAt, Copied, Searched;
    var rva := section.virtualAddress + delta;
    InModuleExactly(m, pattern, rva);
    InFileExactly(file, pattern, section.rawOffset + delta);
    if Searched(m, rva, |pattern|) {
      WindowCopied(file, m, section, pattern, delta);
    }
  }

  /** `rva_from_file_offset` gives `rva` for `offset`. */
  predicate Converts(sections: seq<SectionRange>, offset: nat, rva: nat) {
    offset <= 0xffff_ffff && RvaOfOffset(sections, FirstSectionOffset(sections), offset) == Some(rva)
  }

  lemma ConvertsBeside(sections: seq<SectionRange>, k: nat, delta: nat, rva: nat)
    requires k < |sections| && RawDisjoint(sections) && delta < sections[k].rawSize
    ensures Converts(sections, sections[k].rawOffset + delta, rva) <==>
            rva == sections[k].virtualAddress + delta <= 0xffff_ffff && sections[k].rawOffset + delta <= 0xffff_ffff
  {
    assert RawBacked(sections[k], sections[k].rawOffset + delta);
    RvaOfSection(sections, FirstSectionOffset(sections), k, delta);
  }

  /** When the two resolvers agree, exactly. For a window backed by the raw bytes of section `k` whose
      offset is converted to `rva`: the mapped search of that section, and of the module, finds `rva`
      exactly when the file search finds the offset and the window lies inside the searched part of
      that section, or of any section. */
  lemma ResolversAgree(file: seq<Byte>, m: MappedModule, pattern: seq<PatternByte>, k: nat, delta: nat, rva: nat)
    requires pattern != [] && k < |m.sections| && RawDisjoint(m.sections) && Copied(file, m, m.sections[k])
    requires delta + |pattern| <= m.sections[k].rawSize && Converts(m.sections, m.sections[k].rawOffset + delta, rva)
    ensures InSection(m, m.sections[k], pattern, rva) <==>
            InFile(file, pattern, m.sections[k].rawOffset + delta) && delta + |pattern| <= ScanSize(m, m.sections[k])
    ensures InModule(m, pattern, rva) <==>
            InFile(file, pattern, m.sections[k].rawOffset + delta) && Searched(m, rva, |pattern|)
  {
    hide *;
    ConvertsBeside(m.sections, k, delta, rva);
    SectionAgrees(file, m, m.sections[k], pattern, delta);
    ModuleAgrees(file, m, m.sections[k], pattern, delta);
  }

  /** So on windows inside the searched part of their section the two searches agree outright. */
  lemma SearchesAgree(file: seq<Byte>, m: MappedModule, section: SectionRange, pattern: seq<PatternByte>, delta: nat)
    requires pattern != [] && section in m.sections && Copied(file, m, section)
    requires delta + |pattern| <= section.rawSize && delta + |pattern| <= ScanSize(m, section)
    ensures InModule(m, pattern, section.virtualAddress + delta) <==> InFile(file, pattern, section.rawOffset + delta)
  {
    hide InFile, InModule, Copied, ScanSize;
    ModuleAgrees(file, m, section, pattern, delta);
    assert Inside(m, section, section.virtualAddress + delta, |pattern|);
  }

  /** They disagree beyond it: raw bytes past the virtual size are found in the file only. */
  lemma RawTailFoundOnlyInFile(b: Byte)
    ensures var section := SectionRange(0, 1, 0, 2, IMAGE_SCN_CNT_CODE);
            var file := [if b == 0 then 1 else 0, b];
            var m := Module(file, [section]);
            var pattern := [PatternByte(b, false)];
            && Copied(file, m, section) && RawBacked(section, 1)
            && 1 in AllMatches(file, pattern) && AllRvas(m, pattern) == []
  {
    var section := SectionRange(0, 1, 0, 2, IMAGE_SCN_CNT_CODE);
    var file: seq<Byte> := [if b == 0 then 1 else 0, b];
    var m := Module(file, [section]);
    var pattern := [PatternByte(b, false)];
    AllMatchesExactly(file, pattern, 1);
    var all := AllRvas(m, pattern);
    if |all| > 0 {
      RvasExactly(m, [section], pattern, all[0]);
      NoByteMatches(m, section, b, all[0]);
      assert false;
    }
  }

  lemma NoByteMatches(m: Module, section: SectionRange, b: Byte, rva: nat)
    requires section.virtualAddress == 0 && section.virtualSize == 1 && |m.image| > 0 && m.image[0] != b
    ensures !MatchIn(m, section, [PatternByte(b, false)], rva)
  {
    var pattern := [PatternByte(b, false)];
    assert pattern[0] == PatternByte(b, false);
  }
}
