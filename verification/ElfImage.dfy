/** Loadable segments of an ELF image, and the constructor table they back. */
module ElfImage {
  import opened Outcomes
  import Sleb128
  import opened Aps2

  const R_X86_64_RELATIVE := 8
  const TWO_32 := 0x1_0000_0000

  /** A PT_LOAD entry; `flags` holds execute, write and read in bits 0, 1 and 2. */
  datatype Segment = Segment(offset: nat, virtualAddress: nat, fileSize: nat, memorySize: nat, flags: nat) {
    predicate Executable() { flags % 2 == 1 }
    predicate Writable() { flags / 2 % 2 == 1 }
    predicate Readable() { flags / 4 % 2 == 1 }

    predicate ContainsMemory(rva: int, size: int) {
      size >= 0 && virtualAddress <= rva && rva + size <= virtualAddress + memorySize
    }

    predicate ContainsFileData(rva: int, size: int) {
      size >= 0 && virtualAddress <= rva && rva + size <= virtualAddress + fileSize
    }
  }

  function Containing(segments: seq<Segment>, rva: int, size: int): seq<Segment> {
    if segments == [] then []
    else (if segments[0].ContainsMemory(rva, size) then [segments[0]] else []) +
         Containing(segments[1..], rva, size)
  }

  /** The only segment that maps the range, as a list of at most one. */
  function SegmentFor(segments: seq<Segment>, rva: int, size: int): (r: seq<Segment>)
    ensures |r| <= 1
  {
    var found := Containing(segments, rva, size);
    if |found| == 1 then found else []
  }

  predicate RequireCode(segments: seq<Segment>, rva: int, size: int) {
    var found := SegmentFor(segments, rva, size);
    && found != []
    && found[0].Readable() && found[0].Executable() && !found[0].Writable()
    && found[0].ContainsFileData(rva, size)
  }

  /** Segment `i` maps the range and no other segment does. */
  ghost predicate OnlyMaps(segments: seq<Segment>, i: nat, rva: int, size: int) {
    && i < |segments|
    && forall j :: 0 <= j < |segments| ==>
       (0 <= size <= segments[j].virtualAddress + segments[j].memorySize - rva && segments[j].virtualAddress <= rva
        <==> j == i)
  }

  lemma {:induction false} ContainingNone(segments: seq<Segment>, rva: int, size: int)
    ensures Containing(segments, rva, size) == [] <==>
            forall j :: 0 <= j < |segments| ==> !segments[j].ContainsMemory(rva, size)
  {
    if segments != [] {
      var rest := segments[1..];
      ContainingNone(rest, rva, size);
      assert forall j :: 0 <= j < |rest| ==> segments[j + 1] == rest[j];
      if forall j :: 0 <= j < |segments| ==> !segments[j].ContainsMemory(rva, size) {
        forall j | 0 <= j < |rest|
          ensures !rest[j].ContainsMemory(rva, size)
        {
          assert rest[j] == segments[j + 1];
        }
      }
      if Containing(segments, rva, size) == [] {
        forall j | 0 <= j < |segments|
          ensures !segments[j].ContainsMemory(rva, size)
        {
          assert j > 0 ==> segments[j] == rest[j - 1];
        }
      }
    }
  }

  /** The search returns the one segment that maps the range, and nothing if there is not exactly one. */
  lemma {:induction false} SegmentForIsUnique(segments: seq<Segment>, rva: int, size: int, i: nat)
    requires i < |segments|
    ensures OnlyMaps(segments, i, rva, size) ==> SegmentFor(segments, rva, size) == [segments[i]]
  {
    if OnlyMaps(segments, i, rva, size) {
      var rest := segments[1..];
      assert forall j :: 0 <= j < |rest| ==> rest[j] == segments[j + 1];
      if i == 0 {
        ContainingNone(rest, rva, size);
      } else {
        SegmentForIsUnique(rest, rva, size, i - 1);
      }
    }
  }

  lemma {:induction false} SegmentForFound(segments: seq<Segment>, rva: int, size: int) returns (i: nat)
    requires SegmentFor(segments, rva, size) != []
    ensures OnlyMaps(segments, i, rva, size)
  {
    var rest := segments[1..];
    assert forall j :: 0 < j < |segments| ==> segments[j] == rest[j - 1];
    if segments[0].ContainsMemory(rva, size) {
      ContainingNone(rest, rva, size);
      i := 0;
    } else {
      i := SegmentForFound(rest, rva, size);
      i := i + 1;
    }
  }

  // ------------------------------------------------------- the constructor table

  predicate InArray(x: Relocation, address: nat, size: nat) {
    address <= x.offset < address + size
  }

  function Window(x: Relocation, address: nat): int {
    (x.offset - address) / 8
  }

  /** Exactly one segment maps the address; its flags are read and execute without write, and the file backs it. */
  ghost predicate PointsToCode(segments: seq<Segment>, rva: int) {
    exists i: nat :: OnlyMaps(segments, i, rva, 1) && IsCodeAt(segments[i], rva)
  }

  ghost predicate IsCodeAt(s: Segment, rva: int) {
    s.flags % 8 == 5 && s.virtualAddress <= rva < s.virtualAddress + s.fileSize
  }

  /** An aligned relative relocation, without a symbol, whose addend points to code. */
  ghost predicate Admissible(segments: seq<Segment>, x: Relocation) {
    x.offset % 8 == 0 && x.info == 8 && PointsToCode(segments, x.addend)
  }

  /** `k` is the one relocation that lands in the eight bytes of entry `w`. */
  ghost predicate OnlyInWindow(xs: seq<Relocation>, k: nat, w: int, address: nat) {
    && k < |xs|
    && forall j :: 0 <= j < |xs| ==>
       (address + 8 * w <= xs[j].offset < address + 8 * w + 8 <==> j == k)
  }

  ghost predicate CoveredOnce(xs: seq<Relocation>, w: int, address: nat) {
    exists k: nat :: OnlyInWindow(xs, k, w, address)
  }

  /** Every relocation that lands in the array is admissible and every entry has exactly one. */
  ghost predicate ExactCover(segments: seq<Segment>, xs: seq<Relocation>, address: nat, size: nat) {
    && (forall k :: 0 <= k < |xs| && InArray(xs[k], address, size) ==>
          Admissible(segments, xs[k]) && Window(xs[k], address) < size / 8)
    && (forall w :: 0 <= w < size / 8 ==> CoveredOnce(xs, w, address))
  }

  lemma Halves(x: nat)
    ensures x / 4 == x / 2 / 2
  {
  }

  lemma ModEight(x: nat, q: nat, r: nat)
    requires x == 8 * q + r && r < 8
    ensures x % 8 == r
  {
  }

  lemma ModFour(x: nat, q: nat, r: nat)
    requires x == 4 * q + r && r < 4
    ensures x % 4 == r
  {
  }

  /** The low bits of the flags, one by one. */
  lemma FlagBits(flags: nat)
    ensures flags % 8 == flags % 2 + 2 * (flags / 2 % 2) + 4 * (flags / 4 % 2)
    ensures flags % 4 == flags % 2 + 2 * (flags / 2 % 2)
  {
    Halves(flags);
    var h, k := flags / 2, flags / 4;
    assert flags == 2 * h + flags % 2 && h == 2 * k + h % 2 && k == 2 * (k / 2) + k % 2;
    ModEight(flags, k / 2, flags % 2 + 2 * (h % 2) + 4 * (k % 2));
    ModFour(flags, k, flags % 2 + 2 * (h % 2));
  }

  lemma CodeFlags(s: Segment, rva: int)
    ensures IsCodeAt(s, rva) <==> s.Readable() && s.Executable() && !s.Writable() && s.ContainsFileData(rva, 1)
  {
    FlagBits(s.flags);
  }

  lemma RequireCodeMeansMapped(segments: seq<Segment>, rva: int)
    ensures RequireCode(segments, rva, 1) <==> PointsToCode(segments, rva)
  {
    hide SegmentFor, IsCodeAt;
    if SegmentFor(segments, rva, 1) != [] {
      var i := SegmentForFound(segments, rva, 1);
      SegmentForIsUnique(segments, rva, 1, i);
      CodeFlags(segments[i], rva);
      assert forall k: nat :: OnlyMaps(segments, k, rva, 1) ==> k == i;
    } else if PointsToCode(segments, rva) {
      var i: nat :| OnlyMaps(segments, i, rva, 1) && IsCodeAt(segments[i], rva);
      SegmentForIsUnique(segments, rva, 1, i);
      assert false;
    }
  }

  /** What the selection holds after the first `n` relocations. */
  ghost predicate Selection(segments: seq<Segment>, xs: seq<Relocation>, n: nat, address: nat, size: nat,
                            selected: map<int, int>)
    requires n <= |xs|
  {
    && (forall k :: 0 <= k < n && InArray(xs[k], address, size) ==>
          && Admissible(segments, xs[k])
          && Window(xs[k], address) in selected
          && selected[Window(xs[k], address)] == xs[k].addend)
    && (forall w :: w in selected ==> Hit(xs, n, w, address, size))
    && (forall j, k :: 0 <= j < k < n && InArray(xs[j], address, size) && InArray(xs[k], address, size) ==>
          Window(xs[j], address) != Window(xs[k], address))
  }

  ghost predicate Hit(xs: seq<Relocation>, n: nat, w: int, address: nat, size: nat)
    requires n <= |xs|
  {
    exists k :: 0 <= k < n && InArray(xs[k], address, size) && Window(xs[k], address) == w
  }

  method SelectEntries(segments: seq<Segment>, xs: seq<Relocation>, address: nat, size: nat)
    returns (r: Outcome<map<int, int>>)
    requires forall x :: x in xs ==> x.IsUnsigned64()
    ensures r.Ok? ==> Selection(segments, xs, |xs|, address, size, r.value)
    ensures r.Rejected? ==> !ExactCover(segments, xs, address, size)
  {
    var selected: map<int, int> := map[];
    for n := 0 to |xs|
      invariant Selection(segments, xs, n, address, size, selected)
    {
      var x := xs[n];
      if InArray(x, address, size) {
        assert x in xs;
        RequireCodeMeansMapped(segments, x.addend);
        if x.offset % 8 != 0 || x.info % TWO_32 != R_X86_64_RELATIVE || x.info / TWO_32 != 0 {
          return Rejected;
        }
        var index := Window(x, address);
        if index in selected {
          SharedWindow(segments, xs, index, n, address, size);
          return Rejected;
        }
        if !RequireCode(segments, x.addend, 1) {
          return Rejected;
        }
        assert x.info == R_X86_64_RELATIVE;
        SelectionStep(segments, xs, n, address, size, selected);
        selected := selected[index := x.addend];
      } else {
        SelectionSkip(segments, xs, n, address, size, selected);
      }
    }
    return Ok(selected);
  }

  method InitArrayRelocations(segments: seq<Segment>, relaDyn: seq<Sleb128.byte>, address: nat, size: nat)
    returns (r: Outcome<seq<int>>)
    ensures r.Ok? <==> Decode(relaDyn).Ok? && ExactCover(segments, Decode(relaDyn).value, address, size)
    ensures r.Ok? ==> |r.value| == size / 8
    ensures r.Ok? ==> var xs := Decode(relaDyn).value;
                      forall w, k: nat :: 0 <= w < size / 8 && OnlyInWindow(xs, k, w, address) ==>
                        r.value[w] == xs[k].addend
  {
    hide Decode;
    var xs :- DecodeRelocations(relaDyn);
    var selected :- SelectEntries(segments, xs, address, size);
    var count := size / 8;
    if !((forall w :: w in selected ==> 0 <= w < count) && (forall w :: 0 <= w < count ==> w in selected)) {
      if ExactCover(segments, xs, address, size) {
        UncoveredWindow(segments, xs, selected, address, size);
        assert false;
      }
      return Rejected;
    }
    CompleteSelection(segments, xs, selected, address, size);
    return Ok(seq(count, w requires 0 <= w < count => selected[w]));
  }

  // ---------------------------------------------------------------- helpers

  lemma WindowIs(x: Relocation, w: int, address: nat, size: nat)
    requires 0 <= w < size / 8
    ensures address + 8 * w <= x.offset < address + 8 * w + 8 <==>
            InArray(x, address, size) && Window(x, address) == w
  {
  }

  lemma SelectionSkip(segments: seq<Segment>, xs: seq<Relocation>, n: nat, address: nat, size: nat,
                      selected: map<int, int>)
    requires n < |xs| && Selection(segments, xs, n, address, size, selected)
    requires !InArray(xs[n], address, size)
    ensures Selection(segments, xs, n + 1, address, size, selected)
  {
    hide Admissible;
    forall w | w in selected
      ensures Hit(xs, n + 1, w, address, size)
    {
      assert Hit(xs, n, w, address, size);
    }
  }

  lemma SelectionStep(segments: seq<Segment>, xs: seq<Relocation>, n: nat, address: nat, size: nat,
                      selected: map<int, int>)
    requires n < |xs| && Selection(segments, xs, n, address, size, selected)
    requires InArray(xs[n], address, size) && Admissible(segments, xs[n])
    requires Window(xs[n], address) !in selected
    ensures Selection(segments, xs, n + 1, address, size, selected[Window(xs[n], address) := xs[n].addend])
  {
    hide Admissible;
    var index := Window(xs[n], address);
    var after := selected[index := xs[n].addend];
    forall w | w in after
      ensures Hit(xs, n + 1, w, address, size)
    {
      assert w != index ==> Hit(xs, n, w, address, size);
    }
  }

  lemma SharedWindow(segments: seq<Segment>, xs: seq<Relocation>, w: int, n: nat, address: nat, size: nat)
    requires n < |xs| && InArray(xs[n], address, size) && Window(xs[n], address) == w
    requires Hit(xs, n, w, address, size)
    ensures !ExactCover(segments, xs, address, size)
  {
    var k :| 0 <= k < n && InArray(xs[k], address, size) && Window(xs[k], address) == w;
    if w < size / 8 {
      WindowIs(xs[n], w, address, size);
      WindowIs(xs[k], w, address, size);
      assert forall only: nat :: OnlyInWindow(xs, only, w, address) ==> only == n && only == k;
      assert !CoveredOnce(xs, w, address);
    }
  }

  lemma UncoveredWindow(segments: seq<Segment>, xs: seq<Relocation>, selected: map<int, int>, address: nat, size: nat)
    requires Selection(segments, xs, |xs|, address, size, selected)
    requires ExactCover(segments, xs, address, size)
    ensures forall w :: w in selected <==> 0 <= w < size / 8
  {
    hide Admissible;
    forall w | w in selected
      ensures 0 <= w < size / 8
    {
      assert Hit(xs, |xs|, w, address, size);
    }
    forall w | 0 <= w < size / 8
      ensures w in selected
    {
      assert CoveredOnce(xs, w, address);
      var k: nat :| OnlyInWindow(xs, k, w, address);
      WindowIs(xs[k], w, address, size);
    }
  }

  lemma CompleteSelection(segments: seq<Segment>, xs: seq<Relocation>, selected: map<int, int>, address: nat,
                          size: nat)
    requires Selection(segments, xs, |xs|, address, size, selected)
    requires forall w :: w in selected <==> 0 <= w < size / 8
    ensures ExactCover(segments, xs, address, size)
    ensures forall w, k: nat :: 0 <= w < size / 8 && OnlyInWindow(xs, k, w, address) ==> selected[w] == xs[k].addend
  {
    hide Admissible;
    forall w | 0 <= w < size / 8
      ensures CoveredOnce(xs, w, address)
      ensures forall k: nat :: OnlyInWindow(xs, k, w, address) ==> selected[w] == xs[k].addend
    {
      assert w in selected && Hit(xs, |xs|, w, address, size);
      var k :| 0 <= k < |xs| && InArray(xs[k], address, size) && Window(xs[k], address) == w;
      forall j | 0 <= j < |xs|
        ensures address + 8 * w <= xs[j].offset < address + 8 * w + 8 <==> j == k
      {
        WindowIs(xs[j], w, address, size);
      }
      assert OnlyInWindow(xs, k, w, address);
    }
  }
}
