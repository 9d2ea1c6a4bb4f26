/**
 * The Android APS2 relocation stream: relocations in groups that may share an offset delta, an
 * info word or an addend delta. The decoder is proved to invert an encoder that is free to choose
 * any grouping.
 */
module Aps2 {
  import opened Outcomes
  import opened Sleb128

  const MAX_RELOCATIONS := 4 * 1024 * 1024
  const MAGIC: seq<byte> := [0x41, 0x50, 0x53, 0x32]

  datatype Relocation = Relocation(offset: int, info: int, addend: int) {
    predicate IsUnsigned64() {
      0 <= offset < TWO_64 && 0 <= info < TWO_64 && 0 <= addend < TWO_64
    }
  }

  /** The four group flags, as bits 0 to 3 of the flag word. */
  datatype Flags = Flags(byInfo: bool, byOffset: bool, byAddend: bool, hasAddend: bool) {
    predicate SharedAddend() { hasAddend && byAddend }
    predicate OwnAddend() { hasAddend && !byAddend }
  }

  function FlagsOf(w: int): Flags {
    Flags(w % 2 == 1, w / 2 % 2 == 1, w / 4 % 2 == 1, w / 8 % 2 == 1)
  }

  const NO_FLAGS := Flags(false, false, false, false)

  // ---------------------------------------------------------------- decoding

  /** Position in the stream and the running offset, info and addend. */
  datatype Cursor = Cursor(pos: nat, at: Relocation)

  /** The group being read: its flags, its shared offset delta and how many entries are left. */
  datatype OpenGroup = OpenGroup(flags: Flags, delta: int, left: nat)

  function PopIf(present: bool, s: seq<byte>, pos: nat): (r: Outcome<Read>)
    requires pos <= |s|
    ensures r.Ok? ==> pos <= r.value.next <= |s|
  {
    if present then Pop(s, pos) else Ok(Read(0, pos))
  }

  /** The part of a group header that its flags call for: offset delta, then info and addend. */
  function ReadShared(s: seq<byte>, f: Flags, c: Cursor): (r: Outcome<(int, Cursor)>)
    requires c.pos <= |s|
    ensures r.Ok? ==> r.value.1.pos <= |s|
  {
    var delta :- PopIf(f.byOffset, s, c.pos);
    var info :- PopIf(f.byInfo, s, delta.next);
    var addend :- PopIf(f.SharedAddend(), s, info.next);
    var at := Relocation(
      c.at.offset,
      if f.byInfo then info.value else c.at.info,
      if f.hasAddend then c.at.addend + addend.value else 0);
    Ok((delta.value, Cursor(addend.next, at)))
  }

  function ReadHeader(s: seq<byte>, remaining: nat, c: Cursor): (r: Outcome<(OpenGroup, Cursor)>)
    requires c.pos <= |s|
    ensures r.Ok? ==> 0 < r.value.0.left <= remaining && r.value.1.pos <= |s|
  {
    var size :- Pop(s, c.pos);
    var word :- Pop(s, size.next);
    if size.value <= 0 || size.value > remaining || word.value < 0 || word.value > 15 then
      Rejected
    else
      var shared :- ReadShared(s, FlagsOf(word.value), Cursor(word.next, c.at));
      Ok((OpenGroup(FlagsOf(word.value), shared.0, size.value), shared.1))
  }

  function ReadEntry(s: seq<byte>, g: OpenGroup, c: Cursor): (r: Outcome<Cursor>)
    requires c.pos <= |s|
    ensures r.Ok? ==> r.value.pos <= |s| && r.value.at.IsUnsigned64()
  {
    var delta :- PopIf(!g.flags.byOffset, s, c.pos);
    var info :- PopIf(!g.flags.byInfo, s, delta.next);
    var addend :- PopIf(g.flags.OwnAddend(), s, info.next);
    var at := Relocation(
      c.at.offset + (if g.flags.byOffset then g.delta else delta.value),
      if g.flags.byInfo then c.at.info else info.value,
      c.at.addend + addend.value);
    if at.IsUnsigned64() then Ok(Cursor(addend.next, at)) else Rejected
  }

  /** Everything still to be emitted; a fully grouped entry reads no bytes, so `remaining` decides. */
  function ReadFrom(s: seq<byte>, g: OpenGroup, remaining: nat, c: Cursor): (r: Outcome<seq<Relocation>>)
    requires c.pos <= |s| && g.left <= remaining
    ensures r.Ok? ==> |r.value| == remaining && forall x :: x in r.value ==> x.IsUnsigned64()
    decreases remaining, g.left == 0
  {
    if remaining == 0 then
      if c.pos == |s| then Ok([]) else Rejected
    else if g.left == 0 then
      var h :- ReadHeader(s, remaining, c);
      ReadFrom(s, h.0, remaining, h.1)
    else
      var next :- ReadEntry(s, g, c);
      var rest :- ReadFrom(s, g.(left := g.left - 1), remaining - 1, next);
      Ok([next.at] + rest)
  }

  function Decode(encoded: seq<byte>): (r: Outcome<seq<Relocation>>)
    ensures r.Ok? ==> |r.value| <= MAX_RELOCATIONS && forall x :: x in r.value ==> x.IsUnsigned64()
  {
    if !(MAGIC <= encoded) then Rejected else
    var s := encoded[4..];
    var count :- Pop(s, 0);
    var offset :- Pop(s, count.next);
    if count.value < 0 || count.value > MAX_RELOCATIONS then Rejected else
    ReadFrom(s, OpenGroup(NO_FLAGS, 0, 0), count.value, Cursor(offset.next, Relocation(offset.value, 0, 0)))
  }

  ghost function Prepend(front: seq<Relocation>, rest: Outcome<seq<Relocation>>): Outcome<seq<Relocation>> {
    if rest.Ok? then Ok(front + rest.value) else Rejected
  }

  method PopWhen(present: bool, reader: Sleb128Reader) returns (r: Outcome<int>)
    requires reader.Valid()
    modifies reader
    ensures reader.Valid()
    ensures match PopIf(present, reader.encoded, old(reader.position))
            case Ok(read) => r == Ok(read.value) && reader.position == read.next
            case Rejected => r == Rejected
  {
    if present {
      r := reader.PopValue();
    } else {
      r := Ok(0);
    }
  }

  method PopHeader(reader: Sleb128Reader, remaining: nat, at: Relocation)
    returns (r: Outcome<(OpenGroup, Relocation)>)
    requires reader.Valid()
    modifies reader
    ensures reader.Valid()
    ensures match ReadHeader(reader.encoded, remaining, Cursor(old(reader.position), at))
            case Ok(h) => r == Ok((h.0, h.1.at)) && reader.position == h.1.pos
            case Rejected => r == Rejected
  {
    hide Pop, FlagsOf;
    var size :- reader.PopValue();
    var word :- reader.PopValue();
    if size <= 0 || size > remaining || word < 0 || word > 15 {
      return Rejected;
    }
    var f := FlagsOf(word);
    var delta :- PopWhen(f.byOffset, reader);
    var info :- PopWhen(f.byInfo, reader);
    var addend :- PopWhen(f.SharedAddend(), reader);
    var start := Relocation(
      at.offset,
      if f.byInfo then info else at.info,
      if f.hasAddend then at.addend + addend else 0);
    return Ok((OpenGroup(f, delta, size), start));
  }

  method PopEntry(reader: Sleb128Reader, g: OpenGroup, at: Relocation) returns (r: Outcome<Relocation>)
    requires reader.Valid()
    modifies reader
    ensures reader.Valid()
    ensures match ReadEntry(reader.encoded, g, Cursor(old(reader.position), at))
            case Ok(c) => r == Ok(c.at) && reader.position == c.pos
            case Rejected => r == Rejected
  {
    hide Pop;
    var delta :- PopWhen(!g.flags.byOffset, reader);
    var info :- PopWhen(!g.flags.byInfo, reader);
    var addend :- PopWhen(g.flags.OwnAddend(), reader);
    var next := Relocation(
      at.offset + (if g.flags.byOffset then g.delta else delta),
      if g.flags.byInfo then at.info else info,
      at.addend + addend);
    return if next.IsUnsigned64() then Ok(next) else Rejected;
  }

  /** The decoding loops, run on a reader object. */
  method DecodeRelocations(encoded: seq<byte>) returns (r: Outcome<seq<Relocation>>)
    ensures r == Decode(encoded)
  {
    hide Pop, ReadHeader, ReadEntry;
    if !(MAGIC <= encoded) {
      return Rejected;
    }
    var reader := new Sleb128Reader(encoded[4..]);
    var count :- reader.PopValue();
    var offset :- reader.PopValue();
    if count < 0 || count > MAX_RELOCATIONS {
      return Rejected;
    }
    var at := Relocation(offset, 0, 0);
    var out: seq<Relocation> := [];
    var g := OpenGroup(NO_FLAGS, 0, 0);
    PrependNone(ReadFrom(reader.encoded, g, count, Cursor(reader.position, at)));
    while |out| < count
      invariant reader.Valid() && reader.encoded == encoded[4..]
      invariant g.left == 0 && |out| <= count
      invariant Decode(encoded) ==
                Prepend(out, ReadFrom(reader.encoded, g, count - |out|, Cursor(reader.position, at)))
      decreases count - |out|
    {
      var h :- PopHeader(reader, count - |out|, at);
      g, at := h.0, h.1;
      ghost var end := |out| + g.left;
      while g.left > 0
        invariant reader.Valid() && reader.encoded == encoded[4..]
        invariant |out| + g.left == end <= count
        invariant Decode(encoded) ==
                  Prepend(out, ReadFrom(reader.encoded, g, count - |out|, Cursor(reader.position, at)))
      {
        at :- PopEntry(reader, g, at);
        PrependOne(out, at, ReadFrom(reader.encoded, g.(left := g.left - 1), count - |out| - 1,
                                     Cursor(reader.position, at)));
        out, g := out + [at], g.(left := g.left - 1);
      }
    }
    assert out + [] == out;
    return if reader.AtEnd() then Ok(out) else Rejected;
  }

  lemma PrependNone(rest: Outcome<seq<Relocation>>)
    ensures Prepend([], rest) == rest
  {
    if rest.Ok? {
      assert [] + rest.value == rest.value;
    }
  }

  lemma PrependOne(front: seq<Relocation>, x: Relocation, rest: Outcome<seq<Relocation>>)
    ensures Prepend(front, Prepend([x], rest)) == Prepend(front + [x], rest)
  {
    if rest.Ok? {
      assert front + ([x] + rest.value) == front + [x] + rest.value;
    }
  }

  // ---------------------------------------------------------------- encoding

  /**
   * A group as an encoder plans it: its flag word and the relocations it carries. What a word means
   * is written out below on the number itself: bit 0 writes the info word once in the header, bit 1
   * the offset step, and bit 3 announces addends, written once if bit 2 is set and per entry if not.
   */
  datatype Group = Group(word: int, entries: seq<Relocation>)

  function EncodeIf(present: bool, v: int): seq<byte> {
    if present then Encode(v) else []
  }

  function EncodeEntry(w: int, e: Relocation, at: Relocation): seq<byte> {
    EncodeIf(w / 2 % 2 == 0, e.offset - at.offset) +
    EncodeIf(w % 2 == 0, e.info) +
    EncodeIf(w / 8 % 2 == 1 && w / 4 % 2 == 0, e.addend - at.addend)
  }

  function EncodeEntries(w: int, entries: seq<Relocation>, at: Relocation): seq<byte> {
    if entries == [] then []
    else EncodeEntry(w, entries[0], at) + EncodeEntries(w, entries[1..], entries[0])
  }

  /** The running values once the header of `g` has been read. */
  function Opened(g: Group, at: Relocation): Relocation
    requires g.entries != []
  {
    Relocation(at.offset,
               if g.word % 2 == 1 then g.entries[0].info else at.info,
               if g.word / 8 % 2 == 0 then 0
               else if g.word / 4 % 2 == 1 then g.entries[0].addend else at.addend)
  }

  function FirstDelta(g: Group, at: Relocation): int
    requires g.entries != []
  {
    g.entries[0].offset - at.offset
  }

  function SharedDelta(g: Group, at: Relocation): int
    requires g.entries != []
  {
    if g.word / 2 % 2 == 1 then FirstDelta(g, at) else 0
  }

  function EncodeShared(g: Group, at: Relocation): seq<byte>
    requires g.entries != []
  {
    EncodeIf(g.word / 2 % 2 == 1, FirstDelta(g, at)) +
    EncodeIf(g.word % 2 == 1, g.entries[0].info) +
    EncodeIf(g.word / 8 % 2 == 1 && g.word / 4 % 2 == 1, g.entries[0].addend - at.addend)
  }

  function EncodeHeader(g: Group, at: Relocation): seq<byte>
    requires g.entries != []
  {
    Encode(|g.entries|) + Encode(g.word) + EncodeShared(g, at)
  }

  function LastOf(entries: seq<Relocation>, at: Relocation): Relocation {
    if entries == [] then at else entries[|entries| - 1]
  }

  function EncodeGroups(groups: seq<Group>, at: Relocation): seq<byte>
    requires Plannable(groups, at)
  {
    if groups == [] then [] else
    EncodeHeader(groups[0], at) +
    (EncodeEntries(groups[0].word, groups[0].entries, Opened(groups[0], at)) +
     EncodeGroups(groups[1..], LastOf(groups[0].entries, at)))
  }

  /** What follows in the middle of a group. */
  function EncodeRest(w: int, entries: seq<Relocation>, groups: seq<Group>, at: Relocation): seq<byte>
    requires Plannable(groups, LastOf(entries, at))
  {
    EncodeEntries(w, entries, at) + EncodeGroups(groups, LastOf(entries, at))
  }

  function Flatten(groups: seq<Group>): seq<Relocation> {
    if groups == [] then [] else groups[0].entries + Flatten(groups[1..])
  }

  /** The whole stream, with a free choice of announced count, base offset and grouping. */
  function EncodeStream(count: int, base: int, groups: seq<Group>): seq<byte>
    requires Plannable(groups, Relocation(base, 0, 0))
  {
    [0x41, 0x50, 0x53, 0x32] + (Encode(count) + Encode(base) + EncodeGroups(groups, Relocation(base, 0, 0)))
  }

  /** The entry is 64-bit and agrees with everything its group shares. */
  predicate EntryAgrees(w: int, delta: int, e: Relocation, at: Relocation) {
    && e.IsUnsigned64()
    && (w / 2 % 2 == 1 ==> e.offset == at.offset + delta)
    && (w % 2 == 1 ==> e.info == at.info)
    && (w / 8 % 2 == 0 || w / 4 % 2 == 1 ==> e.addend == at.addend)
  }

  predicate Agrees(w: int, delta: int, entries: seq<Relocation>, at: Relocation) {
    entries == [] ||
    (EntryAgrees(w, delta, entries[0], at) && Agrees(w, delta, entries[1..], entries[0]))
  }

  /** A plan the format can express: groups non-empty and consistent with their flags. */
  predicate Plannable(groups: seq<Group>, at: Relocation) {
    groups == [] ||
    (&& groups[0].entries != []
     && Agrees(groups[0].word, FirstDelta(groups[0], at), groups[0].entries, Opened(groups[0], at))
     && Plannable(groups[1..], LastOf(groups[0].entries, at)))
  }

  /** Every offset and addend step written out is a number the reader accepts; flag words have four bits. */
  predicate EntryFits(w: int, e: Relocation, at: Relocation) {
    && (w / 2 % 2 == 0 ==> Fits(e.offset - at.offset))
    && (w / 8 % 2 == 1 && w / 4 % 2 == 0 ==> Fits(e.addend - at.addend))
  }

  predicate EntriesFit(w: int, entries: seq<Relocation>, at: Relocation) {
    entries == [] || (EntryFits(w, entries[0], at) && EntriesFit(w, entries[1..], entries[0]))
  }

  predicate HeaderFits(g: Group, at: Relocation)
    requires g.entries != []
  {
    && 0 <= g.word <= 15
    && (g.word / 2 % 2 == 1 ==> Fits(FirstDelta(g, at)))
    && (g.word / 8 % 2 == 1 && g.word / 4 % 2 == 1 ==> Fits(g.entries[0].addend - at.addend))
  }

  predicate GroupsFit(groups: seq<Group>, at: Relocation)
    requires Plannable(groups, at)
  {
    groups == [] ||
    (&& HeaderFits(groups[0], at)
     && EntriesFit(groups[0].word, groups[0].entries, Opened(groups[0], at))
     && GroupsFit(groups[1..], LastOf(groups[0].entries, at)))
  }

  // ------------------------------------------------------------ main results

  lemma PopIfInvertsEncodeIf(s: seq<byte>, pos: nat, present: bool, v: int)
    requires At(s, pos, EncodeIf(present, v))
    ensures PopIf(present, s, pos) ==
            if present && !Fits(v) then Rejected
            else Ok(Read(if present then v else 0, pos + |EncodeIf(present, v)|))
  {
    if present {
      PopInvertsEncode(s, pos, v);
    }
  }

  lemma ReadEntryInverts(s: seq<byte>, g: OpenGroup, w: int, e: Relocation, c: Cursor)
    requires 0 <= w <= 15 && g.flags == FlagsOf(w)
    requires At(s, c.pos, EncodeEntry(w, e, c.at))
    requires EntryAgrees(w, g.delta, e, c.at)
    ensures ReadEntry(s, g, c) ==
            if EntryFits(w, e, c.at)
            then Ok(Cursor(c.pos + |EncodeEntry(w, e, c.at)|, e)) else Rejected
  {
    hide Pop, Encode, At, PopIf, EncodeIf;
    var f, at := g.flags, c.at;
    var x := EncodeIf(!f.byOffset, e.offset - at.offset);
    var y := EncodeIf(!f.byInfo, e.info);
    var z := EncodeIf(f.OwnAddend(), e.addend - at.addend);
    AtSplit(s, c.pos, x + y, z);
    AtSplit(s, c.pos, x, y);
    PopIfInvertsEncodeIf(s, c.pos, !f.byOffset, e.offset - at.offset);
    PopIfInvertsEncodeIf(s, c.pos + |x|, !f.byInfo, e.info);
    PopIfInvertsEncodeIf(s, c.pos + |x| + |y|, f.OwnAddend(), e.addend - at.addend);
  }

  lemma ReadSharedInverts(s: seq<byte>, g: Group, c: Cursor)
    requires g.entries != [] && At(s, c.pos, EncodeShared(g, c.at))
    requires 0 <= g.word <= 15 && g.entries[0].IsUnsigned64()
    ensures ReadShared(s, FlagsOf(g.word), c) ==
            if HeaderFits(g, c.at)
            then Ok((SharedDelta(g, c.at), Cursor(c.pos + |EncodeShared(g, c.at)|, Opened(g, c.at))))
            else Rejected
  {
    hide Pop, Encode, At, PopIf, EncodeIf;
    var f, at, p := FlagsOf(g.word), c.at, c.pos;
    var x := EncodeIf(f.byOffset, FirstDelta(g, at));
    var y := EncodeIf(f.byInfo, g.entries[0].info);
    var z := EncodeIf(f.SharedAddend(), g.entries[0].addend - at.addend);
    AtSplit(s, p, x + y, z);
    AtSplit(s, p, x, y);
    PopIfInvertsEncodeIf(s, p, f.byOffset, FirstDelta(g, at));
    PopIfInvertsEncodeIf(s, p + |x|, f.byInfo, g.entries[0].info);
    PopIfInvertsEncodeIf(s, p + |x| + |y|, f.SharedAddend(), g.entries[0].addend - at.addend);
  }

  lemma HeaderNeedsFourBits(g: Group, at: Relocation)
    requires g.entries != [] && !(0 <= g.word <= 15)
    ensures !HeaderFits(g, at)
  {
  }

  lemma ReadHeaderInverts(s: seq<byte>, g: Group, remaining: nat, c: Cursor)
    requires g.entries != [] && At(s, c.pos, EncodeHeader(g, c.at))
    requires remaining <= MAX_RELOCATIONS && g.entries[0].IsUnsigned64()
    ensures ReadHeader(s, remaining, c) ==
            if |g.entries| <= remaining && HeaderFits(g, c.at)
            then Ok((OpenGroup(FlagsOf(g.word), SharedDelta(g, c.at), |g.entries|),
                     Cursor(c.pos + |EncodeHeader(g, c.at)|, Opened(g, c.at))))
            else Rejected
  {
    hide Pop, Encode, At, ReadShared, EncodeShared, HeaderFits, FlagsOf;
    var u, w, x := Encode(|g.entries|), Encode(g.word), EncodeShared(g, c.at);
    AtSplit(s, c.pos, u + w, x);
    AtSplit(s, c.pos, u, w);
    PopInvertsEncode(s, c.pos, |g.entries|);
    PopInvertsEncode(s, c.pos + |u|, g.word);
    if 0 <= g.word <= 15 {
      ReadSharedInverts(s, g, Cursor(c.pos + |u + w|, c.at));
    } else {
      HeaderNeedsFourBits(g, c.at);
    }
  }

  /** What reading the rest of a plan has to yield when `n` relocations are still announced. */
  ghost function PlannedRest(w: int, entries: seq<Relocation>, groups: seq<Group>, n: nat, at: Relocation)
    : Outcome<seq<Relocation>>
    requires Plannable(groups, LastOf(entries, at))
  {
    if n == |entries + Flatten(groups)| && EntriesFit(w, entries, at) && GroupsFit(groups, LastOf(entries, at))
    then Ok(entries + Flatten(groups)) else Rejected
  }

  /** One entry, and then whatever the rest yields. */
  lemma ReadEntryThenRest(s: seq<byte>, g: OpenGroup, w: int, entries: seq<Relocation>, groups: seq<Group>,
                          n: nat, c: Cursor)
    requires 0 <= w <= 15 && g.flags == FlagsOf(w)
    requires n >= g.left == |entries| > 0 && Agrees(w, g.delta, entries, c.at)
    requires Plannable(groups, LastOf(entries, c.at)) && At(s, c.pos, EncodeEntry(w, entries[0], c.at))
    requires var next := Cursor(c.pos + |EncodeEntry(w, entries[0], c.at)|, entries[0]);
             && next.pos <= |s| && Plannable(groups, LastOf(entries[1..], entries[0]))
             && ReadFrom(s, g.(left := |entries| - 1), n - 1, next) ==
                PlannedRest(w, entries[1..], groups, n - 1, entries[0])
    ensures ReadFrom(s, g, n, c) == PlannedRest(w, entries, groups, n, c.at)
  {
    hide Pop, Encode, At, ReadEntry, EncodeEntry, Plannable, GroupsFit;
    ReadEntryInverts(s, g, w, entries[0], c);
    assert [entries[0]] + (entries[1..] + Flatten(groups)) == entries + Flatten(groups);
  }

  /** One header, and then whatever the group and the rest yield. */
  lemma ReadHeaderThenRest(s: seq<byte>, g: OpenGroup, w: int, groups: seq<Group>, n: nat, c: Cursor)
    requires g.left == 0 < n <= MAX_RELOCATIONS && groups != [] && Plannable(groups, c.at)
    requires At(s, c.pos, EncodeHeader(groups[0], c.at))
    requires var h, others := groups[0], groups[1..];
             var next := Cursor(c.pos + |EncodeHeader(h, c.at)|, Opened(h, c.at));
             && next.pos <= |s| && Plannable(others, LastOf(h.entries, Opened(h, c.at)))
             && (|h.entries| <= n && HeaderFits(h, c.at) ==>
                   ReadFrom(s, OpenGroup(FlagsOf(h.word), SharedDelta(h, c.at), |h.entries|), n, next) ==
                   PlannedRest(h.word, h.entries, others, n, Opened(h, c.at)))
    ensures ReadFrom(s, g, n, c) == PlannedRest(w, [], groups, n, c.at)
  {
    hide Pop, Encode, At, ReadHeader, EncodeHeader, ReadEntry, HeaderFits;
    ReadHeaderInverts(s, groups[0], n, c);
    assert [] + Flatten(groups) == groups[0].entries + Flatten(groups[1..]);
  }

  /** Groups are left over once everything announced has been read. */
  lemma ReadNoMore(s: seq<byte>, g: OpenGroup, w: int, groups: seq<Group>, c: Cursor)
    requires g.left == 0 && groups != [] && Plannable(groups, c.at) && c.pos < |s|
    ensures ReadFrom(s, g, 0, c) == PlannedRest(w, [], groups, 0, c.at)
  {
    assert [] + Flatten(groups) == groups[0].entries + Flatten(groups[1..]);
  }

  /** The induction: from inside a group with `entries` left and `groups` still to come. */
  lemma {:induction false} ReadFromInverts(s: seq<byte>, g: OpenGroup, w: int, entries: seq<Relocation>,
                                           groups: seq<Group>, n: nat, c: Cursor)
    requires 0 <= w <= 15 && g.flags == FlagsOf(w)
    requires g.left == |entries| <= n <= MAX_RELOCATIONS
    requires Agrees(w, g.delta, entries, c.at)
    requires Plannable(groups, LastOf(entries, c.at))
    requires At(s, c.pos, EncodeRest(w, entries, groups, c.at))
    requires c.pos + |EncodeRest(w, entries, groups, c.at)| == |s|
    ensures ReadFrom(s, g, n, c) == PlannedRest(w, entries, groups, n, c.at)
    decreases |groups|, |entries|
  {
    hide Pop, Encode, At, ReadHeader, ReadEntry, EncodeHeader, EncodeEntry, GroupsFit, EntriesFit, HeaderFits,
      PlannedRest, ReadFrom;
    var at := c.at;
    if entries != [] {
      var e, rest := entries[0], entries[1..];
      var x, after := EncodeEntry(w, e, at), EncodeRest(w, rest, groups, e);
      assert EncodeRest(w, entries, groups, at) == x + after;
      AtSplit(s, c.pos, x, after);
      ReadFromInverts(s, g.(left := |rest|), w, rest, groups, n - 1, Cursor(c.pos + |x|, e));
      ReadEntryThenRest(s, g, w, entries, groups, n, c);
    } else if groups != [] {
      var h, others := groups[0], groups[1..];
      var x, after := EncodeHeader(h, at), EncodeRest(h.word, h.entries, others, Opened(h, at));
      assert EncodeRest(w, entries, groups, at) == x + after;
      AtSplit(s, c.pos, x, after);
      HeaderIsNotEmpty(h, at);
      assert entries == [];
      if n == 0 {
        ReadNoMore(s, g, w, groups, c);
      } else {
        if |h.entries| <= n && HeaderFits(h, at) {
          FittingWord(h, at);
          AgreesWithoutDelta(h.word, FirstDelta(h, at), SharedDelta(h, at), h.entries, Opened(h, at));
          ReadFromInverts(s, OpenGroup(FlagsOf(h.word), SharedDelta(h, at), |h.entries|), h.word, h.entries, others,
                          n, Cursor(c.pos + |x|, Opened(h, at)));
        }
        ReadHeaderThenRest(s, g, w, groups, n, c);
      }
    } else {
      NothingPlanned(s, g, w, n, c);
    }
  }

  lemma HeaderIsNotEmpty(g: Group, at: Relocation)
    requires g.entries != []
    ensures |EncodeHeader(g, at)| > 0
  {
  }

  lemma FittingWord(g: Group, at: Relocation)
    requires g.entries != [] && HeaderFits(g, at)
    ensures 0 <= g.word <= 15
  {
  }

  /** The stream ends here: well if nothing more was announced. */
  lemma NothingPlanned(s: seq<byte>, g: OpenGroup, w: int, n: nat, c: Cursor)
    requires g.left == 0 && c.pos == |s|
    ensures ReadFrom(s, g, n, c) == PlannedRest(w, [], [], n, c.at)
  {
    var none: seq<Relocation> := [];
    assert none + Flatten([]) == none;
  }

  lemma {:induction false} AgreesWithoutDelta(w: int, d: int, d': int, entries: seq<Relocation>, at: Relocation)
    requires Agrees(w, d, entries, at) && (w / 2 % 2 == 1 ==> d == d')
    ensures Agrees(w, d', entries, at)
  {
    if entries != [] {
      AgreesWithoutDelta(w, d, d', entries[1..], entries[0]);
    }
  }

  /**
   * Decoding an encoded plan returns exactly the planned relocations, in order, for every
   * grouping; it is rejected just when another count or too many are announced, a flag word has
   * more than four bits or some written step does not fit.
   */
  lemma DecodeInvertsEncode(count: int, base: int, groups: seq<Group>)
    requires Plannable(groups, Relocation(base, 0, 0))
    ensures Decode(EncodeStream(count, base, groups)) ==
            if && count == |Flatten(groups)| <= 4 * 1024 * 1024
               && Fits(base) && GroupsFit(groups, Relocation(base, 0, 0))
            then Ok(Flatten(groups)) else Rejected
  {
    hide Pop, Encode, ReadFrom, EncodeGroups, EncodeRest, Flatten, Plannable, GroupsFit;
    var at := Relocation(base, 0, 0);
    var x, y, z := Encode(count), Encode(base), EncodeGroups(groups, at);
    var s := x + y + z;
    assert EncodeStream(count, base, groups)[4..] == s && MAGIC <= EncodeStream(count, base, groups);
    StreamParts(x, y, z);
    PopInvertsEncode(s, 0, count);
    PopInvertsEncode(s, |x|, base);
    if 0 <= count <= MAX_RELOCATIONS {
      DecodeBody(s, |x + y|, count, base, groups);
    }
  }

  lemma StreamParts(x: seq<byte>, y: seq<byte>, z: seq<byte>)
    ensures At(x + y + z, 0, x) && At(x + y + z, |x|, y) && At(x + y + z, |x + y|, z)
  {
    assert At(x + y + z, 0, x + y + z);
    AtSplit(x + y + z, 0, x + y, z);
    AtSplit(x + y + z, 0, x, y);
  }

  /** After the count and the base offset the groups follow, up to the end. */
  lemma DecodeBody(s: seq<byte>, pos: nat, n: nat, base: int, groups: seq<Group>)
    requires Plannable(groups, Relocation(base, 0, 0)) && n <= MAX_RELOCATIONS
    requires At(s, pos, EncodeGroups(groups, Relocation(base, 0, 0)))
    requires pos + |EncodeGroups(groups, Relocation(base, 0, 0))| == |s|
    ensures ReadFrom(s, OpenGroup(NO_FLAGS, 0, 0), n, Cursor(pos, Relocation(base, 0, 0))) ==
            if n == |Flatten(groups)| && GroupsFit(groups, Relocation(base, 0, 0)) then Ok(Flatten(groups))
            else Rejected
  {
    hide ReadFrom, EncodeGroups, Flatten, Plannable, GroupsFit, At;
    var at := Relocation(base, 0, 0);
    var none: seq<Relocation> := [];
    assert EncodeRest(0, none, groups, at) == EncodeGroups(groups, at);
    assert none + Flatten(groups) == Flatten(groups);
    ReadFromInverts(s, OpenGroup(NO_FLAGS, 0, 0), 0, none, groups, n, Cursor(pos, at));
  }

  /** Three pieces appended one by one or together. */
  lemma AppendThree(s: seq<byte>, x: seq<byte>, y: seq<byte>, z: seq<byte>)
    ensures s + x + y + z == s + (x + y + z)
  {
  }

  /** A planned group of two, with what its word demands of the pair. */
  ghost predicate PairShares(base: int, w: int, a: Relocation, b: Relocation) {
    && 0 <= w <= 15 && a.IsUnsigned64() && b.IsUnsigned64()
    && Fits(base) && Fits(a.offset - base) && Fits(a.addend)
    && (if w / 2 % 2 == 1 then b.offset - a.offset == a.offset - base else Fits(b.offset - a.offset))
    && (w % 2 == 1 ==> b.info == a.info)
    && (if w / 8 % 2 == 0 then a.addend == b.addend == 0
        else if w / 4 % 2 == 1 then a.addend == b.addend else Fits(b.addend - a.addend))
  }

  lemma PairIsPlannable(base: int, w: int, a: Relocation, b: Relocation)
    requires PairShares(base, w, a, b)
    ensures Plannable([Group(w, [a, b])], Relocation(base, 0, 0))
    ensures GroupsFit([Group(w, [a, b])], Relocation(base, 0, 0))
    ensures Flatten([Group(w, [a, b])]) == [a, b]
  {
    hide Fits;
    var g, at, groups := Group(w, [a, b]), Relocation(base, 0, 0), [Group(w, [a, b])];
    var start := Opened(g, at);
    assert g.entries[1..] == [b] && [b][1..] == [] && groups[1..] == [];
    assert Agrees(w, FirstDelta(g, at), [b], a);
    assert Agrees(w, FirstDelta(g, at), [a, b], start);
    assert Plannable(groups[1..], LastOf(g.entries, at));
    assert EntriesFit(w, [b], a);
    assert EntriesFit(w, [a, b], start);
    assert GroupsFit(groups[1..], LastOf(g.entries, at));
    assert Flatten(groups) == [a, b] + [];
  }

  lemma PairEntries(w: int, a: Relocation, b: Relocation, at: Relocation)
    ensures EncodeEntries(w, [a, b], at) == EncodeEntry(w, a, at) + EncodeEntry(w, b, a)
  {
    hide EncodeEntry;
    assert [a, b][1..] == [b] && [b][1..] == [];
    assert EncodeEntries(w, [b], a) == EncodeEntry(w, b, a) + [];
  }

  lemma PairStream(base: int, w: int, a: Relocation, b: Relocation)
    requires PairShares(base, w, a, b)
    ensures var g, at := Group(w, [a, b]), Relocation(base, 0, 0);
            && Plannable([g], at)
            && EncodeStream(2, base, [g]) ==
               [0x41, 0x50, 0x53, 0x32] + Encode(2) + Encode(base) + Encode(2) + Encode(w) + EncodeShared(g, at) +
               EncodeEntry(w, a, Opened(g, at)) + EncodeEntry(w, b, a)
  {
    hide Fits, Encode, EncodeShared, EncodeEntry, Plannable, GroupsFit, Flatten;
    var g, at := Group(w, [a, b]), Relocation(base, 0, 0);
    PairIsPlannable(base, w, a, b);
    PairEntries(w, a, b, Opened(g, at));
    assert [g][1..] == [];
    assert EncodeGroups([g], at) == EncodeHeader(g, at) + (EncodeEntries(w, [a, b], Opened(g, at)) + []);
  }

  /**
   * The bytes of a group of two, field by field, for each of the sixteen flag words: what is
   * written once, what per entry, and in which order.
   */
  lemma PairLayout(base: int, w: int, a: Relocation, b: Relocation)
    requires PairShares(base, w, a, b)
    ensures Decode([0x41, 0x50, 0x53, 0x32] + Encode(2) + Encode(base) + Encode(2) + Encode(w) +
                   (if w / 2 % 2 == 1 then Encode(a.offset - base) else []) +
                   (if w % 2 == 1 then Encode(a.info) else []) +
                   (if w / 8 % 2 == 1 && w / 4 % 2 == 1 then Encode(a.addend) else []) +
                   (if w / 2 % 2 == 0 then Encode(a.offset - base) else []) +
                   (if w % 2 == 0 then Encode(a.info) else []) +
                   (if w / 8 % 2 == 1 && w / 4 % 2 == 0 then Encode(a.addend) else []) +
                   (if w / 2 % 2 == 0 then Encode(b.offset - a.offset) else []) +
                   (if w % 2 == 0 then Encode(b.info) else []) +
                   (if w / 8 % 2 == 1 && w / 4 % 2 == 0 then Encode(b.addend - a.addend) else [])) == Ok([a, b])
  {
    hide Encode, Fits, Decode, Plannable, GroupsFit, Flatten, EncodeStream;
    var g, at := Group(w, [a, b]), Relocation(base, 0, 0);
    PairIsPlannable(base, w, a, b);
    DecodeInvertsEncode(2, base, [g]);
    PairStream(base, w, a, b);
    var head := [0x41, 0x50, 0x53, 0x32] + Encode(2) + Encode(base) + Encode(2) + Encode(w);
    var sx, sy := EncodeIf(w / 2 % 2 == 1, a.offset - base), EncodeIf(w % 2 == 1, a.info);
    var sz := EncodeIf(w / 8 % 2 == 1 && w / 4 % 2 == 1, a.addend);
    var ax, ay := EncodeIf(w / 2 % 2 == 0, a.offset - base), EncodeIf(w % 2 == 0, a.info);
    var az := EncodeIf(w / 8 % 2 == 1 && w / 4 % 2 == 0, a.addend);
    var bx, bi := EncodeIf(w / 2 % 2 == 0, b.offset - a.offset), EncodeIf(w % 2 == 0, b.info);
    var bz := EncodeIf(w / 8 % 2 == 1 && w / 4 % 2 == 0, b.addend - a.addend);
    AppendThree(head, sx, sy, sz);
    AppendThree(head + sx + sy + sz, ax, ay, az);
    AppendThree(head + sx + sy + sz + ax + ay + az, bx, bi, bz);
  }

  /** A group by info with its own addends. */
  lemma KnownStream()
    ensures Decode([0x41, 0x50, 0x53, 0x32, 2, 0, 2, 9, 8, 16, 32, 16, 32]) ==
            Ok([Relocation(16, 8, 32), Relocation(32, 8, 64)])
  {
    hide Decode;
    PairLayout(0, 9, Relocation(16, 8, 32), Relocation(32, 8, 64));
    var none: seq<byte> := [];
    assert [0x41, 0x50, 0x53, 0x32, 2, 0, 2, 9, 8, 16, 32, 16, 32] ==
           [0x41, 0x50, 0x53, 0x32] + [2] + [0] + [2] + [9] + none + [8] + none + [16] + none + [32] +
           [16] + none + [32];
  }

  /** A group that shares nothing, with steps back, after a base offset of three bytes. */
  lemma KnownPlainStream()
    ensures Decode([0x41, 0x50, 0x53, 0x32, 2, 0xE5, 0x8E, 0x26, 2, 8, 1, 8, 5, 0x7F, 8, 0x7E]) ==
            Ok([Relocation(624486, 8, 5), Relocation(624485, 8, 3)])
  {
    hide Decode;
    PairLayout(624485, 8, Relocation(624486, 8, 5), Relocation(624485, 8, 3));
    assert Encode(624485) == [0xE5, 0x8E, 0x26];
    var none: seq<byte> := [];
    assert [0x41, 0x50, 0x53, 0x32, 2, 0xE5, 0x8E, 0x26, 2, 8, 1, 8, 5, 0x7F, 8, 0x7E] ==
           [0x41, 0x50, 0x53, 0x32] + [2] + [0xE5, 0x8E, 0x26] + [2] + [8] + none + none + none + [1] + [8] + [5] +
           [0x7F] + [8] + [0x7E];
  }

  /** One group that shares nothing. */
  function PlainPlan(xs: seq<Relocation>): seq<Group> {
    if xs == [] then [] else [Group(8, xs)]
  }

  lemma {:induction false} PlainAgrees(delta: int, xs: seq<Relocation>, at: Relocation)
    requires forall x :: x in xs ==> x.IsUnsigned64()
    ensures Agrees(8, delta, xs, at)
  {
    if xs != [] {
      assert xs[0] in xs;
      PlainAgrees(delta, xs[1..], xs[0]);
    }
  }

  /** Every list of 64-bit relocations has a plan, so only step sizes and the count limit what can be encoded. */
  lemma EveryListHasAPlan(base: int, xs: seq<Relocation>)
    requires forall x :: x in xs ==> x.IsUnsigned64()
    ensures Plannable(PlainPlan(xs), Relocation(base, 0, 0)) && Flatten(PlainPlan(xs)) == xs
  {
    if xs != [] {
      var g, at := PlainPlan(xs)[0], Relocation(base, 0, 0);
      PlainAgrees(FirstDelta(g, at), xs, Opened(g, at));
    }
  }

  lemma PopIfIgnoresTail(present: bool, s: seq<byte>, tail: seq<byte>, pos: nat)
    requires pos <= |s| && PopIf(present, s, pos).Ok?
    ensures PopIf(present, s + tail, pos) == PopIf(present, s, pos)
  {
    if present {
      PopIgnoresTail(s, tail, pos);
    }
  }

  lemma ReadHeaderIgnoresTail(s: seq<byte>, tail: seq<byte>, remaining: nat, c: Cursor)
    requires c.pos <= |s| && ReadHeader(s, remaining, c).Ok?
    ensures ReadHeader(s + tail, remaining, c) == ReadHeader(s, remaining, c)
  {
    hide Pop, FlagsOf;
    var size := Pop(s, c.pos).value;
    PopIgnoresTail(s, tail, c.pos);
    var word := Pop(s, size.next).value;
    PopIgnoresTail(s, tail, size.next);
    var f := FlagsOf(word.value);
    var delta := PopIf(f.byOffset, s, word.next).value;
    PopIfIgnoresTail(f.byOffset, s, tail, word.next);
    var info := PopIf(f.byInfo, s, delta.next).value;
    PopIfIgnoresTail(f.byInfo, s, tail, delta.next);
    PopIfIgnoresTail(f.SharedAddend(), s, tail, info.next);
  }

  lemma ReadEntryIgnoresTail(s: seq<byte>, tail: seq<byte>, g: OpenGroup, c: Cursor)
    requires c.pos <= |s| && ReadEntry(s, g, c).Ok?
    ensures ReadEntry(s + tail, g, c) == ReadEntry(s, g, c)
  {
    hide Pop;
    var delta := PopIf(!g.flags.byOffset, s, c.pos).value;
    PopIfIgnoresTail(!g.flags.byOffset, s, tail, c.pos);
    var info := PopIf(!g.flags.byInfo, s, delta.next).value;
    PopIfIgnoresTail(!g.flags.byInfo, s, tail, delta.next);
    PopIfIgnoresTail(g.flags.OwnAddend(), s, tail, info.next);
  }

  lemma {:induction false} ReadFromRejectsTail(s: seq<byte>, tail: seq<byte>, g: OpenGroup, remaining: nat, c: Cursor)
    requires c.pos <= |s| && g.left <= remaining && tail != []
    requires ReadFrom(s, g, remaining, c).Ok?
    ensures ReadFrom(s + tail, g, remaining, c) == Rejected
    decreases remaining, g.left == 0
  {
    hide ReadHeader, ReadEntry;
    if remaining == 0 {
    } else if g.left == 0 {
      ReadHeaderIgnoresTail(s, tail, remaining, c);
      var h := ReadHeader(s, remaining, c).value;
      ReadFromRejectsTail(s, tail, h.0, remaining, h.1);
    } else {
      ReadEntryIgnoresTail(s, tail, g, c);
      ReadFromRejectsTail(s, tail, g.(left := g.left - 1), remaining - 1, ReadEntry(s, g, c).value);
    }
  }

  /** Every byte counts: an accepted stream followed by anything is rejected. */
  lemma DecodeConsumesEverything(encoded: seq<byte>, tail: seq<byte>)
    ensures Decode(encoded).Ok? && tail != [] ==> Decode(encoded + tail) == Rejected
  {
    hide Pop, ReadFrom;
    if Decode(encoded).Ok? && tail != [] {
      var s := encoded[4..];
      assert (encoded + tail)[4..] == s + tail && MAGIC <= encoded + tail;
      var count := Pop(s, 0).value;
      PopIgnoresTail(s, tail, 0);
      var offset := Pop(s, count.next).value;
      PopIgnoresTail(s, tail, count.next);
      ReadFromRejectsTail(s, tail, OpenGroup(NO_FLAGS, 0, 0), count.value,
                          Cursor(offset.next, Relocation(offset.value, 0, 0)));
    }
  }
}
