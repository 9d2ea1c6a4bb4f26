/** Interposing on a guest vtable: patch, roll back and restore its slots behind page protection. */
module VtablePatch {

  const SLOT_BYTES := 8
  const ADDRESS_LIMIT := 0x1_0000_0000_0000_0000
  const FIRST_SLOT := 4
  const COUNT_SLOT := 5
  const INFO_SLOT := 6

  /** The two slot layouts a build profile can name. */
  datatype Layout = Version1 | Version2 {
    function Current(): nat { if Version2? then 8 else 7 }
    function Select(): nat { if Version2? then 19 else 17 }
    function Input(): seq<nat> { if Version2? then [9, 10, 12, 18] else [8, 9, 10, 16] }
    function Capture(): seq<nat> { if Version2? then [4, 13, 14, 15, 16, 17] else [4, 11, 12, 13, 14, 15] }
    function Output(): seq<nat> { [COUNT_SLOT, INFO_SLOT, Current(), Select()] }
  }

  /** The slots that a patch replaces, in the order it writes them. */
  function Slots(layout: Layout, withInput: bool): seq<nat> {
    if withInput then layout.Output() + layout.Input() + layout.Capture() else layout.Output()
  }

  ghost predicate Distinct(xs: seq<nat>) {
    forall i, j :: 0 <= i < j < |xs| ==> xs[i] != xs[j]
  }

  lemma DistinctConcat(xs: seq<nat>, ys: seq<nat>)
    requires Distinct(xs) && Distinct(ys) && forall x :: x in xs ==> x !in ys
    ensures Distinct(xs + ys)
  {
    forall i, j | 0 <= i < |xs| && 0 <= j < |ys|
      ensures xs[i] != ys[j]
    {
      assert xs[i] in xs;
    }
  }

  ghost predicate WithinSlots(xs: seq<nat>, last: nat) {
    forall k :: 0 <= k < |xs| ==> FIRST_SLOT <= xs[k] <= last
  }

  lemma OutputSlots(layout: Layout)
    ensures Distinct(layout.Output()) && WithinSlots(layout.Output(), layout.Select())
  {
  }

  lemma InputSlots(layout: Layout)
    ensures Distinct(layout.Input()) && WithinSlots(layout.Input(), layout.Select())
    ensures forall x :: x in layout.Output() ==> x !in layout.Input()
  {
  }

  lemma CaptureSlots(layout: Layout)
    ensures Distinct(layout.Capture()) && WithinSlots(layout.Capture(), layout.Select())
  {
  }

  lemma CaptureApartFromOutput(layout: Layout, x: nat)
    requires x in layout.Output()
    ensures x !in layout.Capture()
  {
  }

  lemma CaptureApartFromInput(layout: Layout, x: nat)
    requires x in layout.Input()
    ensures x !in layout.Capture()
  {
  }

  lemma SlotsAreDistinct(layout: Layout, withInput: bool)
    ensures Distinct(Slots(layout, withInput)) && WithinSlots(Slots(layout, withInput), layout.Select())
  {
    hide Layout.Output, Layout.Input, Layout.Capture, Layout.Select, Distinct;
    OutputSlots(layout);
    InputSlots(layout);
    CaptureSlots(layout);
    forall x | x in layout.Output() + layout.Input()
      ensures x !in layout.Capture()
    {
      if x in layout.Output() {
        CaptureApartFromOutput(layout, x);
      } else {
        CaptureApartFromInput(layout, x);
      }
    }
    DistinctConcat(layout.Output(), layout.Input());
    DistinctConcat(layout.Output() + layout.Input(), layout.Capture());
  }

  lemma OutputIs(layout: Layout, x: nat)
    ensures x in layout.Output() <==>
            x == 5 || x == 6 || if layout.Version1? then x == 7 || x == 17 else x == 8 || x == 19
  {
  }

  lemma InputIs(layout: Layout, x: nat)
    ensures x in layout.Input() <==>
            x == 9 || x == 10 || if layout.Version1? then x == 8 || x == 16 else x == 12 || x == 18
  {
  }

  lemma CaptureIs(layout: Layout, x: nat)
    ensures x in layout.Capture() <==> x == 4 || if layout.Version1? then 11 <= x <= 15 else 13 <= x <= 17
  {
  }

  /** With input, a patch replaces every slot from 4 to the last one; the second layout skips slots 7 and 11. */
  lemma SlotsCoverTable(layout: Layout, x: nat)
    ensures x in Slots(layout, true) <==> if layout.Version1? then 4 <= x <= 17 else 4 <= x <= 19 && x != 7 && x != 11
    ensures x in Slots(layout, false) <==>
            x == 5 || x == 6 || if layout.Version1? then x == 7 || x == 17 else x == 8 || x == 19
  {
    hide Layout.Output, Layout.Input, Layout.Capture;
    OutputIs(layout, x);
    InputIs(layout, x);
    CaptureIs(layout, x);
  }

  /** The page range `[begin, end)` that covers slots 4 to `select` of a table at `address`. */
  datatype Pages = Pages(begin: nat, end: nat)

  /** Nothing when the range would wrap around the address space. */
  function PageRange(address: nat, select: nat, pageSize: nat): (r: seq<Pages>)
    requires pageSize > 0
    ensures |r| <= 1
  {
    var first := address + FIRST_SLOT * SLOT_BYTES;
    var last := address + (select + 1) * SLOT_BYTES;
    if last <= first || last > ADDRESS_LIMIT - pageSize then []
    else [Pages(first - first % pageSize, (last + pageSize - 1) / pageSize * pageSize)]
  }

  /** There is a range exactly when the last slot ends at least a page before the end of the address space. */
  lemma PageRangeExists(address: nat, layout: Layout, pageSize: nat)
    requires pageSize > 0
    ensures PageRange(address, layout.Select(), pageSize) != [] <==>
            address + 8 * (if layout.Version1? then 18 else 20) + pageSize <= 0x1_0000_0000_0000_0000
  {
  }

  /** The range is whole pages, starts and ends within a page of the slots, and covers every one of them. */
  lemma PageRangeCoversSlots(address: nat, layout: Layout, pageSize: nat, slot: nat)
    requires pageSize > 0 && FIRST_SLOT <= slot <= layout.Select()
    requires PageRange(address, layout.Select(), pageSize) != []
    ensures var p := PageRange(address, layout.Select(), pageSize)[0];
            && p.begin % pageSize == 0 && p.end % pageSize == 0 && p.end < ADDRESS_LIMIT
            && p.begin <= address + slot * SLOT_BYTES
            && address + (slot + 1) * SLOT_BYTES <= p.end
            && address + FIRST_SLOT * SLOT_BYTES - p.begin < pageSize
            && p.end - (address + (layout.Select() + 1) * SLOT_BYTES) < pageSize
  {
    var first := address + FIRST_SLOT * SLOT_BYTES;
    var last := address + (layout.Select() + 1) * SLOT_BYTES;
    RoundDown(first, pageSize);
    RoundDown(last + pageSize - 1, pageSize);
  }

  lemma RoundDown(x: nat, m: nat)
    requires m > 0
    ensures x - x % m == x / m * m
    ensures (x / m * m) % m == 0
    ensures x / m * m <= x < x / m * m + m
  {
    assert x == x / m * m + x % m;
    Multiple(x / m, m);
  }

  lemma Multiple(q: nat, m: nat)
    requires m > 0
    ensures (q * m) % m == 0
  {
    var x := q * m;
    var d := x / m - q;
    assert x == (x / m) * m + x % m;
    assert (x / m) * m - q * m == d * m;
    assert d >= 1 ==> d * m >= m;
    assert d <= -1 ==> d * m <= -1 * m;
  }

  // ---------------------------------------------------------------- the writes

  /** The table after storing `values` in `slots`, first to last. */
  function Written(table: seq<nat>, slots: seq<nat>, values: seq<nat>): (r: seq<nat>)
    requires |values| >= |slots| && forall k :: 0 <= k < |slots| ==> slots[k] < |table|
    ensures |r| == |table|
    decreases slots
  {
    if slots == [] then table
    else Written(table[slots[0] := values[0]], slots[1..], values[1..])
  }

  function Read(table: seq<nat>, slots: seq<nat>): (r: seq<nat>)
    requires forall k :: 0 <= k < |slots| ==> slots[k] < |table|
    ensures |r| == |slots|
  {
    seq(|slots|, k requires 0 <= k < |slots| => table[slots[k]])
  }

  /** Storing into distinct slots sets exactly those slots. */
  lemma {:induction false} WrittenAt(table: seq<nat>, slots: seq<nat>, values: seq<nat>)
    requires |values| >= |slots| && Distinct(slots) && forall k :: 0 <= k < |slots| ==> slots[k] < |table|
    ensures forall k :: 0 <= k < |slots| ==> Written(table, slots, values)[slots[k]] == values[k]
    ensures forall i :: 0 <= i < |table| && i !in slots ==> Written(table, slots, values)[i] == table[i]
    decreases slots
  {
    if slots != [] {
      var rest, others := slots[1..], values[1..];
      var table' := table[slots[0] := values[0]];
      assert forall j :: 0 <= j < |rest| ==> rest[j] == slots[j + 1] != slots[0];
      WrittenAt(table', rest, others);
      var r := Written(table, slots, values);
      forall k | 0 <= k < |slots|
        ensures r[slots[k]] == values[k]
      {
        assert k > 0 ==> slots[k] == rest[k - 1] && values[k] == others[k - 1];
        assert k == 0 ==> slots[0] !in rest;
      }
    }
  }

  /** Writing back what the slots held undoes any set of writes to them. */
  lemma RestoreUndoesPatch(table: seq<nat>, slots: seq<nat>, values: seq<nat>)
    requires |values| >= |slots| && Distinct(slots) && forall k :: 0 <= k < |slots| ==> slots[k] < |table|
    ensures Written(Written(table, slots, values), slots, Read(table, slots)) == table
  {
    var patched := Written(table, slots, values);
    var restored := Written(patched, slots, Read(table, slots));
    WrittenAt(table, slots, values);
    WrittenAt(patched, slots, Read(table, slots));
    forall i | 0 <= i < |table|
      ensures restored[i] == table[i]
    {
      if i in slots {
        var k :| 0 <= k < |slots| && slots[k] == i;
        assert restored[slots[k]] == Read(table, slots)[k];
      }
    }
  }

  lemma {:induction false} WrittenAppend(table: seq<nat>, slots: seq<nat>, values: seq<nat>, n: nat)
    requires n < |slots| <= |values| && forall k :: 0 <= k < |slots| ==> slots[k] < |table|
    ensures Written(table, slots[..n + 1], values) == Written(table, slots[..n], values)[slots[n] := values[n]]
    decreases n
  {
    if n > 0 {
      WrittenAppend(table[slots[0] := values[0]], slots[1..], values[1..], n - 1);
      assert slots[..n + 1][1..] == slots[1..][..n];
      assert slots[..n][1..] == slots[1..][..n - 1];
    } else {
      assert slots[..1][1..] == [] && slots[..0] == [];
    }
  }

  // ---------------------------------------------------------------- the bridge

  /** What a build profile says, relative to the image base. */
  datatype Profile = Profile(layout: Layout, outputMethods: seq<nat>, inputMethods: seq<nat>) {
    predicate Valid() {
      |outputMethods| == 4 && |inputMethods| == 4
    }

    predicate HasInput()
      requires Valid()
    {
      inputMethods[0] != 0
    }
  }

  predicate SlotsHold(table: seq<nat>, slots: seq<nat>, base: nat, methods: seq<nat>)
    requires |slots| == |methods| && forall k :: 0 <= k < |slots| ==> slots[k] < |table|
  {
    forall k :: 0 <= k < |slots| ==> table[slots[k]] == base + methods[k]
  }

  /** The method is code of the image at `base`, and none of the input methods. */
  predicate IsCaptureCode(base: nat, executable: nat -> bool, inputMethods: seq<nat>, address: nat) {
    address >= base && executable(address - base) && address - base !in inputMethods
  }

  /** What the capture slots have to hold: methods of the image, no two the same. */
  ghost predicate CapturesMatch(base: nat, executable: nat -> bool, inputMethods: seq<nat>, methods: seq<nat>) {
    (forall i :: 0 <= i < |methods| ==> IsCaptureCode(base, executable, inputMethods, methods[i])) && Distinct(methods)
  }

  class Bridge {
    const profile: Profile
    const base: nat
    const address: nat
    const pageSize: nat
    const vtable: array<nat>
    var savedMethods: seq<nat>
    var savedCaptures: seq<nat>
    var active: bool
    /** Protection of the pages that hold the slots. */
    var writable: bool
    ghost var original: seq<nat>

    function AllSlots(): seq<nat>
      requires profile.Valid()
    {
      Slots(profile.layout, profile.HasInput())
    }

    ghost predicate Valid()
      reads this, vtable
    {
      && profile.Valid() && pageSize > 0
      && vtable.Length > profile.layout.Select()
      && (active ==>
            && |original| == vtable.Length && |savedMethods + savedCaptures| == |AllSlots()|
            && savedMethods + savedCaptures == Read(original, AllSlots())
            && forall i :: 0 <= i < vtable.Length && i !in AllSlots() ==> vtable[i] == original[i])
    }

    constructor (profile: Profile, base: nat, address: nat, pageSize: nat, vtable: array<nat>)
      requires profile.Valid() && pageSize > 0 && vtable.Length > profile.layout.Select()
      ensures Valid() && !active && !writable
      ensures this.profile == profile && this.base == base && this.address == address && this.vtable == vtable
    {
      this.profile, this.base, this.address := profile, base, address;
      this.pageSize, this.vtable := pageSize, vtable;
      savedMethods, savedCaptures, active, writable, original := [], [], false, false, [];
    }

    /** A slot can only be stored while its pages are writable. */
    method Store(slot: nat, value: nat)
      requires writable && FIRST_SLOT <= slot <= profile.layout.Select() < vtable.Length
      modifies vtable
      ensures vtable[..] == old(vtable[..])[slot := value]
    {
      vtable[slot] := value;
    }

    /** `granted` is what the protection call answers. */
    method SetVtableWritable(want: bool, granted: bool) returns (ok: bool)
      requires pageSize > 0
      modifies this`writable
      ensures ok == (PageRange(address, profile.layout.Select(), pageSize) != [] && granted)
      ensures writable == if ok then want else old(writable)
    {
      ok := PageRange(address, profile.layout.Select(), pageSize) != [] && granted;
      if ok {
        writable := want;
      }
    }

    method StoreAll(slots: seq<nat>, values: seq<nat>)
      requires writable && profile.layout.Select() < vtable.Length && |values| >= |slots|
      requires forall k :: 0 <= k < |slots| ==> FIRST_SLOT <= slots[k] <= profile.layout.Select()
      modifies vtable
      ensures vtable[..] == Written(old(vtable[..]), slots, values)
    {
      for k := 0 to |slots|
        invariant vtable[..] == Written(old(vtable[..]), slots[..k], values)
      {
        WrittenAppend(old(vtable[..]), slots, values, k);
        Store(slots[k], values[k]);
      }
      assert slots[..|slots|] == slots;
    }

    /** Captured methods must be image code, differ from the input methods and from each other. */
    method CheckCaptures(executable: nat -> bool) returns (ok: bool)
      requires profile.Valid() && vtable.Length > profile.layout.Select()
      modifies this`savedCaptures
      ensures ok <==> CapturesMatch(base, executable, profile.inputMethods, Read(vtable[..], profile.layout.Capture()))
      ensures ok ==> savedCaptures == Read(vtable[..], profile.layout.Capture())
    {
      var slots := profile.layout.Capture();
      savedCaptures := [];
      for i := 0 to |slots|
        invariant savedCaptures == Read(vtable[..], slots)[..i]
        invariant CapturesMatch(base, executable, profile.inputMethods, savedCaptures)
      {
        var method' := vtable[slots[i]];
        assert Read(vtable[..], slots)[i] == method';
        if !IsCaptureCode(base, executable, profile.inputMethods, method') || method' in savedCaptures {
          return false;
        }
        savedCaptures := savedCaptures + [method'];
      }
      return true;
    }

    /** The table is the one the profile describes. */
    ghost predicate Matches(image: bool, executable: nat -> bool)
      requires profile.Valid() && vtable.Length > profile.layout.Select()
      reads vtable
    {
      && image && SlotsHold(vtable[..], profile.layout.Output(), base, profile.outputMethods)
      && (profile.HasInput() ==>
            && 0 !in profile.inputMethods
            && SlotsHold(vtable[..], profile.layout.Input(), base, profile.inputMethods)
            && CapturesMatch(base, executable, profile.inputMethods, Read(vtable[..], profile.layout.Capture())))
    }

    /** Checks the image against the profile and saves the methods about to be replaced. */
    method CheckAndSave(image: bool, executable: nat -> bool) returns (ok: bool)
      requires Valid() && !active
      modifies this`savedMethods, this`savedCaptures
      ensures Valid() && (ok <==> Matches(image, executable))
      ensures ok ==> savedMethods + savedCaptures == Read(vtable[..], AllSlots())
    {
      var layout, withInput := profile.layout, profile.HasInput();
      if !image || !SlotsHold(vtable[..], layout.Output(), base, profile.outputMethods) ||
         (withInput && (0 in profile.inputMethods ||
                        !SlotsHold(vtable[..], layout.Input(), base, profile.inputMethods)))
      {
        return false;
      }
      savedCaptures := [];
      if withInput {
        var accepted := CheckCaptures(executable);
        if !accepted {
          return false;
        }
      }
      savedMethods := Read(vtable[..], layout.Output() + if withInput then layout.Input() else []);
      return true;
    }

    /**
     * `image` stands for the range checks on the ELF headers; `unlock` and `relock` are the answers
     * of the two protection calls and `retry` that of the last one on the failure path.
     */
    method Patch(image: bool, executable: nat -> bool, hooks: seq<nat>, unlock: bool, relock: bool, retry: bool)
      returns (ok: bool)
      requires Valid() && !active && |hooks| == |AllSlots()|
      modifies this, vtable
      ensures Valid() && active == ok
      ensures ok <==>
                && old(Matches(image, executable))
                && PageRange(address, profile.layout.Select(), pageSize) != [] && unlock && relock
      ensures ok ==> original == old(vtable[..]) && !writable
      ensures ok ==> forall k :: 0 <= k < |AllSlots()| ==> vtable[AllSlots()[k]] == hooks[k]
      ensures !ok ==> vtable[..] == old(vtable[..])
    {
      hide PageRange, Slots, Written;
      SlotsAreDistinct(profile.layout, profile.HasInput());
      ok := CheckAndSave(image, executable);
      if !ok {
        return;
      }
      ghost var before := vtable[..];
      var slots, saved := AllSlots(), savedMethods + savedCaptures;
      ok := SetVtableWritable(true, unlock);
      if !ok {
        return;
      }
      StoreAll(slots, hooks);
      ok := SetVtableWritable(false, relock);
      if !ok {
        StoreAll(slots, saved);
        RestoreUndoesPatch(before, slots, hooks);
        var _ := SetVtableWritable(false, retry);
        return;
      }
      WrittenAt(before, slots, hooks);
      assert forall i :: 0 <= i < vtable.Length ==> vtable[i] == vtable[..][i];
      original, active := before, true;
    }

    /** Puts every slot back; only a refused unlock leaves the hooks in place. */
    method Restore(unlock: bool, relock: bool) returns (ok: bool)
      requires Valid() && active
      modifies this`writable, vtable
      ensures ok <==> PageRange(address, profile.layout.Select(), pageSize) != [] && unlock && relock
      ensures ok ==> vtable[..] == original && !writable
      ensures !ok ==> vtable[..] == original || vtable[..] == old(vtable[..])
      ensures PageRange(address, profile.layout.Select(), pageSize) != [] && unlock ==> vtable[..] == original
    {
      hide PageRange, Slots, Written;
      SlotsAreDistinct(profile.layout, profile.HasInput());
      ok := SetVtableWritable(true, unlock);
      if !ok {
        return;
      }
      ghost var before := vtable[..];
      StoreAll(AllSlots(), savedMethods + savedCaptures);
      WrittenAt(before, AllSlots(), savedMethods + savedCaptures);
      assert vtable[..] == original by {
        forall i | 0 <= i < |original|
          ensures vtable[..][i] == original[i]
        {
          if i in AllSlots() {
            var k :| 0 <= k < |AllSlots()| && AllSlots()[k] == i;
            assert vtable[..][AllSlots()[k]] == Read(original, AllSlots())[k];
          }
        }
      }
      ok := SetVtableWritable(false, relock);
    }
  }
}
