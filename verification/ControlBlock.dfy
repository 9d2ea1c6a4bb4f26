/**
 * The guest's shared-pointer control block. The stored counts are one less than the number of
 * owners, and all strong owners together hold one weak ownership. Releases of several threads
 * interleave at every atomic operation.
 */
module ControlBlock {

  /**
   * `shared` and `weak` are the stored words. `strong` and `weakRefs` count the references that
   * exist; `firing`, `loading` and `subtracting` count threads inside a release: before the
   * on-zero-shared hook, before the load of `weak`, and before its decrement. `zeroShared` and
   * `zeroWeak` count the hook calls made.
   */
  datatype Control = Control(
    shared: int, weak: int,
    strong: nat, weakRefs: nat,
    firing: nat, loading: nat, subtracting: nat,
    zeroShared: nat, zeroWeak: nat) {

    /** Everything that still holds a weak ownership. */
    function WeakOwners(): nat {
      weakRefs + loading + subtracting + (if strong > 0 || firing > 0 then 1 else 0)
    }

    ghost predicate Valid() {
      && shared == strong - 1
      && firing + zeroShared == (if strong == 0 then 1 else 0)
      && zeroWeak == (if WeakOwners() == 0 then 1 else 0)
      && (WeakOwners() > 0 ==> weak == WeakOwners() - 1)
    }
  }

  datatype Step = CopyStrong | DropStrong | FireShared | CopyWeak | DropWeak | LoadWeak | SubtractWeak

  predicate Enabled(c: Control, s: Step) {
    match s
    case CopyStrong => c.strong > 0
    case DropStrong => c.strong > 0
    case FireShared => c.firing > 0
    case CopyWeak => c.strong > 0 || c.weakRefs > 0
    case DropWeak => c.weakRefs > 0
    case LoadWeak => c.loading > 0
    case SubtractWeak => c.subtracting > 0
  }

  function Apply(c: Control, s: Step): Control
    requires Enabled(c, s)
  {
    match s
    case CopyStrong => c.(shared := c.shared + 1, strong := c.strong + 1)
    case DropStrong =>
      var c' := c.(shared := c.shared - 1, strong := c.strong - 1);
      if c.shared != 0 then c' else c'.(firing := c.firing + 1)
    case FireShared => c.(firing := c.firing - 1, zeroShared := c.zeroShared + 1, loading := c.loading + 1)
    case CopyWeak => c.(weak := c.weak + 1, weakRefs := c.weakRefs + 1)
    case DropWeak => c.(weakRefs := c.weakRefs - 1, loading := c.loading + 1)
    case LoadWeak =>
      var c' := c.(loading := c.loading - 1);
      if c.weak == 0 then c'.(zeroWeak := c.zeroWeak + 1) else c'.(subtracting := c.subtracting + 1)
    case SubtractWeak =>
      var c' := c.(subtracting := c.subtracting - 1, weak := c.weak - 1);
      if c.weak == 0 then c'.(zeroWeak := c.zeroWeak + 1) else c'
  }

  ghost predicate IsRun(c: Control, steps: seq<Step>, end: Control)
    decreases |steps|
  {
    if steps == [] then c == end
    else Enabled(c, steps[0]) && IsRun(Apply(c, steps[0]), steps[1..], end)
  }

  /**
   * In every run of copies and releases from any number of threads, the shared hook has fired just
   * when no strong owner is left and its last release got that far, the weak hook just when no owner
   * of any kind is left, and neither ever fires twice.
   */
  lemma {:induction false} HooksFireExactlyOnce(c: Control, steps: seq<Step>, end: Control)
    requires c.Valid() && IsRun(c, steps, end)
    ensures end.Valid()
    ensures end.zeroShared == (if end.strong == 0 && end.firing == 0 then 1 else 0)
    ensures end.zeroWeak == (if end.WeakOwners() == 0 then 1 else 0)
    ensures end.zeroWeak == 1 ==> end.zeroShared == 1
    decreases |steps|
  {
    if steps != [] {
      HooksFireExactlyOnce(Apply(c, steps[0]), steps[1..], end);
    }
  }

  /** Once the weak hook has freed the block, no operation on it is possible. */
  lemma FreedBlockIsQuiet(c: Control, s: Step)
    requires c.Valid() && c.zeroWeak > 0
    ensures !Enabled(c, s)
  {
  }

  /** The release routine, run without interference. */
  function Release(c: Control): Control
    requires c.strong > 0
  {
    var c' := Apply(c, DropStrong);
    if c.shared != 0 then c' else
    var c'' := Apply(c', FireShared);
    if c''.weak == 0 then Apply(c'', LoadWeak) else Apply(Apply(c'', LoadWeak), SubtractWeak)
  }

  lemma ReleaseDropsOneOwner(c: Control)
    requires c.Valid() && c.strong > 0
    ensures Release(c).Valid() && Release(c).strong == c.strong - 1 && Release(c).weakRefs == c.weakRefs
    ensures c.strong > 1 ==> Release(c).zeroShared == c.zeroShared && Release(c).zeroWeak == c.zeroWeak
    ensures c.strong == 1 ==> Release(c).zeroShared == 1
    ensures c.strong == 1 && c.WeakOwners() == 1 ==> Release(c).zeroWeak == 1
  {
  }
}
