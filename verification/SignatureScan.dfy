/** The masked code-signature search, driven by its longest run of fixed bytes. */
module SignatureScan {
  import opened Outcomes
  import opened Sleb128
  import opened ElfImage

  /** Bytes `lo` up to `hi` of the signature are all compared. */
  ghost predicate FixedRun(mask: seq<byte>, lo: int, hi: int) {
    0 <= lo <= hi <= |mask| && forall i :: lo <= i < hi ==> mask[i] != 0
  }

  /** The run from `lo` has length `n`, none is longer, and none as long starts earlier. */
  ghost predicate LeftmostLongest(mask: seq<byte>, lo: int, n: nat) {
    && FixedRun(mask, lo, lo + n)
    && forall l, h :: FixedRun(mask, l, h) ==> h - l < n || (h - l == n && (n > 0 ==> l >= lo))
  }

  method LongestFixedAnchor(encoded: seq<byte>, mask: seq<byte>, minimum: int) returns (r: Outcome<(nat, seq<byte>)>)
    requires |encoded| == |mask|
    ensures r.Ok? ==>
              var (at, anchor) := r.value;
              && |anchor| > 0 && LeftmostLongest(mask, at, |anchor|)
              && anchor == encoded[at..at + |anchor|] && |anchor| >= minimum
    ensures r.Rejected? ==> forall l, h :: FixedRun(mask, l, h) ==> h == l || h - l < minimum
  {
    var bestAt, best: seq<byte>, start := -1, [], -1;
    for index := 0 to |mask| + 1
      invariant -1 <= start < |mask| && start <= index
      invariant start >= 0 ==> start < index <= |mask| && FixedRun(mask, start, index)
      invariant start >= 0 ==> start == 0 || mask[start - 1] == 0
      invariant start < 0 ==> index == 0 || index == |mask| + 1 || mask[index - 1] == 0
      invariant bestAt < 0 <==> best == []
      invariant bestAt >= 0 ==> bestAt + |best| <= |mask| && best == encoded[bestAt..bestAt + |best|]
      invariant bestAt >= 0 ==> FixedRun(mask, bestAt, bestAt + |best|)
      invariant bestAt < (if start >= 0 then start else index)
      invariant forall l, h :: FixedRun(mask, l, h) && h <= (if start >= 0 then start else index) ==>
                  h - l < |best| || (h - l == |best| && (best != [] ==> l >= bestAt))
    {
      var enabled := index < |mask| && mask[index] != 0;
      if enabled && start < 0 {
        start := index;
      } else if !enabled && start >= 0 {
        if index - start > |best| {
          bestAt, best := start, encoded[start..index];
        }
        start := -1;
      }
    }
    if bestAt < 0 || |best| < minimum {
      return Rejected;
    }
    return Ok((bestAt, best));
  }

  predicate Occurs(data: seq<byte>, pattern: seq<byte>, at: int) {
    0 <= at && at + |pattern| <= |data| && data[at..at + |pattern|] == pattern
  }

  /** First occurrence that starts at or after `from` and ends by `end`, or -1. */
  method FindBytes(data: seq<byte>, pattern: seq<byte>, from: nat, end: nat) returns (at: int)
    requires end <= |data|
    ensures at >= 0 ==> from <= at && at + |pattern| <= end && Occurs(data, pattern, at)
    ensures forall i :: from <= i && i + |pattern| <= end && Occurs(data, pattern, i) ==> 0 <= at <= i
    ensures at >= -1
  {
    at := from;
    while at + |pattern| <= end
      invariant from <= at
      invariant forall i :: from <= i < at && i + |pattern| <= end ==> !Occurs(data, pattern, i)
      decreases end - at
    {
      if data[at..at + |pattern|] == pattern {
        return;
      }
      at := at + 1;
    }
    at := -1;
  }

  /** The candidate image: its bytes, its segments and where `.text` sits in both. */
  datatype Candidate = Candidate(
    data: seq<byte>, segments: seq<Segment>, textOffset: nat, textAddress: nat, textSize: nat) {

    ghost predicate Valid() {
      textOffset + textSize <= |data|
    }

    function TextEnd(): nat {
      textOffset + textSize
    }
  }

  predicate MaskedEqual(data: seq<byte>, at: nat, encoded: seq<byte>, mask: seq<byte>)
    requires |encoded| == |mask| && at + |encoded| <= |data|
  {
    forall i :: 0 <= i < |encoded| ==> mask[i] == 0 || data[at + i] == encoded[i]
  }

  predicate InExecutable(c: Candidate, at: int, size: nat) {
    var found := SegmentFor(c.segments, c.textAddress + at - c.textOffset, size);
    found != [] && found[0].Executable() && !found[0].Writable()
  }

  /** The brute-force definition: inside `.text`, equal where the mask says so, and executable. */
  predicate IsMatch(c: Candidate, encoded: seq<byte>, mask: seq<byte>, at: int)
    requires c.Valid() && |encoded| == |mask|
  {
    && c.textOffset <= at && at + |encoded| <= c.TextEnd()
    && MaskedEqual(c.data, at, encoded, mask)
    && InExecutable(c, at, |encoded|)
  }

  lemma MatchContainsAnchor(c: Candidate, encoded: seq<byte>, mask: seq<byte>, lo: nat, n: nat, at: int)
    requires c.Valid() && |encoded| == |mask| && FixedRun(mask, lo, lo + n)
    requires IsMatch(c, encoded, mask, at)
    ensures at + lo + n <= c.TextEnd() && Occurs(c.data, encoded[lo..lo + n], at + lo)
  {
    var slice := c.data[at + lo..at + lo + n];
    forall i | 0 <= i < n
      ensures slice[i] == encoded[lo..lo + n][i]
    {
      assert mask[lo + i] != 0;
      assert c.data[at + (lo + i)] == encoded[lo + i];
    }
    assert slice == encoded[lo..lo + n];
  }

  /** Where a match is: the one segment that maps all of it is executable and not writable. */
  ghost predicate OnlyExecutable(segments: seq<Segment>, i: nat, rva: int, size: nat) {
    OnlyMaps(segments, i, rva, size) && segments[i].flags % 4 == 1
  }

  ghost predicate InCode(segments: seq<Segment>, rva: int, size: nat) {
    exists i: nat :: OnlyExecutable(segments, i, rva, size)
  }

  lemma ExecutableIsUnique(c: Candidate, at: int, size: nat)
    ensures InExecutable(c, at, size) <==>
            InCode(c.segments, c.textAddress + at - c.textOffset, size)
  {
    var rva := c.textAddress + at - c.textOffset;
    if SegmentFor(c.segments, rva, size) != [] {
      var i := SegmentForFound(c.segments, rva, size);
      SegmentForIsUnique(c.segments, rva, size, i);
      hide SegmentFor, OnlyMaps;
      FlagBits(c.segments[i].flags);
      if InExecutable(c, at, size) {
        assert OnlyExecutable(c.segments, i, rva, size);
      }
      if k: nat :| OnlyExecutable(c.segments, k, rva, size) {
        SegmentForIsUnique(c.segments, rva, size, k);
        FlagBits(c.segments[k].flags);
      }
    } else if k: nat :| OnlyExecutable(c.segments, k, rva, size) {
      SegmentForIsUnique(c.segments, rva, size, k);
      assert false;
    }
  }

  /**
   * A copy of the fixed bytes inside `.text`, in code, is a match whatever the bytes under the wildcards
   * hold, and nothing else is one.
   */
  lemma MatchIsFixedBytes(c: Candidate, encoded: seq<byte>, mask: seq<byte>, at: int)
    requires c.Valid() && |encoded| == |mask|
    ensures IsMatch(c, encoded, mask, at) <==>
            && c.textOffset <= at && at + |encoded| <= c.textOffset + c.textSize
            && (forall i :: 0 <= i < |encoded| && mask[i] != 0 ==> c.data[at + i] == encoded[i])
            && InCode(c.segments, c.textAddress + at - c.textOffset, |encoded|)
  {
    hide OnlyExecutable, InExecutable;
    ExecutableIsUnique(c, at, |encoded|);
  }

  /** Changing bytes under the wildcards of a match, or outside it, leaves it a match. */
  lemma WildcardsAreFree(c: Candidate, data: seq<byte>, encoded: seq<byte>, mask: seq<byte>, at: int)
    requires c.Valid() && |encoded| == |mask| && IsMatch(c, encoded, mask, at) && |data| == |c.data|
    requires forall i :: 0 <= i < |encoded| && mask[i] != 0 ==> data[at + i] == c.data[at + i]
    ensures IsMatch(c.(data := data), encoded, mask, at)
  {
    hide OnlyExecutable;
    MatchIsFixedBytes(c, encoded, mask, at);
    MatchIsFixedBytes(c.(data := data), encoded, mask, at);
  }

  /** Visiting anchor occurrences finds every offset that brute force accepts, once and in order. */
  method FindSignature(c: Candidate, encoded: seq<byte>, mask: seq<byte>, minimum: int) returns (r: Outcome<seq<int>>)
    requires c.Valid() && |encoded| == |mask|
    ensures r.Ok? ==> r.value != [] && Increasing(r.value)
    ensures r.Ok? ==> forall at :: at in r.value <==> IsMatch(c, encoded, mask, at)
    ensures r.Ok? ==> exists l, h :: FixedRun(mask, l, h) && h > l && h - l >= minimum
    ensures r.Rejected? ==> (forall at :: !IsMatch(c, encoded, mask, at)) ||
                            (forall l, h :: FixedRun(mask, l, h) ==> h == l || h - l < minimum)
  {
    hide SegmentFor;
    var found :- LongestFixedAnchor(encoded, mask, minimum);
    var (anchorAt, anchor) := found;
    var matches: seq<int> := [];
    var search := c.textOffset;
    while true
      invariant c.textOffset <= search
      invariant Increasing(matches)
      invariant forall i :: 0 <= i < |matches| ==> matches[i] + anchorAt < search
      invariant forall at :: at in matches <==> IsMatch(c, encoded, mask, at) && at + anchorAt < search
      decreases c.TextEnd() - search
    {
      var at := FindBytes(c.data, anchor, search, c.TextEnd());
      forall m | IsMatch(c, encoded, mask, m) && search <= m + anchorAt
        ensures 0 <= at <= m + anchorAt
      {
        MatchContainsAnchor(c, encoded, mask, anchorAt, |anchor|, m);
      }
      if at < 0 {
        break;
      }
      var offset := at - anchorAt;
      if IsMatch(c, encoded, mask, offset) {
        matches := matches + [offset];
      }
      search := at + 1;
    }
    return if matches == [] then Rejected else Ok(matches);
  }
}
