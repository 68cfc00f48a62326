// The header rules: past median time, retarget windows and seeds
// (protocol/state/blockindex.go, protocol/validation/block.go).
module HeaderRules {
  import opened Wrappers
  import opened Bc
  import opened Difficulty
  import opened BlockTree

  const MEDIAN_TIME_BLOCKS := 11
  const MAX_TIME_OFFSET_SECONDS := 3600

  // ------------------------------------------------------------------ medians

  /** How many values lie below a bound; the counts for all bounds determine a sequence up to order. */
  function Below(s: seq<nat>, bound: nat): nat {
    if s == [] then 0 else (if s[|s| - 1] < bound then 1 else 0) + Below(s[..|s| - 1], bound)
  }

  predicate Ascending(s: seq<nat>) {
    forall i, j :: 0 <= i < j < |s| ==> s[i] <= s[j]
  }

  /** The value of middle rank: at most half of the values lie below it, more than half up to it. */
  predicate IsMedian(s: seq<nat>, m: nat) {
    Below(s, m) <= |s| / 2 < Below(s, m + 1)
  }

  lemma {:induction false} BelowConcat(a: seq<nat>, b: seq<nat>, bound: nat)
    ensures Below(a + b, bound) == Below(a, bound) + Below(b, bound)
  {
    if b == [] {
      assert a + b == a;
    } else {
      BelowConcat(a, b[..|b| - 1], bound);
      assert (a + b)[..|a + b| - 1] == a + b[..|b| - 1];
    }
  }

  lemma {:induction false} BelowMonotone(s: seq<nat>, a: nat, b: nat)
    requires a <= b
    ensures Below(s, a) <= Below(s, b) <= |s|
  {
    if s != [] {
      BelowMonotone(s[..|s| - 1], a, b);
    }
  }

  lemma BelowOne(x: nat, bound: nat)
    ensures Below([x], bound) == if x < bound then 1 else 0
  {
    assert [x][..0] == [];
  }

  lemma {:induction false} BelowAll(s: seq<nat>, bound: nat)
    ensures (forall i :: 0 <= i < |s| ==> s[i] < bound) ==> Below(s, bound) == |s|
    ensures (forall i :: 0 <= i < |s| ==> s[i] >= bound) ==> Below(s, bound) == 0
  {
    if s != [] {
      BelowAll(s[..|s| - 1], bound);
    }
  }

  lemma FewBelowMiddle(s: seq<nat>, k: nat)
    requires k < |s| && Ascending(s)
    ensures Below(s, s[k]) <= k
  {
    assert s == s[..k] + s[k..];
    BelowConcat(s[..k], s[k..], s[k]);
    BelowAll(s[k..], s[k]);
    BelowMonotone(s[..k], s[k], s[k]);
  }

  lemma ManyUpToMiddle(s: seq<nat>, k: nat)
    requires k < |s| && Ascending(s)
    ensures k < Below(s, s[k] + 1)
  {
    hide Below;
    assert s == s[..k + 1] + s[k + 1..];
    BelowConcat(s[..k + 1], s[k + 1..], s[k] + 1);
    BelowAll(s[..k + 1], s[k] + 1);
  }

  /** In an ascending sequence the middle element has middle rank. */
  lemma MiddleIsMedian(s: seq<nat>)
    requires s != [] && Ascending(s)
    ensures IsMedian(s, s[|s| / 2])
  {
    FewBelowMiddle(s, |s| / 2);
    ManyUpToMiddle(s, |s| / 2);
  }

  lemma MedianUnique(s: seq<nat>, m: nat, n: nat)
    requires IsMedian(s, m) && IsMedian(s, n)
    ensures m == n
  {
    if m < n {
      BelowMonotone(s, m + 1, n);
    } else if n < m {
      BelowMonotone(s, n + 1, m);
    }
  }

  /** sort.Sort on the timestamps: ascending, with the same values. */
  method SortTimes(s: seq<nat>) returns (r: seq<nat>)
    ensures Ascending(r) && |r| == |s|
    ensures forall bound: nat :: Below(r, bound) == Below(s, bound)
  {
    hide Below;
    r := [];
    for i := 0 to |s|
      invariant Ascending(r) && |r| == i
      invariant forall bound: nat :: Below(r, bound) == Below(s[..i], bound)
    {
      ghost var done := r;
      r := InsertTime(r, s[i]);
      forall bound: nat
        ensures Below(r, bound) == Below(s[..i + 1], bound)
      {
        assert s[..i + 1] == s[..i] + [s[i]];
        BelowConcat(s[..i], [s[i]], bound);
        BelowConcat(done, [s[i]], bound);
      }
    }
    assert s[..|s|] == s;
  }

  method InsertTime(s: seq<nat>, x: nat) returns (r: seq<nat>)
    requires Ascending(s)
    ensures Ascending(r) && |r| == |s| + 1
    ensures forall bound: nat :: Below(r, bound) == Below(s + [x], bound)
  {
    hide Below;
    var k := |s|;
    while k > 0 && s[k - 1] > x
      invariant 0 <= k <= |s|
      invariant forall i :: k <= i < |s| ==> s[i] > x
    {
      k := k - 1;
    }
    r := s[..k] + [x] + s[k..];
    forall bound: nat
      ensures Below(r, bound) == Below(s + [x], bound)
    {
      InsertCounts(s, k, x, bound);
    }
  }

  lemma InsertCounts(s: seq<nat>, k: nat, x: nat, bound: nat)
    requires k <= |s|
    ensures Below(s[..k] + [x] + s[k..], bound) == Below(s + [x], bound)
  {
    hide Below;
    BelowConcat(s[..k] + [x], s[k..], bound);
    BelowConcat(s[..k], [x], bound);
    BelowConcat(s[..k], s[k..], bound);
    assert s == s[..k] + s[k..];
    BelowConcat(s, [x], bound);
  }

  /** The timestamps of the last n blocks, newest first. */
  function Window(node: Option<BlockNode>, n: nat): seq<nat> {
    if n == 0 || node.None? then [] else [node.value.timestamp] + Window(node.value.parent, n - 1)
  }

  lemma {:induction false} WindowNonempty(node: BlockNode, n: nat)
    requires n > 0
    ensures 0 < |Window(Some(node), n)| <= n
  {
    if n > 1 && node.parent.Some? {
      WindowNonempty(node.parent.value, n - 1);
    }
  }

  /** The window holds the timestamps of the end of the chain. */
  lemma {:induction false} WindowOnPath(node: BlockNode, n: nat)
    ensures var w, p := Window(Some(node), n), Path(node);
            && |w| == (if n < |p| then n else |p|)
            && forall i :: 0 <= i < |w| ==> w[i] == p[|p| - 1 - i].timestamp
  {
    if n > 0 && node.parent.Some? {
      WindowOnPath(node.parent.value, n - 1);
    } else if n > 0 {
      assert Window(None, n - 1) == [];
    }
  }

  lemma SameCountsSameMedian(s: seq<nat>, r: seq<nat>, m: nat)
    requires |s| == |r| && (forall bound: nat :: Below(r, bound) == Below(s, bound)) && IsMedian(r, m)
    ensures IsMedian(s, m)
  {
  }

  method CalcPastMedianTime(node: BlockNode) returns (m: nat)
    ensures IsMedian(Window(Some(node), MEDIAN_TIME_BLOCKS), m)
  {
    var timestamps := [];
    var iterNode := Some(node);
    var i := 0;
    while i < MEDIAN_TIME_BLOCKS && iterNode.Some?
      invariant 0 <= i <= MEDIAN_TIME_BLOCKS
      invariant timestamps + Window(iterNode, MEDIAN_TIME_BLOCKS - i) == Window(Some(node), MEDIAN_TIME_BLOCKS)
    {
      timestamps := timestamps + [iterNode.value.timestamp];
      iterNode := iterNode.value.parent;
      i := i + 1;
    }
    assert timestamps == Window(Some(node), MEDIAN_TIME_BLOCKS);
    WindowNonempty(node, MEDIAN_TIME_BLOCKS);
    var sorted := SortTimes(timestamps);
    MiddleIsMedian(sorted);
    m := sorted[|sorted| / 2];
    SameCountsSameMedian(timestamps, sorted, m);
  }

  // ---------------------------------------------------------- retarget windows

  /** The nearest ancestor (or the node itself) whose height is a multiple of the window. */
  function WindowStart(node: BlockNode): Option<BlockNode> {
    if node.height % BLOCKS_PER_RETARGET == 0 then Some(node)
    else if node.parent.None? then None
    else WindowStart(node.parent.value)
  }

  lemma {:induction false} WindowStartExists(node: BlockNode)
    requires WellFormed(node)
    ensures WindowStart(node).Some?
    ensures WindowStart(node).value.height == node.height - node.height % BLOCKS_PER_RETARGET
  {
    if node.parent.Some? && node.height % BLOCKS_PER_RETARGET != 0 {
      WindowStartExists(node.parent.value);
    }
  }

  function NextBits(node: BlockNode): nat
    requires WellFormed(node)
  {
    if node.height % BLOCKS_PER_RETARGET != 0 || node.height == 0 then node.bits
    else
      WindowStartExists(node.parent.value);
      RetargetBits(node.bits, node.timestamp, WindowStart(node.parent.value).value.timestamp)
  }

  method CalcNextBits(node: BlockNode) returns (bits: nat)
    requires WellFormed(node)
    ensures bits == NextBits(node)
  {
    if node.height % BLOCKS_PER_RETARGET != 0 || node.height == 0 {
      return node.bits;
    }
    var compareNode := node.parent.value;
    while compareNode.height % BLOCKS_PER_RETARGET != 0
      invariant WellFormed(compareNode)
      invariant WindowStart(compareNode) == WindowStart(node.parent.value)
      decreases compareNode
    {
      compareNode := compareNode.parent.value;
    }
    return RetargetBits(node.bits, node.timestamp, compareNode.timestamp);
  }

  // ------------------------------------------------------------ header checks

  datatype HeaderError = VersionRegression | MisorderedHeight | BadBits | MismatchedBlock | BadTimestamp | WorkProof

  /** What the check reads from outside: the clock and the proof of work of (hash, seed, bits). */
  datatype Outside = Outside(now: nat, proofOfWork: (Hash, Hash, nat) -> bool)

  method ValidateBlockHeader(h: Header, parent: BlockNode, env: Outside) returns (err: Option<HeaderError>)
    requires WellFormed(parent)
    ensures err.None? <==> HeaderOk(h, parent, env)
    ensures err == Some(VersionRegression) <==> h.version < parent.version
    ensures err == Some(MisorderedHeight) <==> h.version >= parent.version && h.height != parent.height + 1
    ensures err == Some(BadBits) <==>
            h.version >= parent.version && h.height == parent.height + 1 && h.bits != NextBits(parent)
    ensures err == Some(MismatchedBlock) <==>
            h.version >= parent.version && h.height == parent.height + 1 && h.bits == NextBits(parent)
            && h.previous != parent.hash
    ensures err == Some(BadTimestamp) <==> Linked(h, parent) && !TimeOk(h, parent, env)
    ensures err == Some(WorkProof) <==>
            Linked(h, parent) && TimeOk(h, parent, env) && !env.proofOfWork(h.hash, CalcNextSeed(parent), h.bits)
  {
    if h.version < parent.version {
      return Some(VersionRegression);
    }
    if h.height != parent.height + 1 {
      return Some(MisorderedHeight);
    }
    var bits := CalcNextBits(parent);
    if h.bits != bits {
      return Some(BadBits);
    }
    if parent.hash != h.previous {
      return Some(MismatchedBlock);
    }
    if h.timestamp > env.now + MAX_TIME_OFFSET_SECONDS {
      return Some(BadTimestamp);
    }
    var median := CalcPastMedianTime(parent);
    forall m | IsMedian(Window(Some(parent), MEDIAN_TIME_BLOCKS), m)
      ensures m == median
    {
      MedianUnique(Window(Some(parent), MEDIAN_TIME_BLOCKS), m, median);
    }
    if h.timestamp <= median {
      return Some(BadTimestamp);
    }
    if !env.proofOfWork(h.hash, CalcNextSeed(parent), h.bits) {
      return Some(WorkProof);
    }
    return None;
  }

  /** The header continues the chain at its parent. */
  ghost predicate Linked(h: Header, parent: BlockNode)
    requires WellFormed(parent)
  {
    && h.version >= parent.version && h.height == parent.height + 1 && h.previous == parent.hash
    && h.bits == NextBits(parent)
  }

  /** The timestamp is not too far ahead of the clock and later than the median of the blocks before. */
  ghost predicate TimeOk(h: Header, parent: BlockNode, env: Outside) {
    && h.timestamp <= env.now + MAX_TIME_OFFSET_SECONDS
    && forall m :: IsMedian(Window(Some(parent), MEDIAN_TIME_BLOCKS), m) ==> h.timestamp > m
  }

  ghost predicate HeaderOk(h: Header, parent: BlockNode, env: Outside)
    requires WellFormed(parent)
  {
    && Follows(h, parent)
    && h.timestamp <= env.now + MAX_TIME_OFFSET_SECONDS
    && env.proofOfWork(h.hash, CalcNextSeed(parent), h.bits)
  }

  /** The part of the check that depends only on the chain. */
  ghost predicate Follows(h: Header, parent: BlockNode)
    requires WellFormed(parent)
  {
    && Linked(h, parent)
    && forall m :: IsMedian(Window(Some(parent), MEDIAN_TIME_BLOCKS), m) ==> h.timestamp > m
  }

  /** Every block of the chain but the root was accepted on top of its parent. */
  ghost predicate Accepted(node: BlockNode) {
    WellFormed(node) &&
    (node.parent.Some? ==> Follows(HeaderOf(node), node.parent.value) && Accepted(node.parent.value))
  }

  // ------------------------------------------------- consequences along a chain

  lemma {:induction false} WindowShift(node: Option<BlockNode>, n: nat) returns (dropped: seq<nat>)
    ensures Window(node, n + 1) == Window(node, n) + dropped
    ensures |dropped| <= 1 && (|dropped| == 0 ==> |Window(node, n + 1)| <= n)
    ensures |dropped| == 1 ==> |Window(node, n)| == n
  {
    if node.None? {
      dropped := [];
    } else if n == 0 {
      dropped := [node.value.timestamp];
      assert Window(node.value.parent, 0) == [];
      assert Window(node, 1) == [node.value.timestamp];
    } else {
      dropped := WindowShift(node.value.parent, n - 1);
    }
  }

  /** One accepted block never lowers the past median time, whether the window is still growing or full. */
  lemma MedianStep(child: BlockNode, m: nat, m': nat)
    requires child.parent.Some?
    requires IsMedian(Window(child.parent, MEDIAN_TIME_BLOCKS), m) && child.timestamp > m
    requires IsMedian(Window(Some(child), MEDIAN_TIME_BLOCKS), m')
    ensures m <= m'
  {
    var w, w' := Window(child.parent, MEDIAN_TIME_BLOCKS), Window(Some(child), MEDIAN_TIME_BLOCKS);
    var kept := Window(child.parent, MEDIAN_TIME_BLOCKS - 1);
    var dropped := WindowShift(child.parent, MEDIAN_TIME_BLOCKS - 1);
    assert w' == [child.timestamp] + kept;
    assert w == kept + dropped;
    BelowConcat([child.timestamp], kept, m);
    BelowOne(child.timestamp, m);
    BelowConcat(kept, dropped, m);
    assert Below(w', m) <= Below(w, m) <= |w| / 2 <= |w'| / 2;
    if m' < m {
      BelowMonotone(w', m' + 1, m);
    }
  }

  lemma MedianExists(node: BlockNode) returns (m: nat)
    ensures IsMedian(Window(Some(node), MEDIAN_TIME_BLOCKS), m)
  {
    WindowNonempty(node, MEDIAN_TIME_BLOCKS);
    m := RankedElement(Window(Some(node), MEDIAN_TIME_BLOCKS));
  }

  lemma {:induction false} RankedElement(s: seq<nat>) returns (m: nat)
    requires s != []
    ensures IsMedian(s, m)
  {
    // The largest bound with at most half of the values below it.
    m := 0;
    BelowAll(s, 0);
    while Below(s, m + 1) <= |s| / 2
      invariant Below(s, m) <= |s| / 2
      decreases Max(s) - m
    {
      if m >= Max(s) {
        BelowAll(s, m + 1);
      }
      m := m + 1;
    }
  }

  function Max(s: seq<nat>): (r: nat)
    ensures forall i :: 0 <= i < |s| ==> s[i] <= r
  {
    if s == [] then 0
    else var r := Max(s[..|s| - 1]); if s[|s| - 1] > r then s[|s| - 1] else r
  }

  /** Past median time never decreases from a block to any of its accepted descendants. */
  lemma {:induction false} MedianNeverFalls(node: BlockNode, k: nat, m: nat, m': nat)
    requires Accepted(node) && k < |Path(node)|
    requires IsMedian(Window(Some(Path(node)[k]), MEDIAN_TIME_BLOCKS), m)
    requires IsMedian(Window(Some(node), MEDIAN_TIME_BLOCKS), m')
    ensures m <= m'
  {
    if k == |Path(node)| - 1 {
      MedianUnique(Window(Some(node), MEDIAN_TIME_BLOCKS), m, m');
    } else {
      var p := node.parent.value;
      var mid := MedianExists(p);
      assert Path(node)[k] == Path(p)[k];
      MedianNeverFalls(p, k, m, mid);
      MedianStep(node, mid, m');
    }
  }

  /** Bits stay the same from one retarget height to the next: over heights 11k+1 to 11k+11, and over 0 to 11. */
  lemma {:induction false} BitsConstantInWindow(node: BlockNode, k: nat)
    requires Accepted(node) && k < |Path(node)|
    requires k == node.height
             || (node.height - 1) / BLOCKS_PER_RETARGET == (if k == 0 then 0 else (k - 1) / BLOCKS_PER_RETARGET)
    requires WellFormed(node)
    ensures Path(node)[k].bits == node.bits
  {
    PathByHeight(node);
    if k < node.height {
      var p := node.parent.value;
      assert Path(node)[k] == Path(p)[k];
      BitsConstantInWindow(p, k);
    }
  }

  /** The window of a node starts at the block of the chain whose height is the multiple of eleven below. */
  lemma {:induction false} WindowStartOnPath(node: BlockNode)
    requires WellFormed(node)
    ensures |Path(node)| == node.height + 1
    ensures WindowStart(node) == Some(Path(node)[node.height - node.height % 11])
  {
    hide Path, WellFormed;
    PathByHeight(node);
    if node.height % 11 != 0 {
      AboveTheRoot(node);
      WindowStartOnPath(node.parent.value);
      PathOfChild(node);
      SameElevenBelow(node.height);
    }
  }

  lemma SameElevenBelow(h: nat)
    requires h % 11 != 0
    ensures (h - 1) - (h - 1) % 11 == h - h % 11
  {
  }

  /** The bits of an accepted child: those of its parent, except after every eleventh block, when the target is scaled
      by the seconds that the last eleven blocks of the chain took, as a signed 64-bit number, over 143. */
  lemma ChildBitsExactly(h: Header, node: BlockNode, env: Outside)
    requires WellFormed(node) && HeaderOk(h, node, env)
    ensures |Path(node)| == node.height + 1
    ensures h.bits ==
            if node.height == 0 || node.height % 11 != 0 then node.bits
            else
              var span := ToInt64(node.timestamp - Path(node)[node.height - 11].timestamp);
              BigToCompact(CompactToBig(node.bits) * span / 143)
  {
    hide BigToCompact, CompactToBig, ToInt64, IsMedian, Window, RetargetBits, Path, NextBits, WellFormed;
    PathByHeight(node);
    if node.height > 0 && node.height % 11 == 0 {
      NextBitsOnPath(node);
      RetargetIs(node.bits, node.timestamp, Path(node)[node.height - 11].timestamp);
    } else {
      NextBitsStay(node);
    }
  }

  lemma NextBitsStay(node: BlockNode)
    requires WellFormed(node) && (node.height == 0 || node.height % 11 != 0)
    ensures NextBits(node) == node.bits
  {
  }

  lemma NextBitsOnPath(node: BlockNode)
    requires WellFormed(node) && node.height > 0 && node.height % 11 == 0
    ensures |Path(node)| == node.height + 1
    ensures NextBits(node) == RetargetBits(node.bits, node.timestamp, Path(node)[node.height - 11].timestamp)
  {
    hide RetargetBits, WindowStart, Path, WellFormed, NextBits;
    AboveTheRoot(node);
    var p := node.parent.value;
    PathOfChild(node);
    WindowStartOnPath(p);
    ElevenBelow(node.height);
    NextBitsScales(node);
  }

  lemma AboveTheRoot(node: BlockNode)
    requires WellFormed(node) && node.height > 0
    ensures node.parent.Some? && WellFormed(node.parent.value) && node.parent.value.height == node.height - 1
  {
  }

  lemma NextBitsScales(node: BlockNode)
    requires WellFormed(node) && node.height > 0 && node.height % 11 == 0
    requires node.parent.Some? && WindowStart(node.parent.value).Some?
    ensures NextBits(node) == RetargetBits(node.bits, node.timestamp, WindowStart(node.parent.value).value.timestamp)
  {
    hide RetargetBits, WindowStart, Path, WellFormed;
  }

  lemma PathOfChild(node: BlockNode)
    requires node.parent.Some?
    ensures Path(node) == Path(node.parent.value) + [node]
  {
  }

  lemma ElevenBelow(h: nat)
    requires h > 0 && h % 11 == 0
    ensures h >= 11 && (h - 1) - (h - 1) % 11 == h - 11
  {
  }

  /** So after eleven blocks that took a time that is not negative, the target of the next block is the old one times
      that time over 143, less a 2^-16 part at most. */
  lemma RetargetFollowsTime(h: Header, node: BlockNode, env: Outside, span: nat)
    requires WellFormed(node) && HeaderOk(h, node, env) && node.height > 0 && node.height % 11 == 0
    requires |Path(node)| == node.height + 1 && span < TWO_63
    requires node.timestamp == Path(node)[node.height - 11].timestamp + span
    requires CompactToBig(node.bits) >= 0
    ensures h.bits == BigToCompact(CompactToBig(node.bits) * span / 143)
    ensures var ideal := CompactToBig(node.bits) * span / 143;
            ideal >= 0 &&
            (ByteLen(ideal) <= 255 ==>
               0 <= CompactToBig(h.bits) <= ideal && (ideal > 0 ==> (ideal - CompactToBig(h.bits)) * 65536 < ideal))
  {
    hide HeaderOk, Path, BigToCompact, CompactToBig, ByteLen, WellFormed;
    ChildBitsExactly(h, node, env);
    assert ToInt64(span) == span;
    ScaledTarget(CompactToBig(node.bits), span);
  }

  lemma ScaledTarget(target: nat, span: nat)
    ensures var ideal := target * span / 143;
            && ideal >= 0
            && var r := CompactToBig(BigToCompact(ideal));
               ByteLen(ideal) <= 255 ==> 0 <= r <= ideal && (ideal > 0 ==> (ideal - r) * 65536 < ideal)
  {
    hide ByteLen, CompactToBig, BigToCompact;
    IdealIsNat(target, span);
    var ideal := target * span / 143;
    if ByteLen(ideal) <= 255 {
      TargetLoss(ideal);
    }
  }

  lemma IdealIsNat(target: nat, span: nat)
    ensures target * span / 143 >= 0
  {
  }

  lemma TargetLoss(ideal: nat)
    requires ByteLen(ideal) <= 255
    ensures var r := CompactToBig(BigToCompact(ideal)); 0 <= r <= ideal && (ideal > 0 ==> (ideal - r) * 65536 < ideal)
  {
    RoundTripLoss(ideal);
    RoundTripValue(ideal);
  }

  // ---------------------------------------------------------------- work and seeds

  /** The work of all blocks of a chain. */
  function WorkOf(nodes: seq<BlockNode>): nat {
    if nodes == [] then 0 else WorkOf(nodes[..|nodes| - 1]) + CalcWork(nodes[|nodes| - 1].bits)
  }

  /** The work carried by a node is the sum over its chain. */
  lemma {:induction false} WorkAddsUp(node: BlockNode)
    requires WellFormed(node) && Derived(node)
    ensures node.workSum == WorkOf(Path(node))
  {
    if node.parent.Some? {
      WorkAddsUp(node.parent.value);
      assert Path(node)[..|Path(node)| - 1] == Path(node.parent.value);
    } else {
      assert Path(node)[..0] == [];
    }
  }

  /** Every field of the chain's nodes is what NewBlockNode computed from the header. */
  predicate Derived(node: BlockNode) {
    && Some(node) == NewBlockNode(HeaderOf(node), node.parent)
    && (node.parent.Some? ==> Derived(node.parent.value))
  }

  /** The incrementally carried seed in closed form: the hash of the block at the largest positive multiple
      of seven strictly below, or the initial seed when there is none. */
  lemma {:induction false} SeedClosedForm(node: BlockNode)
    requires WellFormed(node) && Derived(node)
    ensures var h := if node.height == 0 then 0 else (node.height - 1) / SEED_PER_RETARGET * SEED_PER_RETARGET;
            h < |Path(node)| && node.seed == if h == 0 then INITIAL_SEED else Path(node)[h].hash
  {
    PathByHeight(node);
    if node.parent.Some? {
      var p := node.parent.value;
      SeedClosedForm(p);
      PathByHeight(p);
      if p.height > 0 && p.height % SEED_PER_RETARGET != 0 {
        assert (node.height - 1) / SEED_PER_RETARGET == (p.height - 1) / SEED_PER_RETARGET;
      }
    }
  }
}
