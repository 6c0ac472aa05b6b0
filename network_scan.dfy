/**
 * The demo's network scan. Each step looks up a hash; from the nodes that come
 * back it computes a bucket depth (the leading bits shared by the smallest and the
 * largest node of the answer, ordered by `snode_compare`), a target depth three
 * bits deeper but at most 159, and one child step for every bit position from the
 * current depth up to the target: the current hash with that bit set, one bit
 * deeper. The lookups themselves are the engine's; here they are a function
 * `lookup` from hash to answer.
 */
module NetworkScan {
  import opened NodeOrder

  /** The deepest a scan step may go. */
  const MAX_DEPTH: nat := 159

  /** One step of the scan: the hash looked up and its depth. */
  datatype Probe = Probe(hash: InfoHash, depth: nat)

  /** `InfoHash::setBit(b, 1)`. */
  function SetBit(h: InfoHash, b: nat): (r: InfoHash)
    requires b < HASH_BITS
    ensures r[b] && forall k :: 0 <= k < HASH_BITS && k != b ==> r[k] == h[k]
  {
    h[b := true]
  }

  /** The hash the scan starts from: all zeros but its last bit. */
  function ScanStart(): (h: InfoHash)
    ensures h[HASH_BITS - 1] && forall k :: 0 <= k < HASH_BITS - 1 ==> !h[k]
  {
    SetBit(seq(HASH_BITS, _ => false), 8 * HASH_LEN - 1)
  }

  /** The first node of the answer's `NodeSet` (`sbuck.begin()`). */
  function Smallest(nodes: seq<Node>): (m: Node)
    requires |nodes| > 0
    ensures m in nodes && forall n :: n in nodes ==> n == m || Less(m, n)
  {
    if |nodes| == 1 then nodes[0]
    else
      var rest := Smallest(nodes[1..]);
      var m := if Less(nodes[0], rest) then nodes[0] else rest;
      assert forall n :: n in nodes ==> n == m || Less(m, n) by {
        forall n | n in nodes ensures n == m || Less(m, n) {
          LessIsStrictTotal(nodes[0], rest, n);
          if n != nodes[0] {
            assert n in nodes[1..];
          }
        }
      }
      m
  }

  /** The last node of the answer's `NodeSet` (`std::prev(sbuck.end())`). */
  function Largest(nodes: seq<Node>): (m: Node)
    requires |nodes| > 0
    ensures m in nodes && forall n :: n in nodes ==> n == m || Less(n, m)
  {
    if |nodes| == 1 then nodes[0]
    else
      var rest := Largest(nodes[1..]);
      var m := if Less(rest, nodes[0]) then nodes[0] else rest;
      assert forall n :: n in nodes ==> n == m || Less(n, m) by {
        forall n | n in nodes ensures n == m || Less(n, m) {
          LessIsStrictTotal(n, rest, nodes[0]);
          if n != nodes[0] {
            assert n in nodes[1..];
          }
        }
      }
      m
  }

  /**
   * The bucket depth of an answer: 0 when its `NodeSet` holds one node, otherwise the
   * common leading bits of the identifiers of its first and last node. Since
   * `snode_compare` is a strict total order, the set holds the distinct nodes.
   */
  function BucketDepth(nodes: seq<Node>): (d: nat)
    requires |nodes| > 0
    ensures d <= HASH_BITS
  {
    if |set n | n in nodes| == 1 then 0
    else CommonBits(Smallest(nodes).id, Largest(nodes).id)
  }

  /** `std::min(159u, bdepth + 3u)`. */
  function TargetDepth(bdepth: nat): (t: nat)
    ensures t <= MAX_DEPTH && t <= bdepth + 3
    ensures t == MAX_DEPTH || t == bdepth + 3
  {
    if bdepth + 3 < MAX_DEPTH then bdepth + 3 else MAX_DEPTH
  }

  /** The steps spawned for bit positions `cur` up to `target`, in the loop's order. */
  function Children(h: InfoHash, cur: nat, target: nat): (cs: seq<Probe>)
    requires target <= MAX_DEPTH
    ensures |cs| == if cur < target then target - cur else 0
    ensures forall k :: 0 <= k < |cs| ==> cs[k] == Probe(SetBit(h, cur + k), cur + k + 1)
    ensures forall p :: p in cs ==> cur < p.depth <= target
    decreases target - cur
  {
    if cur >= target then []
    else [Probe(SetBit(h, cur), cur + 1)] + Children(h, cur + 1, target)
  }

  /** The steps spawned by the step at `(h, depth)` once `nodes` came back for `h`. */
  function Expand(h: InfoHash, depth: nat, nodes: seq<Node>): (cs: seq<Probe>)
    ensures nodes == [] ==> cs == []
    ensures forall p :: p in cs ==> depth < p.depth <= MAX_DEPTH
  {
    if nodes == [] then [] else Children(h, depth, TargetDepth(BucketDepth(nodes)))
  }

  /** Every identifier of the answer shares its first `BucketDepth` bits with the others. */
  lemma {:induction false} BetweenSharesPrefix(a: seq<bool>, m: seq<bool>, b: seq<bool>)
    requires |a| == |m| == |b|
    requires (a == m || IdLess(a, m)) && (m == b || IdLess(m, b))
    ensures forall k :: 0 <= k < CommonBits(a, b) ==> m[k] == a[k]
  {
    if a != [] && a[0] == b[0] {
      assert m[0] == a[0];
      assert a[1..] == m[1..] || IdLess(a[1..], m[1..]);
      assert m[1..] == b[1..] || IdLess(m[1..], b[1..]);
      BetweenSharesPrefix(a[1..], m[1..], b[1..]);
      forall k | 0 <= k < CommonBits(a, b) ensures m[k] == a[k] {
        if k > 0 {
          assert m[1..][k - 1] == a[1..][k - 1];
        }
      }
    }
  }

  /** A node of an answer lies between its smallest and largest node, so it shares their common bits. */
  lemma SharesBucketBits(nodes: seq<Node>, n: Node)
    requires n in nodes
    ensures var lo, hi := Smallest(nodes), Largest(nodes);
      forall k :: 0 <= k < CommonBits(lo.id, hi.id) ==> n.id[k] == lo.id[k]
  {
    var lo, hi := Smallest(nodes), Largest(nodes);
    BetweenSharesPrefix(lo.id, n.id, hi.id);
  }

  /** All nodes of an answer agree on the first `BucketDepth` bits of their identifiers. */
  lemma BucketDepthIsShared(nodes: seq<Node>)
    requires |nodes| > 0
    ensures BucketDepth(nodes) <= HASH_BITS
    ensures forall n, k :: n in nodes && 0 <= k < BucketDepth(nodes) ==> n.id[k] == Smallest(nodes).id[k]
  {
    if |set n | n in nodes| != 1 {
      forall n | n in nodes
        ensures forall k :: 0 <= k < BucketDepth(nodes) ==> n.id[k] == Smallest(nodes).id[k]
      {
        SharesBucketBits(nodes, n);
      }
    }
  }

  /**
   * The expansion rule: no children for an empty answer; otherwise exactly one child
   * for each bit position `b` from `depth` up to the target depth, the hash with bit
   * `b` set at depth `b + 1`; none when `depth` is already at or past the target; and
   * every child is deeper than its parent and at most 159 deep.
   */
  lemma ExpansionRule(h: InfoHash, depth: nat, nodes: seq<Node>)
    ensures nodes == [] ==> Expand(h, depth, nodes) == []
    ensures nodes != [] ==>
      var target := TargetDepth(BucketDepth(nodes));
      && target == (if BucketDepth(nodes) + 3 <= MAX_DEPTH then BucketDepth(nodes) + 3 else MAX_DEPTH)
      && (depth >= target ==> Expand(h, depth, nodes) == [])
      && (forall b :: depth <= b < target ==> Expand(h, depth, nodes)[b - depth] == Probe(SetBit(h, b), b + 1))
      && (forall b :: 0 <= b < MAX_DEPTH ==>
            (depth <= b < target <==> Probe(SetBit(h, b), b + 1) in Expand(h, depth, nodes)))
    ensures forall p :: p in Expand(h, depth, nodes) ==> depth < p.depth <= MAX_DEPTH
  {
    if nodes != [] {
      var target := TargetDepth(BucketDepth(nodes));
      var cs := Expand(h, depth, nodes);
      forall b | 0 <= b < MAX_DEPTH ensures depth <= b < target <==> Probe(SetBit(h, b), b + 1) in cs {
        if depth <= b < target {
          assert cs[b - depth] == Probe(SetBit(h, b), b + 1);
        }
      }
    }
  }

  /**
   * Every step of the scan started at `(h, depth)`, in the order a depth-first run
   * of the callbacks would issue them. The recursion ends because every child is
   * strictly deeper than its parent and no step is deeper than 159.
   */
  function Scan(lookup: InfoHash -> seq<Node>, h: InfoHash, depth: nat): (steps: seq<Probe>)
    requires depth <= MAX_DEPTH
    ensures |steps| > 0 && steps[0] == Probe(h, depth)
    ensures forall q :: q in steps ==> depth <= q.depth <= MAX_DEPTH
    decreases MAX_DEPTH + 1 - depth, 1
  {
    ExpansionRule(h, depth, lookup(h));
    [Probe(h, depth)] + ScanEach(lookup, Expand(h, depth, lookup(h)), depth)
  }

  /** The scans started by the children `probes` of a step at `depth`, one after the other. */
  function ScanEach(lookup: InfoHash -> seq<Node>, probes: seq<Probe>, depth: nat): (steps: seq<Probe>)
    requires forall p :: p in probes ==> depth < p.depth <= MAX_DEPTH
    ensures forall q :: q in steps ==> depth < q.depth <= MAX_DEPTH
    decreases MAX_DEPTH + 1 - depth, 0, |probes|
  {
    if probes == [] then []
    else Scan(lookup, probes[0].hash, probes[0].depth) + ScanEach(lookup, probes[1..], depth)
  }

  /** `x` and `y` agree on their first `n` bits. */
  ghost predicate SharesPrefix(x: InfoHash, y: InfoHash, n: nat)
  {
    forall k :: 0 <= k < n && k < HASH_BITS ==> x[k] == y[k]
  }

  /** Bits `from` up to 158 of `h` are all clear. */
  ghost predicate ClearFrom(h: InfoHash, from: nat)
  {
    forall k :: from <= k < MAX_DEPTH ==> !h[k]
  }

  /** No two steps look up the same hash. */
  ghost predicate NoRepeats(steps: seq<Probe>)
  {
    forall i, j :: 0 <= i < j < |steps| ==> steps[i].hash != steps[j].hash
  }

  lemma ShorterPrefix(x: InfoHash, y: InfoHash, n: nat, m: nat)
    requires n <= m && SharesPrefix(x, y, m)
    ensures SharesPrefix(x, y, n)
  {
  }

  /** Every step of a scan started at `(h, depth)` keeps the first `depth` bits of `h`. */
  lemma {:induction false} ScanKeepsPrefix(lookup: InfoHash -> seq<Node>, h: InfoHash, depth: nat)
    requires depth <= MAX_DEPTH
    ensures forall q :: q in Scan(lookup, h, depth) ==> SharesPrefix(q.hash, h, depth)
    decreases MAX_DEPTH + 1 - depth, 1
  {
    ExpansionRule(h, depth, lookup(h));
    ScanEachKeepsPrefix(lookup, Expand(h, depth, lookup(h)), h, depth);
  }

  lemma {:induction false} ScanEachKeepsPrefix(lookup: InfoHash -> seq<Node>, probes: seq<Probe>, parent: InfoHash, depth: nat)
    requires forall p :: p in probes ==> depth < p.depth <= MAX_DEPTH && SharesPrefix(p.hash, parent, depth)
    ensures forall q :: q in ScanEach(lookup, probes, depth) ==> SharesPrefix(q.hash, parent, depth)
    decreases MAX_DEPTH + 1 - depth, 0, |probes|
  {
    if probes != [] {
      var p := probes[0];
      ScanKeepsPrefix(lookup, p.hash, p.depth);
      ScanEachKeepsPrefix(lookup, probes[1..], parent, depth);
      forall q | q in Scan(lookup, p.hash, p.depth) ensures SharesPrefix(q.hash, parent, depth) {
        ShorterPrefix(q.hash, p.hash, depth, p.depth);
      }
    }
  }

  lemma NoRepeatsConcat(a: seq<Probe>, b: seq<Probe>)
    requires NoRepeats(a) && NoRepeats(b)
    requires forall x, y :: x in a && y in b ==> x.hash != y.hash
    ensures NoRepeats(a + b)
  {
    forall i, j | 0 <= i < j < |a + b| ensures (a + b)[i].hash != (a + b)[j].hash {
      if j < |a| {
        assert (a + b)[i] == a[i] && (a + b)[j] == a[j];
      } else if i >= |a| {
        assert (a + b)[i] == b[i - |a|] && (a + b)[j] == b[j - |a|];
      } else {
        assert (a + b)[i] in a && (a + b)[j] in b;
      }
    }
  }

  /** The children's scans from bit `b` on are the scan of the child for `b`, then those from `b + 1` on. */
  lemma ChildScansUnfold(lookup: InfoHash -> seq<Node>, h: InfoHash, depth: nat, b: nat, target: nat)
    requires depth <= b < target <= MAX_DEPTH
    ensures ScanEach(lookup, Children(h, b, target), depth)
         == Scan(lookup, SetBit(h, b), b + 1) + ScanEach(lookup, Children(h, b + 1, target), depth)
  {
    assert Children(h, b, target)[1..] == Children(h, b + 1, target);
  }

  /** Every step under the child for bit `b` has bit `b` set and the first `b` bits of its parent. */
  lemma ChildScanKeepsBit(lookup: InfoHash -> seq<Node>, h: InfoHash, b: nat)
    requires b < MAX_DEPTH
    ensures forall q :: q in Scan(lookup, SetBit(h, b), b + 1) ==> q.hash[b] && SharesPrefix(q.hash, h, b)
  {
    ScanKeepsPrefix(lookup, SetBit(h, b), b + 1);
    forall q | q in Scan(lookup, SetBit(h, b), b + 1) ensures q.hash[b] && SharesPrefix(q.hash, h, b) {
      assert SharesPrefix(q.hash, SetBit(h, b), b + 1);
    }
  }

  /**
   * The scans of the children for bit positions `b` up to `target` of the step at
   * `(h, depth)` keep the first `b` bits of `h` and never come back to `h` itself.
   */
  lemma {:induction false} ChildScansLeaveParent(lookup: InfoHash -> seq<Node>, h: InfoHash, depth: nat, b: nat, target: nat)
    requires depth <= b && target <= MAX_DEPTH && ClearFrom(h, depth)
    ensures forall q :: q in ScanEach(lookup, Children(h, b, target), depth) ==> SharesPrefix(q.hash, h, b) && q.hash != h
    decreases target - b
  {
    if b < target {
      ChildScansUnfold(lookup, h, depth, b, target);
      ChildScanKeepsBit(lookup, h, b);
      ChildScansLeaveParent(lookup, h, depth, b + 1, target);
      assert !h[b];
      forall q | q in Scan(lookup, SetBit(h, b), b + 1) ensures SharesPrefix(q.hash, h, b) && q.hash != h {
        assert q.hash[b] != h[b];
      }
      forall q | q in ScanEach(lookup, Children(h, b + 1, target), depth) ensures SharesPrefix(q.hash, h, b) && q.hash != h {
        ShorterPrefix(q.hash, h, b, b + 1);
      }
    }
  }

  /** The scan of the child for bit `b` and the scans of the later children look up different hashes. */
  lemma ChildScansDisjoint(lookup: InfoHash -> seq<Node>, h: InfoHash, depth: nat, b: nat, target: nat)
    requires depth <= b < target <= MAX_DEPTH && ClearFrom(h, depth)
    ensures forall x, y ::
      (x in Scan(lookup, SetBit(h, b), b + 1) && y in ScanEach(lookup, Children(h, b + 1, target), depth)) ==> x.hash != y.hash
  {
    ChildScanKeepsBit(lookup, h, b);
    ChildScansLeaveParent(lookup, h, depth, b + 1, target);
    assert !h[b];
    forall x, y | x in Scan(lookup, SetBit(h, b), b + 1) && y in ScanEach(lookup, Children(h, b + 1, target), depth)
      ensures x.hash != y.hash
    {
      assert y.hash[b] == h[b];
    }
  }

  /**
   * A scan started at `(h, depth)` with the bits of `h` from `depth` on clear never
   * looks up the same hash twice.
   */
  lemma {:induction false} ScanHasNoRepeats(lookup: InfoHash -> seq<Node>, h: InfoHash, depth: nat)
    requires depth <= MAX_DEPTH && ClearFrom(h, depth)
    ensures NoRepeats(Scan(lookup, h, depth))
    decreases MAX_DEPTH + 1 - depth, 1
  {
    var nodes := lookup(h);
    var target := if nodes == [] then depth else TargetDepth(BucketDepth(nodes));
    assert Expand(h, depth, nodes) == Children(h, depth, target);
    ChildScansHaveNoRepeats(lookup, h, depth, depth, target);
    ChildScansLeaveParent(lookup, h, depth, depth, target);
    NoRepeatsConcat([Probe(h, depth)], ScanEach(lookup, Children(h, depth, target), depth));
  }

  /** The scans of the children for bit positions `b` up to `target` of the step at `(h, depth)` never repeat a hash. */
  lemma {:induction false} ChildScansHaveNoRepeats(lookup: InfoHash -> seq<Node>, h: InfoHash, depth: nat, b: nat, target: nat)
    requires depth <= b && target <= MAX_DEPTH && ClearFrom(h, depth)
    ensures NoRepeats(ScanEach(lookup, Children(h, b, target), depth))
    decreases MAX_DEPTH + 1 - depth, 0, target - b
  {
    if b < target {
      ChildScansUnfold(lookup, h, depth, b, target);
      ScanHasNoRepeats(lookup, SetBit(h, b), b + 1);
      ChildScansHaveNoRepeats(lookup, h, depth, b + 1, target);
      ChildScansDisjoint(lookup, h, depth, b, target);
      NoRepeatsConcat(Scan(lookup, SetBit(h, b), b + 1), ScanEach(lookup, Children(h, b + 1, target), depth));
    }
  }

  /**
   * The scan the demo starts, from the hash with only its last bit set at depth 0,
   * never looks up the same hash twice, and goes no deeper than 159.
   */
  lemma FullScanHasNoRepeats(lookup: InfoHash -> seq<Node>)
    ensures NoRepeats(Scan(lookup, ScanStart(), 0))
    ensures forall q :: q in Scan(lookup, ScanStart(), 0) ==> q.depth <= MAX_DEPTH
  {
    ScanHasNoRepeats(lookup, ScanStart(), 0);
  }
}
