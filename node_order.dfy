/**
 * Node identifiers of the DHT engine and the demo's ordering of nodes
 * (`snode_compare`), used as the ordering of the scan's node sets.
 *
 * An identifier (`InfoHash`) is 160 bits, bit 0 being the most significant bit of
 * its first byte; comparing two identifiers byte by byte as unsigned numbers is
 * comparing their bits lexicographically, which is what `IdLess` does.
 */
module NodeOrder {

  const HASH_LEN: nat := 20
  const HASH_BITS: nat := 8 * HASH_LEN

  type InfoHash = h: seq<bool> | |h| == HASH_BITS witness seq(HASH_BITS, _ => false)

  /** The address family a node was reached on. */
  datatype Family = Inet | Inet6

  datatype Node = Node(id: InfoHash, family: Family)

  /** `InfoHash::commonBits`: the number of leading bits two identifiers share. */
  function CommonBits(a: seq<bool>, b: seq<bool>): (n: nat)
    requires |a| == |b|
    ensures n <= |a|
    ensures forall k :: 0 <= k < n ==> a[k] == b[k]
    ensures n < |a| ==> a[n] != b[n]
  {
    if a == [] || a[0] != b[0] then 0 else 1 + CommonBits(a[1..], b[1..])
  }

  /** Identifier order: lexicographic over the bits, most significant first. */
  predicate IdLess(a: seq<bool>, b: seq<bool>)
    requires |a| == |b|
  {
    a != [] && (if a[0] != b[0] then !a[0] && b[0] else IdLess(a[1..], b[1..]))
  }

  /** One identifier is below another exactly when it has a 0 where they first differ. */
  lemma {:induction false} IdLessAtFirstDifference(a: seq<bool>, b: seq<bool>)
    requires |a| == |b|
    ensures IdLess(a, b) <==> CommonBits(a, b) < |a| && !a[CommonBits(a, b)] && b[CommonBits(a, b)]
  {
    if a != [] && a[0] == b[0] {
      IdLessAtFirstDifference(a[1..], b[1..]);
    }
  }

  /** The identifier order is a strict total order. */
  lemma {:induction false} IdLessIsStrictTotal(a: seq<bool>, b: seq<bool>, c: seq<bool>)
    requires |a| == |b| == |c|
    ensures !IdLess(a, a)
    ensures IdLess(a, b) ==> !IdLess(b, a)
    ensures a != b ==> IdLess(a, b) || IdLess(b, a)
    ensures IdLess(a, b) && IdLess(b, c) ==> IdLess(a, c)
  {
    IdLessAtFirstDifference(a, a);
    IdLessAtFirstDifference(a, b);
    IdLessAtFirstDifference(b, a);
    IdLessAtFirstDifference(b, c);
    IdLessAtFirstDifference(a, c);
  }

  /** `snode_compare`: by identifier, and an IPv4 node before an IPv6 node with the same identifier. */
  predicate Less(lhs: Node, rhs: Node)
    ensures Less(lhs, rhs) ==> lhs != rhs && !IdLess(rhs.id, lhs.id)
  {
    IdLessIsStrictTotal(lhs.id, rhs.id, rhs.id);
    IdLess(lhs.id, rhs.id) || (lhs.id == rhs.id && lhs.family == Inet && rhs.family == Inet6)
  }

  /**
   * `snode_compare` is a strict total order on (identifier, family): irreflexive,
   * asymmetric, transitive, and any two different nodes are ordered one way or the
   * other. So it is a valid ordering for a `std::set`, and two nodes are equivalent
   * in such a set exactly when they are equal.
   */
  lemma LessIsStrictTotal(x: Node, y: Node, z: Node)
    ensures !Less(x, x)
    ensures Less(x, y) ==> !Less(y, x)
    ensures Less(x, y) && Less(y, z) ==> Less(x, z)
    ensures x != y <==> Less(x, y) || Less(y, x)
  {
    IdLessIsStrictTotal(x.id, y.id, z.id);
    IdLessIsStrictTotal(y.id, z.id, x.id);
    IdLessIsStrictTotal(z.id, x.id, y.id);
    IdLessIsStrictTotal(x.id, z.id, y.id);
  }

  /** Nodes with different identifiers are ordered by identifier alone. */
  lemma LessOnDifferentIds(x: Node, y: Node)
    requires x.id != y.id
    ensures Less(x, y) <==> IdLess(x.id, y.id)
  {
  }

  /** With equal identifiers, only an IPv4 node before an IPv6 node is ordered. */
  lemma LessOnEqualIds(x: Node, y: Node)
    requires x.id == y.id
    ensures Less(x, y) <==> x.family == Inet && y.family == Inet6
  {
    IdLessIsStrictTotal(x.id, y.id, y.id);
  }
}
