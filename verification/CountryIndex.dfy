/** The country-ban index (FirewallIP.java): address ranges merged as they are loaded, kept in one list
    for each first byte. */
module CountryIndex {

  /** An IPv4 address is one word, an IPv6 address two. */
  datatype Addr = V4(word: bv32) | V6(high: bv64, low: bv64)

  datatype Range = Range(net: Addr, mask: Addr)

  predicate SameFamily(a: Addr, b: Addr) { a.V4? == b.V4? }

  function And(a: Addr, b: Addr): (r: Addr)
    requires SameFamily(a, b)
    ensures SameFamily(r, a)
  {
    match a
    case V4(w) => V4(w & b.word)
    case V6(h, l) => V6(h & b.high, l & b.low)
  }

  function FirstByte(a: Addr): bv8 {
    match a
    case V4(w) => (w >> 24) as bv8
    case V6(h, _) => (h >> 56) as bv8
  }

  /** The place of a list in the array. */
  function Place(b: bv8): (n: nat)
    ensures n < 256
  {
    b as int
  }

  lemma PlacesDiffer(b: bv8, c: bv8)
    ensures Place(b) == Place(c) ==> b == c
  {
  }

  // ---------------------------------------------------------------------------------------------
  // Masks
  // ---------------------------------------------------------------------------------------------

  const ONES32: bv32 := 0xffff_ffff
  const ONES64: bv64 := 0xffff_ffff_ffff_ffff

  /** Ones followed by zeros. */
  predicate Prefix32(m: bv32) { !m & (!m + 1) == 0 }

  predicate Prefix64(m: bv64) { !m & (!m + 1) == 0 }

  predicate IsMask(m: Addr) {
    match m
    case V4(w) => Prefix32(w)
    case V6(h, l) => (Prefix64(h) && l == 0) || (h == ONES64 && Prefix64(l))
  }

  predicate RangeOk(r: Range) {
    SameFamily(r.net, r.mask) && IsMask(r.mask) && And(r.net, r.mask) == r.net
  }

  /** `containsIPv4`, `containsIPv6`. */
  predicate Contains(r: Range, a: Addr)
    requires SameFamily(r.net, r.mask)
  {
    SameFamily(r.net, a) && And(a, r.mask) == r.net
  }

  /** Java shifts an int by the distance modulo 32. */
  function Mask4(prefix: int): bv32 {
    if prefix == 0 then 0 else ONES32 << ((32 - prefix) % 32)
  }

  /** Java's division and remainder truncate toward zero. */
  function TruncDiv(a: int, b: int): int
    requires b > 0
  {
    if a >= 0 then a / b else -((-a) / b)
  }

  function TruncMod(a: int, b: int): int
    requires b > 0
  {
    a - b * TruncDiv(a, b)
  }

  function Mask6(prefix: int): Addr {
    var fullWords, remainder := TruncDiv(prefix, 64), TruncMod(prefix, 64);
    V6(if fullWords > 0 then ONES64
       else if 0 < remainder < 64 && fullWords == 0 then ONES64 << (64 - remainder) else 0,
       if fullWords >= 2 then ONES64
       else if 0 < remainder < 64 && fullWords == 1 then ONES64 << (64 - remainder) else 0)
  }

  function MaskOf(a: Addr, prefix: int): (m: Addr)
    ensures SameFamily(a, m)
  {
    if a.V4? then V4(Mask4(prefix)) else Mask6(prefix)
  }

  /** The range of a CIDR: the address and the prefix length as parsed. */
  function RangeOf(a: Addr, prefix: int): Range {
    Range(And(a, MaskOf(a, prefix)), MaskOf(a, prefix))
  }

  lemma MaskIsMask(a: Addr, prefix: int)
    ensures IsMask(MaskOf(a, prefix))
  {
    if a.V4? {
      Mask4IsMask(prefix);
    } else {
      Mask6IsMask(prefix);
    }
  }

  lemma Mask4IsMask(prefix: int)
    ensures Prefix32(Mask4(prefix))
  {
    Shifted32((32 - prefix) % 32);
  }

  lemma Mask6IsMask(prefix: int)
    ensures IsMask(Mask6(prefix))
  {
    if 0 < prefix < 64 {
      HighMask(64 - prefix);
      Mask6High(prefix);
    } else if 64 < prefix < 128 {
      LowMask(128 - prefix);
      Mask6Low(prefix);
    } else {
      PlainMasks();
      Mask6Plain(prefix);
    }
  }

  lemma Mask6High(prefix: int)
    requires 0 < prefix < 64
    ensures Mask6(prefix) == V6(ONES64 << (64 - prefix), 0)
  {
    assert TruncDiv(prefix, 64) == 0 && TruncMod(prefix, 64) == prefix;
  }

  lemma Mask6Low(prefix: int)
    requires 64 < prefix < 128
    ensures Mask6(prefix) == V6(ONES64, ONES64 << (128 - prefix))
  {
    assert TruncDiv(prefix, 64) == 1 && TruncMod(prefix, 64) == prefix - 64;
  }

  lemma Mask6Plain(prefix: int)
    requires prefix <= 0 || prefix == 64 || prefix >= 128
    ensures Mask6(prefix) == if prefix <= 0 then V6(0, 0) else V6(ONES64, if prefix >= 128 then ONES64 else 0)
  {
    var words, remainder := TruncDiv(prefix, 64), TruncMod(prefix, 64);
    assert prefix <= 0 ==> words <= 0 && remainder <= 0;
    assert prefix == 64 ==> words == 1 && remainder == 0;
    assert prefix >= 128 ==> words >= 2;
  }

  lemma HighMask(n: int)
    requires 0 <= n <= 64
    ensures IsMask(V6(ONES64 << n, 0))
  {
    Shifted64(n);
  }

  lemma LowMask(n: int)
    requires 0 <= n <= 64
    ensures IsMask(V6(ONES64, ONES64 << n))
  {
    Shifted64(n);
  }

  lemma PlainMasks()
    ensures IsMask(V6(0, 0)) && IsMask(V6(ONES64, 0)) && IsMask(V6(ONES64, ONES64))
  {
  }

  lemma Shifted32(n: int)
    requires 0 <= n <= 32
    ensures Prefix32(ONES32 << n) && Prefix32(0)
  {
  }

  lemma Shifted64(n: int)
    requires 0 <= n <= 64
    ensures Prefix64(ONES64 << n) && Prefix64(0) && Prefix64(ONES64)
  {
  }

  lemma RangeOfOk(a: Addr, prefix: int)
    ensures RangeOk(RangeOf(a, prefix))
  {
    var m := MaskOf(a, prefix);
    MaskIsMask(a, prefix);
    AndLaws(a, m, m);
    AndLaws(m, m, m);
  }

  // ---------------------------------------------------------------------------------------------
  // Merging two ranges
  // ---------------------------------------------------------------------------------------------

  /** The test of the merge loop: the networks agree under both masks. */
  predicate Matches(r: Range, s: Range)
    requires RangeOk(r) && RangeOk(s) && SameFamily(r.net, s.net)
  {
    And(r.net, s.mask) == And(s.net, r.mask)
  }

  function Merged(r: Range, s: Range): Range
    requires RangeOk(r) && RangeOk(s) && SameFamily(r.net, s.net)
  {
    Range(And(r.net, And(r.mask, s.mask)), And(r.mask, s.mask))
  }

  lemma Nested(m: Addr, n: Addr)
    requires IsMask(m) && IsMask(n) && SameFamily(m, n)
    ensures And(m, n) == m || And(m, n) == n
    ensures And(m, n) == And(n, m)
  {
    AndCommutes(m, n);
    if m.V4? {
      Nested4(m, n);
    } else {
      Nested6(m, n);
    }
  }

  lemma Nested4(m: Addr, n: Addr)
    requires m.V4? && n.V4? && IsMask(m) && IsMask(n)
    ensures And(m, n) == m || And(m, n) == n
  {
    Nested32(m.word, n.word);
    NestedWords4(m, n);
  }

  lemma Nested6(m: Addr, n: Addr)
    requires m.V6? && n.V6? && IsMask(m) && IsMask(n)
    ensures And(m, n) == m || And(m, n) == n
  {
    if m.low == 0 && n.low == 0 {
      HighOnly(m, n);
    } else if m.high == ONES64 && n.high == ONES64 {
      LowOnly(m, n);
    } else {
      HighAndLow(m, n);
    }
  }

  lemma HighOnly(m: Addr, n: Addr)
    requires m.V6? && n.V6? && Prefix64(m.high) && Prefix64(n.high) && m.low == 0 && n.low == 0
    ensures And(m, n) == m || And(m, n) == n
  {
    Nested64(m.high, n.high);
  }

  lemma LowOnly(m: Addr, n: Addr)
    requires m.V6? && n.V6? && m.high == ONES64 && n.high == ONES64 && Prefix64(m.low) && Prefix64(n.low)
    ensures And(m, n) == m || And(m, n) == n
  {
    Nested64(m.low, n.low);
  }

  lemma HighAndLow(m: Addr, n: Addr)
    requires m.V6? && n.V6? && ((m.low == 0 && n.high == ONES64) || (m.high == ONES64 && n.low == 0))
    ensures And(m, n) == m || And(m, n) == n
  {
    WordBounds(m.high);
    WordBounds(n.high);
    WordBounds(m.low);
    WordBounds(n.low);
  }

  lemma NestedWords4(m: Addr, n: Addr)
    requires m.V4? && n.V4? && (m.word & n.word == m.word || m.word & n.word == n.word)
    ensures And(m, n) == m || And(m, n) == n
  {
  }

  lemma WordBounds(m: bv64)
    ensures m & ONES64 == m && ONES64 & m == m && m & 0 == 0 && 0 & m == 0 && Prefix64(ONES64) && Prefix64(0)
  {
  }

  lemma Nested32(m: bv32, n: bv32)
    requires Prefix32(m) && Prefix32(n)
    ensures m & n == m || m & n == n
  {
  }

  lemma Nested64(m: bv64, n: bv64)
    requires Prefix64(m) && Prefix64(n)
    ensures m & n == m || m & n == n
  {
  }

  lemma AndLaws(a: Addr, b: Addr, c: Addr)
    requires SameFamily(a, b) && SameFamily(b, c)
    ensures And(And(a, b), c) == And(a, And(b, c)) && And(a, b) == And(b, a) && And(a, a) == a
  {
    AndAssociates(a, b, c);
    AndCommutes(a, b);
  }

  lemma AndAssociates(a: Addr, b: Addr, c: Addr)
    requires SameFamily(a, b) && SameFamily(b, c)
    ensures And(And(a, b), c) == And(a, And(b, c))
  {
    if a.V4? {
      Associates4(a, b, c);
    } else {
      Associates6(a, b, c);
    }
  }

  lemma Associates4(a: Addr, b: Addr, c: Addr)
    requires a.V4? && b.V4? && c.V4?
    ensures And(And(a, b), c) == And(a, And(b, c))
  {
    assert (a.word & b.word) & c.word == a.word & (b.word & c.word);
  }

  lemma Associates6(a: Addr, b: Addr, c: Addr)
    requires a.V6? && b.V6? && c.V6?
    ensures And(And(a, b), c) == And(a, And(b, c))
  {
    HighAssociates(a, b, c);
    LowAssociates(a, b, c);
  }

  lemma HighAssociates(a: Addr, b: Addr, c: Addr)
    requires a.V6? && b.V6? && c.V6?
    ensures And(And(a, b), c).high == And(a, And(b, c)).high
  {
    Associates64(a.high, b.high, c.high);
  }

  lemma LowAssociates(a: Addr, b: Addr, c: Addr)
    requires a.V6? && b.V6? && c.V6?
    ensures And(And(a, b), c).low == And(a, And(b, c)).low
  {
    Associates64(a.low, b.low, c.low);
  }

  lemma Associates64(a: bv64, b: bv64, c: bv64)
    ensures (a & b) & c == a & (b & c)
  {
  }

  lemma AndCommutes(a: Addr, b: Addr)
    requires SameFamily(a, b)
    ensures And(a, b) == And(b, a) && And(a, a) == a
  {
  }

  /** A mask inside another: the range of the shorter mask takes in the other range or misses it. */
  lemma Inside(r: Range, s: Range, a: Addr)
    requires RangeOk(r) && RangeOk(s) && SameFamily(r.net, s.net) && And(r.mask, s.mask) == s.mask
    ensures Matches(r, s) <==> And(r.net, s.mask) == s.net
    ensures Contains(r, a) ==> (Contains(s, a) <==> Matches(r, s))
    ensures Matches(r, s) ==> Merged(r, s) == s == Merged(s, r)
    ensures Matches(r, s) <==> Matches(s, r)
  {
    AndLaws(s.net, s.mask, r.mask);
    AndLaws(s.net, r.mask, s.mask);
    AndLaws(r.net, r.mask, s.mask);
    AndLaws(s.mask, r.mask, s.mask);
    AndLaws(s.net, s.mask, s.mask);
    if SameFamily(r.net, a) {
      AndLaws(a, r.mask, s.mask);
    }
  }

  /** Two ranges match if and only if they share an address, and then one of them holds the other and is
      their merge. */
  lemma MergeUnion(r: Range, s: Range, a: Addr)
    requires RangeOk(r) && RangeOk(s) && SameFamily(r.net, s.net)
    ensures Contains(r, a) && Contains(s, a) ==> Matches(r, s)
    ensures Matches(r, s) ==> Merged(r, s) == r || Merged(r, s) == s
    ensures Matches(r, s) ==> (Contains(Merged(r, s), a) <==> Contains(r, a) || Contains(s, a))
    ensures Matches(r, s) <==> Matches(s, r)
  {
    Nested(r.mask, s.mask);
    if And(r.mask, s.mask) == s.mask {
      Inside(r, s, a);
    } else {
      Nested(s.mask, r.mask);
      Inside(s, r, a);
      AndLaws(r.mask, s.mask, r.mask);
    }
  }

  /** Matching ranges do share an address: the network of the one inside. */
  lemma MatchShares(r: Range, s: Range)
    requires RangeOk(r) && RangeOk(s) && SameFamily(r.net, s.net) && Matches(r, s)
    ensures (Contains(r, r.net) && Contains(s, r.net)) || (Contains(r, s.net) && Contains(s, s.net))
  {
    MergeUnion(r, s, r.net);
    MergeUnion(r, s, s.net);
  }

  // ---------------------------------------------------------------------------------------------
  // Lists of ranges
  // ---------------------------------------------------------------------------------------------

  predicate AllIn(list: seq<Range>, v4: bool, firstByte: bv8) {
    forall i: nat :: i < |list| ==> RangeOk(list[i]) && list[i].net.V4? == v4 && FirstByte(list[i].net) == firstByte
  }

  predicate NoMatchIn(list: seq<Range>, r: Range, v4: bool, firstByte: bv8)
    requires AllIn(list, v4, firstByte) && RangeOk(r) && r.net.V4? == v4
  {
    forall i: nat :: i < |list| ==> !Matches(r, list[i])
  }

  predicate PairwiseDisjoint(list: seq<Range>, v4: bool, firstByte: bv8)
    requires AllIn(list, v4, firstByte)
  {
    forall i: nat, j: nat :: i < j < |list| ==> !Matches(list[i], list[j])
  }

  /** Some range of the list contains the address. */
  predicate Holds(list: seq<Range>, a: Addr) {
    exists i: nat :: i < |list| && SameFamily(list[i].net, list[i].mask) && Contains(list[i], a)
  }

  function Without(list: seq<Range>, i: nat): seq<Range>
    requires i < |list|
  {
    list[..i] + list[i + 1..]
  }

  lemma WithoutHolds(list: seq<Range>, i: nat, a: Addr)
    requires i < |list|
    ensures Holds(list, a) <==>
      Holds(Without(list, i), a) || (SameFamily(list[i].net, list[i].mask) && Contains(list[i], a))
  {
    var rest := Without(list, i);
    if Holds(list, a) {
      var k: nat :| k < |list| && SameFamily(list[k].net, list[k].mask) && Contains(list[k], a);
      if k < i {
        assert rest[k] == list[k];
      } else if k > i {
        assert rest[k - 1] == list[k];
      }
    }
    if Holds(rest, a) {
      var k: nat :| k < |rest| && SameFamily(rest[k].net, rest[k].mask) && Contains(rest[k], a);
      assert rest[k] == list[if k < i then k else k + 1];
    }
  }

  lemma WithoutKeeps(list: seq<Range>, i: nat, v4: bool, firstByte: bv8)
    requires i < |list| && AllIn(list, v4, firstByte) && PairwiseDisjoint(list, v4, firstByte)
    ensures AllIn(Without(list, i), v4, firstByte) && PairwiseDisjoint(Without(list, i), v4, firstByte)
  {
    var rest := Without(list, i);
    assert forall k: nat :: k < |rest| ==> rest[k] == list[if k < i then k else k + 1];
  }

  lemma AddedHolds(list: seq<Range>, r: Range, a: Addr)
    requires RangeOk(r)
    ensures Holds(list + [r], a) <==> Holds(list, a) || Contains(r, a)
  {
    if Contains(r, a) {
      assert (list + [r])[|list|] == r;
    }
    if Holds(list, a) {
      var k: nat :| k < |list| && SameFamily(list[k].net, list[k].mask) && Contains(list[k], a);
      assert (list + [r])[k] == list[k];
    }
  }

  /** A list and a range hold the same addresses as another list and range. */
  ghost predicate SameHeld(list: seq<Range>, r: Range, list': seq<Range>, r': Range) {
    forall a: Addr :: HeldBy(list, r, a) <==> HeldBy(list', r', a)
  }

  predicate HeldBy(list: seq<Range>, r: Range, a: Addr) {
    Holds(list, a) || (SameFamily(r.net, r.mask) && Contains(r, a))
  }

  /** Nothing that is held changes when a matching range is taken out and merged with another. */
  lemma TakenOut(list: seq<Range>, i: nat, r: Range, v4: bool, firstByte: bv8)
    requires AllIn(list, v4, firstByte) && i < |list|
    requires RangeOk(r) && r.net.V4? == v4 && FirstByte(r.net) == firstByte && Matches(r, list[i])
    ensures
      var m := Merged(r, list[i]);
      && RangeOk(m) && m.net.V4? == v4 && FirstByte(m.net) == firstByte
      && SameHeld(Without(list, i), m, list, r)
  {
    MergedPlace(r, list[i]);
    MergedHolds(list, i, r, v4, firstByte);
  }

  lemma MergedPlace(r: Range, s: Range)
    requires RangeOk(r) && RangeOk(s) && SameFamily(r.net, s.net) && Matches(r, s)
    requires FirstByte(r.net) == FirstByte(s.net)
    ensures
      var m := Merged(r, s);
      RangeOk(m) && SameFamily(m.net, r.net) && FirstByte(m.net) == FirstByte(r.net)
  {
    MergeUnion(r, s, r.net);
  }

  lemma MergedHolds(list: seq<Range>, i: nat, r: Range, v4: bool, firstByte: bv8)
    requires AllIn(list, v4, firstByte) && i < |list| && RangeOk(r) && r.net.V4? == v4
    requires RangeOk(Merged(r, list[i])) && Matches(r, list[i])
    ensures SameHeld(Without(list, i), Merged(r, list[i]), list, r)
  {
    forall a: Addr
      ensures HeldBy(Without(list, i), Merged(r, list[i]), a) <==> HeldBy(list, r, a)
    {
      MergeUnion(r, list[i], a);
      TakenOutAt(list, i, r, Merged(r, list[i]), a);
    }
  }

  lemma TakenOutAt(list: seq<Range>, i: nat, r: Range, m: Range, a: Addr)
    requires i < |list| && RangeOk(r) && RangeOk(list[i]) && RangeOk(m)
    requires Contains(m, a) <==> Contains(r, a) || Contains(list[i], a)
    ensures HeldBy(Without(list, i), m, a) <==> HeldBy(list, r, a)
  {
    WithoutHolds(list, i, a);
  }

  // ---------------------------------------------------------------------------------------------
  // The index
  // ---------------------------------------------------------------------------------------------

  /** A CIDR of the right family, as loaded. */
  datatype Cidr = Cidr(address: Addr, prefix: int)

  function CidrRange(c: Cidr): Range { RangeOf(c.address, c.prefix) }

  /** The plain scan over everything loaded. */
  predicate Scan(loaded: seq<Cidr>, a: Addr) {
    exists i: nat :: i < |loaded| && RangeOk(CidrRange(loaded[i])) && Contains(CidrRange(loaded[i]), a)
  }

  /** The scan over what was loaded into the list of one first byte. */
  predicate ScanByte(loaded: seq<Cidr>, firstByte: bv8, a: Addr) {
    exists i: nat :: i < |loaded| && RangeOk(CidrRange(loaded[i])) && Contains(CidrRange(loaded[i]), a)
                     && FirstByte(CidrRange(loaded[i]).net) == firstByte
  }

  predicate LoadedOk(loaded: seq<Cidr>, v4: bool) {
    forall i: nat :: i < |loaded| ==> loaded[i].address.V4? == v4
  }

  lemma ScanByteNext(loaded: seq<Cidr>, c: Cidr, firstByte: bv8, a: Addr)
    ensures ScanByte(loaded + [c], firstByte, a) <==>
      ScanByte(loaded, firstByte, a) || (Contains(CidrRange(c), a) && FirstByte(CidrRange(c).net) == firstByte)
  {
    RangeOfOk(c.address, c.prefix);
    var next := loaded + [c];
    assert next[|loaded|] == c;
    if ScanByte(loaded, firstByte, a) {
      var i: nat :| i < |loaded| && RangeOk(CidrRange(loaded[i])) && Contains(CidrRange(loaded[i]), a)
                    && FirstByte(CidrRange(loaded[i]).net) == firstByte;
      assert next[i] == loaded[i];
    }
  }

  /** A list is pairwise disjoint and holds exactly what was loaded under its first byte. */
  ghost predicate ListOk(list: seq<Range>, loaded: seq<Cidr>, v4: bool, b: bv8) {
    && AllIn(list, v4, b) && PairwiseDisjoint(list, v4, b)
    && forall a: Addr :: Holds(list, a) <==> ScanByte(loaded, b, a)
  }

  /** The lists of one address family. */
  class RangeIndex {
    const v4: bool
    const lists: array<seq<Range>>
    ghost var loaded: seq<Cidr>

    ghost predicate Valid()
      reads this, lists
    {
      && lists.Length == 256
      && LoadedOk(loaded, v4)
      && (forall b: bv8 :: ListOk(lists[Place(b)], loaded, v4, b))
    }

    constructor (v4: bool)
      ensures Valid() && this.v4 == v4 && loaded == [] && fresh(lists)
    {
      this.v4 := v4;
      lists := new seq<Range>[256](_ => []);
      loaded := [];
    }

    /** `optimizeIPv4Range`, `optimizeIPv6Range`: takes every range that matches out of the list, merging
        it into the new one, until none does. */
    method OptimizeRange(r: Range, firstByte: bv8) returns (merged: Range)
      requires lists.Length == 256
      requires AllIn(lists[Place(firstByte)], v4, firstByte) && PairwiseDisjoint(lists[Place(firstByte)], v4, firstByte)
      requires RangeOk(r) && r.net.V4? == v4 && FirstByte(r.net) == firstByte
      modifies lists
      ensures forall n: nat :: n < 256 && n != Place(firstByte) ==> lists[n] == old(lists[n])
      ensures AllIn(lists[Place(firstByte)], v4, firstByte) && PairwiseDisjoint(lists[Place(firstByte)], v4, firstByte)
      ensures RangeOk(merged) && merged.net.V4? == v4 && FirstByte(merged.net) == firstByte
      ensures NoMatchIn(lists[Place(firstByte)], merged, v4, firstByte)
      ensures SameHeld(lists[Place(firstByte)], merged, old(lists[Place(firstByte)]), r)
    {
      merged := r;
      var needRecheck := true;
      while needRecheck
        invariant forall n: nat :: n < 256 && n != Place(firstByte) ==> lists[n] == old(lists[n])
        invariant AllIn(lists[Place(firstByte)], v4, firstByte) && PairwiseDisjoint(lists[Place(firstByte)], v4, firstByte)
        invariant RangeOk(merged) && merged.net.V4? == v4 && FirstByte(merged.net) == firstByte
        invariant !needRecheck ==> NoMatchIn(lists[Place(firstByte)], merged, v4, firstByte)
        invariant SameHeld(lists[Place(firstByte)], merged, old(lists[Place(firstByte)]), r)
        decreases |lists[Place(firstByte)]|, needRecheck
      {
        var found := FindMatch(lists[Place(firstByte)], merged, firstByte);
        needRecheck := found < |lists[Place(firstByte)]|;
        if needRecheck {
          WithoutKeeps(lists[Place(firstByte)], found, v4, firstByte);
          TakenOut(lists[Place(firstByte)], found, merged, v4, firstByte);
          var existing := lists[Place(firstByte)][found];
          lists[Place(firstByte)] := Without(lists[Place(firstByte)], found);
          merged := Merged(merged, existing);
        }
      }
    }

    /** The inner loop: the first range that matches, or the length. */
    method FindMatch(list: seq<Range>, r: Range, ghost firstByte: bv8) returns (i: nat)
      requires AllIn(list, v4, firstByte) && RangeOk(r) && r.net.V4? == v4
      ensures i <= |list| && (i < |list| ==> Matches(r, list[i]))
      ensures i == |list| ==> NoMatchIn(list, r, v4, firstByte)
    {
      i := 0;
      while i < |list| && !Matches(r, list[i])
        invariant i <= |list| && forall k: nat :: k < i ==> !Matches(r, list[k])
      {
        i := i + 1;
      }
    }

    /** One CIDR of `parseCIDRRanges`, parsed. */
    method Load(c: Cidr)
      requires Valid() && c.address.V4? == v4
      modifies this`loaded, lists
      ensures Valid() && loaded == old(loaded) + [c]
    {
      RangeOfOk(c.address, c.prefix);
      var range := CidrRange(c);
      var firstByte := FirstByte(range.net);
      ghost var was := lists[..];
      assert forall b: bv8 :: ListOk(was[Place(b)], loaded, v4, b);
      var merged := OptimizeRange(range, firstByte);
      ghost var list := lists[Place(firstByte)];
      lists[Place(firstByte)] := lists[Place(firstByte)] + [merged];
      loaded := loaded + [c];
      AddedOk(was[Place(firstByte)], list, old(loaded), c, merged, firstByte);
      OthersOk(was, lists[..], old(loaded), c, firstByte);
    }

    lemma OthersOk(was: seq<seq<Range>>, now: seq<seq<Range>>, loaded: seq<Cidr>, c: Cidr, firstByte: bv8)
      requires |was| == 256 && |now| == 256 && FirstByte(CidrRange(c).net) == firstByte
      requires forall b: bv8 :: ListOk(was[Place(b)], loaded, v4, b)
      requires forall n: nat :: n < 256 && n != Place(firstByte) ==> now[n] == was[n]
      ensures forall b: bv8 :: b != firstByte ==> ListOk(now[Place(b)], loaded + [c], v4, b)
    {
      forall b: bv8 | b != firstByte
        ensures ListOk(now[Place(b)], loaded + [c], v4, b)
      {
        PlacesDiffer(b, firstByte);
        OtherOk(was[Place(b)], loaded, c, b);
      }
    }

    /** The list the CIDR went to. */
    lemma AddedOk(was: seq<Range>, list: seq<Range>, loaded: seq<Cidr>, c: Cidr, merged: Range, firstByte: bv8)
      requires ListOk(was, loaded, v4, firstByte) && c.address.V4? == v4
      requires FirstByte(CidrRange(c).net) == firstByte
      requires AllIn(list, v4, firstByte) && PairwiseDisjoint(list, v4, firstByte)
      requires RangeOk(merged) && merged.net.V4? == v4 && FirstByte(merged.net) == firstByte
      requires NoMatchIn(list, merged, v4, firstByte) && SameHeld(list, merged, was, CidrRange(c))
      ensures ListOk(list + [merged], loaded + [c], v4, firstByte)
    {
      AddedDisjoint(list, merged, firstByte);
      RangeOfOk(c.address, c.prefix);
      forall a: Addr
        ensures Holds(list + [merged], a) <==> ScanByte(loaded + [c], firstByte, a)
      {
        ScanByteNext(loaded, c, firstByte, a);
        AddedHolds(list, merged, a);
        assert HeldBy(list, merged, a) <==> HeldBy(was, CidrRange(c), a);
      }
    }

    lemma OtherOk(list: seq<Range>, loaded: seq<Cidr>, c: Cidr, b: bv8)
      requires ListOk(list, loaded, v4, b) && FirstByte(CidrRange(c).net) != b
      ensures ListOk(list, loaded + [c], v4, b)
    {
      forall a: Addr
        ensures ScanByte(loaded + [c], b, a) <==> ScanByte(loaded, b, a)
      {
        ScanByteNext(loaded, c, b, a);
      }
    }

    lemma AddedDisjoint(list: seq<Range>, r: Range, firstByte: bv8)
      requires AllIn(list, v4, firstByte) && PairwiseDisjoint(list, v4, firstByte)
      requires RangeOk(r) && r.net.V4? == v4 && FirstByte(r.net) == firstByte && NoMatchIn(list, r, v4, firstByte)
      ensures AllIn(list + [r], v4, firstByte) && PairwiseDisjoint(list + [r], v4, firstByte)
    {
      forall i: nat | i < |list|
        ensures !Matches(list[i], r)
      {
        MergeUnion(r, list[i], r.net);
      }
    }

    method LoadAll(cidrs: seq<Cidr>)
      requires Valid() && LoadedOk(cidrs, v4)
      modifies this`loaded, lists
      ensures Valid() && loaded == old(loaded) + cidrs
    {
      for i := 0 to |cidrs|
        invariant Valid() && loaded == old(loaded) + cidrs[..i]
      {
        Load(cidrs[i]);
        assert cidrs[..i + 1] == cidrs[..i] + [cidrs[i]];
      }
      assert cidrs[..|cidrs|] == cidrs;
    }

    /** `isIPFromBannedCountry` for one family. */
    method IsBanned(a: Addr) returns (banned: bool)
      requires Valid() && a.V4? == v4
      ensures banned <==> ScanByte(loaded, FirstByte(a), a)
    {
      var list := lists[Place(FirstByte(a))];
      assert ListOk(list, loaded, v4, FirstByte(a));
      banned := false;
      var i := 0;
      while i < |list|
        invariant i <= |list| && !banned && forall k: nat :: k < i ==> !Contains(list[k], a)
      {
        if Contains(list[i], a) {
          assert Holds(list, a);
          return true;
        }
        i := i + 1;
      }
      assert !Holds(list, a);
    }
  }

  // ---------------------------------------------------------------------------------------------
  // Index and scan
  // ---------------------------------------------------------------------------------------------

  /** The prefix covers the first byte. */
  predicate CoversFirstByte(m: Addr) {
    match m
    case V4(w) => w & 0xff00_0000 == 0xff00_0000
    case V6(h, _) => h & 0xff00_0000_0000_0000 == 0xff00_0000_0000_0000
  }

  lemma CoveredByte(r: Range, a: Addr)
    requires RangeOk(r) && Contains(r, a) && CoversFirstByte(r.mask)
    ensures FirstByte(r.net) == FirstByte(a)
  {
  }

  /** When the mask does not cover the first byte, the range has an address that belongs to another
      list. */
  lemma StrayEscapes(r: Range) returns (a: Addr)
    requires RangeOk(r) && !CoversFirstByte(r.mask)
    ensures Contains(r, a) && FirstByte(a) != FirstByte(r.net)
  {
    if r.net.V4? {
      FreeBit32(r.mask.word);
      var x := Stray32(r.net.word, r.mask.word);
      ContainsWord(r, x);
      a := V4(x);
    } else {
      WordBounds(r.mask.high);
      FreeBit64(r.mask.high);
      var x := Stray64(r.net.high, r.mask.high);
      ContainsWords(r, x, r.net.low);
      a := V6(x, r.net.low);
    }
  }

  lemma ContainsWord(r: Range, x: bv32)
    requires r.net.V4? && r.mask.V4? && x & r.mask.word == r.net.word
    ensures Contains(r, V4(x))
  {
  }

  lemma ContainsWords(r: Range, x: bv64, y: bv64)
    requires r.net.V6? && r.mask.V6? && x & r.mask.high == r.net.high && y & r.mask.low == r.net.low
    ensures Contains(r, V6(x, y))
  {
  }

  lemma FreeBit32(m: bv32)
    requires Prefix32(m) && m & 0xff00_0000 != 0xff00_0000
    ensures m & 0x0100_0000 == 0
  {
  }

  lemma FreeBit64(m: bv64)
    requires Prefix64(m) && m & 0xff00_0000_0000_0000 != 0xff00_0000_0000_0000
    ensures m & 0x0100_0000_0000_0000 == 0
  {
  }

  lemma Stray32(w: bv32, m: bv32) returns (x: bv32)
    requires m & 0x0100_0000 == 0 && w & m == w
    ensures x & m == w && (x >> 24) as bv8 != (w >> 24) as bv8
  {
    x := w ^ 0x0100_0000;
  }

  lemma Stray64(w: bv64, m: bv64) returns (x: bv64)
    requires m & 0x0100_0000_0000_0000 == 0 && w & m == w
    ensures x & m == w && (x >> 56) as bv8 != (w >> 56) as bv8
  {
    x := w ^ 0x0100_0000_0000_0000;
  }

  lemma CoversWhenLong(a: Addr, prefix: int)
    requires 0 <= prefix <= if a.V4? then 32 else 128
    ensures CoversFirstByte(MaskOf(a, prefix)) <==> prefix >= 8
  {
    if a.V4? {
      CoversMask4(prefix);
    } else {
      CoversMask6(prefix);
    }
  }

  lemma CoversMask4(prefix: int)
    requires 0 <= prefix <= 32
    ensures Mask4(prefix) & 0xff00_0000 == 0xff00_0000 <==> prefix >= 8
  {
    if prefix > 0 {
      assert (32 - prefix) % 32 == 32 - prefix;
      Covers32(32 - prefix);
    }
  }

  lemma CoversMask6(prefix: int)
    requires 0 <= prefix <= 128
    ensures Mask6(prefix).high & 0xff00_0000_0000_0000 == 0xff00_0000_0000_0000 <==> prefix >= 8
  {
    if 0 < prefix < 64 {
      assert prefix / 64 == 0 && Mask6(prefix).high == ONES64 << (64 - prefix);
    } else if prefix >= 64 {
      assert prefix / 64 >= 1 && Mask6(prefix).high == ONES64;
    }
    Covers64(if prefix < 64 then 64 - prefix else 0);
  }

  lemma Covers32(n: int)
    requires 0 <= n < 32
    ensures (ONES32 << n) & 0xff00_0000 == 0xff00_0000 <==> n <= 24
  {
  }

  lemma Covers64(n: int)
    requires 0 <= n <= 64
    ensures (ONES64 << n) & 0xff00_0000_0000_0000 == 0xff00_0000_0000_0000 <==> n <= 56
  {
  }

  predicate LongPrefixes(loaded: seq<Cidr>) {
    forall i: nat :: i < |loaded| ==> 8 <= loaded[i].prefix <= if loaded[i].address.V4? then 32 else 128
  }

  /** With prefixes of at least 8, looking in one list finds what a scan of everything loaded finds. */
  lemma IndexIsScan(loaded: seq<Cidr>, a: Addr)
    requires LongPrefixes(loaded)
    ensures ScanByte(loaded, FirstByte(a), a) <==> Scan(loaded, a)
  {
    if Scan(loaded, a) {
      var i: nat :| i < |loaded| && RangeOk(CidrRange(loaded[i])) && Contains(CidrRange(loaded[i]), a);
      CoversWhenLong(loaded[i].address, loaded[i].prefix);
      CoveredByte(CidrRange(loaded[i]), a);
    }
  }

  /** For a single CIDR index and scan agree on every address if and only if its prefix is at least 8. */
  lemma IndexIsScanExactly(c: Cidr)
    requires 0 <= c.prefix <= if c.address.V4? then 32 else 128
    ensures (forall a: Addr :: ScanByte([c], FirstByte(a), a) <==> Scan([c], a)) <==> c.prefix >= 8
  {
    var r := CidrRange(c);
    RangeOfOk(c.address, c.prefix);
    CoversWhenLong(c.address, c.prefix);
    if c.prefix >= 8 {
      forall a: Addr
        ensures ScanByte([c], FirstByte(a), a) <==> Scan([c], a)
      {
        IndexIsScan([c], a);
      }
    } else {
      var a := StrayEscapes(r);
      assert [c][0] == c;
      assert Scan([c], a) && !ScanByte([c], FirstByte(a), a);
    }
  }
}
