/** Splitting the year intervals of same-named time-zone rules until any two are equal or disjoint
    (tz.cpp, `Rule::overlaps`, `Rule::split`, `Rule::split_overlaps`). */
module RuleSplit {

  /** What a rule says besides its years. `month` and `day` are what the ordering compares;
      `rest` stands for the remaining fields, which the copying constructor carries over. */
  datatype Payload = Payload(month: int, day: int, rest: int)

  datatype Rule = Rule(start: int, end: int, payload: Payload)

  type Years = multiset<(int, Payload)>

  predicate WellFormed(rules: seq<Rule>) {
    forall r :: r in rules ==> r.start <= r.end
  }

  /** The ordering of same-named rules: starting year, month, ending year, day. */
  predicate Less(x: Rule, y: Rule) {
    if x.start != y.start then x.start < y.start
    else if x.payload.month != y.payload.month then x.payload.month < y.payload.month
    else if x.end != y.end then x.end < y.end
    else x.payload.day < y.payload.day
  }

  predicate Sorted(rules: seq<Rule>) {
    forall i, j :: 0 <= i < j < |rules| ==> !Less(rules[j], rules[i])
  }

  predicate EqualOrDisjoint(x: Rule, y: Rule) {
    || (x.start == y.start && x.end == y.end)
    || x.end < y.start
    || y.end < x.start
  }

  // ---------------------------------------------------------------------------------------------
  // Which rule is in force in which year
  // ---------------------------------------------------------------------------------------------

  /** One (year, payload) pair for every year of one rule. */
  ghost function YearsOf(r: Rule): Years {
    multiset(set y | r.start <= y <= r.end :: (y, r.payload))
  }

  /** The whole content of a rule table: for every year, the multiset of payloads in force. */
  ghost function InForce(rules: seq<Rule>): Years {
    if rules == [] then multiset{} else YearsOf(rules[0]) + InForce(rules[1..])
  }

  /** The multiset counts exactly the rules whose interval contains the year. */
  lemma YearsOfCounts(r: Rule, k: (int, Payload))
    ensures YearsOf(r)[k] == if r.start <= k.0 <= r.end && k.1 == r.payload then 1 else 0
  {
    var years := set y | r.start <= y <= r.end :: (y, r.payload);
    assert k in years <==> r.start <= k.0 <= r.end && k.1 == r.payload;
  }

  /** How many rules with a payload are in force in a year. */
  function CountInForce(rules: seq<Rule>, year: int, payload: Payload): nat {
    if rules == [] then 0
    else
      (if rules[0].start <= year <= rules[0].end && rules[0].payload == payload then 1 else 0)
      + CountInForce(rules[1..], year, payload)
  }

  /** The content of a table is, year by year, how many rules of each payload are in force. */
  lemma {:induction false} InForceCounts(rules: seq<Rule>, year: int, payload: Payload)
    ensures InForce(rules)[(year, payload)] == CountInForce(rules, year, payload)
  {
    if rules != [] {
      YearsOfCounts(rules[0], (year, payload));
      InForceCounts(rules[1..], year, payload);
    }
  }

  lemma {:induction false} YearsOfSize(r: Rule)
    requires r.start <= r.end
    ensures |YearsOf(r)| == r.end - r.start + 1
    decreases r.end - r.start
  {
    var years := set y | r.start <= y <= r.end :: (y, r.payload);
    if r.start == r.end {
      assert years == {(r.start, r.payload)};
    } else {
      YearsOfSize(r.(start := r.start + 1));
      var rest := set y | r.start + 1 <= y <= r.end :: (y, r.payload);
      assert years == {(r.start, r.payload)} + rest;
    }
  }

  lemma {:induction false} InForceConcat(s: seq<Rule>, t: seq<Rule>)
    ensures InForce(s + t) == InForce(s) + InForce(t)
  {
    if s == [] {
      assert s + t == t;
    } else {
      assert (s + t)[1..] == s[1..] + t;
      InForceConcat(s[1..], t);
    }
  }

  lemma InForceRemove(s: seq<Rule>, i: nat)
    requires i < |s|
    ensures InForce(s) == YearsOf(s[i]) + InForce(s[..i] + s[i + 1..])
  {
    var before, after := s[..i], s[i + 1..];
    assert s == before + ([s[i]] + after);
    InForceConcat(before, [s[i]] + after);
    InForceFirst(s[i], after);
    InForceConcat(before, after);
  }

  lemma InForceFirst(r: Rule, rest: seq<Rule>)
    ensures InForce([r] + rest) == YearsOf(r) + InForce(rest)
  {
    assert ([r] + rest)[1..] == rest;
  }

  lemma SameRest(s: seq<Rule>, t: seq<Rule>, i: nat)
    requires multiset(s) == multiset(t) && s != [] && i < |t| && t[i] == s[0]
    ensures multiset(s[1..]) == multiset(t[..i] + t[i + 1..])
  {
    assert s == [s[0]] + s[1..];
    assert t == t[..i] + [t[i]] + t[i + 1..];
    assert multiset(s[1..]) == multiset(s) - multiset{s[0]};
    assert multiset(t[..i] + t[i + 1..]) == multiset(t) - multiset{t[i]};
  }

  lemma {:induction false} InForcePermutation(s: seq<Rule>, t: seq<Rule>)
    requires multiset(s) == multiset(t)
    ensures InForce(s) == InForce(t)
    decreases |s|
  {
    if s == [] {
      assert |multiset(t)| == 0;
    } else {
      assert s[0] in multiset(t);
      var i :| 0 <= i < |t| && t[i] == s[0];
      var rest := t[..i] + t[i + 1..];
      SameRest(s, t, i);
      InForcePermutation(s[1..], rest);
      InForceRemove(t, i);
    }
  }

  /** Every rule covers at least one year, so a table never has more rules than rule-years. */
  lemma {:induction false} SizeBound(rules: seq<Rule>)
    requires WellFormed(rules)
    ensures |rules| <= |InForce(rules)|
  {
    if rules != [] {
      assert rules[0] in rules;
      YearsOfSize(rules[0]);
      SizeBound(rules[1..]);
    }
  }

  // ---------------------------------------------------------------------------------------------
  // One split
  // ---------------------------------------------------------------------------------------------

  /** `Rule::overlaps`; the source asserts the requires clause. */
  predicate Overlaps(x: Rule, y: Rule)
    requires x.start <= y.start
  {
    y.start <= x.end && !(x.start == y.start && x.end == y.end)
  }

  /** What is left of `x` at its own position once it has been split against `y`. */
  function Head(x: Rule, y: Rule): Rule {
    if x.start < y.start then x.(end := y.start - 1)
    else if y.end < x.end then x.(end := y.end)
    else x
  }

  /** What stands at the position of `y` afterwards. */
  function Pieces(x: Rule, y: Rule): seq<Rule> {
    if x.start == y.start then
      if y.end < x.end then [y, x.(start := y.end + 1)]
      else [y.(end := x.end), y.(start := x.end + 1)]
    else if y.end < x.end then [x.(start := y.start, end := y.end), y, x.(start := y.end + 1)]
    else if x.end < y.end then [x.(start := y.start), y.(end := x.end), y.(start := x.end + 1)]
    else [x.(start := y.start), y]
  }

  lemma InForceOfTwo(a: Rule, b: Rule)
    ensures InForce([a, b]) == YearsOf(a) + YearsOf(b)
  {
    assert [a, b][1..] == [b];
    assert InForce([b]) == YearsOf(b) + InForce([]);
  }

  lemma InForceOfThree(a: Rule, b: Rule, c: Rule)
    ensures InForce([a, b, c]) == YearsOf(a) + YearsOf(b) + YearsOf(c)
  {
    assert [a, b, c][1..] == [b, c];
    InForceOfTwo(b, c);
  }

  /** A split neither adds nor drops a rule-year. */
  lemma SplitKeepsYears(x: Rule, y: Rule)
    requires x.start <= x.end && y.start <= y.end
    requires x.start <= y.start && Overlaps(x, y)
    ensures YearsOf(Head(x, y)) + InForce(Pieces(x, y)) == YearsOf(x) + YearsOf(y)
  {
    var h, ps := Head(x, y), Pieces(x, y);
    forall k: (int, Payload)
      ensures (YearsOf(h) + InForce(ps))[k] == (YearsOf(x) + YearsOf(y))[k]
    {
      SplitKeepsCount(x, y, k);
    }
  }

  lemma SplitKeepsCount(x: Rule, y: Rule, k: (int, Payload))
    requires x.start <= x.end && y.start <= y.end
    requires x.start <= y.start && Overlaps(x, y)
    ensures YearsOf(Head(x, y))[k] + InForce(Pieces(x, y))[k] == YearsOf(x)[k] + YearsOf(y)[k]
  {
    var h, ps := Head(x, y), Pieces(x, y);
    YearsOfCounts(x, k);
    YearsOfCounts(y, k);
    YearsOfCounts(h, k);
    YearsOfCounts(ps[0], k);
    YearsOfCounts(ps[1], k);
    if |ps| == 2 {
      InForceOfTwo(ps[0], ps[1]);
      assert ps == [ps[0], ps[1]];
    } else {
      YearsOfCounts(ps[2], k);
      InForceOfThree(ps[0], ps[1], ps[2]);
      assert ps == [ps[0], ps[1], ps[2]];
    }
  }

  lemma SplitWellFormed(x: Rule, y: Rule)
    requires x.start <= x.end && y.start <= y.end
    requires x.start <= y.start && Overlaps(x, y)
    ensures Head(x, y).start <= Head(x, y).end && WellFormed(Pieces(x, y))
  {
  }

  // ---------------------------------------------------------------------------------------------
  // What a finished position promises about everything behind it
  // ---------------------------------------------------------------------------------------------

  /** `q` starts where `r` starts and reaches at least as far, or starts behind `r`. */
  predicate Beyond(r: Rule, q: Rule) {
    q.start > r.end || (q.start == r.start && q.end >= r.end)
  }

  predicate AllBeyond(r: Rule, later: seq<Rule>) {
    forall q :: q in later ==> Beyond(r, q)
  }

  predicate HasStart(later: seq<Rule>, year: int) {
    exists q :: q in later && q.start == year
  }

  predicate SameStartSameEnd(r: Rule, later: seq<Rule>) {
    forall q :: q in later && q.start == r.start ==> q.end == r.end
  }

  predicate Settled(r: Rule, later: seq<Rule>) {
    AllBeyond(r, later) && (HasStart(later, r.end + 1) || SameStartSameEnd(r, later))
  }

  /** Every finished rule is settled against the finished ones behind it and the open group. */
  predicate AllSettled(done: seq<Rule>, group: seq<Rule>) {
    forall j :: 0 <= j < |done| ==> Settled(done[j], done[j + 1..] + group)
  }

  lemma BeyondAt(rules: seq<Rule>, i: nat, j: nat)
    requires AllSettled(rules, []) && i < j < |rules|
    ensures Beyond(rules[i], rules[j])
  {
    var later := rules[i + 1..] + [];
    assert Settled(rules[i], later);
    assert rules[j] == later[j - i - 1];
  }

  /** Behind two settled rules with one start, nothing starts inside the longer of them. */
  lemma NoStartInside(rules: seq<Rule>, i: nat, j: nat, l: nat)
    requires AllSettled(rules, []) && i < j < |rules| && i < l < |rules|
    requires rules[i].start <= rules[i].end && rules[l].start <= rules[l].end
    requires rules[i].start == rules[j].start && rules[i].end < rules[j].end
    ensures rules[l].start != rules[i].end + 1
  {
    if l < j {
      BeyondAt(rules, l, j);
    } else if j < l {
      BeyondAt(rules, j, l);
    }
  }

  lemma NothingStarts(rules: seq<Rule>, i: nat, year: int)
    requires i < |rules| && forall l :: i < l < |rules| ==> rules[l].start != year
    ensures !HasStart(rules[i + 1..], year)
  {
  }

  lemma NoStartAt(rules: seq<Rule>, i: nat, j: nat, l: nat)
    requires AllSettled(rules, []) && WellFormed(rules) && i < j < |rules| && i < l < |rules|
    requires rules[i].start == rules[j].start && rules[i].end < rules[j].end
    ensures rules[l].start != rules[i].end + 1
  {
    assert rules[i] in rules && rules[l] in rules;
    NoStartInside(rules, i, j, l);
  }

  /** Two rules with one start and different ends cannot both be settled. */
  lemma SettledPair(rules: seq<Rule>, i: nat, j: nat)
    requires AllSettled(rules, []) && WellFormed(rules) && i < j < |rules|
    ensures EqualOrDisjoint(rules[i], rules[j])
  {
    BeyondAt(rules, i, j);
    if rules[i].start == rules[j].start && rules[i].end < rules[j].end {
      var later := rules[i + 1..] + [];
      assert Settled(rules[i], later);
      assert rules[j] == later[j - i - 1];
      forall l | i < l < |rules|
        ensures rules[l].start != rules[i].end + 1
      {
        NoStartAt(rules, i, j, l);
      }
      NothingStarts(rules, i, rules[i].end + 1);
      assert false;
    }
  }

  // ---------------------------------------------------------------------------------------------
  // What sorting does to positions
  // ---------------------------------------------------------------------------------------------

  /** Neither rule sorts before the other. */
  predicate Tied(x: Rule, y: Rule) {
    !Less(x, y) && !Less(y, x)
  }

  /** In a sorted sequence nothing at or behind a position sorts before it, and nothing up to it
      sorts after it. */
  lemma SortedAround(sorted: seq<Rule>, j: nat)
    requires Sorted(sorted) && j < |sorted|
    ensures forall q :: q in sorted[j..] ==> !Less(q, sorted[j])
    ensures forall q :: q in sorted[..j + 1] ==> !Less(sorted[j], q)
  {
    forall m | 0 <= m < |sorted[j..]|
      ensures !Less(sorted[j..][m], sorted[j])
    {
      assert sorted[j..][m] == sorted[j + m];
    }
  }

  /** Rules that occur nowhere in `rest` all have to fit into `part`. */
  lemma AllInPart(whole: seq<Rule>, part: seq<Rule>, rest: seq<Rule>, some: multiset<Rule>)
    requires multiset(whole) == multiset(part) + multiset(rest)
    requires some <= multiset(whole)
    requires forall r :: r in some ==> r !in rest
    ensures |some| <= |part|
  {
    assert some <= multiset(part);
    assert multiset(part) == some + (multiset(part) - some);
    assert |multiset(part)| == |part|;
  }

  /** If nothing in `back` sorts before anything in `front`, a sorted arrangement of both has, up to
      ties, the front rules first and the back rules last. */
  lemma SortedFront(sorted: seq<Rule>, front: seq<Rule>, back: seq<Rule>, j: nat)
    requires Sorted(sorted)
    requires multiset(sorted) == multiset(front) + multiset(back)
    requires forall v, u :: v in front && u in back ==> !Less(u, v)
    requires j < |front|
    ensures |sorted| == |front| + |back|
    ensures exists v :: v in front && Tied(sorted[j], v)
  {
    assert |multiset(sorted)| == |multiset(front)| + |multiset(back)|;
    var r := sorted[j];
    if forall v :: v in front ==> !Tied(r, v) {
      assert r in multiset(sorted) && Tied(r, r);
      assert r in back;
      SortedAround(sorted, j);
      assert sorted == sorted[..j] + sorted[j..];
      assert forall v :: v in front ==> v !in sorted[j..];
      AllInPart(sorted, sorted[..j], sorted[j..], multiset(front));
      assert false;
    }
  }

  lemma SortedBack(sorted: seq<Rule>, front: seq<Rule>, back: seq<Rule>, j: nat)
    requires Sorted(sorted)
    requires multiset(sorted) == multiset(front) + multiset(back)
    requires forall v, u :: v in front && u in back ==> !Less(u, v)
    requires |front| <= j < |sorted|
    ensures exists u :: u in back && Tied(sorted[j], u)
  {
    var r := sorted[j];
    assert r in multiset(sorted) && Tied(r, r);
    if r in front && forall u :: u in back ==> !Tied(r, u) {
      assert forall u :: u in back ==> Less(r, u);
      NotAllBehind(sorted, front, back, j);
    }
  }

  lemma NotAllBehind(sorted: seq<Rule>, front: seq<Rule>, back: seq<Rule>, j: nat)
    requires Sorted(sorted)
    requires multiset(sorted) == multiset(front) + multiset(back)
    requires |front| <= j < |sorted|
    ensures exists u :: u in back && !Less(sorted[j], u)
  {
    assert |multiset(sorted)| == |multiset(front)| + |multiset(back)|;
    if forall u :: u in back ==> Less(sorted[j], u) {
      SortedAround(sorted, j);
      assert sorted == sorted[..j + 1] + sorted[j + 1..];
      AllInPart(sorted, sorted[j + 1..], sorted[..j + 1], multiset(back));
    }
  }

  // ---------------------------------------------------------------------------------------------
  // One split followed by a sort
  // ---------------------------------------------------------------------------------------------

  /** The group right after splitting its first rule against the one at `k`, before sorting. */
  function SplitAt(group: seq<Rule>, k: nat): seq<Rule>
    requires 0 < k < |group|
  {
    [Head(group[0], group[k])] + group[1..k] + Pieces(group[0], group[k]) + group[k + 1..]
  }

  /** The loop state of one turn: the first rule of the sorted group has been compared with
      everything before `k`. */
  predicate Turn(group: seq<Rule>, k: nat)
    requires k <= |group|
  {
    && WellFormed(group)
    && Sorted(group)
    && (forall j :: 1 <= j < k ==> Beyond(group[0], group[j]))
  }

  predicate MustSplit(group: seq<Rule>, k: nat) {
    0 < k < |group| && Turn(group, k) && group[0].start <= group[k].start && Overlaps(group[0], group[k])
  }

  lemma InForceOfParts(a: seq<Rule>, b: seq<Rule>, c: seq<Rule>, d: seq<Rule>)
    ensures InForce(a + b + c + d) == (InForce(a) + InForce(c)) + (InForce(b) + InForce(d))
  {
    InForceConcat(a + b + c, d);
    InForceConcat(a + b, c);
    InForceConcat(a, b);
  }

  lemma InForceOfOne(r: Rule)
    ensures InForce([r]) == YearsOf(r)
  {
    assert InForce([r]) == YearsOf(r) + InForce([]);
  }

  lemma SplitAtKeepsYears(group: seq<Rule>, k: nat)
    requires MustSplit(group, k)
    ensures InForce(SplitAt(group, k)) == InForce(group)
  {
    var x, y := group[0], group[k];
    assert x in group && y in group;
    SplitKeepsYears(x, y);
    InForceOfOne(x);
    InForceOfOne(y);
    InForceOfOne(Head(x, y));
    var mid, tail := group[1..k], group[k + 1..];
    assert group == [x] + mid + [y] + tail;
    InForceOfParts([x], mid, [y], tail);
    InForceOfParts([Head(x, y)], mid, Pieces(x, y), tail);
  }

  lemma SplitAtWellFormed(group: seq<Rule>, k: nat)
    requires MustSplit(group, k)
    ensures WellFormed(SplitAt(group, k))
  {
    assert group[0] in group && group[k] in group;
    SplitWellFormed(group[0], group[k]);
  }

  /** The split group as a front (everything with the first rule's start that has been compared)
      and a back, nothing of which sorts before anything in the front. */
  ghost function Front(group: seq<Rule>, k: nat): seq<Rule>
    requires 0 < k < |group|
  {
    var x, y := group[0], group[k];
    [Head(x, y)] + group[1..k] + if x.start == y.start then [Pieces(x, y)[0]] else []
  }

  ghost function Back(group: seq<Rule>, k: nat): seq<Rule>
    requires 0 < k < |group|
  {
    var x, y := group[0], group[k];
    (if x.start == y.start then [Pieces(x, y)[1]] else Pieces(x, y)) + group[k + 1..]
  }

  lemma FrontBack(group: seq<Rule>, k: nat)
    requires MustSplit(group, k)
    ensures SplitAt(group, k) == Front(group, k) + Back(group, k)
    ensures forall v :: v in Front(group, k) ==>
      v.start == group[0].start && v.end >= Head(group[0], group[k]).end && !Less(group[k], v)
    ensures forall u :: u in Back(group, k) ==>
      u.start > Head(group[0], group[k]).end || !Less(u, group[k])
    ensures forall v, u :: v in Front(group, k) && u in Back(group, k) ==> !Less(u, v)
  {
    var x, y := group[0], group[k];
    assert x in group && y in group;
    forall j | 1 <= j < k
      ensures group[j].start == x.start && group[j].end >= x.end && !Less(y, group[j])
    {
      assert Beyond(x, group[j]);
      assert !Less(y, group[j]);
    }
    forall j | k < j < |group|
      ensures !Less(group[j], y)
    {
    }
  }

  /** A front rule that does not sort after the shortened first rule has the same years as it. */
  lemma FrontMinimum(group: seq<Rule>, k: nat, v: Rule)
    requires MustSplit(group, k)
    requires v in Front(group, k) && !Less(Head(group[0], group[k]), v)
    ensures v.start == group[0].start && v.end == Head(group[0], group[k]).end
  {
    FrontBack(group, k);
    var x, y := group[0], group[k];
    if v in group[1..k] {
      var j :| 0 <= j < |group[1..k]| && group[1..k][j] == v;
      assert v == group[1 + j];
      assert !Less(v, x);
    }
  }

  lemma FirstAfterSort(group: seq<Rule>, k: nat, sorted: seq<Rule>)
    requires MustSplit(group, k)
    requires Sorted(sorted) && multiset(sorted) == multiset(SplitAt(group, k))
    ensures |sorted| == |SplitAt(group, k)|
    ensures sorted[0].start == group[0].start && sorted[0].end == Head(group[0], group[k]).end
  {
    var h := Head(group[0], group[k]);
    FrontBack(group, k);
    SortedFront(sorted, Front(group, k), Back(group, k), 0);
    var v :| v in Front(group, k) && Tied(sorted[0], v);
    assert SplitAt(group, k)[0] == h;
    LeastOfSorted(sorted, SplitAt(group, k), h);
    FrontMinimum(group, k, v);
  }

  lemma LeastOfSorted(sorted: seq<Rule>, rules: seq<Rule>, r: Rule)
    requires Sorted(sorted) && multiset(sorted) == multiset(rules) && r in rules
    ensures |sorted| == |rules| > 0 && !Less(r, sorted[0])
  {
    assert |multiset(sorted)| == |multiset(rules)|;
    assert r in multiset(sorted);
    SortedAround(sorted, 0);
    assert sorted[0..] == sorted;
  }

  lemma RestAfterSort(group: seq<Rule>, k: nat, sorted: seq<Rule>, j: nat)
    requires MustSplit(group, k)
    requires Sorted(sorted) && multiset(sorted) == multiset(SplitAt(group, k))
    requires 1 <= j <= k < |sorted| && sorted[0].start == group[0].start
    requires sorted[0].end == Head(group[0], group[k]).end
    ensures Beyond(sorted[0], sorted[j])
  {
    var front, back := Front(group, k), Back(group, k);
    FrontBack(group, k);
    if j < |front| {
      SortedFront(sorted, front, back, j);
    } else {
      SortedBack(sorted, front, back, j);
    }
  }

  /** Every split leaves a rule that starts right behind what is left of the first one. */
  lemma StartBehindHead(group: seq<Rule>, k: nat)
    requires MustSplit(group, k)
    ensures HasStart(SplitAt(group, k), Head(group[0], group[k]).end + 1)
  {
    var x, y := group[0], group[k];
    var ps := Pieces(x, y);
    if x.start == y.start {
      assert ps[1] in SplitAt(group, k);
    } else {
      assert ps[1] in SplitAt(group, k);
    }
  }

  lemma HasStartPermutes(s: seq<Rule>, t: seq<Rule>, year: int)
    requires multiset(s) == multiset(t) && HasStart(s, year)
    ensures HasStart(t, year)
  {
    var q :| q in s && q.start == year;
    assert q in multiset(t);
  }

  /** Starts are never lost. */
  lemma SplitKeepsStarts(group: seq<Rule>, k: nat, year: int)
    requires MustSplit(group, k) && HasStart(group, year)
    ensures HasStart(SplitAt(group, k), year)
  {
    var i :| 0 <= i < |group| && group[i].start == year;
    var x, y := group[0], group[k];
    if i == 0 {
      assert Head(x, y) in SplitAt(group, k);
    } else if i == k {
      assert (if x.start == y.start then Pieces(x, y)[0] else Pieces(x, y)[1]) in SplitAt(group, k);
    } else if i < k {
      assert group[1..k][i - 1] in SplitAt(group, k);
    } else {
      assert group[k + 1..][i - k - 1] in SplitAt(group, k);
    }
  }

  predicate SameEndIfSameStart(r: Rule, q: Rule) {
    q.start == r.start ==> q.end == r.end
  }

  /** The pieces of a split keep what an earlier, finished rule promises about its two parents. */
  lemma PiecesBeyond(r: Rule, x: Rule, y: Rule, q: Rule)
    requires r.start <= r.end && x.start <= x.end && y.start <= y.end
    requires x.start <= y.start && Overlaps(x, y)
    requires Beyond(r, x) && Beyond(r, y)
    requires q == Head(x, y) || q in Pieces(x, y)
    ensures Beyond(r, q)
    ensures SameEndIfSameStart(r, x) && SameEndIfSameStart(r, y) ==> SameEndIfSameStart(r, q)
  {
  }

  lemma WhereFrom(group: seq<Rule>, k: nat, sorted: seq<Rule>, q: Rule)
    requires 0 < k < |group|
    requires multiset(sorted) == multiset(SplitAt(group, k))
    requires q in sorted
    ensures q in group || q == Head(group[0], group[k]) || q in Pieces(group[0], group[k])
  {
    assert q in multiset(SplitAt(group, k));
    InParts([Head(group[0], group[k])], group[1..k], Pieces(group[0], group[k]), group[k + 1..], q);
  }

  lemma InParts(a: seq<Rule>, b: seq<Rule>, c: seq<Rule>, d: seq<Rule>, q: Rule)
    requires q in a + b + c + d
    ensures q in a || q in b || q in c || q in d
  {
  }

  /** What an earlier, finished rule promises about the group survives a split and a sort of it. */
  lemma BeyondSurvives(r: Rule, group: seq<Rule>, k: nat, sorted: seq<Rule>)
    requires r.start <= r.end && MustSplit(group, k)
    requires multiset(sorted) == multiset(SplitAt(group, k))
    requires AllBeyond(r, group)
    ensures AllBeyond(r, sorted)
    ensures SameStartSameEnd(r, group) ==> SameStartSameEnd(r, sorted)
  {
    var x, y := group[0], group[k];
    assert x in group && y in group;
    forall q | q in sorted
      ensures Beyond(r, q)
      ensures SameStartSameEnd(r, group) ==> SameEndIfSameStart(r, q)
    {
      WhereFrom(group, k, sorted, q);
      if q !in group {
        PiecesBeyond(r, x, y, q);
      }
    }
  }

  lemma HasStartConcat(s: seq<Rule>, t: seq<Rule>, year: int)
    ensures HasStart(s + t, year) <==> HasStart(s, year) || HasStart(t, year)
  {
  }

  lemma SettledSurvives(r: Rule, between: seq<Rule>, group: seq<Rule>, k: nat, sorted: seq<Rule>)
    requires r.start <= r.end && MustSplit(group, k)
    requires multiset(sorted) == multiset(SplitAt(group, k))
    requires Settled(r, between + group)
    ensures Settled(r, between + sorted)
  {
    assert forall q :: q in group ==> q in between + group;
    assert forall q :: q in between ==> q in between + group;
    BeyondSurvives(r, group, k, sorted);
    HasStartConcat(between, group, r.end + 1);
    HasStartConcat(between, sorted, r.end + 1);
    if HasStart(group, r.end + 1) {
      SplitKeepsStarts(group, k, r.end + 1);
      HasStartPermutes(SplitAt(group, k), sorted, r.end + 1);
    }
  }

  // ---------------------------------------------------------------------------------------------
  // The loops
  // ---------------------------------------------------------------------------------------------

  /** Between two turns: the rules in `done` are finished, the open group is sorted, and together
      they cover the years covered at the start. */
  ghost predicate OuterState(done: seq<Rule>, group: seq<Rule>, years: Years) {
    && WellFormed(done + group)
    && InForce(done + group) == years
    && Sorted(group)
    && AllSettled(done, group)
  }

  /** Once the first rule has been shortened, something starts right behind it; until then every
      compared rule with its start also has its end. */
  predicate EndsAgree(group: seq<Rule>, k: nat)
    requires 0 < k <= |group|
  {
    HasStart(group, group[0].end + 1) || SameStartSameEnd(group[0], group[..k])
  }

  /** Within a turn: the first `k` rules of the group have been compared. */
  ghost predicate InnerState(done: seq<Rule>, group: seq<Rule>, k: nat, years: Years) {
    && OuterState(done, group, years)
    && 0 < k <= |group|
    && Turn(group, k)
    && EndsAgree(group, k)
  }

  lemma BeginTurn(done: seq<Rule>, group: seq<Rule>, years: Years)
    requires OuterState(done, group, years) && |group| > 0
    ensures InnerState(done, group, 1, years)
  {
    assert forall r :: r in group ==> r in done + group;
  }

  lemma NoOverlap(done: seq<Rule>, group: seq<Rule>, k: nat, years: Years)
    requires InnerState(done, group, k, years) && k < |group|
    requires group[0].start <= group[k].start && !Overlaps(group[0], group[k])
    ensures InnerState(done, group, k + 1, years)
  {
    assert group[..k + 1] == group[..k] + [group[k]];
    assert group[0] in group;
  }

  /** The first rule of a group that has been compared with all of it is settled. */
  lemma FirstSettled(group: seq<Rule>)
    requires |group| > 0 && Turn(group, |group|) && EndsAgree(group, |group|)
    ensures Settled(group[0], group[1..])
  {
    var r, later := group[0], group[1..];
    assert group == [r] + later;
    assert group[..|group|] == group;
    forall q | q in later
      ensures Beyond(r, q)
    {
      var m :| 0 <= m < |later| && later[m] == q;
      assert group[m + 1] == q;
    }
    HasStartConcat([r], later, r.end + 1);
    assert r in group;
  }

  lemma EndTurn(done: seq<Rule>, group: seq<Rule>, years: Years)
    requires InnerState(done, group, |group|, years)
    ensures OuterState(done + [group[0]], group[1..], years)
  {
    FirstSettled(group);
    var done', group' := done + [group[0]], group[1..];
    assert done' + group' == done + group;
    forall j | 0 <= j < |done'|
      ensures Settled(done'[j], done'[j + 1..] + group')
    {
      if j < |done| {
        assert done'[j + 1..] + group' == done[j + 1..] + group;
      } else {
        assert done'[j + 1..] + group' == group[1..];
      }
    }
  }

  lemma SplitTurn(group: seq<Rule>, k: nat, sorted: seq<Rule>)
    requires MustSplit(group, k) && Sorted(sorted) && multiset(sorted) == multiset(SplitAt(group, k))
    ensures |sorted| == |SplitAt(group, k)| && k < |sorted|
    ensures Turn(sorted, k + 1) && EndsAgree(sorted, k + 1)
    ensures InForce(sorted) == InForce(group)
  {
    FirstAfterSort(group, k, sorted);
    forall j | 1 <= j < k + 1
      ensures Beyond(sorted[0], sorted[j])
    {
      RestAfterSort(group, k, sorted, j);
    }
    StartBehindHead(group, k);
    HasStartPermutes(SplitAt(group, k), sorted, sorted[0].end + 1);
    SplitAtKeepsYears(group, k);
    InForcePermutation(SplitAt(group, k), sorted);
    SplitAtWellFormed(group, k);
    assert forall q :: q in sorted ==> q in multiset(SplitAt(group, k));
  }

  /** A split and sort of the open group keeps every finished rule settled. */
  lemma SplitKeepsSettled(done: seq<Rule>, group: seq<Rule>, k: nat, sorted: seq<Rule>)
    requires WellFormed(done) && AllSettled(done, group) && MustSplit(group, k)
    requires multiset(sorted) == multiset(SplitAt(group, k))
    ensures AllSettled(done, sorted)
  {
    forall j | 0 <= j < |done|
      ensures Settled(done[j], done[j + 1..] + sorted)
    {
      assert done[j] in done;
      SettledSurvives(done[j], done[j + 1..], group, k, sorted);
    }
  }

  /** One split and sort keeps the whole loop state and moves on to the next comparison. */
  lemma SplitStep(done: seq<Rule>, group: seq<Rule>, k: nat, years: Years, sorted: seq<Rule>)
    requires InnerState(done, group, k, years) && MustSplit(group, k)
    requires Sorted(sorted) && multiset(sorted) == multiset(SplitAt(group, k))
    ensures InnerState(done, sorted, k + 1, years)
  {
    assert forall r :: r in done ==> r in done + group;
    SplitTurn(group, k, sorted);
    SplitKeepsSettled(done, group, k, sorted);
    InForceConcat(done, group);
    InForceConcat(done, sorted);
  }

  lemma Finished(done: seq<Rule>, group: seq<Rule>, years: Years)
    requires OuterState(done, group, years) && |group| <= 1
    ensures forall i, j :: 0 <= i < j < |done + group| ==> EqualOrDisjoint((done + group)[i], (done + group)[j])
  {
    var all := done + group;
    assert AllSettled(all, []) by {
      forall j | 0 <= j < |all|
        ensures Settled(all[j], all[j + 1..] + [])
      {
        if j < |done| {
          assert all[j + 1..] + [] == done[j + 1..] + group;
        }
      }
    }
    forall i, j | 0 <= i < j < |all|
      ensures EqualOrDisjoint(all[i], all[j])
    {
      SettledPair(all, i, j);
    }
  }

  /** Any sorted rearrangement will do where the source calls the library sort. */
  method Sort(s: seq<Rule>) returns (t: seq<Rule>)
    ensures Sorted(t) && multiset(t) == multiset(s) && |t| == |s|
  {
    t := [];
    for n := 0 to |s|
      invariant Sorted(t) && multiset(t) == multiset(s[..n]) && |t| == n
    {
      t := InsertSorted(t, s[n]);
      assert s[..n + 1] == s[..n] + [s[n]];
    }
    assert s[..|s|] == s;
  }

  method InsertSorted(s: seq<Rule>, r: Rule) returns (t: seq<Rule>)
    requires Sorted(s)
    ensures Sorted(t) && multiset(t) == multiset(s) + multiset{r} && |t| == |s| + 1
  {
    var at := |s|;
    while at > 0 && Less(r, s[at - 1])
      invariant 0 <= at <= |s|
      invariant forall m :: at <= m < |s| ==> Less(r, s[m])
    {
      at := at - 1;
    }
    ghost var left, right := s[..at], s[at..];
    assert s == left + right;
    t := s[..at] + [r] + s[at..];
    InsertedSorted(left, r, right);
  }

  lemma InsertedSorted(left: seq<Rule>, r: Rule, right: seq<Rule>)
    requires Sorted(left + right)
    requires left != [] ==> !Less(r, left[|left| - 1])
    requires forall m :: 0 <= m < |right| ==> Less(r, right[m])
    ensures Sorted(left + [r] + right)
    ensures multiset(left + [r] + right) == multiset(left + right) + multiset{r}
  {
    var s, t := left + right, left + [r] + right;
    forall i, j | 0 <= i < j < |t|
      ensures !Less(t[j], t[i])
    {
      if j == |left| {
        assert t[i] == s[i] && left[|left| - 1] == s[|left| - 1];
        assert i < |left| - 1 ==> !Less(s[|left| - 1], s[i]);
      } else {
        assert t[j] == s[if j < |left| then j else j - 1];
        assert i != |left| ==> t[i] == s[if i < |left| then i else i - 1];
        assert i == |left| ==> t[j] == right[j - |left| - 1];
      }
    }
  }

  /** Where the two compared rules of the group lie in the whole vector, and what splitting them
      there does to the group. */
  lemma Located(a: seq<Rule>, group: seq<Rule>, k: nat, behind: seq<Rule>)
    requires 0 < k < |group|
    ensures var b, c := group[1..k], group[k + 1..] + behind;
            && a + group + behind == a + [group[0]] + b + [group[k]] + c
            && a + [Head(group[0], group[k])] + b + Pieces(group[0], group[k]) + c
               == a + SplitAt(group, k) + behind
    ensures (a + group + behind)[|a|] == group[0] && (a + group + behind)[|a| + k] == group[k]
  {
    var b, c := group[1..k], group[k + 1..];
    assert group == [group[0]] + b + [group[k]] + c;
    var split := [Head(group[0], group[k])] + b + Pieces(group[0], group[k]);
    assert a + (split + c) + behind == (a + split) + (c + behind);
    assert a + split == a + [Head(group[0], group[k])] + b + Pieces(group[0], group[k]);
  }

  lemma FirstIsLeast(group: seq<Rule>, k: nat)
    requires 0 < k < |group| && Sorted(group)
    ensures group[0].start <= group[k].start
  {
    assert !Less(group[k], group[0]);
  }

  /** The vector of rules that the source edits in place. */
  class RuleVector {
    var rules: seq<Rule>

    constructor (rules: seq<Rule>)
      ensures this.rules == rules
    {
      this.rules := rules;
    }

    /** `vector::insert`; the ghost arguments say where it splits the vector. */
    method Insert(at: nat, r: Rule, ghost left: seq<Rule>, ghost right: seq<Rule>)
      requires rules == left + right && at == |left|
      modifies this
      ensures rules == left + [r] + right
    {
      rules := rules[..at] + [r] + rules[at..];
    }

    method Assign(at: nat, r: Rule, ghost left: seq<Rule>, ghost right: seq<Rule>)
      requires at < |rules| && at == |left| && rules == left + [rules[at]] + right
      modifies this
      ensures rules == left + [r] + right
    {
      rules := rules[at := r];
    }

    /** `Rule::split`: splits the rules at `i` and `k` against each other and returns the new end of
        the group. The ghost arguments name what lies before, between and behind the two rules. */
    method Split(i: nat, k: nat, e: nat, ghost a: seq<Rule>, ghost b: seq<Rule>, ghost c: seq<Rule>)
      returns (e': nat)
      requires i < k < e <= |rules|
      requires i == |a| && k == |a| + 1 + |b| && rules == a + [rules[i]] + b + [rules[k]] + c
      requires rules[i].start <= rules[k].start && Overlaps(rules[i], rules[k])
      modifies this
      ensures var x, y := old(rules)[i], old(rules)[k];
              rules == a + [Head(x, y)] + b + Pieces(x, y) + c
      ensures e' == e + |rules| - |old(rules)|
    {
      if rules[i].start == rules[k].start {
        e' := SplitSameStart(i, k, e, a, b, c);
      } else {
        e' := SplitLaterStart(i, k, e, a, b, c);
      }
    }

    /** The branch for rules with one start. */
    method SplitSameStart(i: nat, k: nat, e: nat, ghost a: seq<Rule>, ghost b: seq<Rule>, ghost c: seq<Rule>)
      returns (e': nat)
      requires i < k < e <= |rules|
      requires i == |a| && k == |a| + 1 + |b| && rules == a + [rules[i]] + b + [rules[k]] + c
      requires rules[i].start == rules[k].start && Overlaps(rules[i], rules[k])
      modifies this
      ensures var x, y := old(rules)[i], old(rules)[k];
              rules == a + [Head(x, y)] + b + Pieces(x, y) + c
      ensures e' == e + |rules| - |old(rules)|
    {
      var x, y := rules[i], rules[k];
      if y.end < x.end {
        Insert(k + 1, x.(start := y.end + 1), a + [x] + b + [y], c);
        e' := e + 1;
        assert rules == a + [x] + (b + [y, x.(start := y.end + 1)] + c);
        Assign(i, x.(end := y.end), a, b + [y, x.(start := y.end + 1)] + c);
      } else {
        Insert(k + 1, y.(start := x.end + 1), a + [x] + b + [y], c);
        e' := e + 1;
        assert rules == (a + [x] + b) + [y] + ([y.(start := x.end + 1)] + c);
        Assign(k, y.(end := x.end), a + [x] + b, [y.(start := x.end + 1)] + c);
      }
    }

    /** The branch for a second rule that starts later. */
    method SplitLaterStart(i: nat, k: nat, e: nat, ghost a: seq<Rule>, ghost b: seq<Rule>, ghost c: seq<Rule>)
      returns (e': nat)
      requires i < k < e <= |rules|
      requires i == |a| && k == |a| + 1 + |b| && rules == a + [rules[i]] + b + [rules[k]] + c
      requires rules[i].start < rules[k].start && Overlaps(rules[i], rules[k])
      modifies this
      ensures var x, y := old(rules)[i], old(rules)[k];
              rules == a + [Head(x, y)] + b + Pieces(x, y) + c
      ensures e' == e + |rules| - |old(rules)|
    {
      var x, y := rules[i], rules[k];
      assert rules == (a + [x] + b) + ([y] + c);
      if y.end < x.end {
        var middle := x.(start := y.start, end := y.end);
        Insert(k, middle, a + [x] + b, [y] + c);
        assert rules == (a + [x] + b + [middle, y]) + c;
        Insert(k + 2, x.(start := y.end + 1), a + [x] + b + [middle, y], c);
        assert rules == a + [x] + (b + Pieces(x, y) + c);
        Assign(i, x.(end := y.start - 1), a, b + Pieces(x, y) + c);
        e' := e + 2;
      } else if y.end > x.end {
        var middle := x.(start := y.start);
        Insert(k, middle, a + [x] + b, [y] + c);
        assert rules == (a + [x] + b + [middle, y]) + c;
        Insert(k + 2, y.(start := x.end + 1), a + [x] + b + [middle, y], c);
        e' := e + 2;
        assert rules == (a + [x] + b + [middle]) + [y] + ([y.(start := x.end + 1)] + c);
        Assign(k + 1, y.(end := x.end), a + [x] + b + [middle], [y.(start := x.end + 1)] + c);
        assert rules == a + [x] + (b + Pieces(x, y) + c);
        Assign(i, x.(end := y.start - 1), a, b + Pieces(x, y) + c);
      } else {
        Insert(k, x.(start := y.start), a + [x] + b, [y] + c);
        e' := e + 1;
        assert rules == a + [x] + (b + Pieces(x, y) + c);
        Assign(i, x.(end := y.start - 1), a, b + Pieces(x, y) + c);
      }
    }

    /** `std::sort` on the positions of `part`. */
    method SortRange(i: nat, e: nat, ghost a: seq<Rule>, ghost part: seq<Rule>, ghost c: seq<Rule>)
      returns (ghost sorted: seq<Rule>)
      requires rules == a + part + c && i == |a| && e == |a| + |part|
      modifies this
      ensures rules == a + sorted + c
      ensures Sorted(sorted) && multiset(sorted) == multiset(part) && |sorted| == |part|
    {
      assert rules[..i] == a && rules[i..e] == part && rules[e..] == c;
      var result := Sort(rules[i..e]);
      rules := rules[..i] + result + rules[e..];
      sorted := result;
    }

    /** The body of the inner loop: compares the rules at `i` and `k`, and splits and sorts when they
        overlap. */
    method Compare(i: nat, k: nat, e: nat, ghost before: seq<Rule>, ghost done: seq<Rule>,
                   ghost group: seq<Rule>, ghost behind: seq<Rule>, ghost years: Years)
      returns (e': nat, ghost group': seq<Rule>)
      requires rules == before + done + group + behind
      requires i == |before| + |done| && e == i + |group| && i < k < e
      requires InnerState(done, group, k - i, years)
      modifies this
      ensures rules == before + done + group' + behind
      ensures e' == i + |group'| && e' >= e
      ensures InnerState(done, group', k - i + 1, years)
    {
      ghost var a, b, c := before + done, group[1..k - i], group[k - i + 1..] + behind;
      Located(a, group, k - i, behind);
      FirstIsLeast(group, k - i);
      if Overlaps(rules[i], rules[k]) {
        e' := Split(i, k, e, a, b, c);
        group' := SortRange(i, e', a, SplitAt(group, k - i), behind);
        SplitStep(done, group, k - i, years, group');
      } else {
        NoOverlap(done, group, k - i, years);
        e', group' := e, group;
      }
    }

    /** The inner loop: compares the rule at `i` with everything behind it in the group. */
    method CompareWithRest(i: nat, e: nat, ghost before: seq<Rule>, ghost done: seq<Rule>,
                           ghost group: seq<Rule>, ghost behind: seq<Rule>, ghost years: Years)
      returns (e': nat, ghost group': seq<Rule>)
      requires rules == before + done + group + behind
      requires i == |before| + |done| && e == i + |group| && i < e
      requires OuterState(done, group, years)
      modifies this
      ensures rules == before + done + group' + behind
      ensures e' == i + |group'| && e' >= e
      ensures InnerState(done, group', |group'|, years)
    {
      e', group' := e, group;
      BeginTurn(done, group, years);
      var k := i + 1;
      while k < e'
        invariant rules == before + done + group' + behind
        invariant e' == i + |group'| && e' >= e && i < k <= e'
        invariant InnerState(done, group', k - i, years)
        decreases |before| + |years| - e', e' - k
      {
        e', group' := Compare(i, k, e', before, done, group', behind, years);
        SizeBound(done + group');
        k := k + 1;
      }
    }

    /** One pass of the outer loop: afterwards the rule at `i` is done. */
    method Turn(i: nat, e: nat, ghost before: seq<Rule>, ghost done: seq<Rule>,
                ghost group: seq<Rule>, ghost behind: seq<Rule>, ghost years: Years)
      returns (e': nat, ghost done': seq<Rule>, ghost group': seq<Rule>)
      requires rules == before + done + group + behind
      requires i == |before| + |done| && e == i + |group| && i < e
      requires OuterState(done, group, years)
      modifies this
      ensures rules == before + done' + group' + behind
      ensures |done'| == |done| + 1 && e' == i + 1 + |group'| && e' >= e
      ensures |done'| + |group'| <= |years|
      ensures OuterState(done', group', years)
    {
      e', group' := CompareWithRest(i, e, before, done, group, behind, years);
      SizeBound(done + group');
      EndTurn(done, group', years);
      MoveToDone(before, done, group', behind);
      done', group' := done + [group'[0]], group'[1..];
    }

    /** `Rule::split_overlaps` on one group of same-named rules: terminates although every split
        enlarges the range being scanned, keeps the rules in force in every year, and leaves any two
        year intervals equal or disjoint. */
    method SplitOverlaps(first: nat, end: nat) returns (e: nat, ghost result: seq<Rule>)
      requires first <= end <= |rules|
      requires WellFormed(rules[first..end]) && Sorted(rules[first..end])
      modifies this
      ensures e == first + |result|
      ensures rules == old(rules)[..first] + result + old(rules)[end..]
      ensures InForce(result) == InForce(old(rules)[first..end])
      ensures forall i, j :: 0 <= i < j < |result| ==> EqualOrDisjoint(result[i], result[j])
      ensures WellFormed(result)
    {
      ghost var before, behind := rules[..first], rules[end..];
      ghost var group := rules[first..end];
      assert rules == before + group + behind;
      e, result := SplitGroup(first, end, before, group, behind);
    }

    /** The outer loop. */
    method SplitGroup(first: nat, end: nat, ghost before: seq<Rule>, ghost group: seq<Rule>, ghost behind: seq<Rule>)
      returns (e: nat, ghost result: seq<Rule>)
      requires rules == before + group + behind && first == |before| && end == first + |group|
      requires WellFormed(group) && Sorted(group)
      modifies this
      ensures e == first + |result| && rules == before + result + behind
      ensures InForce(result) == InForce(group) && WellFormed(result)
      ensures forall i, j :: 0 <= i < j < |result| ==> EqualOrDisjoint(result[i], result[j])
    {
      ghost var years := InForce(group);
      ghost var done: seq<Rule>, rest := [], group;
      assert done + rest == rest && before + done == before;
      var i := first;
      e := end;
      while i + 1 < e
        invariant OuterState(done, rest, years)
        invariant i == first + |done| && e == i + |rest|
        invariant rules == before + done + rest + behind
        decreases first + |years| - e, e - i
      {
        e, done, rest := Turn(i, e, before, done, rest, behind, years);
        i := i + 1;
      }
      Finished(done, rest, years);
      result := done + rest;
      assert before + result == before + done + rest;
    }
  }

  lemma MoveToDone(before: seq<Rule>, done: seq<Rule>, group: seq<Rule>, behind: seq<Rule>)
    requires |group| > 0
    ensures before + done + group + behind == before + (done + [group[0]]) + group[1..] + behind
  {
    assert group == [group[0]] + group[1..];
  }
}
