/** Partitioning a campaign across executors: round robin, or by largest remainder. */
module Split {
  import opened Prelude
  import opened Sets

  datatype SplitError = NoExecutors | BadWeights

  // ---- sums

  function Total(s: seq<int>): int {
    if s == [] then 0 else Total(s[..|s| - 1]) + s[|s| - 1]
  }

  function RealTotal(s: seq<real>): real {
    if s == [] then 0.0 else RealTotal(s[..|s| - 1]) + s[|s| - 1]
  }

  lemma {:induction false} TotalUpdate(s: seq<int>, i: nat, x: int)
    requires i < |s|
    ensures Total(s[i := x]) == Total(s) - s[i] + x
  {
    var n := |s| - 1;
    if i == n {
      assert s[i := x][..n] == s[..n];
    } else {
      TotalUpdate(s[..n], i, x);
      assert s[i := x][..n] == s[..n][i := x];
    }
  }

  // ---- exact shares

  predicate ValidWeights(weights: seq<real>, k: nat) {
    |weights| == k && RealTotal(weights) > 0.0 && forall w :: w in weights ==> w >= 0.0
  }

  ghost predicate NoneNegative(weights: seq<real>) {
    forall b :: 0 <= b < |weights| ==> weights[b] >= 0.0
  }

  lemma WeightsAreChecked(weights: seq<real>, k: nat)
    ensures ValidWeights(weights, k) <==> |weights| == k && RealTotal(weights) > 0.0 && NoneNegative(weights)
  {
    forall b | 0 <= b < |weights| ensures weights[b] in weights {
    }
  }

  function Share(w: real, total: real, n: nat): real
    requires total > 0.0
  {
    w / total * n as real
  }

  function Shares(weights: seq<real>, n: nat): seq<real>
    requires RealTotal(weights) > 0.0
  {
    seq(|weights|, i requires 0 <= i < |weights| => Share(weights[i], RealTotal(weights), n))
  }

  lemma ShareIsNonNegative(w: real, total: real, n: nat)
    requires total > 0.0 && w >= 0.0
    ensures Share(w, total, n) >= 0.0 && (w == 0.0 ==> Share(w, total, n) == 0.0)
  {
    assert w / total >= 0.0;
  }

  lemma ShareAdds(a: real, b: real, total: real, n: nat)
    requires total > 0.0
    ensures Share(a + b, total, n) == Share(a, total, n) + Share(b, total, n)
  {
    assert (a + b) / total == a / total + b / total;
  }

  lemma {:induction false} SharesOfPrefix(weights: seq<real>, shares: seq<real>, total: real, n: nat, m: nat)
    requires total > 0.0 && |shares| == |weights| && m <= |weights|
    requires forall i :: 0 <= i < |weights| ==> shares[i] == Share(weights[i], total, n)
    ensures RealTotal(shares[..m]) == Share(RealTotal(weights[..m]), total, n)
  {
    if m > 0 {
      SharesOfPrefix(weights, shares, total, n, m - 1);
      assert shares[..m][..m - 1] == shares[..m - 1] && weights[..m][..m - 1] == weights[..m - 1];
      ShareAdds(RealTotal(weights[..m - 1]), weights[m - 1], total, n);
    } else {
      assert 0.0 / total * n as real == 0.0;
    }
  }

  /** Exact shares are never negative, add up to the number of configs, and are nothing for
      an executor without weight. */
  lemma SharesAreExact(weights: seq<real>, n: nat)
    requires ValidWeights(weights, |weights|)
    ensures RealTotal(Shares(weights, n)) == n as real
    ensures forall i :: 0 <= i < |weights| ==>
              Shares(weights, n)[i] >= 0.0 && (weights[i] == 0.0 ==> Shares(weights, n)[i] == 0.0)
  {
    var total, shares := RealTotal(weights), Shares(weights, n);
    SharesOfPrefix(weights, shares, total, n, |weights|);
    assert shares[..|weights|] == shares && weights[..|weights|] == weights;
    assert total / total == 1.0;
    forall i | 0 <= i < |weights| ensures shares[i] >= 0.0 && (weights[i] == 0.0 ==> shares[i] == 0.0) {
      assert weights[i] in weights;
      ShareIsNonNegative(weights[i], total, n);
    }
  }

  function Fraction(x: real): real { x - x.Floor as real }

  function Fractions(shares: seq<real>): seq<real> {
    seq(|shares|, i requires 0 <= i < |shares| => Fraction(shares[i]))
  }

  function Floors(shares: seq<real>): seq<int> {
    seq(|shares|, i requires 0 <= i < |shares| => shares[i].Floor)
  }

  lemma {:induction false} SharesAreFloorsAndFractions(shares: seq<real>)
    ensures RealTotal(shares) == Total(Floors(shares)) as real + RealTotal(Fractions(shares))
  {
    if shares != [] {
      var n := |shares| - 1;
      SharesAreFloorsAndFractions(shares[..n]);
      assert Floors(shares)[..n] == Floors(shares[..n]) && Fractions(shares)[..n] == Fractions(shares[..n]);
    }
  }

  ghost function Positive(keys: seq<real>, m: nat): set<nat>
    requires m <= |keys|
  {
    set i: nat | i < m && keys[i] > 0.0
  }

  /** Fractions add up to no more than the number of positive ones. */
  lemma {:induction false} FractionsAreFew(keys: seq<real>, m: nat)
    requires m <= |keys| && forall i :: 0 <= i < |keys| ==> 0.0 <= keys[i] < 1.0
    ensures 0.0 <= RealTotal(keys[..m]) <= |Positive(keys, m)| as real
  {
    if m > 0 {
      FractionsAreFew(keys, m - 1);
      assert keys[..m][..m - 1] == keys[..m - 1];
      if keys[m - 1] > 0.0 {
        assert Positive(keys, m) == Positive(keys, m - 1) + {m - 1};
      } else {
        assert Positive(keys, m) == Positive(keys, m - 1);
      }
    }
  }

  // ---- ranking

  ghost predicate Before(keys: seq<real>, a: nat, b: nat)
    requires a < |keys| && b < |keys|
  {
    keys[a] > keys[b] || (keys[a] == keys[b] && a < b)
  }

  /** The first m indices, each once, by descending key, ties in index order. */
  ghost predicate Ranked(keys: seq<real>, order: seq<nat>, m: nat) {
    && m <= |keys| && |order| == m
    && (forall i :: 0 <= i < m ==> order[i] < m)
    && (forall i, j :: 0 <= i < j < m ==> Before(keys, order[i], order[j]))
  }

  /** Sorts the indices by key, descending and stable. */
  method Rank(keys: seq<real>) returns (order: seq<nat>)
    ensures Ranked(keys, order, |keys|)
  {
    order := [];
    for m := 0 to |keys|
      invariant Ranked(keys, order, m)
    {
      var at: nat := |order|;
      while at > 0 && keys[order[at - 1]] < keys[m]
        invariant forall i :: at <= i < |order| ==> keys[order[i]] < keys[m]
      {
        at := at - 1;
      }
      InsertKeepsRank(keys, order, m, at);
      order := order[..at] + [m] + order[at..];
    }
  }

  lemma InsertKeepsRank(keys: seq<real>, order: seq<nat>, m: nat, at: nat)
    requires m < |keys| && Ranked(keys, order, m) && at <= m
    requires forall i :: at <= i < m ==> keys[order[i]] < keys[m]
    requires at > 0 ==> keys[order[at - 1]] >= keys[m]
    ensures Ranked(keys, order[..at] + [m] + order[at..], m + 1)
  {
    var next := order[..at] + [m] + order[at..];
    forall i | 0 <= i < m + 1 ensures next[i] < m + 1 {
      assert next[i] == if i < at then order[i] else if i == at then m else order[i - 1];
    }
    forall i, j | 0 <= i < j < m + 1 ensures Before(keys, next[i], next[j]) {
      if j == at {
        assert next[i] == order[i] && (i < at - 1 ==> Before(keys, order[i], order[at - 1]));
      } else if i != at {
        assert Before(keys, order[if i < at then i else i - 1], order[if j < at then j else j - 1]);
      }
    }
  }

  ghost function Range(n: nat): (r: set<nat>)
    ensures (forall x: nat :: x in r <==> x < n) && |r| == n
  {
    if n == 0 then {} else Range(n - 1) + {n - 1}
  }

  ghost function Elements(s: seq<nat>): set<nat> { set x | x in s }

  lemma {:induction false} PrefixSize(keys: seq<real>, order: seq<nat>, j: nat)
    requires Ranked(keys, order, |keys|) && j <= |order|
    ensures |Elements(order[..j])| == j
  {
    if j > 0 {
      PrefixSize(keys, order, j - 1);
      NotBefore(keys, order, j - 1);
      assert order[..j] == order[..j - 1] + [order[j - 1]];
      assert Elements(order[..j]) == Elements(order[..j - 1]) + {order[j - 1]};
    }
  }

  lemma NotBefore(keys: seq<real>, order: seq<nat>, j: nat)
    requires Ranked(keys, order, |keys|) && j < |order|
    ensures order[j] !in order[..j]
  {
    forall i | 0 <= i < j ensures order[i] != order[j] {
      assert Before(keys, order[i], order[j]);
    }
  }

  /** Every index has a place in the ranking. */
  lemma RankCovers(keys: seq<real>, order: seq<nat>, i: nat)
    requires Ranked(keys, order, |keys|) && i < |keys|
    ensures i in order
  {
    PrefixSize(keys, order, |keys|);
    assert order[..|keys|] == order;
    SubsetOfSameSize(Elements(order), Range(|keys|));
    assert i in Elements(order);
  }

  // ---- apportionment

  function SquaredError(shares: seq<real>, counts: seq<int>): real
    requires |shares| == |counts|
  {
    if shares == [] then 0.0
    else
      var n := |shares| - 1;
      SquaredError(shares[..n], counts[..n]) + Square(counts[n] as real - shares[n])
  }

  function Square(x: real): real { x * x }

  /** The executors a count rounds up for are those with the largest fractions. */
  ghost predicate RoundsUpLargest(shares: seq<real>, counts: seq<int>) {
    && |counts| == |shares|
    && (forall i :: 0 <= i < |shares| ==> counts[i] == shares[i].Floor || counts[i] == shares[i].Floor + 1)
    && (forall i, j ::
          0 <= i < |shares| && 0 <= j < |shares| && RoundedUp(shares, counts, i) && !RoundedUp(shares, counts, j)
          ==> Fraction(shares[i]) > Fraction(shares[j]) || (Fraction(shares[i]) == Fraction(shares[j]) && i < j))
  }

  ghost predicate RoundedUp(shares: seq<real>, counts: seq<int>, i: nat)
    requires i < |shares| && |counts| == |shares|
  {
    counts[i] == shares[i].Floor + 1
  }

  /** Rounded up only where there is something to round. */
  ghost predicate FloorOrCeiling(shares: seq<real>, counts: seq<int>) {
    |counts| == |shares| &&
    forall i :: 0 <= i < |shares| ==>
      counts[i] == shares[i].Floor || (counts[i] == shares[i].Floor + 1 && Fraction(shares[i]) > 0.0)
  }

  lemma LeftoverFits(shares: seq<real>, n: nat)
    requires RealTotal(shares) == n as real
    ensures 0 <= n - Total(Floors(shares)) <= |shares|
    ensures (n - Total(Floors(shares))) as real <= |Positive(Fractions(shares), |shares|)| as real
  {
    SharesAreFloorsAndFractions(shares);
    FractionsAreFew(Fractions(shares), |shares|);
    assert Fractions(shares)[..|shares|] == Fractions(shares);
    SubsetSize(Positive(Fractions(shares), |shares|), Range(|shares|));
  }

  /** The first `extra` in rank have positive fractions when that many exist. */
  lemma TopArePositive(keys: seq<real>, order: seq<nat>, extra: nat, i: nat)
    requires Ranked(keys, order, |keys|) && extra <= |keys| && extra <= |Positive(keys, |keys|)| && i < extra
    ensures keys[order[i]] > 0.0
  {
    if keys[order[i]] <= 0.0 {
      forall x | x in Positive(keys, |keys|) ensures x in Elements(order[..i]) {
        RankCovers(keys, order, x);
        var j :| 0 <= j < |order| && order[j] == x;
        assert j > i ==> Before(keys, order[i], order[j]);
        assert j < i ==> order[..i][j] == x;
      }
      PrefixSize(keys, order, i);
      SubsetSize(Positive(keys, |keys|), Elements(order[..i]));
    }
  }

  /** Counts by largest remainder: floors, and one more for the highest fractions. */
  method Apportion(shares: seq<real>, n: nat) returns (counts: seq<int>)
    requires RealTotal(shares) == n as real && forall x :: x in shares ==> x >= 0.0
    ensures FloorOrCeiling(shares, counts) && RoundsUpLargest(shares, counts)
    ensures Total(counts) == n
  {
    LeftoverFits(shares, n);
    counts := Floors(shares);
    var keys := Fractions(shares);
    var order := Rank(keys);
    var extra := n - Total(counts);
    for j := 0 to extra
      invariant |counts| == |shares| && Total(counts) == Total(Floors(shares)) + j
      invariant forall i :: 0 <= i < |shares| ==>
                  counts[i] == shares[i].Floor + if i in order[..j] then 1 else 0
    {
      var i := order[j];
      NotBefore(keys, order, j);
      TotalUpdate(counts, i, counts[i] + 1);
      assert order[..j + 1] == order[..j] + [i];
      counts := counts[i := counts[i] + 1];
    }
    forall i | 0 <= i < extra ensures keys[order[i]] > 0.0 {
      TopArePositive(keys, order, extra, i);
    }
    TopIsLargest(shares, counts, order, extra);
  }

  lemma TopIsLargest(shares: seq<real>, counts: seq<int>, order: seq<nat>, extra: nat)
    requires Ranked(Fractions(shares), order, |shares|) && extra <= |shares| && |counts| == |shares|
    requires forall i :: 0 <= i < |shares| ==> counts[i] == shares[i].Floor + if i in order[..extra] then 1 else 0
    ensures RoundsUpLargest(shares, counts)
  {
    var keys := Fractions(shares);
    assert forall y :: 0 <= y < extra ==> order[..extra][y] == order[y];
    forall i, j |
      0 <= i < |shares| && 0 <= j < |shares| && RoundedUp(shares, counts, i) && !RoundedUp(shares, counts, j)
      ensures Before(keys, i, j)
    {
      var a :| 0 <= a < extra && order[a] == i;
      RankCovers(keys, order, j);
      var b :| 0 <= b < |order| && order[b] == j;
      assert Before(keys, order[a], order[b]);
    }
  }

  /** Moving one count away from its choice never pays more than the threshold allows. */
  lemma ErrorGap(e: real, f: int, c: int, x: int, t: real)
    requires f as real <= e < f as real + 1.0 && 0.0 <= t <= 1.0
    requires (c == f && e - f as real <= t) || (c == f + 1 && e - f as real >= t)
    ensures Square(x as real - e) - Square(c as real - e) >= Slope(t, x - c)
  {
    var d := (x - c) as real;
    var slack := d + 2.0 * (c as real - e) - 1.0 + 2.0 * t;
    assert Square(x as real - e) - Square(c as real - e) - (1.0 - 2.0 * t) * d == d * slack;
    if x - c >= 1 {
      assert d >= 1.0 && slack >= 0.0;
    } else if x - c <= -1 {
      assert d <= -1.0 && slack <= 0.0;
    }
  }

  function Slope(t: real, d: int): real { (1.0 - 2.0 * t) * d as real }

  lemma SlopeAdds(t: real, a: int, b: int)
    ensures Slope(t, a + b) == Slope(t, a) + Slope(t, b)
  {
  }

  lemma {:induction false} ErrorGaps(shares: seq<real>, counts: seq<int>, other: seq<int>, t: real)
    requires |counts| == |shares| == |other| && 0.0 <= t <= 1.0
    requires forall i :: 0 <= i < |shares| ==>
               (counts[i] == shares[i].Floor && Fraction(shares[i]) <= t)
               || (counts[i] == shares[i].Floor + 1 && Fraction(shares[i]) >= t)
    ensures SquaredError(shares, other) - SquaredError(shares, counts) >= Slope(t, Total(other) - Total(counts))
  {
    if shares != [] {
      var n := |shares| - 1;
      ErrorGaps(shares[..n], counts[..n], other[..n], t);
      ErrorGap(shares[n], shares[n].Floor, counts[n], other[n], t);
      SlopeAdds(t, Total(other[..n]) - Total(counts[..n]), other[n] - counts[n]);
    }
  }

  /** The fraction that separates those rounded up from the rest. */
  lemma Threshold(shares: seq<real>, counts: seq<int>) returns (t: real)
    requires RoundsUpLargest(shares, counts)
    ensures 0.0 <= t <= 1.0
    ensures forall i :: 0 <= i < |shares| ==>
              (counts[i] == shares[i].Floor && Fraction(shares[i]) <= t)
              || (counts[i] == shares[i].Floor + 1 && Fraction(shares[i]) >= t)
  {
    t := SmallestRoundedUp(shares, counts, |shares|);
    forall i | 0 <= i < |shares| && !RoundedUp(shares, counts, i) ensures Fraction(shares[i]) <= t {
      assert t == 1.0 || exists j :: 0 <= j < |shares| && RoundedUp(shares, counts, j) && Fraction(shares[j]) == t;
    }
  }

  lemma {:induction false} SmallestRoundedUp(shares: seq<real>, counts: seq<int>, m: nat) returns (t: real)
    requires |counts| == |shares| && m <= |shares|
    ensures 0.0 <= t <= 1.0
    ensures forall i :: 0 <= i < m && RoundedUp(shares, counts, i) ==> Fraction(shares[i]) >= t
    ensures t == 1.0 || exists j :: 0 <= j < m && RoundedUp(shares, counts, j) && Fraction(shares[j]) == t
  {
    if m == 0 {
      t := 1.0;
    } else {
      t := SmallestRoundedUp(shares, counts, m - 1);
      if RoundedUp(shares, counts, m - 1) && Fraction(shares[m - 1]) < t {
        t := Fraction(shares[m - 1]);
      }
    }
  }

  /** No whole-number split of the same total comes closer to the exact shares. */
  lemma LargestRemainderIsOptimal(shares: seq<real>, counts: seq<int>, other: seq<int>)
    requires RoundsUpLargest(shares, counts) && |other| == |shares| && Total(other) == Total(counts)
    ensures SquaredError(shares, counts) <= SquaredError(shares, other)
  {
    var t := Threshold(shares, counts);
    ErrorGaps(shares, counts, other, t);
  }

  // ---- the partition

  function Concat<T>(buckets: seq<seq<T>>): seq<T> {
    if buckets == [] then [] else Concat(buckets[..|buckets| - 1]) + buckets[|buckets| - 1]
  }

  /** Cuts the list into consecutive runs of the given lengths. */
  method Cut<T>(configs: seq<T>, counts: seq<int>) returns (buckets: seq<seq<T>>)
    requires Total(counts) == |configs| && forall i :: 0 <= i < |counts| ==> counts[i] >= 0
    ensures |buckets| == |counts| && forall b :: 0 <= b < |counts| ==> |buckets[b]| == counts[b]
    ensures Concat(buckets) == configs
  {
    buckets := [];
    var pos := 0;
    for b := 0 to |counts|
      invariant |buckets| == b && pos == Total(counts[..b]) && 0 <= pos <= |configs|
      invariant forall a :: 0 <= a < b ==> |buckets[a]| == counts[a]
      invariant Concat(buckets) == configs[..pos]
    {
      assert counts[..b + 1][..b] == counts[..b];
      PrefixTotal(counts, b + 1);
      var n := counts[b];
      ghost var before := buckets;
      buckets := buckets + [configs[pos..pos + n]];
      assert buckets[..b] == before;
      pos := pos + n;
    }
    assert counts[..|counts|] == counts && configs[..pos] == configs;
  }

  lemma {:induction false} PrefixTotal(counts: seq<int>, m: nat)
    requires m <= |counts| && forall i :: 0 <= i < |counts| ==> counts[i] >= 0
    ensures 0 <= Total(counts[..m]) <= Total(counts)
    decreases |counts|
  {
    if counts == [] {
      assert counts[..m] == [];
    } else if m == |counts| {
      PrefixTotal(counts[..m - 1], m - 1);
      assert counts[..m] == counts && counts[..m - 1][..m - 1] == counts[..m - 1];
    } else {
      PrefixTotal(counts[..|counts| - 1], m);
      assert counts[..|counts| - 1][..m] == counts[..m];
    }
  }

  lemma {:induction false} ConcatGrows<T>(buckets: seq<seq<T>>, b: nat, c: T)
    requires b < |buckets|
    ensures multiset(Concat(buckets[b := buckets[b] + [c]])) == multiset(Concat(buckets)) + multiset{c}
  {
    var n := |buckets| - 1;
    var next := buckets[b := buckets[b] + [c]];
    if b == n {
      assert next[..n] == buckets[..n];
    } else {
      ConcatGrows(buckets[..n], b, c);
      assert next[..n] == buckets[..n][b := buckets[..n][b] + [c]];
    }
  }

  lemma {:induction false} ConcatOfEmpty<T>(k: nat)
    ensures Concat(seq<seq<T>>(k, _ => [])) == []
  {
    if k > 0 {
      ConcatOfEmpty<T>(k - 1);
      assert seq<seq<T>>(k, _ => [])[..k - 1] == seq<seq<T>>(k - 1, _ => []);
    }
  }

  lemma Division(a: int, k: nat, q: int, r: nat)
    requires k > 0 && a == q * k + r && r < k
    ensures a / k == q && a % k == r
  {
    var d := a / k - q;
    assert d >= 1 ==> d * k >= k;
    assert d <= -1 ==> d * k <= 0 - k;
    assert d * k == r - a % k;
  }

  /** Whose turn comes next, and in which round. */
  lemma NextTurn(i: nat, k: nat)
    requires k > 0
    ensures if i % k + 1 < k then (i + 1) / k == i / k && (i + 1) % k == i % k + 1
            else (i + 1) / k == i / k + 1 && (i + 1) % k == 0
  {
    var q, r := i / k, i % k;
    if r + 1 < k {
      Division(i + 1, k, q, r + 1);
    } else {
      assert (q + 1) * k == q * k + k;
      Division(i + 1, k, q + 1, 0);
    }
  }

  /** After i configs: whose turn it is, the round, and how many each executor has. */
  ghost predicate Balanced<T>(buckets: seq<seq<T>>, k: nat, turn: nat, round: nat) {
    |buckets| == k && forall b :: 0 <= b < k ==> |buckets[b]| == round + if b < turn then 1 else 0
  }

  /** Config j sits in its executor's bucket, at its round. */
  ghost predicate Seated<T>(buckets: seq<seq<T>>, configs: seq<T>, k: nat, j: nat)
    requires k > 0 && |buckets| == k && j < |configs|
  {
    j / k < |buckets[j % k]| && buckets[j % k][j / k] == configs[j]
  }

  /** A whole round-robin split. */
  ghost predicate InTurn<T>(buckets: seq<seq<T>>, configs: seq<T>, k: nat) {
    k > 0 && Balanced(buckets, k, |configs| % k, |configs| / k)
    && forall i :: 0 <= i < |configs| ==> Seated(buckets, configs, k, i)
  }

  lemma SeatsAreKept<T>(buckets: seq<seq<T>>, next: seq<seq<T>>, configs: seq<T>, k: nat, j: nat)
    requires k > 0 && |buckets| == |next| == k && j < |configs| && Seated(buckets, configs, k, j)
    requires forall b :: 0 <= b < k ==> buckets[b] <= next[b]
    ensures Seated(next, configs, k, j)
  {
  }

  lemma DealtInTurn<T>(buckets: seq<seq<T>>, configs: seq<T>, k: nat, c: T)
    requires InTurn(buckets, configs, k)
    ensures InTurn(buckets[|configs| % k := buckets[|configs| % k] + [c]], configs + [c], k)
  {
    var i := |configs|;
    var next := buckets[i % k := buckets[i % k] + [c]];
    NextTurn(i, k);
    forall j | 0 <= j < i + 1 ensures Seated(next, configs + [c], k, j) {
      if j < i {
        assert Seated(buckets, configs, k, j);
        SeatsAreKept(buckets, next, configs, k, j);
      }
    }
  }

  /** A split of this list that is in turn and loses nothing. */
  ghost predicate RoundRobinOf<T>(buckets: seq<seq<T>>, configs: seq<T>, k: nat) {
    InTurn(buckets, configs, k) && multiset(Concat(buckets)) == multiset(configs)
  }

  /** The next config goes to the executor whose turn it is. */
  method Deal<T>(before: seq<seq<T>>, ghost dealt: seq<T>, i: nat, k: nat, c: T) returns (buckets: seq<seq<T>>)
    requires RoundRobinOf(before, dealt, k) && i == |dealt|
    ensures RoundRobinOf(buckets, dealt + [c], k)
  {
    ConcatGrows(before, i % k, c);
    DealtInTurn(before, dealt, k, c);
    buckets := before[i % k := before[i % k] + [c]];
  }

  lemma NothingDealt<T>(k: nat)
    requires k > 0
    ensures RoundRobinOf(seq<seq<T>>(k, _ => []), [], k)
  {
    ConcatOfEmpty<T>(k);
    Division(0, k, 0, 0);
  }

  /** Round robin: config i goes to executor i mod k, each executor's in their order. */
  method RoundRobin<T>(configs: seq<T>, k: nat) returns (buckets: seq<seq<T>>)
    requires k > 0
    ensures RoundRobinOf(buckets, configs, k)
  {
    buckets := seq(k, _ => []);
    NothingDealt<T>(k);
    for i := 0 to |configs|
      invariant RoundRobinOf(buckets, configs[..i], k)
    {
      assert configs[..i + 1] == configs[..i] + [configs[i]];
      buckets := Deal(buckets, configs[..i], i, k, configs[i]);
    }
    assert configs[..|configs|] == configs;
  }

  /** What a weighted split must be, for buckets of these sizes. */
  ghost predicate FairSplit(weights: seq<real>, n: nat, counts: seq<int>)
    requires RealTotal(weights) > 0.0
  {
    && |counts| == |weights| && Total(counts) == n
    && FloorOrCeiling(Shares(weights, n), counts)
    && (forall b :: 0 <= b < |weights| && weights[b] == 0.0 ==> counts[b] == 0)
    && (forall other: seq<int> :: |other| == |weights| && Total(other) == n ==>
          SquaredError(Shares(weights, n), counts) <= SquaredError(Shares(weights, n), other))
  }

  function Sizes<T>(buckets: seq<seq<T>>): seq<int> {
    seq(|buckets|, b requires 0 <= b < |buckets| => |buckets[b]|)
  }

  /** Refuses no executors and senseless weights; otherwise every config is assigned exactly
      once, and with weights the split is in order and the fairest there is. */
  method SplitConfigs<T>(configs: seq<T>, executors: nat, weights: Option<seq<real>>)
      returns (r: Result<seq<seq<T>>, SplitError>)
    ensures r == Err(NoExecutors) <==> executors == 0
    ensures r == Err(BadWeights)
       <==> && executors > 0 && weights.Some?
            && !(|weights.value| == executors && RealTotal(weights.value) > 0.0 && NoneNegative(weights.value))
    ensures r.Ok? ==> |r.value| == executors && multiset(Concat(r.value)) == multiset(configs)
    ensures r.Ok? && weights.Some? ==>
              Concat(r.value) == configs && FairSplit(weights.value, |configs|, Sizes(r.value))
    ensures r.Ok? && weights.None? ==> InTurn(r.value, configs, executors)
  {
    if executors == 0 {
      return Err(NoExecutors);
    }
    if weights.None? {
      var buckets := RoundRobin(configs, executors);
      return Ok(buckets);
    }
    WeightsAreChecked(weights.value, executors);
    if !ValidWeights(weights.value, executors) {
      return Err(BadWeights);
    }
    SharesAreExact(weights.value, |configs|);
    var shares := Shares(weights.value, |configs|);
    var counts := Apportion(shares, |configs|);
    FairnessHolds(weights.value, |configs|, counts);
    var buckets := Cut(configs, counts);
    assert Sizes(buckets) == counts;
    r := Ok(buckets);
  }

  lemma FairnessHolds(weights: seq<real>, n: nat, counts: seq<int>)
    requires ValidWeights(weights, |weights|)
    requires FloorOrCeiling(Shares(weights, n), counts) && RoundsUpLargest(Shares(weights, n), counts)
    requires Total(counts) == n
    ensures FairSplit(weights, n, counts) && forall i :: 0 <= i < |counts| ==> counts[i] >= 0
  {
    SharesAreExact(weights, n);
    forall other: seq<int> | |other| == |weights| && Total(other) == n
      ensures SquaredError(Shares(weights, n), counts) <= SquaredError(Shares(weights, n), other)
    {
      LargestRemainderIsOptimal(Shares(weights, n), counts, other);
    }
  }
}
