/**
 * The exchange-independent part of the core: the trade action, the
 * canonical trade record, the conversion of a whole batch of exchange
 * records, and the in-place sort by whole Unix seconds.
 */
module Services {
  import opened Results

  /** A Go `int`; only the two constants below are ever produced by an adapter. */
  newtype TradeAction = int

  const Buy: TradeAction := 0
  const Sell: TradeAction := 1

  /** `TradeAction.String`: a label for each constant; any other value panics in the source. */
  function ActionString(t: TradeAction): (s: string)
    requires t == Buy || t == Sell
    ensures s == "Buy" <==> t == Buy
    ensures s == "Sell" <==> t == Sell
  {
    if t == Buy then "Buy" else "Sell"
  }

  /** The canonical trade record; `time` is a Unix instant in milliseconds. */
  datatype TradeData = TradeData(
    serviceName: string,
    currencyPair: string,
    time: int,
    action: TradeAction,
    price: real,
    amount: real,
    fee: real,
    profit: real,
    remarks: seq<string>)

  /** `Time.Unix()`: whole seconds, rounded towards minus infinity. */
  function UnixSeconds(millis: int): int {
    millis / 1000
  }

  /** The cash flow of a trade before fees: spent on a buy, received on a sell. */
  function Notional(action: TradeAction, price: real, amount: real): real {
    if action == Buy then -(price * amount) else price * amount
  }

  /**
   * Converts exchange records one by one, in order, and stops at the first
   * record `f` rejects: the loop of both adapters that appends to a result
   * slice and returns `nil, err` on a bad record.  A converted batch holds
   * one record per input.
   */
  function Collect<A>(xs: seq<A>, f: A -> Result<TradeData>): (r: Result<seq<TradeData>>)
    ensures r.Ok? ==> |r.value| == |xs|
  {
    if xs == [] then Ok([])
    else match Collect(xs[..|xs| - 1], f)
      case Err(e) => Err(e)
      case Ok(init) =>
        match f(xs[|xs| - 1])
        case Err(e) => Err(e)
        case Ok(d) => Ok(init + [d])
  }

  /** A batch succeeds exactly when every record converts, and then yields one record per input, in input order. */
  lemma {:induction false} CollectOk<A>(xs: seq<A>, f: A -> Result<TradeData>)
    ensures Collect(xs, f).Ok? <==> forall i :: 0 <= i < |xs| ==> f(xs[i]).Ok?
    ensures Collect(xs, f).Ok? ==>
      |Collect(xs, f).value| == |xs| &&
      forall i :: 0 <= i < |xs| ==> Collect(xs, f).value[i] == f(xs[i]).value
  {
    if xs != [] {
      var init := xs[..|xs| - 1];
      CollectOk(init, f);
      assert forall i :: 0 <= i < |init| ==> init[i] == xs[i];
    }
  }

  /** A failed batch reports the error of its first rejected record and of nothing else. */
  lemma {:induction false} CollectErr<A>(xs: seq<A>, f: A -> Result<TradeData>)
    ensures Collect(xs, f).Err? ==>
      exists j :: 0 <= j < |xs| && f(xs[j]) == Err(Collect(xs, f).error) &&
        forall i :: 0 <= i < j ==> f(xs[i]).Ok?
  {
    if xs != [] {
      var init := xs[..|xs| - 1];
      CollectErr(init, f);
      CollectOk(init, f);
      assert forall i :: 0 <= i < |init| ==> init[i] == xs[i];
      if Collect(init, f).Err? {
        var j :| 0 <= j < |init| && f(init[j]) == Err(Collect(init, f).error) &&
          forall i :: 0 <= i < j ==> f(init[i]).Ok?;
        assert f(xs[j]) == Err(Collect(xs, f).error);
      } else if Collect(xs, f).Err? {
        assert f(xs[|xs| - 1]) == Err(Collect(xs, f).error);
      }
    }
  }

  /** Once a prefix of the batch fails, the batch fails with the same error. */
  lemma {:induction false} CollectErrPrefix<A>(xs: seq<A>, n: nat, f: A -> Result<TradeData>)
    requires n <= |xs| && Collect(xs[..n], f).Err?
    ensures Collect(xs, f) == Collect(xs[..n], f)
    decreases |xs| - n
  {
    if n < |xs| {
      assert xs[..n + 1][..n] == xs[..n];
      CollectErrPrefix(xs, n + 1, f);
    } else {
      assert xs[..n] == xs;
    }
  }

  /** A converted prefix grows by the conversion of the next record. */
  lemma CollectExtend<A>(xs: seq<A>, i: nat, f: A -> Result<TradeData>)
    requires i < |xs| && Collect(xs[..i], f).Ok? && f(xs[i]).Ok?
    ensures Collect(xs[..i + 1], f) == Ok(Collect(xs[..i], f).value + [f(xs[i]).value])
  {
    assert xs[..i + 1][..i] == xs[..i];
  }

  /** The first rejected record decides the whole batch: its error, and no records. */
  lemma CollectStopsAt<A>(xs: seq<A>, i: nat, f: A -> Result<TradeData>)
    requires i < |xs| && Collect(xs[..i], f).Ok? && f(xs[i]).Err?
    ensures Collect(xs, f) == Err(f(xs[i]).error)
  {
    assert xs[..i + 1][..i] == xs[..i];
    CollectErrPrefix(xs, i + 1, f);
  }

  // ---------------------------------------------------------------------
  // Ordering

  /** The sort key: `Time.Unix()` of the record. */
  function Key(d: TradeData): int {
    UnixSeconds(d.time)
  }

  predicate SortedByUnix(s: seq<TradeData>) {
    forall p, q :: 0 <= p < q < |s| ==> Key(s[p]) <= Key(s[q])
  }

  /** The sequence of sort keys. */
  function Keys(s: seq<TradeData>): (k: seq<int>)
    ensures |k| == |s|
  {
    if s == [] then [] else [Key(s[0])] + Keys(s[1..])
  }

  lemma {:induction false} KeysAt(s: seq<TradeData>)
    ensures forall i :: 0 <= i < |s| ==> Keys(s)[i] == Key(s[i])
  {
    if s != [] {
      KeysAt(s[1..]);
    }
  }

  predicate NonDecreasing(k: seq<int>) {
    forall p, q :: 0 <= p < q < |k| ==> k[p] <= k[q]
  }

  /** Records in the same second may be permuted without breaking the order the sort promises. */
  lemma SameSecondUnordered(x: TradeData, y: TradeData)
    requires Key(x) == Key(y)
    ensures SortedByUnix([x, y]) && SortedByUnix([y, x])
    ensures multiset([x, y]) == multiset([y, x])
  {
  }

  lemma {:induction false} KeysAppend(x: seq<TradeData>, y: seq<TradeData>)
    ensures Keys(x + y) == Keys(x) + Keys(y)
  {
    if x == [] {
      assert x + y == y;
    } else {
      assert (x + y)[1..] == x[1..] + y;
      KeysAppend(x[1..], y);
    }
  }

  lemma KeysTake(s: seq<TradeData>, n: nat)
    requires n <= |s|
    ensures Keys(s[..n]) == Keys(s)[..n]
  {
    assert s == s[..n] + s[n..];
    KeysAppend(s[..n], s[n..]);
  }

  lemma KeysDrop(s: seq<TradeData>, n: nat)
    requires n <= |s|
    ensures Keys(s[n..]) == Keys(s)[n..]
  {
    assert s == s[..n] + s[n..];
    KeysAppend(s[..n], s[n..]);
  }

  lemma KeysRemove(s: seq<TradeData>, j: nat)
    requires j < |s|
    ensures Keys(s[..j] + s[j + 1..]) == Keys(s)[..j] + Keys(s)[j + 1..]
  {
    KeysAppend(s[..j], s[j + 1..]);
    KeysTake(s, j);
    KeysDrop(s, j + 1);
  }

  /** Dropping the element at `j` removes one occurrence of it. */
  lemma MultisetRemove<T>(b: seq<T>, j: nat)
    requires j < |b|
    ensures multiset(b) == multiset(b[..j] + b[j + 1..]) + multiset{b[j]}
  {
    assert b == b[..j] + [b[j]] + b[j + 1..];
  }

  /** Finds `a[0]` in its permutation `b`; what remains on both sides is again a permutation. */
  lemma MatchHead<T>(a: seq<T>, b: seq<T>) returns (j: nat)
    requires a != [] && multiset(a) == multiset(b)
    ensures j < |b| && b[j] == a[0]
    ensures multiset(a[1..]) == multiset(b[..j] + b[j + 1..])
  {
    assert a[0] in b by { assert a[0] in multiset(b); }
    j :| 0 <= j < |b| && b[j] == a[0];
    MultisetRemove(b, j);
    assert a == [a[0]] + a[1..];
    assert multiset(a[1..]) == multiset(a) - multiset{a[0]};
  }

  lemma KeysPermutationStep(a: seq<TradeData>, b: seq<TradeData>, j: nat)
    requires a != [] && j < |b| && b[j] == a[0]
    requires multiset(Keys(a[1..])) == multiset(Keys(b[..j] + b[j + 1..]))
    ensures multiset(Keys(a)) == multiset(Keys(b))
  {
    var kb := Keys(b);
    KeysRemove(b, j);
    KeysAt(b);
    MultisetRemove(kb, j);
    assert Keys(a) == [Key(a[0])] + Keys(a[1..]);
  }

  /** Permuting records permutes their keys. */
  lemma {:induction false} KeysPermutation(a: seq<TradeData>, b: seq<TradeData>)
    requires multiset(a) == multiset(b)
    ensures multiset(Keys(a)) == multiset(Keys(b))
    decreases |a|
  {
    if a != [] {
      var j := MatchHead(a, b);
      KeysPermutation(a[1..], b[..j] + b[j + 1..]);
      KeysPermutationStep(a, b, j);
    }
  }

  /** Removing the first element of a sequence removes one occurrence of it. */
  lemma TailMultiset(s: seq<int>)
    requires s != []
    ensures multiset(s[1..]) == multiset(s) - multiset{s[0]}
  {
    assert s == [s[0]] + s[1..];
  }

  /** The least element of a non-decreasing sequence comes first: two arrangements of one multiset share it. */
  lemma SameHead(s: seq<int>, t: seq<int>)
    requires NonDecreasing(s) && NonDecreasing(t)
    requires multiset(s) == multiset(t) && s != [] && t != []
    ensures s[0] == t[0]
  {
    assert s[0] in multiset(t);
    assert t[0] in multiset(s);
  }

  /** Two non-decreasing sequences holding the same values are equal. */
  lemma {:induction false} NonDecreasingUnique(s: seq<int>, t: seq<int>)
    requires NonDecreasing(s) && NonDecreasing(t)
    requires multiset(s) == multiset(t)
    ensures s == t
    decreases |s|
  {
    assert |s| == |multiset(s)| == |t|;
    if s != [] {
      SameHead(s, t);
      TailMultiset(s);
      TailMultiset(t);
      NonDecreasingUnique(s[1..], t[1..]);
    }
  }

  /**
   * Any two sorted arrangements of the same records agree on the sequence
   * of second-keys: the sort may reorder records within a second, but the
   * keys it produces are determined by its input.
   */
  lemma SortedKeysDetermined(a: seq<TradeData>, b: seq<TradeData>)
    requires SortedByUnix(a) && SortedByUnix(b)
    requires multiset(a) == multiset(b)
    ensures Keys(a) == Keys(b)
  {
    KeysPermutation(a, b);
    KeysAt(a);
    KeysAt(b);
    NonDecreasingUnique(Keys(a), Keys(b));
  }

  /** The position of a record with the smallest key in `a[lo..]`. */
  method MinIndex(a: array<TradeData>, lo: nat) returns (m: nat)
    requires lo < a.Length
    ensures lo <= m < a.Length
    ensures forall j :: lo <= j < a.Length ==> Key(a[m]) <= Key(a[j])
  {
    m := lo;
    var j := lo + 1;
    while j < a.Length
      invariant lo <= m < j <= a.Length
      invariant forall k :: lo <= k < j ==> Key(a[m]) <= Key(a[k])
    {
      if Key(a[j]) < Key(a[m]) {
        m := j;
      }
      j := j + 1;
    }
  }

  /** Exchanges two records of `a`, keeping the same records. */
  method Swap(a: array<TradeData>, i: nat, j: nat)
    requires i < a.Length && j < a.Length
    modifies a
    ensures a[i] == old(a[j]) && a[j] == old(a[i])
    ensures forall k :: 0 <= k < a.Length && k != i && k != j ==> a[k] == old(a[k])
    ensures multiset(a[..]) == multiset(old(a[..]))
  {
    a[i], a[j] := a[j], a[i];
  }

  /**
   * `SortTradeData`: sorts the records in place, non-decreasing in whole
   * Unix seconds.  Like Go's `sort.Slice` this sort is not stable.
   */
  method SortTradeData(a: array<TradeData>)
    modifies a
    ensures SortedByUnix(a[..])
    ensures multiset(a[..]) == multiset(old(a[..]))
    ensures SortedByUnix(old(a[..])) ==> Keys(a[..]) == Keys(old(a[..]))
  {
    var i := 0;
    while i < a.Length
      invariant 0 <= i <= a.Length
      invariant forall p, q :: 0 <= p < q < i ==> Key(a[p]) <= Key(a[q])
      invariant forall p, q :: 0 <= p < i <= q < a.Length ==> Key(a[p]) <= Key(a[q])
      invariant multiset(a[..]) == multiset(old(a[..]))
    {
      var m := MinIndex(a, i);
      Swap(a, i, m);
      i := i + 1;
    }
    if SortedByUnix(old(a[..])) {
      SortedKeysDetermined(a[..], old(a[..]));
    }
  }
}
