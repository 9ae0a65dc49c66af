/**
 * Dictionaries of running totals keyed by a label, filled by insert-or-add
 * (`d[k] += a` when `k` is present, `d[k] = a` otherwise) or by SQL's
 * `GROUP BY ... SUM(amount)`, and their listing in ascending key order
 * (`sorted(d.items())`).
 */
module Buckets {
  import opened Wrappers
  import opened Lex
  import opened Ledger

  /** One amount to be added under a key. */
  datatype Entry = Entry(key: string, amount: real)

  /** Insert-or-add of one entry. */
  function AddTo(d: map<string, real>, e: Entry): map<string, real>
  {
    if e.key in d then d[e.key := d[e.key] + e.amount] else d[e.key := e.amount]
  }

  /** The dictionary left by adding the entries one after another into an empty one. */
  function Totals(es: seq<Entry>): map<string, real>
  {
    if es == [] then map[] else AddTo(Totals(es[..|es| - 1]), es[|es| - 1])
  }

  /** The keys the entries use. */
  function KeysOf(es: seq<Entry>): set<string>
  {
    set i | 0 <= i < |es| :: es[i].key
  }

  /** The sum of the amounts of the entries under `k`. */
  function SumFor(es: seq<Entry>, k: string): real
  {
    if es == [] then 0.0
    else SumFor(es[..|es| - 1], k) + (if es[|es| - 1].key == k then es[|es| - 1].amount else 0.0)
  }

  /** The sum of all the amounts. */
  function Sum(es: seq<Entry>): real
  {
    if es == [] then 0.0 else Sum(es[..|es| - 1]) + es[|es| - 1].amount
  }

  /** The sum of the values of a dictionary. */
  ghost function MapSum(m: map<string, real>): real
    decreases |m|
  {
    if m == map[] then 0.0
    else
      var k :| k in m;
      assert |m - {k}| < |m| by {
        assert m.Keys == (m - {k}).Keys + {k};
      }
      m[k] + MapSum(m - {k})
  }

  /** Any key may be taken out first. */
  lemma {:induction false} MapSumRemove(m: map<string, real>, k: string)
    requires k in m
    ensures MapSum(m) == m[k] + MapSum(m - {k})
    decreases |m|
  {
    var j :| j in m && MapSum(m) == m[j] + MapSum(m - {j});
    if j != k {
      var mj, mk := m - {j}, m - {k};
      assert |mj| < |m| by {
        assert m.Keys == mj.Keys + {j};
      }
      assert |mk| < |m| by {
        assert m.Keys == mk.Keys + {k};
      }
      MapSumRemove(mj, k);
      MapSumRemove(mk, j);
      assert mj - {k} == mk - {j};
    }
  }

  lemma MapSumAddTo(d: map<string, real>, e: Entry)
    ensures MapSum(AddTo(d, e)) == MapSum(d) + e.amount
  {
    var r := AddTo(d, e);
    MapSumRemove(r, e.key);
    assert r - {e.key} == d - {e.key};
    if e.key in d {
      MapSumRemove(d, e.key);
    } else {
      assert d - {e.key} == d;
    }
  }

  /** The dictionary has exactly the keys of the entries. */
  lemma {:induction false} TotalsKeys(es: seq<Entry>)
    ensures Totals(es).Keys == KeysOf(es)
  {
    if es != [] {
      var init := es[..|es| - 1];
      TotalsKeys(init);
      assert KeysOf(es) == KeysOf(init) + {es[|es| - 1].key} by {
        assert forall i :: 0 <= i < |init| ==> init[i] == es[i];
      }
    }
  }

  /** Each value is the sum of the amounts entered under its key. */
  lemma {:induction false} TotalsAreSums(es: seq<Entry>, k: string)
    requires k in Totals(es)
    ensures Totals(es)[k] == SumFor(es, k)
  {
    var init := es[..|es| - 1];
    TotalsKeys(es);
    TotalsKeys(init);
    if k in Totals(init) {
      TotalsAreSums(init, k);
    } else {
      assert SumFor(init, k) == 0.0 by {
        NoEntriesUnder(init, k);
      }
    }
  }

  /** A key no entry uses has sum zero. */
  lemma {:induction false} NoEntriesUnder(es: seq<Entry>, k: string)
    requires k !in KeysOf(es)
    ensures SumFor(es, k) == 0.0
  {
    if es != [] {
      var init := es[..|es| - 1];
      assert KeysOf(init) <= KeysOf(es) by {
        assert forall i :: 0 <= i < |init| ==> init[i] == es[i];
      }
      NoEntriesUnder(init, k);
    }
  }

  /** Conservation: the values of the dictionary add up to the sum of all the entries. */
  lemma {:induction false} TotalsConserve(es: seq<Entry>)
    ensures MapSum(Totals(es)) == Sum(es)
  {
    if es != [] {
      TotalsConserve(es[..|es| - 1]);
      MapSumAddTo(Totals(es[..|es| - 1]), es[|es| - 1]);
    }
  }

  /** `k` comes first among `keys`. */
  predicate IsLeast(k: string, keys: set<string>)
  {
    k in keys && forall j :: j in keys ==> LexLe(k, j)
  }

  lemma {:induction false} LeastExists(keys: set<string>)
    requires keys != {}
    ensures exists k :: IsLeast(k, keys)
    decreases |keys|
  {
    var x :| x in keys;
    var rest := keys - {x};
    if rest == {} {
      assert keys == {x};
      LexLeRefl(x);
      assert IsLeast(x, keys);
    } else {
      LeastExists(rest);
      var m :| IsLeast(m, rest);
      LexLeTotal(x, m);
      if LexLe(x, m) {
        LexLeRefl(x);
        forall j | j in rest
          ensures LexLe(x, j)
        {
          LexLeTransitive(x, m, j);
        }
        assert IsLeast(x, keys);
      } else {
        assert IsLeast(m, keys);
      }
    }
  }

  lemma LeastUnique(keys: set<string>)
    ensures forall a, b :: IsLeast(a, keys) && IsLeast(b, keys) ==> a == b
  {
    forall a, b | IsLeast(a, keys) && IsLeast(b, keys)
      ensures a == b
    {
      LexLeAntisymmetric(a, b);
    }
  }

  /** Keys strictly increasing, so also pairwise distinct. */
  predicate KeysIncreasing(items: seq<Entry>)
  {
    forall i, j :: 0 <= i < j < |items| ==> LexLt(items[i].key, items[j].key)
  }

  /** The items of `m` in ascending key order: `sorted(m.items())`. */
  function SortedItems(m: map<string, real>): (items: seq<Entry>)
    ensures KeysIncreasing(items)
    ensures |items| == |m|
    ensures forall i :: 0 <= i < |items| ==> items[i].key in m && m[items[i].key] == items[i].amount
    ensures forall k :: k in m ==> exists i :: 0 <= i < |items| && items[i].key == k
    decreases |m|
  {
    if m == map[] then []
    else
      LeastExists(m.Keys);
      LeastUnique(m.Keys);
      var k :| IsLeast(k, m.Keys);
      var rest := m - {k};
      assert m.Keys == rest.Keys + {k};
      var tail := SortedItems(rest);
      LeastThenRest(k, m, tail);
      [Entry(k, m[k])] + tail
  }

  /** Putting the least key in front of the listing of the others lists them all in order. */
  lemma LeastThenRest(k: string, m: map<string, real>, tail: seq<Entry>)
    requires IsLeast(k, m.Keys)
    requires KeysIncreasing(tail) && |tail| == |m - {k}|
    requires forall i :: 0 <= i < |tail| ==> tail[i].key in m - {k} && (m - {k})[tail[i].key] == tail[i].amount
    requires forall j :: j in m - {k} ==> exists i :: 0 <= i < |tail| && tail[i].key == j
    ensures var items := [Entry(k, m[k])] + tail;
      && KeysIncreasing(items)
      && |items| == |m|
      && (forall i :: 0 <= i < |items| ==> items[i].key in m && m[items[i].key] == items[i].amount)
      && (forall j :: j in m ==> exists i :: 0 <= i < |items| && items[i].key == j)
  {
    RemoveSize(m, k);
    LeastThenRestIncreasing(k, m, tail);
    LeastThenRestCovers(k, m, tail);
    LeastThenRestEntries(k, m, tail);
  }

  lemma LeastThenRestEntries(k: string, m: map<string, real>, tail: seq<Entry>)
    requires k in m
    requires forall i :: 0 <= i < |tail| ==> tail[i].key in m - {k} && (m - {k})[tail[i].key] == tail[i].amount
    ensures var items := [Entry(k, m[k])] + tail;
      forall i :: 0 <= i < |items| ==> items[i].key in m && m[items[i].key] == items[i].amount
  {
    var items := [Entry(k, m[k])] + tail;
    forall i | 0 <= i < |items|
      ensures items[i].key in m && m[items[i].key] == items[i].amount
    {
      if i > 0 {
        assert items[i] == tail[i - 1];
        assert tail[i - 1].key in m - {k};
      }
    }
  }

  lemma LeastThenRestIncreasing(k: string, m: map<string, real>, tail: seq<Entry>)
    requires IsLeast(k, m.Keys) && KeysIncreasing(tail)
    requires forall i :: 0 <= i < |tail| ==> tail[i].key in m - {k}
    ensures KeysIncreasing([Entry(k, m[k])] + tail)
  {
    forall j | 0 <= j < |tail|
      ensures LexLt(k, tail[j].key)
    {
      assert tail[j].key in m.Keys;
      assert tail[j].key != k;
    }
  }

  lemma LeastThenRestCovers(k: string, m: map<string, real>, tail: seq<Entry>)
    requires k in m
    requires forall j :: j in m - {k} ==> exists i :: 0 <= i < |tail| && tail[i].key == j
    ensures var items := [Entry(k, m[k])] + tail;
      forall j :: j in m ==> exists i :: 0 <= i < |items| && items[i].key == j
  {
    var items := [Entry(k, m[k])] + tail;
    forall j | j in m
      ensures exists i :: 0 <= i < |items| && items[i].key == j
    {
      if j == k {
        assert items[0].key == j;
      } else {
        assert j in m - {k};
        var i :| 0 <= i < |tail| && tail[i].key == j;
        assert items[i + 1].key == j;
      }
    }
  }

  /** The listing adds up to the dictionary's total. */
  lemma {:induction false} SortedItemsSum(m: map<string, real>)
    ensures Sum(SortedItems(m)) == MapSum(m)
    decreases |m|
  {
    if m != map[] {
      var k := SortedItemsFront(m);
      RemoveSize(m, k);
      SortedItemsSum(m - {k});
      SortedItemsSumStep(m, k, SortedItems(m - {k}));
    }
  }

  /** Taking a key out makes a dictionary one entry smaller. */
  lemma RemoveSize(m: map<string, real>, k: string)
    requires k in m
    ensures |m - {k}| == |m| - 1
  {
    assert m.Keys == (m - {k}).Keys + {k};
  }

  /** One step of SortedItemsSum: the least key's entry adds its value to the rest. */
  lemma SortedItemsSumStep(m: map<string, real>, k: string, rest: seq<Entry>)
    requires k in m
    requires Sum(rest) == MapSum(m - {k})
    ensures Sum([Entry(k, m[k])] + rest) == MapSum(m)
  {
    MapSumRemove(m, k);
    SumCons(Entry(k, m[k]), rest);
  }

  /** The sum of an entry followed by others. */
  lemma SumCons(e: Entry, es: seq<Entry>)
    ensures Sum([e] + es) == e.amount + Sum(es)
  {
    SumFront([e] + es);
    assert ([e] + es)[1..] == es;
  }

  /** The listing is the least key's entry followed by the listing of the other keys. */
  lemma SortedItemsFront(m: map<string, real>) returns (k: string)
    requires m != map[]
    ensures IsLeast(k, m.Keys)
    ensures SortedItems(m) == [Entry(k, m[k])] + SortedItems(m - {k})
  {
    LeastExists(m.Keys);
    LeastUnique(m.Keys);
    k :| IsLeast(k, m.Keys);
  }

  /** The sum taken from the front. */
  lemma {:induction false} SumFront(es: seq<Entry>)
    requires es != []
    ensures Sum(es) == es[0].amount + Sum(es[1..])
  {
    if |es| > 1 {
      var init := es[..|es| - 1];
      SumFront(init);
      assert init[1..] == es[1..][..|es[1..]| - 1];
    }
  }

  /** A rule that places a row in a bucket, or in none. */
  type Bucketing = Expense -> Option<string>

  /** The entries the rows add under a bucketing, in row order. */
  function Entries(rows: seq<Expense>, b: Bucketing): seq<Entry>
  {
    if rows == [] then []
    else
      var last := rows[|rows| - 1];
      Entries(rows[..|rows| - 1], b) + (match b(last) case None => [] case Some(k) => [Entry(k, last.amount)])
  }

  /** A row's amount if the bucketing places it, zero otherwise. */
  function Placed(b: Bucketing): Expense -> real
  {
    (e: Expense) => if b(e).Some? then e.amount else 0.0
  }

  /** A row's amount if the bucketing places it in bucket `k`, zero otherwise. */
  function AmountIn(b: Bucketing, k: string): Expense -> real
  {
    (e: Expense) => if b(e) == Some(k) then e.amount else 0.0
  }

  /** The buckets the rows are placed in. */
  function BucketsOf(rows: seq<Expense>, b: Bucketing): set<string>
  {
    set e | e in rows && b(e).Some? :: b(e).value
  }

  lemma {:induction false} EntriesAppend(a: seq<Expense>, c: seq<Expense>, b: Bucketing)
    ensures Entries(a + c, b) == Entries(a, b) + Entries(c, b)
    decreases |c|
  {
    if c == [] {
      assert a + c == a;
    } else {
      var init := c[..|c| - 1];
      assert (a + c)[..|a + c| - 1] == a + init;
      EntriesAppend(a, init, b);
    }
  }

  /** One more row adds its entry into the dictionary, or leaves it as it was. */
  lemma TotalsStep(rows: seq<Expense>, i: nat, b: Bucketing)
    requires i < |rows|
    ensures Totals(Entries(rows[..i + 1], b)) ==
      match b(rows[i])
      case None => Totals(Entries(rows[..i], b))
      case Some(k) => AddTo(Totals(Entries(rows[..i], b)), Entry(k, rows[i].amount))
  {
    assert rows[..i + 1][..i] == rows[..i];
    var es := Entries(rows[..i], b);
    if b(rows[i]).Some? {
      var k := b(rows[i]).value;
      assert Entries(rows[..i + 1], b) == es + [Entry(k, rows[i].amount)];
      assert (es + [Entry(k, rows[i].amount)])[..|es|] == es;
    } else {
      assert Entries(rows[..i + 1], b) == es + [];
      assert es + [] == es;
    }
  }

  /** A row placed in no bucket adds nothing, and the rows after it are still counted. */
  lemma UnplacedRowSkipped(before: seq<Expense>, e: Expense, after: seq<Expense>, b: Bucketing)
    requires b(e).None?
    ensures Entries(before + [e] + after, b) == Entries(before + after, b)
  {
    EntriesAppend(before + [e], after, b);
    EntriesAppend(before, [e], b);
    EntriesAppend(before, after, b);
    assert Entries([e], b) == Entries([], b) + [];
  }

  lemma {:induction false} SumAppend(a: seq<Entry>, c: seq<Entry>)
    ensures Sum(a + c) == Sum(a) + Sum(c)
    decreases |c|
  {
    if c == [] {
      assert a + c == a;
    } else {
      assert (a + c)[..|a + c| - 1] == a + c[..|c| - 1];
      SumAppend(a, c[..|c| - 1]);
    }
  }

  lemma {:induction false} SumForAppend(a: seq<Entry>, c: seq<Entry>, k: string)
    ensures SumFor(a + c, k) == SumFor(a, k) + SumFor(c, k)
    decreases |c|
  {
    if c == [] {
      assert a + c == a;
    } else {
      assert (a + c)[..|a + c| - 1] == a + c[..|c| - 1];
      SumForAppend(a, c[..|c| - 1], k);
    }
  }

  lemma {:induction false} EntriesSum(rows: seq<Expense>, b: Bucketing)
    ensures Sum(Entries(rows, b)) == SumOf(rows, Placed(b))
  {
    if rows != [] {
      var init, last := rows[..|rows| - 1], rows[|rows| - 1];
      EntriesSum(init, b);
      var tail := match b(last) case None => [] case Some(k) => [Entry(k, last.amount)];
      SumAppend(Entries(init, b), tail);
    }
  }

  lemma {:induction false} EntriesSumFor(rows: seq<Expense>, b: Bucketing, k: string)
    ensures SumFor(Entries(rows, b), k) == SumOf(rows, AmountIn(b, k))
  {
    if rows != [] {
      var init, last := rows[..|rows| - 1], rows[|rows| - 1];
      EntriesSumFor(init, b, k);
      var tail := match b(last) case None => [] case Some(j) => [Entry(j, last.amount)];
      SumForAppend(Entries(init, b), tail, k);
    }
  }

  lemma {:induction false} EntriesKeys(rows: seq<Expense>, b: Bucketing)
    ensures KeysOf(Entries(rows, b)) == BucketsOf(rows, b)
  {
    if rows != [] {
      var init, last := rows[..|rows| - 1], rows[|rows| - 1];
      EntriesKeys(init, b);
      var x := Entries(init, b);
      var y := match b(last) case None => [] case Some(k) => [Entry(k, last.amount)];
      KeysOfAppend(x, y);
      assert KeysOf(y) == BucketsOf([last], b);
      assert rows == init + [last];
      BucketsOfAppend(init, last, b);
    }
  }

  lemma KeysOfAppend(x: seq<Entry>, y: seq<Entry>)
    ensures KeysOf(x + y) == KeysOf(x) + KeysOf(y)
  {
    assert forall i :: 0 <= i < |x| ==> (x + y)[i] == x[i];
    assert forall i :: 0 <= i < |y| ==> (x + y)[|x| + i] == y[i];
  }

  lemma BucketsOfAppend(init: seq<Expense>, last: Expense, b: Bucketing)
    ensures BucketsOf(init + [last], b) == BucketsOf(init, b) + BucketsOf([last], b)
  {
  }

  /**
   * The dictionary the entries fill: its keys are exactly the buckets the
   * rows are placed in, each value is the sum of the amounts of the rows in
   * that bucket, and the values add up to the amounts of all placed rows.
   */
  lemma BucketsMeaning(rows: seq<Expense>, b: Bucketing)
    ensures Totals(Entries(rows, b)).Keys == BucketsOf(rows, b)
    ensures forall k :: k in Totals(Entries(rows, b)) ==> Totals(Entries(rows, b))[k] == SumOf(rows, AmountIn(b, k))
    ensures MapSum(Totals(Entries(rows, b))) == SumOf(rows, Placed(b))
  {
    var es := Entries(rows, b);
    TotalsKeys(es);
    EntriesKeys(rows, b);
    forall k | k in Totals(es)
      ensures Totals(es)[k] == SumOf(rows, AmountIn(b, k))
    {
      TotalsAreSums(es, k);
      EntriesSumFor(rows, b, k);
    }
    TotalsConserve(es);
    EntriesSum(rows, b);
  }

  /** The same rows in another order fill the same buckets with the same sums. */
  lemma BucketsReordered(rows: seq<Expense>, b: Bucketing, descending: bool)
    ensures BucketsOf(OrderByDate(rows, descending), b) == BucketsOf(rows, b)
    ensures forall k :: SumOf(OrderByDate(rows, descending), AmountIn(b, k)) == SumOf(rows, AmountIn(b, k))
    ensures SumOf(OrderByDate(rows, descending), Placed(b)) == SumOf(rows, Placed(b))
  {
    var sorted := OrderByDate(rows, descending);
    assert forall e :: e in sorted <==> e in rows by {
      assert forall e :: e in sorted <==> e in multiset(sorted);
    }
    forall k
      ensures SumOf(sorted, AmountIn(b, k)) == SumOf(rows, AmountIn(b, k))
    {
      SumOfOrder(rows, descending, AmountIn(b, k));
    }
    SumOfOrder(rows, descending, Placed(b));
  }
}
