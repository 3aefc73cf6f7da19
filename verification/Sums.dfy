/** Sums over lists of keys, and insertion-ordered dictionaries of amounts. */
module Sums {
  import opened Names

  function SumOf(keys: seq<string>, f: string -> real): real {
    if keys == [] then 0.0 else SumOf(keys[..|keys| - 1], f) + f(keys[|keys| - 1])
  }

  lemma {:induction false} SumAgrees(keys: seq<string>, f: string -> real, g: string -> real)
    requires forall i :: 0 <= i < |keys| ==> f(keys[i]) == g(keys[i])
    ensures SumOf(keys, f) == SumOf(keys, g)
  {
    if keys != [] { SumAgrees(keys[..|keys| - 1], f, g); }
  }

  lemma {:induction false} SumLinear(keys: seq<string>, f: string -> real, g: string -> real, h: string -> real)
    requires forall i :: 0 <= i < |keys| ==> h(keys[i]) == f(keys[i]) - g(keys[i])
    ensures SumOf(keys, h) == SumOf(keys, f) - SumOf(keys, g)
  {
    if keys != [] { SumLinear(keys[..|keys| - 1], f, g, h); }
  }

  function Without(keys: seq<string>, k: nat): (rest: seq<string>)
    requires k < |keys|
    ensures |rest| == |keys| - 1
  {
    keys[..k] + keys[k + 1..]
  }

  lemma {:induction false} SumWithout(keys: seq<string>, k: nat, f: string -> real)
    requires k < |keys|
    ensures SumOf(keys, f) == SumOf(Without(keys, k), f) + f(keys[k])
    decreases |keys|
  {
    var n := |keys| - 1;
    if k == n {
      assert Without(keys, k) == keys[..n];
    } else {
      SumWithout(keys[..n], k, f);
      assert Without(keys, k)[..n - 1] == Without(keys[..n], k);
    }
  }

  lemma DistinctWithout(keys: seq<string>, k: nat)
    requires Distinct(keys) && k < |keys|
    ensures Distinct(Without(keys, k))
    ensures forall key :: key in Without(keys, k) <==> key in keys && key != keys[k]
  {
    var rest := Without(keys, k);
    forall key ensures key in rest <==> key in keys && key != keys[k] {
      if key in keys && key != keys[k] {
        var i :| 0 <= i < |keys| && keys[i] == key;
        assert rest[if i < k then i else i - 1] == key;
      }
    }
  }

  /** A sum over distinct keys is a sum over any larger list of distinct keys, absent ones counting nothing. */
  lemma {:induction false} SumWithin(all: seq<string>, keys: seq<string>, f: string -> real, g: string -> real)
    requires Distinct(all) && Distinct(keys) && forall key :: key in keys ==> key in all
    requires forall key :: key in all ==> g(key) == if key in keys then f(key) else 0.0
    ensures SumOf(all, g) == SumOf(keys, f)
    decreases |all|
  {
    if all == [] {
      if keys != [] { HeadIn(keys); }
    } else {
      var n := |all| - 1;
      var last := all[n];
      MemberOfMore(all);
      if last in keys {
        var k :| 0 <= k < |keys| && keys[k] == last;
        SumWithout(keys, k, f);
        DistinctWithout(keys, k);
        SumWithin(all[..n], Without(keys, k), f, g);
      } else {
        SumWithin(all[..n], keys, f, g);
      }
    }
  }

  lemma MemberOfMore(keys: seq<string>)
    requires keys != []
    ensures forall key :: key in keys <==> key in keys[..|keys| - 1] || key == keys[|keys| - 1]
  {
    assert keys == keys[..|keys| - 1] + [keys[|keys| - 1]];
  }

  lemma HeadIn(keys: seq<string>)
    requires keys != []
    ensures keys[0] in keys
  {
  }

  /** Every key of either list, each once, in whatever order they are visited. */
  ghost predicate Covers(all: seq<string>, a: seq<string>, b: seq<string>) {
    Distinct(all) && forall key :: key in all <==> key in a || key in b
  }

  /** Changes key by key add up to the change of the sums, a key absent on one side counting zero there. */
  lemma ChangesAcross(all: seq<string>, a: seq<string>, b: seq<string>, f: string -> real, g: string -> real,
      change: string -> real)
    requires Distinct(a) && Distinct(b) && Covers(all, a, b)
    requires forall key :: (key in a || f(key) == 0.0) && (key in b || g(key) == 0.0) && change(key) == g(key) - f(key)
    ensures SumOf(all, change) == SumOf(b, g) - SumOf(a, f)
  {
    SumWithin(all, a, f, f);
    SumWithin(all, b, g, g);
    SumLinear(all, g, f, change);
  }

  function Union(a: seq<string>, b: seq<string>): seq<string> {
    if b == [] then a
    else
      var front, last := Union(a, b[..|b| - 1]), b[|b| - 1];
      if last in front then front else front + [last]
  }

  lemma {:induction false} UnionCovers(a: seq<string>, b: seq<string>)
    requires Distinct(a)
    ensures Covers(Union(a, b), a, b)
  {
    hide Distinct;
    if b != [] {
      var n := |b| - 1;
      UnionCovers(a, b[..n]);
      DistinctMore(Union(a, b[..n]), b[n]);
      MemberOfMore(b);
    }
  }

  // ------------------------------------------------------------ dictionaries

  datatype Entry = Entry(key: string, amount: real)

  function Keys(ledger: seq<Entry>): (keys: seq<string>)
    ensures |keys| == |ledger|
  {
    seq(|ledger|, i requires 0 <= i < |ledger| => ledger[i].key)
  }

  /** The amount under a key, zero when absent. */
  function Amount(ledger: seq<Entry>, key: string): real {
    if ledger == [] then 0.0
    else if ledger[|ledger| - 1].key == key then ledger[|ledger| - 1].amount
    else Amount(ledger[..|ledger| - 1], key)
  }

  function Total(ledger: seq<Entry>): real {
    if ledger == [] then 0.0 else Total(ledger[..|ledger| - 1]) + ledger[|ledger| - 1].amount
  }

  /** Adding to the amount under a key, which is appended when new. */
  function Credit(ledger: seq<Entry>, key: string, amount: real): seq<Entry> {
    if ledger == [] then [Entry(key, amount)]
    else
      var n := |ledger| - 1;
      if ledger[n].key == key then ledger[..n] + [Entry(key, ledger[n].amount + amount)]
      else if exists i :: 0 <= i < n && ledger[i].key == key then Credit(ledger[..n], key, amount) + [ledger[n]]
      else ledger + [Entry(key, amount)]
  }

  lemma KeysOfMore(ledger: seq<Entry>, entry: Entry)
    ensures Keys(ledger + [entry]) == Keys(ledger) + [entry.key]
    ensures (ledger + [entry])[..|ledger|] == ledger
  {
  }

  /** One key has gained an amount; no other entry is touched. */
  ghost predicate Credited(ledger: seq<Entry>, after: seq<Entry>, key: string, amount: real) {
    && Distinct(Keys(after)) && Total(after) == Total(ledger) + amount
    && (forall k :: k in Keys(after) <==> k in Keys(ledger) || k == key)
    && (forall k :: Amount(after, k) == Amount(ledger, k) + if k == key then amount else 0.0)
  }

  lemma {:induction false} CreditMeans(ledger: seq<Entry>, key: string, amount: real)
    requires Distinct(Keys(ledger))
    ensures Credited(ledger, Credit(ledger, key, amount), key, amount)
  {
    hide Credited, Distinct;
    if ledger == [] {
      assert ledger + [Entry(key, amount)] == [Entry(key, amount)];
      CreditNew(ledger, key, amount);
    } else {
      var n := |ledger| - 1;
      var front, last := ledger[..n], ledger[n];
      assert ledger == front + [last];
      KeysOfMore(front, last);
      DistinctMore(Keys(front), last.key);
      if last.key == key {
        CreditLast(front, last, amount);
      } else if exists i :: 0 <= i < n && ledger[i].key == key {
        var i :| 0 <= i < n && ledger[i].key == key;
        assert Keys(front)[i] == key;
        CreditMeans(front, key, amount);
        CreditBeneath(front, Credit(front, key, amount), last, key, amount);
      } else {
        forall i | 0 <= i < |ledger| ensures Keys(ledger)[i] != key {
        }
        CreditNew(ledger, key, amount);
      }
    }
  }

  lemma CreditNew(ledger: seq<Entry>, key: string, amount: real)
    requires Distinct(Keys(ledger)) && key !in Keys(ledger)
    ensures Credited(ledger, ledger + [Entry(key, amount)], key, amount)
  {
    hide Distinct;
    KeysOfMore(ledger, Entry(key, amount));
    DistinctMore(Keys(ledger), key);
    AbsentAmount(ledger, key);
  }

  lemma CreditLast(front: seq<Entry>, last: Entry, amount: real)
    requires Distinct(Keys(front)) && last.key !in Keys(front)
    ensures Credited(front + [last], front + [Entry(last.key, last.amount + amount)], last.key, amount)
  {
    hide Distinct;
    KeysOfMore(front, last);
    KeysOfMore(front, Entry(last.key, last.amount + amount));
    DistinctMore(Keys(front), last.key);
    AbsentAmount(front, last.key);
  }

  lemma CreditBeneath(front: seq<Entry>, credited: seq<Entry>, last: Entry, key: string, amount: real)
    requires Credited(front, credited, key, amount) && last.key != key && last.key !in Keys(front)
    ensures Credited(front + [last], credited + [last], key, amount)
  {
    hide Distinct;
    KeysOfMore(front, last);
    KeysOfMore(credited, last);
    DistinctMore(Keys(credited), last.key);
    var more, after := front + [last], credited + [last];
    forall k ensures Amount(after, k) == Amount(more, k) + if k == key then amount else 0.0 {
      assert Amount(credited, k) == Amount(front, k) + if k == key then amount else 0.0;
    }
  }

  lemma {:induction false} AbsentAmount(ledger: seq<Entry>, key: string)
    requires key !in Keys(ledger)
    ensures Amount(ledger, key) == 0.0
  {
    if ledger != [] {
      var n := |ledger| - 1;
      assert ledger == ledger[..n] + [ledger[n]];
      KeysOfMore(ledger[..n], ledger[n]);
      AbsentAmount(ledger[..n], key);
    }
  }

  /** A dictionary's total is the sum of what its keys look up. */
  lemma {:induction false} TotalByKeys(ledger: seq<Entry>, f: string -> real)
    requires Distinct(Keys(ledger)) && forall key :: key in Keys(ledger) ==> f(key) == Amount(ledger, key)
    ensures Total(ledger) == SumOf(Keys(ledger), f)
  {
    if ledger != [] {
      var n := |ledger| - 1;
      assert ledger == ledger[..n] + [ledger[n]];
      KeysOfMore(ledger[..n], ledger[n]);
      DistinctMore(Keys(ledger[..n]), ledger[n].key);
      TotalByKeys(ledger[..n], f);
      assert Keys(ledger)[..n] == Keys(ledger[..n]);
      assert ledger[n].key in Keys(ledger);
    }
  }

  /** Change by key adds up to change of the totals. */
  lemma ChangesAddUp(a: seq<Entry>, b: seq<Entry>, keys: seq<string>, change: string -> real)
    requires Distinct(Keys(a)) && Distinct(Keys(b)) && Covers(keys, Keys(a), Keys(b))
    requires forall key :: change(key) == Amount(b, key) - Amount(a, key)
    ensures SumOf(keys, change) == Total(b) - Total(a)
  {
    var before, after := key => Amount(a, key), key => Amount(b, key);
    forall key ensures (key in Keys(a) || before(key) == 0.0) && (key in Keys(b) || after(key) == 0.0) {
      if key !in Keys(a) { AbsentAmount(a, key); }
      if key !in Keys(b) { AbsentAmount(b, key); }
    }
    TotalByKeys(a, before);
    TotalByKeys(b, after);
    ChangesAcross(keys, Keys(a), Keys(b), before, after, change);
  }
}
