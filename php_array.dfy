/**
 * The part of PHP's value model the field relies on: `empty()` on scalars and
 * ordered arrays with string keys, assigned to with `$a[$k] = $v`.
 *
 * PHP scalars are carried in their string form: null and false print as "",
 * 0 as "0". On that form `empty()` holds of exactly "" and "0", and PHP's
 * coercion of array keys (integer 12 and string "12" are one key) holds too.
 */
module PhpArray {

  /** PHP's `empty()` on a scalar in its string form. */
  predicate Empty(s: string) {
    s == "" || s == "0"
  }

  /** An ordered PHP array: its key/value pairs in insertion order. */
  type Assoc<V> = seq<(string, V)>

  /** A PHP array never holds one key twice. */
  predicate UniqueKeys<V>(a: Assoc<V>) {
    forall i, j :: 0 <= i < j < |a| ==> a[i].0 != a[j].0
  }

  predicate HasKey<V>(a: Assoc<V>, k: string) {
    exists i :: 0 <= i < |a| && a[i].0 == k
  }

  /** `$a[$k] = $v`: an existing key keeps its position and takes the new
      value; a new key is appended at the end. */
  function Put<V>(a: Assoc<V>, k: string, v: V): (r: Assoc<V>)
    requires UniqueKeys(a)
    ensures UniqueKeys(r)
    ensures !HasKey(a, k) ==> r == a + [(k, v)]
    ensures forall i :: 0 <= i < |a| && a[i].0 == k ==> r == a[i := (k, v)]
  {
    if a == [] then [(k, v)]
    else if a[0].0 == k then [(k, v)] + a[1..]
    else
      var rest := Put(a[1..], k, v);
      assert forall i :: 1 <= i < |a| && a[i].0 == k ==> a[1..][i - 1].0 == k;
      assert forall i :: 1 <= i < |a| && a[i].0 == k ==> [a[0]] + a[1..][i - 1 := (k, v)] == a[i := (k, v)];
      [a[0]] + rest
  }

  /** What a single assignment keeps, adds and drops. */
  lemma PutMembers<V>(a: Assoc<V>, k: string, v: V)
    requires UniqueKeys(a)
    ensures (k, v) in Put(a, k, v)
    ensures forall p :: p in Put(a, k, v) ==> p == (k, v) || (p in a && p.0 != k)
    ensures forall p :: p in a && p.0 != k ==> p in Put(a, k, v)
    ensures forall k' :: HasKey(Put(a, k, v), k') <==> HasKey(a, k') || k' == k
  {
    var r := Put(a, k, v);
    if HasKey(a, k) {
      var i :| 0 <= i < |a| && a[i].0 == k;
      assert r == a[i := (k, v)];
      assert r[i] == (k, v);
      forall p | p in r ensures p == (k, v) || (p in a && p.0 != k) {
        var j :| 0 <= j < |r| && r[j] == p;
        if j != i { assert a[j] == p; }
      }
      forall p | p in a && p.0 != k ensures p in r {
        var j :| 0 <= j < |a| && a[j] == p;
        assert r[j] == p;
      }
      forall k' | HasKey(r, k') ensures HasKey(a, k') || k' == k {
        var j :| 0 <= j < |r| && r[j].0 == k';
        if j != i { assert a[j].0 == k'; }
      }
      forall k' | HasKey(a, k') ensures HasKey(r, k') {
        var j :| 0 <= j < |a| && a[j].0 == k';
        assert r[j].0 == k';
      }
    } else {
      assert r == a + [(k, v)];
      assert r[|a|] == (k, v);
      forall k' | HasKey(r, k') ensures HasKey(a, k') || k' == k {
        var j :| 0 <= j < |r| && r[j].0 == k';
        if j < |a| { assert a[j].0 == k'; }
      }
      forall k' | HasKey(a, k') ensures HasKey(r, k') {
        var j :| 0 <= j < |a| && a[j].0 == k';
        assert r[j].0 == k';
      }
    }
  }

  /** The assignments `$a[$k] = $v` for each pair of `es`, in order. */
  function PutAll<V>(a: Assoc<V>, es: seq<(string, V)>): (r: Assoc<V>)
    requires UniqueKeys(a)
    ensures UniqueKeys(r)
  {
    if es == [] then a
    else
      var last := es[|es| - 1];
      Put(PutAll(a, es[..|es| - 1]), last.0, last.1)
  }

  /** Assigning two runs of pairs is assigning the first, then the second. */
  lemma {:induction false} PutAllAppend<V>(a: Assoc<V>, xs: seq<(string, V)>, ys: seq<(string, V)>)
    requires UniqueKeys(a)
    ensures PutAll(a, xs + ys) == PutAll(PutAll(a, xs), ys)
    decreases |ys|
  {
    if ys != [] {
      var ys' := ys[..|ys| - 1];
      assert (xs + ys)[..|xs + ys| - 1] == xs + ys';
      PutAllAppend(a, xs, ys');
    } else {
      assert xs + ys == xs;
    }
  }

  /** The pair at index `i` is the last one with its key. */
  predicate LastWithKey<V>(es: seq<(string, V)>, i: int)
    requires 0 <= i < |es|
  {
    forall j :: i < j < |es| ==> es[j].0 != es[i].0
  }

  /** Every pair of the result was already there or was assigned. */
  lemma {:induction false} PutAllFrom<V>(a: Assoc<V>, es: seq<(string, V)>)
    requires UniqueKeys(a)
    ensures forall p :: p in PutAll(a, es) ==> p in a || p in es
    decreases |es|
  {
    if es != [] {
      var init := es[..|es| - 1];
      var last := es[|es| - 1];
      PutAllFrom(a, init);
      PutMembers(PutAll(a, init), last.0, last.1);
      assert forall p :: p in init ==> p in es;
    }
  }

  /** The last assignment to each key is the one the result holds. */
  lemma {:induction false} PutAllLastWins<V>(a: Assoc<V>, es: seq<(string, V)>)
    requires UniqueKeys(a)
    ensures forall i :: 0 <= i < |es| && LastWithKey(es, i) ==> es[i] in PutAll(a, es)
    decreases |es|
  {
    if es != [] {
      var init := es[..|es| - 1];
      var last := es[|es| - 1];
      var prev := PutAll(a, init);
      assert PutAll(a, es) == Put(prev, last.0, last.1);
      PutAllLastWins(a, init);
      PutMembers(prev, last.0, last.1);
      forall i | 0 <= i < |es| && LastWithKey(es, i) ensures es[i] in Put(prev, last.0, last.1) {
        if i < |es| - 1 {
          assert es[i] == init[i];
          assert LastWithKey(init, i) by {
            forall j | i < j < |init| ensures init[j].0 != init[i].0 {
              assert init[j] == es[j];
            }
          }
          assert es[i].0 != last.0;
          assert es[i] in prev;
        }
      }
    }
  }

  /** A key of a run of pairs is a key of all but its last pair, or the
      last pair's key. */
  lemma HasKeySnoc<V>(es: seq<(string, V)>, k: string)
    requires es != []
    ensures HasKey(es, k) <==> HasKey(es[..|es| - 1], k) || es[|es| - 1].0 == k
  {
    var init := es[..|es| - 1];
    if HasKey(init, k) {
      var j :| 0 <= j < |init| && init[j].0 == k;
      assert es[j].0 == k;
    }
    if HasKey(es, k) && es[|es| - 1].0 != k {
      var j :| 0 <= j < |es| && es[j].0 == k;
      assert init[j].0 == k;
    }
  }

  /** The keys of the result are the old keys plus the assigned ones. */
  lemma {:induction false} PutAllKeys<V>(a: Assoc<V>, es: seq<(string, V)>, k: string)
    requires UniqueKeys(a)
    ensures HasKey(PutAll(a, es), k) <==> HasKey(a, k) || HasKey(es, k)
    decreases |es|
  {
    if es != [] {
      var init := es[..|es| - 1];
      var last := es[|es| - 1];
      var prev := PutAll(a, init);
      assert PutAll(a, es) == Put(prev, last.0, last.1);
      PutAllKeys(a, init, k);
      PutMembers(prev, last.0, last.1);
      HasKeySnoc(es, k);
    }
  }
}
