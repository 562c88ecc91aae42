/**
 * The `contents` object of a directory: a JavaScript object used as a
 * dictionary from names to entries, which remembers insertion order
 * (`Object.keys`, `Object.entries`). Assigning to an existing name keeps its
 * place; a new name goes to the end; `delete` removes the name.
 */
module Dicts {

  datatype Dict<V> = Dict(order: seq<string>, items: map<string, V>)

  /** Names are listed once each, and exactly the names that have an entry. */
  ghost predicate Valid<V>(d: Dict<V>)
  {
    Distinct(d.order) && (forall k :: k in d.items <==> k in d.order)
  }

  function Empty<V>(): Dict<V>
  {
    Dict([], map[])
  }

  /** `contents[k] = v`. */
  function Put<V>(d: Dict<V>, k: string, v: V): Dict<V>
  {
    if k in d.items then Dict(d.order, d.items[k := v])
    else Dict(d.order + [k], d.items[k := v])
  }

  /** The names of `s` other than `k`, in order. */
  function Without(s: seq<string>, k: string): (t: seq<string>)
    ensures k !in t
    ensures forall x :: x in t <==> x in s && x != k
    ensures |t| <= |s|
  {
    if |s| == 0 then []
    else if s[0] == k then Without(s[1..], k)
    else [s[0]] + Without(s[1..], k)
  }

  /** `delete contents[k]`. */
  function Remove<V>(d: Dict<V>, k: string): Dict<V>
  {
    Dict(Without(d.order, k), d.items - {k})
  }

  /** Removing a name that is not listed changes nothing in the order. */
  lemma {:induction false} WithoutAbsent(s: seq<string>, k: string)
    requires k !in s
    ensures Without(s, k) == s
  {
    if |s| > 0 {
      WithoutAbsent(s[1..], k);
      assert [s[0]] + s[1..] == s;
    }
  }

  /** Each name is listed at most once. */
  predicate Distinct(s: seq<string>)
  {
    forall i, j :: 0 <= i < j < |s| ==> s[i] != s[j]
  }

  /** Removing keeps the remaining names distinct. */
  lemma {:induction false} WithoutDistinct(s: seq<string>, k: string)
    requires Distinct(s)
    ensures Distinct(Without(s, k))
  {
    if |s| > 0 {
      var rest := s[1..];
      assert Distinct(rest) by {
        forall i, j | 0 <= i < j < |rest| ensures rest[i] != rest[j] {
          assert rest[i] == s[i + 1] && rest[j] == s[j + 1];
        }
      }
      WithoutDistinct(rest, k);
      var u := Without(rest, k);
      if s[0] != k {
        var t := [s[0]] + u;
        assert Without(s, k) == t;
        assert s[0] !in rest by {
          forall m | 0 <= m < |rest| ensures rest[m] != s[0] {
            assert rest[m] == s[m + 1];
          }
        }
        forall i, j | 0 <= i < j < |t| ensures t[i] != t[j] {
          if i == 0 {
            assert t[j] == u[j - 1];
            assert u[j - 1] in u;
          } else {
            assert t[i] == u[i - 1] && t[j] == u[j - 1];
          }
        }
      }
    }
  }

  /** Assignment and deletion keep a dictionary well formed. */
  lemma PutRemoveValid<V>(d: Dict<V>, k: string, v: V)
    requires Valid(d)
    ensures Valid(Put(d, k, v))
    ensures Valid(Remove(d, k))
  {
    WithoutDistinct(d.order, k);
  }

  /** Adding a new name and deleting it again gives back the same dictionary. */
  lemma RemoveAfterPut<V>(d: Dict<V>, k: string, v: V)
    requires Valid(d) && k !in d.items
    ensures Remove(Put(d, k, v), k) == d
  {
    var order := d.order + [k];
    assert Without([k], k) == [];
    WithoutAppend(d.order, [k], k);
    WithoutAbsent(d.order, k);
    assert d.order + [] == d.order;
    assert d.items[k := v] - {k} == d.items;
  }

  lemma {:induction false} WithoutAppend(a: seq<string>, b: seq<string>, k: string)
    ensures Without(a + b, k) == Without(a, k) + Without(b, k)
  {
    if |a| > 0 {
      assert (a + b)[1..] == a[1..] + b;
      WithoutAppend(a[1..], b, k);
    } else {
      assert a + b == b;
    }
  }
}
