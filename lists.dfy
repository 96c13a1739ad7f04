/**
 * Deletion by id, shared by the reminder list and the note list: both pages
 * delete with `list.filter((x) => x.id !== id)`.
 */
module Lists {

  /** Some element of `list` has key `id`. */
  predicate HasKey<T>(list: seq<T>, key: T -> string, id: string) {
    exists i :: 0 <= i < |list| && key(list[i]) == id
  }

  /** The elements whose key differs from `id`, in their original order. */
  function Without<T>(list: seq<T>, key: T -> string, id: string): (r: seq<T>)
    ensures |r| <= |list|
    ensures forall x :: x in r ==> x in list && key(x) != id
  {
    if list == [] then []
    else if key(list[0]) == id then Without(list[1..], key, id)
    else [list[0]] + Without(list[1..], key, id)
  }

  /** Deletion distributes over concatenation, so the survivors keep their relative order. */
  lemma {:induction false} WithoutAppend<T>(a: seq<T>, b: seq<T>, key: T -> string, id: string)
    ensures Without(a + b, key, id) == Without(a, key, id) + Without(b, key, id)
  {
    if a == [] {
      assert a + b == b;
    } else {
      assert (a + b)[1..] == a[1..] + b;
      WithoutAppend(a[1..], b, key, id);
    }
  }

  /** Every element with another key survives deletion, and none with this key does. */
  lemma {:induction false} WithoutKeepsOthers<T>(list: seq<T>, key: T -> string, id: string)
    ensures forall x :: x in list && key(x) != id ==> x in Without(list, key, id)
    ensures !HasKey(Without(list, key, id), key, id)
  {
    if list != [] {
      WithoutKeepsOthers(list[1..], key, id);
      forall x | x in list && key(x) != id ensures x in Without(list, key, id) {
        if x != list[0] { assert x in list[1..]; }
      }
    }
    var r := Without(list, key, id);
    forall i | 0 <= i < |r| ensures key(r[i]) != id {
      assert r[i] in r;
    }
  }

  /** A list without the key is left as it is by deletion. */
  lemma {:induction false} WithoutAbsent<T>(list: seq<T>, key: T -> string, id: string)
    requires !HasKey(list, key, id)
    ensures Without(list, key, id) == list
  {
    if list != [] {
      assert key(list[0]) != id;
      assert !HasKey(list[1..], key, id) by {
        forall i | 0 <= i < |list[1..]| ensures key(list[1..][i]) != id { assert list[1..][i] == list[i + 1]; }
      }
      WithoutAbsent(list[1..], key, id);
    }
  }

  /** Deleting twice is deleting once. */
  lemma WithoutIdempotent<T>(list: seq<T>, key: T -> string, id: string)
    ensures Without(Without(list, key, id), key, id) == Without(list, key, id)
  {
    WithoutKeepsOthers(list, key, id);
    WithoutAbsent(Without(list, key, id), key, id);
  }

  /** Deleting the id of a new first element whose id the rest lacks gives back the rest. */
  lemma WithoutFresh<T>(x: T, list: seq<T>, key: T -> string)
    requires !HasKey(list, key, key(x))
    ensures Without([x] + list, key, key(x)) == list
  {
    assert ([x] + list)[1..] == list;
    WithoutAbsent(list, key, key(x));
  }
}
