/** The file map a Metalsmith pipeline hands to each plugin: a mutable object from
    path to file record. Its keys have an enumeration order (the order
    `Object.keys` lists them in), which the glob mode of the plugin depends on. */
module FileMaps {
  import opened JsValues

  /** A file record: a JavaScript object with a `contents` field and any other
      fields (metadata) that earlier plugins put there. */
  type Record = map<string, Value>

  const ContentsField := "contents"

  /** `record.contents` as it reads when appended to a string: its string
      conversion, or "undefined" when the record has no such field. */
  function ContentsOf(r: Record): string
  {
    if ContentsField in r then ToString(r[ContentsField]) else "undefined"
  }

  /** The value of a file map: its entries and the enumeration order of its keys. */
  datatype State = State(files: map<string, Record>, order: seq<string>)

  predicate Distinct(s: seq<string>)
  {
    forall i, j :: 0 <= i < j < |s| ==> s[i] != s[j]
  }

  /** The enumeration order lists every key of the map exactly once. */
  ghost predicate WellFormed(s: State)
  {
    Distinct(s.order) && Elems(s.order) == s.files.Keys
  }

  function Elems(s: seq<string>): set<string>
  {
    set x | x in s
  }

  lemma ElemsAppend(s: seq<string>, x: string)
    ensures Elems(s + [x]) == Elems(s) + {x}
  {
  }

  /** The order `o` with the keys in `ks` left out, the others keeping their places. */
  function Without(o: seq<string>, ks: set<string>): (r: seq<string>)
    ensures forall x :: x in r <==> x in o && x !in ks
  {
    if o == [] then []
    else
      var rest := Without(o[1..], ks);
      assert forall x :: x in o[1..] ==> x in o;
      if o[0] in ks then rest else [o[0]] + rest
  }

  lemma {:induction false} WithoutDistinct(o: seq<string>, ks: set<string>)
    requires Distinct(o)
    ensures Distinct(Without(o, ks))
  {
    if o != [] {
      assert Distinct(o[1..]) by {
        forall i, j | 0 <= i < j < |o[1..]| ensures o[1..][i] != o[1..][j] {
          assert o[i + 1] != o[j + 1];
        }
      }
      WithoutDistinct(o[1..], ks);
    }
  }

  /** `delete files[k]` for every `k` in `ks`. */
  function RemoveKeys(s: State, ks: set<string>): (t: State)
    ensures t.files.Keys == s.files.Keys - ks
    ensures forall k :: k in t.files ==> t.files[k] == s.files[k]
  {
    State(s.files - ks, Without(s.order, ks))
  }

  lemma RemoveKeysWellFormed(s: State, ks: set<string>)
    requires WellFormed(s)
    ensures WellFormed(RemoveKeys(s, ks))
  {
    WithoutDistinct(s.order, ks);
  }

  /** `files[k] = r`: an existing key keeps its place in the order, a new key
      goes last. */
  function Store(s: State, k: string, r: Record): (t: State)
    ensures t.files == s.files[k := r]
    ensures k in s.files ==> t.order == s.order
    ensures k !in s.files ==> t.order == s.order + [k]
  {
    if k in s.files then State(s.files[k := r], s.order) else State(s.files[k := r], s.order + [k])
  }

  lemma StoreWellFormed(s: State, k: string, r: Record)
    requires WellFormed(s)
    ensures WellFormed(Store(s, k, r))
  {
    if k !in s.files {
      ElemsAppend(s.order, k);
    }
  }

  lemma {:induction false} WithoutNothing(o: seq<string>)
    ensures Without(o, {}) == o
  {
    if o != [] {
      WithoutNothing(o[1..]);
      assert o == [o[0]] + o[1..];
    }
  }

  lemma {:induction false} WithoutWithout(o: seq<string>, a: set<string>, b: set<string>)
    ensures Without(Without(o, a), b) == Without(o, a + b)
  {
    if o != [] {
      WithoutWithout(o[1..], a, b);
      if o[0] !in a {
        assert Without(o, a) == [o[0]] + Without(o[1..], a);
        assert ([o[0]] + Without(o[1..], a))[1..] == Without(o[1..], a);
      }
    }
  }

  /** Deleting two sets of keys one after the other deletes their union. */
  lemma RemoveKeysTwice(s: State, a: set<string>, b: set<string>)
    ensures RemoveKeys(RemoveKeys(s, a), b) == RemoveKeys(s, a + b)
  {
    WithoutWithout(s.order, a, b);
    assert s.files - a - b == s.files - (a + b);
  }

  lemma RemoveNoKeys(s: State)
    ensures RemoveKeys(s, {}) == s
  {
    WithoutNothing(s.order);
    assert s.files - {} == s.files;
  }

  /** The live file map the plugin receives by reference and changes in place. */
  class FileMap {
    var files: map<string, Record>
    var order: seq<string>

    ghost predicate Valid()
      reads this
    {
      WellFormed(Snapshot())
    }

    function Snapshot(): State
      reads this
    {
      State(files, order)
    }

    constructor (s: State)
      requires WellFormed(s)
      ensures Valid() && Snapshot() == s
    {
      files := s.files;
      order := s.order;
    }

    /** `delete files[key]`; deleting an absent key changes nothing. */
    method Delete(key: string)
      requires Valid()
      modifies this
      ensures Valid()
      ensures Snapshot() == RemoveKeys(old(Snapshot()), {key})
    {
      RemoveKeysWellFormed(Snapshot(), {key});
      files := files - {key};
      order := Without(order, {key});
    }

    /** `files[key] = r`. */
    method Set(key: string, r: Record)
      requires Valid()
      modifies this
      ensures Valid()
      ensures Snapshot() == Store(old(Snapshot()), key, r)
    {
      StoreWellFormed(Snapshot(), key, r);
      if key !in files {
        order := order + [key];
      }
      files := files[key := r];
    }

    /** `files[key][field] = value`, on the record object stored at `key`. */
    method SetField(key: string, field: string, value: Value)
      requires Valid() && key in files
      modifies this
      ensures Valid()
      ensures Snapshot() == State(old(files)[key := old(files)[key][field := value]], old(order))
    {
      files := files[key := files[key][field := value]];
    }
  }
}
