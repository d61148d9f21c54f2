/** Counting the keys of a nested Python dictionary, as the three
    get_all_keys_with_counts functions do (src/Models/parser.py,
    src/Models/formula_parser.py and src/Objects/formula_parser.py share one
    traversal): every key of a dictionary that is in the acceptable set adds
    one to its count, a dictionary value is visited, and so is every
    dictionary directly inside a list value. */
module DictKeys {
  import opened Results

  /** The shape of a Python value as far as the traversal can see it. */
  datatype Value =
    | Scalar
    | Dict(entries: seq<Entry>)
    | List(items: seq<Value>)

  datatype Entry = Entry(key: string, value: Value)

  /** Every key the traversal meets in v, with repetitions. */
  function Keys(v: Value): multiset<string>
    decreases v, 1
  {
    match v
    case Scalar => multiset{}
    case Dict(es) => EntryKeys(es)
    case List(xs) => ItemKeys(xs)
  }

  /** The keys met in a dictionary with these entries. */
  function EntryKeys(es: seq<Entry>): multiset<string>
    decreases es, 0
  {
    if es == [] then multiset{}
    else
      var e := es[|es| - 1];
      EntryKeys(es[..|es| - 1]) + multiset{e.key} + Keys(e.value)
  }

  /** The keys met in a list: only its dictionary items are visited. */
  function ItemKeys(xs: seq<Value>): multiset<string>
    decreases xs, 0
  {
    if xs == [] then multiset{}
    else
      var x := xs[|xs| - 1];
      ItemKeys(xs[..|xs| - 1]) + (if x.Dict? then Keys(x) else multiset{})
  }

  /** A dictionary whose values are all scalars, with these keys in order. */
  function Flat(keys: seq<string>): (es: seq<Entry>)
    ensures |es| == |keys|
    ensures forall i :: 0 <= i < |keys| ==> es[i] == Entry(keys[i], Scalar)
  {
    seq(|keys|, i requires 0 <= i < |keys| => Entry(keys[i], Scalar))
  }

  /** The keys met in a flat dictionary are its keys. */
  lemma {:induction false} FlatKeys(keys: seq<string>)
    ensures EntryKeys(Flat(keys)) == multiset(keys)
  {
    if keys != [] {
      var init := keys[..|keys| - 1];
      assert Flat(keys)[..|keys| - 1] == Flat(init);
      FlatKeys(init);
      assert keys == init + [keys[|keys| - 1]];
    }
  }

  /** The keys met in a dictionary of two entries. */
  lemma PairKeys(a: Entry, b: Entry)
    ensures EntryKeys([a, b]) == multiset{a.key} + Keys(a.value) + multiset{b.key} + Keys(b.value)
  {
    assert [a][..0] == [];
    assert EntryKeys([a]) == multiset{a.key} + Keys(a.value);
    assert [a, b][..1] == [a];
  }

  /** The keys met in a dictionary of a tag and a flat "components" dictionary. */
  lemma TaggedFlatKeys(tag: string, keys: seq<string>)
    ensures Keys(Dict([Entry(tag, Scalar), Entry("components", Dict(Flat(keys)))])) == multiset{tag, "components"} + multiset(keys)
  {
    FlatKeys(keys);
    PairKeys(Entry(tag, Scalar), Entry("components", Dict(Flat(keys))));
  }

  /** The keys met in a list of two items. */
  lemma ItemPairKeys(x: Value, y: Value)
    ensures ItemKeys([x, y]) == (if x.Dict? then Keys(x) else multiset{}) + (if y.Dict? then Keys(y) else multiset{})
  {
    assert [x][..0] == [];
    assert ItemKeys([x]) == (if x.Dict? then Keys(x) else multiset{});
    assert [x, y][..1] == [x];
  }

  /** keys_count.get(k, 0) */
  function Get(counts: map<string, int>, k: string): int {
    if k in counts then counts[k] else 0
  }

  /** out is counts with every acceptable key of found added as many times as
      found holds it; keys outside the acceptable set are neither added nor
      changed. */
  ghost predicate Adds(out: map<string, int>, counts: map<string, int>, acceptable: set<string>, found: multiset<string>) {
    (forall k :: k in out <==> k in counts || (k in acceptable && found[k] > 0))
    && (forall k :: k in out ==> out[k] == Get(counts, k) + (if k in acceptable then found[k] else 0))
  }

  /** The counts the traversal leaves when it has met the keys found, starting
      from counts: the reference definition of its result. */
  function KeyCounts(counts: map<string, int>, acceptable: set<string>, found: multiset<string>): map<string, int> {
    map k | k in counts.Keys + (set a | a in acceptable && found[a] > 0) ::
      Get(counts, k) + (if k in acceptable then found[k] else 0)
  }

  /** KeyCounts is the one map that Adds describes. */
  lemma KeyCountsAdds(out: map<string, int>, counts: map<string, int>, acceptable: set<string>, found: multiset<string>)
    ensures Adds(out, counts, acceptable, found) <==> out == KeyCounts(counts, acceptable, found)
  {
    var m := KeyCounts(counts, acceptable, found);
    if Adds(out, counts, acceptable, found) {
      assert out.Keys == m.Keys;
    }
  }

  /** Meeting no key changes nothing. */
  lemma KeyCountsNone(counts: map<string, int>, acceptable: set<string>)
    ensures KeyCounts(counts, acceptable, multiset{}) == counts
  {
    var m := KeyCounts(counts, acceptable, multiset{});
    assert m.Keys == counts.Keys;
  }

  /** Counting one key: keys_count[key] = keys_count.get(key, 0) + 1 when the key
      is acceptable. */
  lemma KeyCountsKey(counts: map<string, int>, acceptable: set<string>, found: multiset<string>, key: string)
    ensures var acc := KeyCounts(counts, acceptable, found);
            (if key in acceptable then acc[key := Get(acc, key) + 1] else acc)
            == KeyCounts(counts, acceptable, found + multiset{key})
  {
    if key in acceptable {
      KeyCountsAccepted(counts, acceptable, found, key);
    } else {
      KeyCountsIgnored(counts, acceptable, found, key);
    }
  }

  lemma KeyCountsAccepted(counts: map<string, int>, acceptable: set<string>, found: multiset<string>, key: string)
    requires key in acceptable
    ensures var acc := KeyCounts(counts, acceptable, found);
            acc[key := Get(acc, key) + 1] == KeyCounts(counts, acceptable, found + multiset{key})
  {
    var acc := KeyCounts(counts, acceptable, found);
    var next := acc[key := Get(acc, key) + 1];
    var m := KeyCounts(counts, acceptable, found + multiset{key});
    assert next.Keys == m.Keys;
    forall k | k in m
      ensures next[k] == m[k]
    {
      if k == key {
        assert Get(acc, key) == Get(counts, k) + found[k];
      }
    }
  }

  lemma KeyCountsIgnored(counts: map<string, int>, acceptable: set<string>, found: multiset<string>, key: string)
    requires key !in acceptable
    ensures KeyCounts(counts, acceptable, found) == KeyCounts(counts, acceptable, found + multiset{key})
  {
    var acc := KeyCounts(counts, acceptable, found);
    var m := KeyCounts(counts, acceptable, found + multiset{key});
    assert acc.Keys == m.Keys;
  }

  /** Counting two parts one after the other counts their union. */
  lemma KeyCountsThen(counts: map<string, int>, acceptable: set<string>, f1: multiset<string>, f2: multiset<string>)
    ensures KeyCounts(KeyCounts(counts, acceptable, f1), acceptable, f2) == KeyCounts(counts, acceptable, f1 + f2)
  {
    var m1 := KeyCounts(counts, acceptable, f1);
    var m2 := KeyCounts(m1, acceptable, f2);
    var m := KeyCounts(counts, acceptable, f1 + f2);
    assert m2.Keys == m.Keys;
  }

  /** count_keys(item, keys_count): the entries of a dictionary in order, each
      acceptable key counted, dictionary values visited and the dictionary items
      of list values visited. */
  method CountKeys(item: Value, acceptable: set<string>, counts: map<string, int>) returns (out: map<string, int>)
    requires item.Dict?
    ensures out == KeyCounts(counts, acceptable, Keys(item))
    decreases item
  {
    var es := item.entries;
    out := counts;
    KeyCountsNone(counts, acceptable);
    var i := 0;
    while i < |es|
      invariant 0 <= i <= |es|
      invariant out == KeyCounts(counts, acceptable, EntryKeys(es[..i]))
    {
      ghost var found := EntryKeys(es[..i]);
      var before := out;
      out := CountEntry(es[i], acceptable, out);
      KeyCountsThen(counts, acceptable, found, multiset{es[i].key} + Keys(es[i].value));
      EntryKeysStep(es, i);
      i := i + 1;
    }
    assert es[..|es|] == es;
  }

  /** One pass of the loop over a dictionary's entries: the key, then its value. */
  method CountEntry(e: Entry, acceptable: set<string>, counts: map<string, int>) returns (out: map<string, int>)
    ensures out == KeyCounts(counts, acceptable, multiset{e.key} + Keys(e.value))
    decreases e
  {
    out := counts;
    KeyCountsKey(counts, acceptable, multiset{}, e.key);
    KeyCountsNone(counts, acceptable);
    if e.key in acceptable {
      out := out[e.key := Get(out, e.key) + 1];
    }
    assert out == KeyCounts(counts, acceptable, multiset{e.key}) by {
      assert multiset{} + multiset{e.key} == multiset{e.key};
    }
    if e.value.Dict? {
      out := CountKeys(e.value, acceptable, out);
    } else if e.value.List? {
      out := CountItems(e.value, e.value.items, acceptable, out);
    } else {
      KeyCountsNone(out, acceptable);
    }
    KeyCountsThen(counts, acceptable, multiset{e.key}, Keys(e.value));
  }

  lemma EntryKeysStep(es: seq<Entry>, i: nat)
    requires i < |es|
    ensures EntryKeys(es[..i + 1]) == EntryKeys(es[..i]) + (multiset{es[i].key} + Keys(es[i].value))
  {
    assert es[..i + 1][..i] == es[..i];
  }

  /** The loop over a list value: only its dictionary items are visited. */
  method CountItems(v: Value, xs: seq<Value>, acceptable: set<string>, counts: map<string, int>) returns (out: map<string, int>)
    requires v == List(xs)
    ensures out == KeyCounts(counts, acceptable, Keys(v))
    decreases v, 0
  {
    out := counts;
    KeyCountsNone(counts, acceptable);
    var j := 0;
    while j < |xs|
      invariant 0 <= j <= |xs|
      invariant out == KeyCounts(counts, acceptable, ItemKeys(xs[..j]))
    {
      assert xs[..j + 1][..j] == xs[..j];
      if xs[j].Dict? {
        out := CountKeys(xs[j], acceptable, out);
        KeyCountsThen(counts, acceptable, ItemKeys(xs[..j]), Keys(xs[j]));
      }
      j := j + 1;
    }
    assert xs[..|xs|] == xs;
  }

  /** The body of get_all_keys_with_counts(d, keys_count) once the acceptable
      keys are fixed: a missing keys_count starts empty, and d must be a
      dictionary (None.items() raises AttributeError). The source adds to
      keys_count in place and returns it; here the new counts are returned and
      the argument, a value, is left as it was. */
  method CountAll(d: Value, keysCount: Option<map<string, int>>, acceptable: set<string>) returns (r: Result<map<string, int>>)
    ensures !d.Dict? ==> r == Err(AttributeError)
    ensures d.Dict? ==> r == Ok(KeyCounts(if keysCount.Some? then keysCount.value else map[], acceptable, Keys(d)))
  {
    if !d.Dict? {
      return Err(AttributeError);
    }
    var counts := if keysCount.Some? then keysCount.value else map[];
    var out := CountKeys(d, acceptable, counts);
    return Ok(out);
  }

  /** With one acceptable key, the result holds that key alone, with its number
      of occurrences, or nothing when it does not occur. */
  lemma OneLabel(only: string, found: multiset<string>)
    ensures KeyCounts(map[], {only}, found) == if found[only] > 0 then map[only := found[only]] else map[]
  {
    var m := KeyCounts(map[], {only}, found);
    var want: map<string, int> := if found[only] > 0 then map[only := found[only]] else map[];
    assert m.Keys == want.Keys;
  }

  /** Starting from no counts, a key is in the result exactly when it is
      acceptable and occurs, and it is mapped to its number of occurrences. */
  lemma FromNothing(acceptable: set<string>, found: multiset<string>, k: string)
    ensures k in KeyCounts(map[], acceptable, found) <==> k in acceptable && found[k] > 0
    ensures k in KeyCounts(map[], acceptable, found) ==> KeyCounts(map[], acceptable, found)[k] == found[k]
  {
  }
}
