/**
 * The proxy route's `buildQueryParams`: the incoming search parameters, grouped by key into the
 * parameter record `fetchOpenF1` takes. A key given once keeps its one string, a key given several
 * times keeps the list of all its values; `buildUrl` expands the record back into the same values.
 */
module Proxy {
  import opened Wrappers
  import opened Lists
  import opened OpenF1

  /** `URLSearchParams`: the decoded `key=value` pairs of the request URL, in order. */
  type SearchParams = seq<(string, string)>

  /** `params.keys()`: the key of every pair, repeats included. */
  function KeysOf(query: SearchParams): (r: seq<string>)
    ensures |r| == |query| && forall i :: 0 <= i < |query| ==> r[i] == query[i].0
  {
    Map(query, (pair: (string, string)) => pair.0)
  }

  /** `Array.from(new Set(params.keys()))`. */
  function DistinctKeys(query: SearchParams): seq<string> {
    AddAll([], KeysOf(query))
  }

  /** `params.getAll(key)`: the values given for `key`, in order. */
  function ValuesOf(query: SearchParams, key: string): seq<string> {
    FilterMap(query, (pair: (string, string)) => pair.0 == key, (pair: (string, string)) => pair.1)
  }

  /** An entry of a list value. */
  function ListEntry(value: string): Option<QueryScalar> {
    Some(QStr(value))
  }

  /** The value a key receives: its one string, or the list of all its values. */
  function GroupValue(values: seq<string>): QueryValue {
    if |values| == 1 then QScalar(QStr(values[0])) else QList(Map(values, ListEntry))
  }

  /** The entries the loop writes for the keys `keys`, skipping keys without values. */
  function Entries(query: SearchParams, keys: seq<string>): Params {
    FilterMap(keys, (key: string) => ValuesOf(query, key) != [],
      (key: string) => (key, GroupValue(ValuesOf(query, key))))
  }

  /** The record `buildQueryParams` returns, as its entries in insertion order. */
  function QueryParamsOf(query: SearchParams): Params {
    Entries(query, DistinctKeys(query))
  }

  /**
   * `buildQueryParams`: one entry per distinct key, in order of first appearance; one value gives
   * a string and several give the list of all of them; expanding the record as `buildUrl` does
   * gives every key back its own values, in their original order.
   */
  method BuildQueryParams(query: SearchParams) returns (result: Params)
    ensures result == QueryParamsOf(query)
  {
    var keys := DistinctKeys(query);
    result := [];
    for i := 0 to |keys|
      invariant result == Entries(query, keys[..i])
    {
      var key := keys[i];
      var values := ValuesOf(query, key);
      EntriesTakeSnoc(query, keys, i);
      if |values| == 0 {
        continue;
      }
      if |values| == 1 {
        result := result + [(key, QScalar(QStr(values[0])))];
        continue;
      }
      result := result + [(key, QList(Map(values, ListEntry)))];
    }
    TakeAll(keys);
  }

  /** One more key adds its entry when it has values, and nothing otherwise. */
  lemma EntriesTakeSnoc(query: SearchParams, keys: seq<string>, i: nat)
    requires i < |keys|
    ensures Entries(query, keys[..i + 1]) ==
      Entries(query, keys[..i]) + (if ValuesOf(query, keys[i]) != [] then [(keys[i], GroupValue(ValuesOf(query, keys[i])))] else [])
  {
    FilterMapSnoc(keys, i, (key: string) => ValuesOf(query, key) != [],
      (key: string) => (key, GroupValue(ValuesOf(query, key))));
  }

  /** The distinct keys: each key of the query once, in order of first appearance. */
  lemma DistinctKeysOrder(query: SearchParams)
    ensures Distinct(DistinctKeys(query))
    ensures forall key :: key in DistinctKeys(query) <==> key in KeysOf(query)
    ensures FirstAppearanceOrder(DistinctKeys(query), KeysOf(query))
  {
    AddAllFirstAppearance(KeysOf(query));
  }

  /** A key has values exactly when it occurs in the query. */
  lemma ValuesOfPresent(query: SearchParams, key: string)
    ensures ValuesOf(query, key) != [] <==> key in KeysOf(query)
  {
    var keep, f := (pair: (string, string)) => pair.0 == key, (pair: (string, string)) => pair.1;
    if ValuesOf(query, key) != [] {
      var i := FilterMapSource(query, keep, f, 0);
      assert KeysOf(query)[i] == key;
    }
    if key in KeysOf(query) {
      var i :| 0 <= i < |query| && KeysOf(query)[i] == key;
      FilterMapIncludes(query, keep, f, i);
    }
  }

  /** Every distinct key has values, so the record holds one entry per distinct key. */
  lemma QueryParamsShape(query: SearchParams)
    ensures |QueryParamsOf(query)| == |DistinctKeys(query)|
    ensures forall i :: 0 <= i < |DistinctKeys(query)| ==>
      var key := DistinctKeys(query)[i];
      ValuesOf(query, key) != [] && QueryParamsOf(query)[i] == (key, GroupValue(ValuesOf(query, key)))
  {
    var keys := DistinctKeys(query);
    forall i | 0 <= i < |keys| ensures ValuesOf(query, keys[i]) != [] {
      ValuesOfPresent(query, keys[i]);
    }
    FilterMapAll(keys, (key: string) => ValuesOf(query, key) != [],
      (key: string) => (key, GroupValue(ValuesOf(query, key))));
  }

  /** Expanding a grouped value gives the key's values back, one pair each, in order. */
  lemma GroupValueExpands(key: string, values: seq<string>)
    requires values != []
    ensures ExpandValue(key, GroupValue(values)) == Pairs(key, values)
  {
    if |values| != 1 {
      PresentTextsOfEntries(values);
    }
  }

  lemma {:induction false} PresentTextsOfEntries(values: seq<string>)
    ensures PresentTexts(Map(values, ListEntry)) == values
  {
    if values != [] {
      assert Map(values, ListEntry)[1..] == Map(values[1..], ListEntry);
      PresentTextsOfEntries(values[1..]);
    }
  }

  /** The values of `key` among the pairs of one key. */
  lemma {:induction false} ValuesOfPairs(owner: string, values: seq<string>, key: string)
    ensures ValuesOf(Pairs(owner, values), key) == if owner == key then values else []
  {
    if values != [] {
      var init := values[..|values| - 1];
      ValuesOfPairs(owner, init, key);
      assert Pairs(owner, values)[..|values| - 1] == Pairs(owner, init);
    }
  }

  /** Expanding the entries of distinct keys gives each listed key its values, and others none. */
  lemma {:induction false} EntriesExpand(query: SearchParams, keys: seq<string>, key: string)
    requires Distinct(keys)
    ensures ValuesOf(ExpandParams(Entries(query, keys)), key) == if key in keys then ValuesOf(query, key) else []
  {
    if keys != [] {
      var init, last := keys[..|keys| - 1], keys[|keys| - 1];
      DistinctSnoc(keys);
      EntriesExpand(query, init, key);
      EntriesSnoc(query, keys);
      var head, values := Entries(query, init), ValuesOf(query, last);
      var expanded := ValuesOf(ExpandParams(head), key);
      assert expanded == if key in init then ValuesOf(query, key) else [];
      if values != [] {
        assert Entries(query, keys) == head + [(last, GroupValue(values))];
        ExpandEntry(head, last, values, key);
        assert ValuesOf(ExpandParams(Entries(query, keys)), key) == expanded + if last == key then values else [];
      } else {
        assert Entries(query, keys) == head;
      }
    }
  }

  lemma DistinctSnoc(keys: seq<string>)
    requires Distinct(keys) && keys != []
    ensures var init, last := keys[..|keys| - 1], keys[|keys| - 1];
      Distinct(init) && last !in init && forall key :: key in keys <==> key in init || key == last
  {
    assert keys == keys[..|keys| - 1] + [keys[|keys| - 1]];
  }

  lemma EntriesSnoc(query: SearchParams, keys: seq<string>)
    requires keys != []
    ensures var last := keys[|keys| - 1];
      Entries(query, keys) == Entries(query, keys[..|keys| - 1]) +
        if ValuesOf(query, last) != [] then [(last, GroupValue(ValuesOf(query, last)))] else []
  {
  }

  /** Appending one grouped entry appends its values for its own key, and nothing for others. */
  lemma ExpandEntry(head: Params, owner: string, values: seq<string>, key: string)
    requires values != []
    ensures ValuesOf(ExpandParams(head + [(owner, GroupValue(values))]), key) ==
      ValuesOf(ExpandParams(head), key) + if owner == key then values else []
  {
    var entry, tail := (owner, GroupValue(values)), Pairs(owner, values);
    ExpandParamsAppend(head, [entry]);
    assert ExpandParams([entry]) == tail by {
      assert [entry][1..] == [];
      GroupValueExpands(owner, values);
      assert ExpandParams([entry]) == ExpandValue(owner, GroupValue(values)) + ExpandParams([]);
    }
    ValuesOfAppend(ExpandParams(head), tail, key);
    ValuesOfPairs(owner, values, key);
  }

  lemma ValuesOfAppend(a: SearchParams, b: SearchParams, key: string)
    ensures ValuesOf(a + b, key) == ValuesOf(a, key) + ValuesOf(b, key)
  {
    FilterMapAppend(a, b, (pair: (string, string)) => pair.0 == key, (pair: (string, string)) => pair.1);
  }

  /** `buildUrl(buildQueryParams(q))` gives every key exactly the values it has in `q`, in order. */
  lemma QueryParamsRoundTrip(query: SearchParams)
    ensures forall key :: ValuesOf(ExpandParams(QueryParamsOf(query)), key) == ValuesOf(query, key)
  {
    DistinctKeysOrder(query);
    forall key ensures ValuesOf(ExpandParams(QueryParamsOf(query)), key) == ValuesOf(query, key) {
      EntriesExpand(query, DistinctKeys(query), key);
      ValuesOfPresent(query, key);
    }
  }
}
