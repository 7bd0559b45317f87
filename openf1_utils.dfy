/**
 * Candidate-key lookups over a raw record: each tries its keys in order and returns the first
 * coercion that resolves.
 */
module OpenF1Utils {
  import opened Wrappers
  import opened JsText
  import opened JsValues
  import opened OpenF1

  /** `value ?? fallback`. */
  function GetFirstDefined<T>(value: Option<T>, fallback: T): (r: T)
    ensures value.Some? ==> r == value.value
    ensures value.None? ==> r == fallback
  {
    match value
    case Some(v) => v
    case None => fallback
  }

  /** `keys[i]` is the first key whose coercion resolves. */
  predicate FirstResolvingKey<T>(entry: RawRecord, keys: seq<string>, coerce: JValue -> Option<T>, i: int) {
    0 <= i < |keys| && coerce(Field(entry, keys[i])).Some?
    && forall j :: 0 <= j < i ==> coerce(Field(entry, keys[j])).None?
  }

  /**
   * The search every `pick*` performs: the coercion of the first key, in list order, whose
   * coercion resolves; `None` when no key resolves.
   */
  function FirstResolved<T(==)>(entry: RawRecord, keys: seq<string>, coerce: JValue -> Option<T>): (r: Option<T>)
    ensures r.None? <==> forall i :: 0 <= i < |keys| ==> coerce(Field(entry, keys[i])).None?
    ensures r.Some? ==> exists i :: FirstResolvingKey(entry, keys, coerce, i) && r == coerce(Field(entry, keys[i]))
  {
    if keys == [] then None
    else
      var head := coerce(Field(entry, keys[0]));
      if head.Some? then
        assert FirstResolvingKey(entry, keys, coerce, 0);
        head
      else
        var r := FirstResolved(entry, keys[1..], coerce);
        if r.Some? then
          var i :| FirstResolvingKey(entry, keys[1..], coerce, i) && r == coerce(Field(entry, keys[1..][i]));
          assert keys[i + 1] == keys[1..][i];
          assert FirstResolvingKey(entry, keys, coerce, i + 1) by {
            forall j | 0 <= j < i + 1 ensures coerce(Field(entry, keys[j])).None? {
              if j > 0 { assert keys[j] == keys[1..][j - 1]; }
            }
          }
          r
        else
          assert forall i :: 1 <= i < |keys| ==> keys[i] == keys[1..][i - 1];
          r
  }

  /** `pickNumber`. */
  function PickNumber(entry: RawRecord, keys: seq<string>): (r: Option<real>)
    ensures r.None? <==> forall i :: 0 <= i < |keys| ==> CoerceNumber(Field(entry, keys[i])).None?
    ensures r.Some? ==> exists i :: FirstResolvingKey(entry, keys, CoerceNumber, i) && r == CoerceNumber(Field(entry, keys[i]))
  {
    FirstResolved(entry, keys, CoerceNumber)
  }

  /** `pickString`: a result is never empty and never has white space at either end. */
  function PickString(entry: RawRecord, keys: seq<string>): (r: Option<string>)
    ensures r.Some? ==> r.value != [] && IsTrimmed(r.value)
    ensures r.None? <==> forall i :: 0 <= i < |keys| ==> CoerceString(Field(entry, keys[i])).None?
    ensures r.Some? ==> exists i :: FirstResolvingKey(entry, keys, CoerceString, i) && r == CoerceString(Field(entry, keys[i]))
  {
    FirstResolved(entry, keys, CoerceString)
  }

  /** `pickBoolean`: a resolved `false` is a result like `true`. */
  function PickBoolean(entry: RawRecord, keys: seq<string>): (r: Option<bool>)
    ensures r.None? <==> forall i :: 0 <= i < |keys| ==> CoerceBoolean(Field(entry, keys[i])).None?
    ensures r.Some? ==> exists i :: FirstResolvingKey(entry, keys, CoerceBoolean, i) && r == CoerceBoolean(Field(entry, keys[i]))
  {
    FirstResolved(entry, keys, CoerceBoolean)
  }

  /** Keys after the first resolving one are never consulted, so appending keys keeps a result. */
  lemma {:induction false} FirstResolvedAppend<T>(entry: RawRecord, keys: seq<string>, more: seq<string>, coerce: JValue -> Option<T>)
    requires FirstResolved(entry, keys, coerce).Some?
    ensures FirstResolved(entry, keys + more, coerce) == FirstResolved(entry, keys, coerce)
  {
    assert (keys + more)[0] == keys[0];
    if coerce(Field(entry, keys[0])).None? {
      assert (keys + more)[1..] == keys[1..] + more;
      FirstResolvedAppend(entry, keys[1..], more, coerce);
    }
  }

  /** A one-key lookup is the coercion of that key. */
  lemma PickSingle(entry: RawRecord, key: string)
    ensures PickNumber(entry, [key]) == CoerceNumber(Field(entry, key))
    ensures PickString(entry, [key]) == CoerceString(Field(entry, key))
    ensures PickBoolean(entry, [key]) == CoerceBoolean(Field(entry, key))
  {
    assert [key][0] == key && [key][1..] == [];
  }

  /** With two keys, `pickString` is the first key's string, else the second's. */
  lemma PickStringPair(entry: RawRecord, first: string, second: string)
    ensures PickString(entry, [first, second]) ==
      if CoerceString(Field(entry, first)).Some? then CoerceString(Field(entry, first)) else CoerceString(Field(entry, second))
  {
    var keys := [first, second];
    assert keys[0] == first && keys[1..] == [second];
    assert [second][0] == second && [second][1..] == [];
  }

  /** With two keys, `pickNumber` is the first key's number, else the second's. */
  lemma PickNumberPair(entry: RawRecord, first: string, second: string)
    ensures PickNumber(entry, [first, second]) ==
      if CoerceNumber(Field(entry, first)).Some? then CoerceNumber(Field(entry, first)) else CoerceNumber(Field(entry, second))
  {
    var keys := [first, second];
    assert keys[0] == first && keys[1..] == [second];
    assert [second][0] == second && [second][1..] == [];
  }

  /** With no keys to try, every lookup is null. */
  lemma PickOfNoKeys(entry: RawRecord)
    ensures PickNumber(entry, []) == None
    ensures PickString(entry, []) == None
    ensures PickBoolean(entry, []) == None
  {
  }

  /** A non-null `pickNumber`, `pickString` or `pickBoolean` result survives more keys. */
  lemma PickAppend(entry: RawRecord, keys: seq<string>, more: seq<string>)
    ensures PickNumber(entry, keys).Some? ==> PickNumber(entry, keys + more) == PickNumber(entry, keys)
    ensures PickString(entry, keys).Some? ==> PickString(entry, keys + more) == PickString(entry, keys)
    ensures PickBoolean(entry, keys).Some? ==> PickBoolean(entry, keys + more) == PickBoolean(entry, keys)
  {
    if PickNumber(entry, keys).Some? {
      FirstResolvedAppend(entry, keys, more, CoerceNumber);
    }
    if PickString(entry, keys).Some? {
      FirstResolvedAppend(entry, keys, more, CoerceString);
    }
    if PickBoolean(entry, keys).Some? {
      FirstResolvedAppend(entry, keys, more, CoerceBoolean);
    }
  }

  /** A first key that resolves to `false` ends `pickBoolean`'s search, whatever follows. */
  lemma PickBooleanFalseStops(entry: RawRecord, key: string, rest: seq<string>)
    requires CoerceBoolean(Field(entry, key)) == Some(false)
    ensures PickBoolean(entry, [key] + rest) == Some(false)
  {
    assert ([key] + rest)[0] == key;
  }

  /**
   * `toSecondsString`: null for null and NaN, otherwise the value to three places
   * (an infinity prints as itself).
   */
  function ToSecondsString(value: Option<Number>): (r: Option<string>)
    ensures r.None? <==> value.None? || value.value.NaN?
  {
    match value
    case None => None
    case Some(NaN) => None
    case Some(Infinity(negative)) => Some(NumberString(Infinity(negative)))
    case Some(Finite(x)) =>
      Some(ToFixed(x, 3))
  }

  /** The seconds text of a finite value reads back within half a millisecond of it. */
  lemma ToSecondsStringReadsBack(x: real)
    ensures ToSecondsString(Some(Finite(x))).Some?
    ensures var t := ToSecondsString(Some(Finite(x))).value;
      JsNumber(t).Some? && x - 0.0005 <= JsNumber(t).value <= x + 0.0005
  {
    ToFixedValue(x, 3);
    HalfThousandth();
  }

  lemma HalfThousandth()
    ensures 0.5 / Pow10(3) as real == 0.0005
  {
    assert Pow10(3) == 1000;
  }
}
