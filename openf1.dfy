/**
 * The resource client's pure parts: the total coercions of untyped field values, `slugify`,
 * the date-and-time combination, the base URL and resource path, and the expansion of
 * query parameters into `key=value` pairs.
 */
module OpenF1 {
  import opened Wrappers
  import opened JsText
  import opened JsValues

  const DefaultBaseUrl: string := "https://api.openf1.org/v1"

  /** The errors the engine raises: `NotFoundError`, and the `TypeError` of reading a field of `null`. */
  datatype Error = NotFound(message: string) | TypeError(message: string)

  // ---------------------------------------------------------------------------
  // Coercions
  // ---------------------------------------------------------------------------

  /**
   * `coerceNumber`: a finite number as it is, a string through `Number(text.trim())`
   * (so blank text is 0 and unparsable text is null), anything else null.
   */
  function CoerceNumber(v: JValue): (r: Option<real>)
    ensures v.JNum? && v.n.Finite? ==> r == Some(v.n.value)
    ensures v.JNum? && !v.n.Finite? ==> r == None
    ensures !v.JNum? && !v.JStr? ==> r == None
    ensures v.JStr? && Trim(v.s) == [] ==> r == Some(0.0)
  {
    match v
    case JNum(Finite(x)) => Some(x)
    case JStr(s) => JsNumber(Trim(s))
    case _ => None
  }

  /** Trimming before `Number` changes nothing: `Number` ignores surrounding white space itself. */
  lemma CoerceNumberOfString(s: string)
    ensures CoerceNumber(JStr(s)) == JsNumber(s)
  {
    TrimOfTrimmed(Trim(s));
  }

  /** The decimal text of an integer coerces back to that integer. */
  lemma CoerceNumberOfIntText(n: int)
    ensures CoerceNumber(JStr(IntText(n))) == Some(n as real)
  {
    CoerceNumberOfString(IntText(n));
    JsNumberOfIntText(n);
  }

  /**
   * `coerceString`: a string trimmed (null when nothing is left), a finite number as its
   * decimal text, anything else null; a result is never empty and never has white space at
   * either end.
   */
  function CoerceString(v: JValue): (r: Option<string>)
    ensures r.Some? ==> r.value != [] && IsTrimmed(r.value)
    ensures v.JStr? ==> (r.None? <==> Trim(v.s) == [])
    ensures v.JNum? && v.n.Finite? ==> r == Some(NumberText(v.n.value))
    ensures v.JNum? && !v.n.Finite? ==> r == None
    ensures !v.JNum? && !v.JStr? ==> r == None
  {
    match v
    case JStr(s) => var t := Trim(s); if |t| > 0 then Some(t) else None
    case JNum(Finite(x)) => Some(NumberText(x))
    case _ => None
  }

  /** A coerced string coerces to itself. */
  lemma CoerceStringIdempotent(v: JValue)
    requires CoerceString(v).Some?
    ensures CoerceString(JStr(CoerceString(v).value)) == CoerceString(v)
  {
    TrimOfTrimmed(CoerceString(v).value);
  }

  predicate IsTrueWord(t: string) {
    t == "y" || t == "yes" || t == "true" || t == "1"
  }

  predicate IsFalseWord(t: string) {
    t == "n" || t == "no" || t == "false" || t == "0"
  }

  /** The text `coerceBoolean` compares: trimmed and lower-cased. */
  function BooleanText(s: string): string {
    ToLower(Trim(s))
  }

  /**
   * `coerceBoolean`: booleans as they are, the numbers 1 and 0, and the trimmed,
   * case-insensitive words y/yes/true/1 and n/no/false/0; everything else null.
   */
  function CoerceBoolean(v: JValue): (r: Option<bool>)
    ensures r == Some(true) <==>
      v == JBool(true) || v == JNum(Finite(1.0)) || (v.JStr? && IsTrueWord(BooleanText(v.s)))
    ensures r == Some(false) <==>
      v == JBool(false) || v == JNum(Finite(0.0)) || (v.JStr? && IsFalseWord(BooleanText(v.s)))
  {
    match v
    case JBool(b) => Some(b)
    case JNum(Finite(x)) => if x == 1.0 then Some(true) else if x == 0.0 then Some(false) else None
    case JStr(s) =>
      var t := BooleanText(s);
      assert !(IsTrueWord(t) && IsFalseWord(t)) by { TrueAndFalseWordsDisjoint(t); }
      if IsTrueWord(t) then Some(true) else if IsFalseWord(t) then Some(false) else None
    case _ => None
  }

  lemma TrueAndFalseWordsDisjoint(t: string)
    ensures !(IsTrueWord(t) && IsFalseWord(t))
  {
  }

  /** Case and surrounding white space do not matter: `" YES "` is true. */
  lemma CoerceBooleanYesUpperCase()
    ensures CoerceBoolean(JStr(" YES ")) == Some(true)
  {
    TrimPaddedYes();
    LowerYes();
  }

  lemma TrimPaddedYes()
    ensures Trim(" YES ") == "YES"
  {
    TrimStartPaddedYes();
    TrimEndYes();
  }

  lemma TrimStartPaddedYes()
    ensures TrimStart(" YES ") == "YES "
  {
    assert IsSpace(' ') && !IsSpace('Y');
    assert " YES "[1..] == "YES ";
    assert TrimStart("YES ") == "YES ";
  }

  lemma TrimEndYes()
    ensures TrimEnd("YES ") == "YES"
  {
    assert IsSpace(' ') && !IsSpace('S');
    assert "YES "[..3] == "YES";
    assert TrimEnd("YES") == "YES";
  }

  lemma LowerYes()
    ensures ToLower("YES") == "yes"
  {
    var lower := ToLower("YES");
    assert lower[0] == 'y' && lower[1] == 'e' && lower[2] == 's';
  }

  /** Numbers other than 0 and 1 are not booleans. */
  lemma CoerceBooleanOtherNumbers(n: Number)
    requires n != Finite(0.0) && n != Finite(1.0)
    ensures CoerceBoolean(JNum(n)) == None
  {
  }

  // ---------------------------------------------------------------------------
  // slugify
  // ---------------------------------------------------------------------------

  predicate IsSlugChar(c: char) {
    'a' <= c <= 'z' || '0' <= c <= '9'
  }

  /** Only `[a-z0-9-]`, no `-` at either end, and never two `-` in a row. */
  predicate IsSlug(s: string) {
    && (forall i :: 0 <= i < |s| ==> IsSlugChar(s[i]) || s[i] == '-')
    && (s == [] || (s[0] != '-' && s[|s| - 1] != '-'))
    && (forall i :: 0 <= i < |s| - 1 ==> s[i] != '-' || s[i + 1] != '-')
  }

  /** `.replace(/[^a-z0-9]+/g, "-")`; `inRun` says the previous character was already replaced. */
  function CollapseRuns(s: string, inRun: bool): (r: string)
    ensures forall i :: 0 <= i < |r| ==> IsSlugChar(r[i]) || r[i] == '-'
    ensures forall i :: 0 <= i < |r| - 1 ==> r[i] != '-' || r[i + 1] != '-'
    ensures inRun && r != [] ==> r[0] != '-'
  {
    if s == [] then []
    else if IsSlugChar(s[0]) then [s[0]] + CollapseRuns(s[1..], false)
    else if inRun then CollapseRuns(s[1..], true)
    else "-" + CollapseRuns(s[1..], true)
  }

  /** `.replace(/(^-|-$)/g, "")`. */
  function StripDashes(s: string): string {
    var a := if s != [] && s[0] == '-' then s[1..] else s;
    if a != [] && a[|a| - 1] == '-' then a[..|a| - 1] else a
  }

  /** `slugify`: lower-case, every run of other characters one `-`, no `-` at either end. */
  function Slugify(s: string): (r: string)
    ensures IsSlug(r)
  {
    StripDashes(CollapseRuns(ToLower(s), false))
  }

  lemma {:induction false} CollapseRunsOfSlugText(s: string, inRun: bool)
    requires forall i :: 0 <= i < |s| ==> IsSlugChar(s[i]) || s[i] == '-'
    requires forall i :: 0 <= i < |s| - 1 ==> s[i] != '-' || s[i + 1] != '-'
    requires inRun && s != [] ==> s[0] != '-'
    ensures CollapseRuns(s, inRun) == s
  {
    if s != [] {
      CollapseRunsOfSlugText(s[1..], !IsSlugChar(s[0]));
      assert [s[0]] + s[1..] == s;
    }
  }

  lemma SlugifyOfSlug(s: string)
    requires IsSlug(s)
    ensures Slugify(s) == s
  {
    LowerOfSlugText(s);
    CollapseRunsOfSlugText(s, false);
    NoDashesToStrip(s);
  }

  /** Lower-casing leaves digits, lower-case letters and `-` as they are. */
  lemma LowerOfSlugText(s: string)
    requires forall i :: 0 <= i < |s| ==> IsSlugChar(s[i]) || s[i] == '-'
    ensures ToLower(s) == s
  {
    assert forall i :: 0 <= i < |s| ==> ToLower(s)[i] == s[i];
  }

  /** A text that neither starts nor ends with `-` has no dash to strip. */
  lemma NoDashesToStrip(s: string)
    requires s == [] || (s[0] != '-' && s[|s| - 1] != '-')
    ensures StripDashes(s) == s
  {
  }

  /** `slugify(slugify(s)) == slugify(s)`. */
  lemma SlugifyIdempotent(s: string)
    ensures Slugify(Slugify(s)) == Slugify(s)
  {
    SlugifyOfSlug(Slugify(s));
  }

  // ---------------------------------------------------------------------------
  // Dates
  // ---------------------------------------------------------------------------

  /**
   * `combineDateAndTime`: no date, no instant; the time defaults to midnight; the ISO form
   * `date + "T" + time` is tried before `date + " " + time`. `parseDate` stands for
   * `Date.parse` followed by `toISOString` (None for an unparsable text).
   */
  function CombineDateAndTime(date: JValue, time: JValue, parseDate: string -> Option<string>): (r: Option<string>)
    ensures CoerceString(date).None? ==> r.None?
    ensures CoerceString(date).Some? ==>
      var d, t := CoerceString(date).value, if CoerceString(time).Some? then CoerceString(time).value else "00:00:00";
      && (parseDate(d + "T" + t).Some? ==> r == parseDate(d + "T" + t))
      && (parseDate(d + "T" + t).None? ==> r == parseDate(d + " " + t))
  {
    match CoerceString(date)
    case None => None
    case Some(d) =>
      var t := match CoerceString(time) case Some(x) => x case None => "00:00:00";
      match parseDate(d + "T" + t)
      case Some(iso) => Some(iso)
      case None => parseDate(d + " " + t)
  }

  /** `new Date(0).toISOString()`. */
  const EpochIso: string := "1970-01-01T00:00:00.000Z"

  // ---------------------------------------------------------------------------
  // Base URL, resource path and query parameters
  // ---------------------------------------------------------------------------

  /**
   * `resolveBaseUrl`: the configured value, trimmed and without one trailing `/`, when it is
   * not blank; otherwise the public endpoint.
   */
  function ResolveBaseUrl(configured: Option<string>): (r: string)
    ensures configured.None? ==> r == DefaultBaseUrl
    ensures configured.Some? && Trim(configured.value) == [] ==> r == DefaultBaseUrl
    ensures configured.Some? && Trim(configured.value) != [] ==>
      var t := Trim(configured.value);
      (t[|t| - 1] == '/' ==> r == t[..|t| - 1]) && (t[|t| - 1] != '/' ==> r == t)
  {
    match configured
    case None => DefaultBaseUrl
    case Some(c) =>
      var t := Trim(c);
      if t == [] then DefaultBaseUrl
      else if t[|t| - 1] == '/' then t[..|t| - 1] else t
  }

  /** The address `buildUrl` starts from: absolute resources as they are, others under the base. */
  function ResourcePath(baseUrl: string, resource: string): (r: string)
    ensures StartsWith(resource, "http") ==> r == resource
    ensures !StartsWith(resource, "http") && StartsWith(resource, "/") ==> r == baseUrl + "/" + resource[1..]
    ensures !StartsWith(resource, "http") && !StartsWith(resource, "/") ==> r == baseUrl + "/" + resource
  {
    if StartsWith(resource, "http") then resource
    else baseUrl + "/" + (if StartsWith(resource, "/") then resource[1..] else resource)
  }

  /** One element a query value may hold. */
  datatype QueryScalar = QStr(s: string) | QNum(n: Number) | QBool(b: bool)

  /** A query value: absent (`null`/`undefined`), a scalar, or a list whose entries may be absent. */
  datatype QueryValue = QAbsent | QScalar(x: QueryScalar) | QList(items: seq<Option<QueryScalar>>)

  /** A parameter record, as its entries in order (an object has each key at most once). */
  type Params = seq<(string, QueryValue)>

  /** A URL as the model sees it: the address and its search parameters in order. */
  datatype Url = Url(path: string, query: seq<(string, string)>)

  /** `String(entry)`. */
  function ScalarText(x: QueryScalar): string {
    match x
    case QStr(s) => s
    case QNum(n) => NumberString(n)
    case QBool(b) => if b then "true" else "false"
  }

  /** The present entries of a list, as text, in list order. */
  function PresentTexts(items: seq<Option<QueryScalar>>): seq<string> {
    if items == [] then []
    else (match items[0] case Some(x) => [ScalarText(x)] case None => []) + PresentTexts(items[1..])
  }

  function Pairs(key: string, values: seq<string>): (r: seq<(string, string)>)
    ensures |r| == |values| && forall i :: 0 <= i < |r| ==> r[i] == (key, values[i])
  {
    seq(|values|, i requires 0 <= i < |values| => (key, values[i]))
  }

  /** The pairs one parameter contributes. */
  function ExpandValue(key: string, value: QueryValue): seq<(string, string)> {
    match value
    case QAbsent => []
    case QScalar(x) => [(key, ScalarText(x))]
    case QList(items) => Pairs(key, PresentTexts(items))
  }

  /** The search parameters `buildUrl` appends, parameter after parameter. */
  function ExpandParams(params: Params): seq<(string, string)> {
    if params == [] then [] else ExpandValue(params[0].0, params[0].1) + ExpandParams(params[1..])
  }

  /** Expansion respects the order of the entries: it distributes over concatenation. */
  lemma {:induction false} ExpandParamsAppend(a: Params, b: Params)
    ensures ExpandParams(a + b) == ExpandParams(a) + ExpandParams(b)
  {
    if a == [] {
      assert a + b == b;
    } else {
      assert (a + b)[0] == a[0];
      assert (a + b)[1..] == a[1..] + b;
      ExpandParamsAppend(a[1..], b);
    }
  }

  /** A scalar is one pair, an absent value none, a list one pair per present entry in order. */
  lemma ExpandValueShape(key: string, value: QueryValue)
    ensures value.QAbsent? ==> ExpandValue(key, value) == []
    ensures value.QScalar? ==> |ExpandValue(key, value)| == 1
    ensures value.QList? ==> |ExpandValue(key, value)| == |PresentTexts(value.items)| <= |value.items|
    ensures forall i :: 0 <= i < |ExpandValue(key, value)| ==> ExpandValue(key, value)[i].0 == key
  {
    if value.QList? {
      PresentTextsLength(value.items);
    }
  }

  lemma {:induction false} PresentTextsLength(items: seq<Option<QueryScalar>>)
    ensures |PresentTexts(items)| <= |items|
    ensures (forall i :: 0 <= i < |items| ==> items[i].Some?) ==> |PresentTexts(items)| == |items|
  {
    if items != [] {
      PresentTextsLength(items[1..]);
    }
  }

  /**
   * `buildUrl`: resolves the address and appends the search parameters entry by entry,
   * skipping absent values and absent list entries.
   */
  method BuildUrl(baseUrl: string, resource: string, params: Params) returns (url: Url)
    ensures url.path == ResourcePath(baseUrl, resource)
    ensures url.query == ExpandParams(params)
  {
    var query: seq<(string, string)> := [];
    for i := 0 to |params|
      invariant query == ExpandParams(params[..i])
    {
      var key, value := params[i].0, params[i].1;
      ExpandParamsSnoc(params, i);
      match value {
        case QAbsent =>
        case QList(items) =>
          query := AppendEntries(query, key, items);
        case QScalar(x) =>
          query := query + [(key, ScalarText(x))];
      }
    }
    assert params[..|params|] == params;
    url := Url(ResourcePath(baseUrl, resource), query);
  }

  lemma ExpandParamsSnoc(params: Params, i: nat)
    requires i < |params|
    ensures ExpandParams(params[..i + 1]) == ExpandParams(params[..i]) + ExpandValue(params[i].0, params[i].1)
  {
    assert params[..i + 1] == params[..i] + [params[i]];
    ExpandParamsAppend(params[..i], [params[i]]);
    assert [params[i]][1..] == [];
  }

  /** The `value.forEach` of `buildUrl`: one pair per present list entry, in list order. */
  method AppendEntries(query: seq<(string, string)>, key: string, items: seq<Option<QueryScalar>>)
    returns (result: seq<(string, string)>)
    ensures result == query + Pairs(key, PresentTexts(items))
  {
    result := query;
    var j := 0;
    while j < |items|
      invariant 0 <= j <= |items|
      invariant result == query + Pairs(key, PresentTexts(items[..j]))
    {
      PresentTextsSnoc(items[..j], items[j]);
      assert items[..j + 1] == items[..j] + [items[j]];
      if items[j].Some? {
        result := result + [(key, ScalarText(items[j].value))];
      }
      j := j + 1;
    }
    assert items[..j] == items;
  }

  lemma {:induction false} PresentTextsSnoc(items: seq<Option<QueryScalar>>, last: Option<QueryScalar>)
    ensures PresentTexts(items + [last]) ==
      PresentTexts(items) + (match last case Some(x) => [ScalarText(x)] case None => [])
  {
    if items == [] {
      assert [] + [last] == [last];
    } else {
      assert (items + [last])[1..] == items[1..] + [last];
      PresentTextsSnoc(items[1..], last);
    }
  }
}
