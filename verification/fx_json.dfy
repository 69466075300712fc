/**
 * `FXService.parseRateJson`: finds a rate in a provider's JSON answer by trying a fixed
 * list of shapes in order. The JSON tree is what Jackson's `readTree` builds; the parser
 * itself is the parameter `readTree`.
 */
module FxJson {
  import opened Wrappers

  /** A Jackson tree. An object keeps its fields in document order, repeated keys
      included. */
  datatype Json =
    | JNull
    | JBool(b: bool)
    | JNumber(n: real)
    | JString(s: string)
    | JArray(items: seq<Json>)
    | JObject(fields: seq<(string, Json)>)

  /** The value of the last field named `name`: Jackson keeps the last of repeated
      keys. */
  function LastValue(fields: seq<(string, Json)>, name: string): (r: Option<Json>)
    ensures r.Some? <==> exists i :: 0 <= i < |fields| && fields[i].0 == name
    ensures r.Some? ==> exists i :: 0 <= i < |fields| && fields[i] == (name, r.value)
  {
    if fields == [] then None
    else if fields[|fields| - 1].0 == name then Some(fields[|fields| - 1].1)
    else LastValue(fields[..|fields| - 1], name)
  }

  /** `node.get(name)`, or `None` where it returns null; `node.has(name)` is `.Some?`.
      Only an object has fields. */
  function Member(node: Json, name: string): (r: Option<Json>)
    ensures r.Some? ==> node.JObject?
  {
    if node.JObject? then LastValue(node.fields, name) else None
  }

  /** `Member` on a node that may be missing. */
  function In(node: Option<Json>, name: string): Option<Json>
  {
    if node.None? then None else Member(node.value, name)
  }

  /** `asDouble()` of a node that `isNumber()`. */
  function NumberOf(node: Option<Json>): (r: Option<real>)
    ensures r.Some? <==> node.Some? && node.value.JNumber?
  {
    if node.Some? && node.value.JNumber? then Some(node.value.n) else None
  }

  /** Whether the key of `fields[i]` occurred earlier, so that Jackson's field iterator
      has already visited it. */
  predicate SeenBefore(fields: seq<(string, Json)>, i: nat)
    requires i < |fields|
  {
    exists k :: 0 <= k < i && fields[k].0 == fields[i].0
  }

  /** The loop over `data.fields()` from the `i`-th field on: the first field whose node
      has a numeric `value`. The iterator visits each key once, at its first position,
      with its last value. */
  function FirstValueFrom(fields: seq<(string, Json)>, i: nat): Option<real>
    decreases |fields| - i
  {
    if i >= |fields| then None
    else if SeenBefore(fields, i) then FirstValueFrom(fields, i + 1)
    else
      var v := NumberOf(In(LastValue(fields, fields[i].0), "value"));
      if v.Some? then v else FirstValueFrom(fields, i + 1)
  }

  /** The whole loop; a node that is not an object has no fields. */
  function FirstDataValue(data: Option<Json>): Option<real>
  {
    if data.Some? && data.value.JObject? then FirstValueFrom(data.value.fields, 0) else None
  }

  /** The six shapes `parseRateJson` looks for, in the order it tries them: numeric
      `result`, `info.rate`, `rate`, `rates[target]`, `data[target]`, and the first
      `data` field with a numeric `value`. */
  function Candidates(root: Json, target: string): (r: seq<Option<real>>)
    ensures |r| == 6
  {
    [ NumberOf(Member(root, "result")),
      NumberOf(In(Member(root, "info"), "rate")),
      NumberOf(Member(root, "rate")),
      NumberOf(In(Member(root, "rates"), target)),
      NumberOf(In(Member(root, "data"), target)),
      FirstDataValue(Member(root, "data")) ]
  }

  /** The body of `parseRateJson` after `readTree`: the chain of early returns. */
  function ParseRate(root: Json, target: string): Option<real>
  {
    var result := NumberOf(Member(root, "result"));
    if result.Some? then result
    else
      var info := NumberOf(In(Member(root, "info"), "rate"));
      if info.Some? then info
      else
        var rate := NumberOf(Member(root, "rate"));
        if rate.Some? then rate
        else
          var rates := NumberOf(In(Member(root, "rates"), target));
          if rates.Some? then rates
          else
            var dataTarget := NumberOf(In(Member(root, "data"), target));
            if dataTarget.Some? then dataTarget
            else FirstDataValue(Member(root, "data"))
  }

  /** `parseRateJson(json, target)`: `None` where `readTree` throws or no shape
      matches. */
  function ParseRateJson(readTree: string -> Option<Json>, json: string, target: string): (r: Option<real>)
    ensures readTree(json).None? ==> r.None?
    ensures readTree(json).Some? ==> r == ParseRate(readTree(json).value, target)
  {
    match readTree(json)
    case None => None
    case Some(root) => ParseRate(root, target)
  }

  /** The first shape that matches wins. */
  lemma ParseRateFirstMatch(root: Json, target: string, k: nat)
    requires k < 6 && Candidates(root, target)[k].Some?
    requires forall m :: 0 <= m < k ==> Candidates(root, target)[m].None?
    ensures ParseRate(root, target) == Candidates(root, target)[k]
  {
    var c := Candidates(root, target);
    assert c[0] == NumberOf(Member(root, "result"));
    assert c[1] == NumberOf(In(Member(root, "info"), "rate"));
    assert c[2] == NumberOf(Member(root, "rate"));
    assert c[3] == NumberOf(In(Member(root, "rates"), target));
    assert c[4] == NumberOf(In(Member(root, "data"), target));
    assert c[5] == FirstDataValue(Member(root, "data"));
  }

  /** The answer is null exactly when no shape matches. */
  lemma ParseRateNone(root: Json, target: string)
    ensures ParseRate(root, target).None? <==> forall m :: 0 <= m < 6 ==> Candidates(root, target)[m].None?
  {
    var c := Candidates(root, target);
    assert c[0] == NumberOf(Member(root, "result"));
    assert c[1] == NumberOf(In(Member(root, "info"), "rate"));
    assert c[2] == NumberOf(Member(root, "rate"));
    assert c[3] == NumberOf(In(Member(root, "rates"), target));
    assert c[4] == NumberOf(In(Member(root, "data"), target));
    assert c[5] == FirstDataValue(Member(root, "data"));
  }

  // ------------------------------------------------------- the data loop

  /** No key occurs twice. */
  predicate DistinctKeys(fields: seq<(string, Json)>)
  {
    forall i, j :: 0 <= i < j < |fields| ==> fields[i].0 != fields[j].0
  }

  /** The first field whose own node has a numeric `value`, in document order. */
  function FirstWithValue(fields: seq<(string, Json)>): (r: Option<real>)
  {
    if fields == [] then None
    else
      var v := NumberOf(Member(fields[0].1, "value"));
      if v.Some? then v else FirstWithValue(fields[1..])
  }

  /** With distinct keys a key's last value is its only one. */
  lemma {:induction false} LastValueDistinct(fields: seq<(string, Json)>, i: nat)
    requires i < |fields| && DistinctKeys(fields)
    ensures LastValue(fields, fields[i].0) == Some(fields[i].1)
  {
    var n := |fields|;
    if i < n - 1 {
      assert fields[n - 1].0 != fields[i].0;
      var p := fields[..n - 1];
      assert p[i] == fields[i];
      LastValueDistinct(p, i);
    }
  }

  /** When no key repeats, the field loop visits the fields in document order. */
  lemma {:induction false} FirstValueFromDistinct(fields: seq<(string, Json)>, i: nat)
    requires i <= |fields| && DistinctKeys(fields)
    ensures FirstValueFrom(fields, i) == FirstWithValue(fields[i..])
    decreases |fields| - i
  {
    if i < |fields| {
      var v := NumberOf(Member(fields[i].1, "value"));
      assert FirstValueFrom(fields, i) == if v.Some? then v else FirstValueFrom(fields, i + 1) by {
        assert !SeenBefore(fields, i);
        LastValueDistinct(fields, i);
      }
      assert FirstWithValue(fields[i..]) == if v.Some? then v else FirstWithValue(fields[i + 1..]) by {
        assert fields[i..][0] == fields[i];
        assert fields[i..][1..] == fields[i + 1..];
      }
      FirstValueFromDistinct(fields, i + 1);
    }
  }

  // ------------------------------------------------------- an example

  /** The answer of the Frankfurter service for EUR to USD. */
  const FrankfurterBody: string := "{\"amount\":1,\"base\":\"EUR\",\"date\":\"2025-09-01\",\"rates\":{\"USD\":1.10}}"

  /** Its tree. */
  const FrankfurterTree: Json := JObject([
    ("amount", JNumber(1.0)),
    ("base", JString("EUR")),
    ("date", JString("2025-09-01")),
    ("rates", JObject([("USD", JNumber(1.10))]))])

  /** The Frankfurter shape yields the quote under `rates`. */
  lemma ParsesFrankfurter(readTree: string -> Option<Json>)
    requires readTree(FrankfurterBody) == Some(FrankfurterTree)
    ensures ParseRateJson(readTree, FrankfurterBody, "USD") == Some(1.10)
  {
    assert Member(FrankfurterTree, "result") == None;
    assert Member(FrankfurterTree, "info") == None;
    assert Member(FrankfurterTree, "rate") == None;
    assert Member(FrankfurterTree, "rates") == Some(JObject([("USD", JNumber(1.10))]));
  }
}
