/** The application-managed Recipe: operator overrides laid over a packaged definition. */
module RecipeOverlay {
  import opened Wrappers
  import opened TextOrder
  import opened ControlStanzas

  /** JSON documents as Python holds them; numbers are integers. */
  datatype Json =
    | Null
    | Bool(b: bool)
    | Int(i: int)
    | Str(s: string)
    | List(items: seq<Json>)
    | Dict(fields: map<string, Json>)

  function AsInt(v: Json): Option<int> {
    if v.Bool? then Some(if v.b then 1 else 0) else if v.Int? then Some(v.i) else None
  }

  /** Python's == on such documents: True equals 1, dictionaries ignore order. */
  ghost predicate PyEq(a: Json, b: Json)
    decreases a
  {
    match a
    case Dict(f) => b.Dict? && f.Keys == b.fields.Keys && forall k :: k in f ==> PyEq(f[k], b.fields[k])
    case List(l) => b.List? && |l| == |b.items| && forall i :: 0 <= i < |l| ==> PyEq(l[i], b.items[i])
    case Bool(_) => AsInt(a) == AsInt(b)
    case Int(_) => AsInt(a) == AsInt(b)
    case _ => a == b
  }

  lemma {:induction false} PyEqReflexive(a: Json)
    ensures PyEq(a, a)
    decreases a
  {
    if a.Dict? {
      forall k | k in a.fields ensures PyEq(a.fields[k], a.fields[k]) { PyEqReflexive(a.fields[k]); }
    } else if a.List? {
      forall i | 0 <= i < |a.items| ensures PyEq(a.items[i], a.items[i]) { PyEqReflexive(a.items[i]); }
    }
  }

  /** Truth values and numbers compare as numbers; nothing else equals either. */
  lemma TruthIsNumber(b: bool, i: int, other: Json)
    ensures PyEq(Bool(b), Int(i)) <==> (b && i == 1) || (!b && i == 0)
    ensures PyEq(Int(i), Bool(b)) <==> PyEq(Bool(b), Int(i))
    ensures PyEq(Int(i), other) ==> other.Int? || other.Bool?
  {
  }

  // ------------------------------------------------------------ the first difference

  function Decimal(n: nat): (s: string)
    ensures s != ""
  {
    var digit := ['0' + (n % 10) as char];
    if n < 10 then digit else Decimal(n / 10) + digit
  }

  /** The number that a decimal text stands for. */
  function Reading(s: string): int {
    if s == [] then 0 else 10 * Reading(s[..|s| - 1]) + (s[|s| - 1] as int - '0' as int)
  }

  /** An index is written so that it can be read back, so no two items share a path. */
  lemma {:induction false} DecimalReads(n: nat)
    ensures Reading(Decimal(n)) == n
    ensures forall i :: 0 <= i < |Decimal(n)| ==> '0' <= Decimal(n)[i] <= '9'
  {
    var s := Decimal(n);
    if n >= 10 {
      DecimalReads(n / 10);
      assert s[..|s| - 1] == Decimal(n / 10);
    } else {
      assert s[..|s| - 1] == [];
    }
  }

  function Child(path: string, key: string): string { path + "." + key }
  function Item(path: string, i: nat): string { path + "[" + Decimal(i) + "]" }

  /** `d` names the first place, in key and index order, where the documents differ. */
  ghost predicate FirstAt(left: Json, right: Json, path: string, d: string)
    decreases left
  {
    if left.Dict? && right.Dict? then
      exists key ::
        && key in left.fields.Keys + right.fields.Keys
        && (forall k :: k in left.fields.Keys + right.fields.Keys && k != key && Leq(k, key) ==> EqualAt(left, right, k))
        && (if key in left.fields && key in right.fields then FirstAt(left.fields[key], right.fields[key], Child(path, key), d)
            else d == Child(path, key))
    else if left.List? && right.List? && |left.items| == |right.items| then
      exists i ::
        && 0 <= i < |left.items| && (forall j :: 0 <= j < i ==> PyEq(left.items[j], right.items[j]))
        && FirstAt(left.items[i], right.items[i], Item(path, i), d)
    else d == path && !PyEq(left, right)
  }

  ghost predicate EqualAt(left: Json, right: Json, k: string)
    requires left.Dict? && right.Dict?
  {
    k in left.fields && k in right.fields && PyEq(left.fields[k], right.fields[k])
  }

  /** _first_difference */
  method FirstDifference(left: Json, right: Json, path: string) returns (d: string)
    requires path != ""
    ensures d == "" <==> PyEq(left, right)
    ensures d != "" ==> FirstAt(left, right, path, d)
    decreases left, 1
  {
    if left.Dict? && right.Dict? {
      d := DictDifference(left, right, path);
    } else if left.List? && right.List? && |left.items| == |right.items| {
      for i := 0 to |left.items|
        invariant forall j :: 0 <= j < i ==> PyEq(left.items[j], right.items[j])
      {
        d := FirstDifference(left.items[i], right.items[i], Item(path, i));
        if d != "" { return; }
      }
      return "";
    } else {
      var same := ScalarEq(left, right);
      d := if same then "" else path;
    }
  }

  /** == where one side is not a container or their lengths differ. */
  function ScalarEq(left: Json, right: Json): (r: bool)
    requires !(left.Dict? && right.Dict?) && !(left.List? && right.List? && |left.items| == |right.items|)
    ensures r <==> PyEq(left, right)
  {
    if AsInt(left).Some? then AsInt(left) == AsInt(right)
    else if left.Str? then right == left
    else left.Null? && right.Null?
  }

  method DictDifference(left: Json, right: Json, path: string) returns (d: string)
    requires left.Dict? && right.Dict? && path != ""
    ensures d == "" <==> PyEq(left, right)
    ensures d != "" ==> FirstAt(left, right, path, d)
    decreases left, 0
  {
    hide PyEq, FirstAt, Leq;
    var keys := Sort(left.fields.Keys + right.fields.Keys);
    for i := 0 to |keys|
      invariant forall j :: 0 <= j < i ==> EqualAt(left, right, keys[j])
    {
      var key := keys[i];
      assert key in Elements(keys);
      EarlierEqual(left, right, keys, i);
      if key !in left.fields || key !in right.fields {
        d := Child(path, key);
        DiffersAt(left, right, path, key, d);
        return;
      }
      d := FirstDifference(left.fields[key], right.fields[key], Child(path, key));
      if d != "" {
        DiffersAt(left, right, path, key, d);
        return;
      }
    }
    AllEqual(left, right, keys);
    return "";
  }

  /** Before a position of the sorted keys lie exactly the smaller keys. */
  lemma EarlierEqual(left: Json, right: Json, keys: seq<string>, i: nat)
    requires left.Dict? && right.Dict? && Sorted(keys) && i < |keys|
    requires forall j :: 0 <= j < i ==> EqualAt(left, right, keys[j])
    ensures forall k :: k in Elements(keys) && k != keys[i] && Leq(k, keys[i]) ==> EqualAt(left, right, k)
  {
    hide PyEq, Leq;
    forall k | k in Elements(keys) && k != keys[i] && Leq(k, keys[i]) ensures EqualAt(left, right, k) {
      var j :| 0 <= j < |keys| && keys[j] == k;
      if j > i {
        assert Leq(keys[i], keys[j]);
        Total(keys[i], keys[j]);
        assert false;
      }
    }
  }

  lemma DiffersAt(left: Json, right: Json, path: string, key: string, d: string)
    requires left.Dict? && right.Dict? && key in left.fields.Keys + right.fields.Keys
    requires forall k :: k in left.fields.Keys + right.fields.Keys && k != key && Leq(k, key) ==> EqualAt(left, right, k)
    requires if key in left.fields && key in right.fields then !PyEq(left.fields[key], right.fields[key]) && FirstAt(left.fields[key], right.fields[key], Child(path, key), d)
             else d == Child(path, key)
    ensures FirstAt(left, right, path, d) && !PyEq(left, right)
  {
    hide Leq;
  }

  lemma AllEqual(left: Json, right: Json, keys: seq<string>)
    requires left.Dict? && right.Dict? && Elements(keys) == left.fields.Keys + right.fields.Keys
    requires forall j :: 0 <= j < |keys| ==> EqualAt(left, right, keys[j])
    ensures PyEq(left, right)
  {
    forall k | k in left.fields.Keys + right.fields.Keys ensures EqualAt(left, right, k) {
      assert k in Elements(keys);
    }
  }

  // -------------------------------------------------------------------------- paths

  type Path = seq<string>

  datatype Lookup = Missing | Found(value: Json)

  /** _value; a missing key on the way is `Missing`. */
  function Get(doc: Json, p: Path): Lookup {
    if p == [] then Found(doc)
    else if doc.Dict? && p[0] in doc.fields then Get(doc.fields[p[0]], p[1..])
    else Missing
  }

  function Fields(doc: Json): map<string, Json> { if doc.Dict? then doc.fields else map[] }

  function Inner(doc: Json, key: string): Json {
    if key in Fields(doc) then Fields(doc)[key] else Dict(map[])
  }

  /** _set_value, with setdefault for the dictionaries on the way. */
  function Put(doc: Json, p: Path, v: Json): Json
    decreases |p|
  {
    if p == [] then v
    else Dict(Fields(doc)[p[0] := Put(Inner(doc, p[0]), p[1..], v)])
  }

  /** dict.pop(key, None) at the end of a path. */
  function Remove(doc: Json, p: Path): Json {
    if p == [] || !doc.Dict? || p[0] !in doc.fields then doc
    else if |p| == 1 then Dict(doc.fields - {p[0]})
    else Dict(doc.fields[p[0] := Remove(doc.fields[p[0]], p[1..])])
  }

  predicate Apart(p: Path, q: Path) { !(p <= q) && !(q <= p) }

  lemma {:induction false} GetPut(doc: Json, p: Path, v: Json)
    ensures Get(Put(doc, p, v), p) == Found(v)
    decreases |p|
  {
    if p != [] { GetPut(Inner(doc, p[0]), p[1..], v); }
  }

  lemma ApartTail(p: Path, q: Path)
    requires Apart(p, q)
    ensures p != [] && q != [] && (p[0] == q[0] ==> Apart(p[1..], q[1..]))
  {
    if p != [] && q != [] && p[0] == q[0] {
      assert p == [p[0]] + p[1..] && q == [q[0]] + q[1..];
    }
  }

  lemma {:induction false} GetPutApart(doc: Json, p: Path, v: Json, q: Path)
    requires Apart(p, q)
    ensures Get(Put(doc, p, v), q) == Get(doc, q)
    decreases |p|
  {
    ApartTail(p, q);
    if p[0] == q[0] {
      GetPutApart(Inner(doc, p[0]), p[1..], v, q[1..]);
      ApartTail(p[1..], q[1..]);
    }
  }

  lemma {:induction false} GetRemoveApart(doc: Json, p: Path, q: Path)
    requires Apart(p, q)
    ensures Get(Remove(doc, p), q) == Get(doc, q)
  {
    ApartTail(p, q);
    if doc.Dict? && p[0] in doc.fields && p[0] == q[0] {
      ApartTail(p[1..], q[1..]);
      GetRemoveApart(doc.fields[p[0]], p[1..], q[1..]);
    }
  }

  /** Equal documents have equal values at every path. */
  lemma {:induction false} PyEqGet(a: Json, b: Json, q: Path)
    requires PyEq(a, b)
    ensures Get(a, q).Found? <==> Get(b, q).Found?
    ensures Get(a, q).Found? ==> PyEq(Get(a, q).value, Get(b, q).value)
    decreases |q|
  {
    if q != [] && a.Dict? && q[0] in a.fields { PyEqGet(a.fields[q[0]], b.fields[q[0]], q[1..]); }
  }

  // ---------------------------------------------------------------------- overrides

  const OPERATOR_PATHS: seq<Path> := [
    ["active"], ["package", "maintainer"], ["build", "environment"], ["build", "inactivity_timeout"],
    ["build", "maximum_runtime"], ["resource_limits"]
  ]
  const OVERRIDES: Path := ["management", "operator_overrides"]
  const MAINTAINER: Path := ["package", "maintainer"]
  const COUNT := 6

  /** Paths are apart when their first or their second keys differ. */
  lemma ApartBy(p: Path, q: Path)
    requires p != [] && q != []
    requires p[0] != q[0] || (|p| > 1 && |q| > 1 && p[1] != q[1])
    ensures Apart(p, q) && Apart(q, p)
  {}

  lemma PathsApart()
    ensures |OPERATOR_PATHS| == COUNT
    ensures forall i, j :: 0 <= i < j < COUNT ==> Apart(OPERATOR_PATHS[i], OPERATOR_PATHS[j]) && Apart(OPERATOR_PATHS[j], OPERATOR_PATHS[i])
    ensures forall i :: 0 <= i < COUNT ==> Apart(OPERATOR_PATHS[i], OVERRIDES) && Apart(OVERRIDES, OPERATOR_PATHS[i])
  {
    hide Apart;
    var initials := "apbbbr";
    assert forall i :: 0 <= i < COUNT ==> OPERATOR_PATHS[i] != [] && OPERATOR_PATHS[i][0] != "" && OPERATOR_PATHS[i][0][0] == initials[i];
    assert OVERRIDES[0][0] == 'm';
    var seconds := "eim";
    assert forall i :: 2 <= i < 5 ==> |OPERATOR_PATHS[i]| == 2 && OPERATOR_PATHS[i][1] != "" && OPERATOR_PATHS[i][1][0] == seconds[i - 2];
    forall i, j | 0 <= i < j < COUNT ensures Apart(OPERATOR_PATHS[i], OPERATOR_PATHS[j]) && Apart(OPERATOR_PATHS[j], OPERATOR_PATHS[i]) {
      ApartBy(OPERATOR_PATHS[i], OPERATOR_PATHS[j]);
    }
    forall i | 0 <= i < COUNT ensures Apart(OPERATOR_PATHS[i], OVERRIDES) && Apart(OVERRIDES, OPERATOR_PATHS[i]) {
      ApartBy(OPERATOR_PATHS[i], OVERRIDES);
    }
  }

  predicate Blank(v: Json) { v.Str? && forall i :: 0 <= i < |v.s| ==> IsSpace(v.s[i]) }

  /** Every operator path is there: what validation guarantees of a canonical Recipe. */
  predicate Shaped(r: Json) {
    forall i :: 0 <= i < |OPERATOR_PATHS| ==> Get(r, OPERATOR_PATHS[i]).Found?
  }

  /** The operator's value at path `i` is kept as an override. */
  ghost predicate Overridden(recipe: Json, definition: Json, i: nat)
    requires Shaped(recipe) && Shaped(definition) && i < |OPERATOR_PATHS|
  {
    var v := Get(recipe, OPERATOR_PATHS[i]).value;
    !(OPERATOR_PATHS[i] == MAINTAINER && Blank(v)) && !PyEq(v, Get(definition, OPERATOR_PATHS[i]).value)
  }

  ghost function Extracted(recipe: Json, definition: Json, n: nat): Json
    requires Shaped(recipe) && Shaped(definition) && n <= |OPERATOR_PATHS|
  {
    if n == 0 then Dict(map[])
    else
      var before := Extracted(recipe, definition, n - 1);
      if Overridden(recipe, definition, n - 1) then Put(before, OPERATOR_PATHS[n - 1], Get(recipe, OPERATOR_PATHS[n - 1]).value)
      else before
  }

  ghost function Extract(recipe: Json, definition: Json): Json
    requires Shaped(recipe) && Shaped(definition)
  {
    Extracted(recipe, definition, |OPERATOR_PATHS|)
  }

  /** _extract_operator_overrides */
  method ExtractOverrides(recipe: Json, definition: Json) returns (overrides: Json)
    requires Shaped(recipe) && Shaped(definition)
    ensures overrides == Extract(recipe, definition)
  {
    overrides := Dict(map[]);
    for i := 0 to |OPERATOR_PATHS|
      invariant overrides == Extracted(recipe, definition, i)
    {
      var path := OPERATOR_PATHS[i];
      var value := Get(recipe, path).value;
      if !(path == MAINTAINER && Blank(value)) {
        var difference := FirstDifference(value, Get(definition, path).value, "$");
        if difference != "" { overrides := Put(overrides, path, value); }
      }
    }
  }

  /** Override trees hold exactly the overridden operator values. */
  lemma {:induction false} ExtractedAt(recipe: Json, definition: Json, n: nat, j: nat)
    requires Shaped(recipe) && Shaped(definition) && n <= |OPERATOR_PATHS| && j < |OPERATOR_PATHS|
    ensures Get(Extracted(recipe, definition, n), OPERATOR_PATHS[j])
         == if j < n && Overridden(recipe, definition, j) then Get(recipe, OPERATOR_PATHS[j]) else Missing
  {
    PathsApart();
    hide Overridden;
    if n > 0 {
      ExtractedAt(recipe, definition, n - 1, j);
      var before := Extracted(recipe, definition, n - 1);
      var path := OPERATOR_PATHS[n - 1];
      var v := Get(recipe, path).value;
      if j == n - 1 {
        GetPut(before, path, v);
      } else {
        GetPutApart(before, path, v, OPERATOR_PATHS[j]);
      }
    }
  }

  /** What is overridden and with which value determines the override tree. */
  lemma {:induction false} ExtractedSame(a: Json, b: Json, definition: Json, n: nat)
    requires Shaped(a) && Shaped(b) && Shaped(definition) && n <= |OPERATOR_PATHS|
    requires forall i :: 0 <= i < n ==> Overridden(a, definition, i) == Overridden(b, definition, i)
    requires forall i :: 0 <= i < n && Overridden(a, definition, i) ==> Get(a, OPERATOR_PATHS[i]) == Get(b, OPERATOR_PATHS[i])
    ensures Extracted(a, definition, n) == Extracted(b, definition, n)
  {
    hide Overridden;
    if n > 0 { ExtractedSame(a, b, definition, n - 1); }
  }

  // --------------------------------------------------------------------- application

  function Applied(base: Json, overrides: Json, n: nat): Json
    requires n <= |OPERATOR_PATHS|
  {
    if n == 0 then base
    else
      var before := Applied(base, overrides, n - 1);
      var v := Get(overrides, OPERATOR_PATHS[n - 1]);
      if v.Found? then Put(before, OPERATOR_PATHS[n - 1], v.value) else before
  }

  /** The definition with the overrides recorded and laid over it. */
  function Apply(definition: Json, overrides: Json): Json {
    Applied(Put(definition, OVERRIDES, overrides), overrides, |OPERATOR_PATHS|)
  }

  /** The loop of effective_builtin_recipe */
  method ApplyOverrides(definition: Json, overrides: Json) returns (base: Json)
    ensures base == Apply(definition, overrides)
  {
    base := Put(definition, OVERRIDES, overrides);
    for i := 0 to |OPERATOR_PATHS|
      invariant base == Applied(Put(definition, OVERRIDES, overrides), overrides, i)
    {
      var v := Get(overrides, OPERATOR_PATHS[i]);
      if v.Found? { base := Put(base, OPERATOR_PATHS[i], v.value); }
    }
  }

  lemma {:induction false} AppliedAt(base: Json, overrides: Json, n: nat, j: nat)
    requires n <= |OPERATOR_PATHS| && j < |OPERATOR_PATHS|
    ensures Get(Applied(base, overrides, n), OPERATOR_PATHS[j])
         == if j < n && Get(overrides, OPERATOR_PATHS[j]).Found? then Get(overrides, OPERATOR_PATHS[j]) else Get(base, OPERATOR_PATHS[j])
  {
    PathsApart();
    if n > 0 {
      AppliedAt(base, overrides, n - 1, j);
      var before := Applied(base, overrides, n - 1);
      var path := OPERATOR_PATHS[n - 1];
      var v := Get(overrides, path);
      if v.Found? {
        if j == n - 1 {
          GetPut(before, path, v.value);
        } else {
          GetPutApart(before, path, v.value, OPERATOR_PATHS[j]);
        }
      }
    }
  }

  /** A path that neither contains nor lies in an operator path. */
  predicate Outside(q: Path) { forall i :: 0 <= i < |OPERATOR_PATHS| ==> Apart(OPERATOR_PATHS[i], q) }

  lemma {:induction false} AppliedOutside(base: Json, overrides: Json, n: nat, q: Path)
    requires n <= |OPERATOR_PATHS| && Outside(q)
    ensures Get(Applied(base, overrides, n), q) == Get(base, q)
  {
    if n > 0 {
      AppliedOutside(base, overrides, n - 1, q);
      var v := Get(overrides, OPERATOR_PATHS[n - 1]);
      if v.Found? { GetPutApart(Applied(base, overrides, n - 1), OPERATOR_PATHS[n - 1], v.value, q); }
    }
  }

  /** The override at a path, or the definition's value. */
  function Over(overrides: Json, definition: Json, p: Path): Lookup {
    if Get(overrides, p).Found? then Get(overrides, p) else Get(definition, p)
  }

  /** Overrides win on operator paths; a newer definition shows everywhere else. */
  lemma ApplyExactly(definition: Json, overrides: Json)
    ensures forall j :: 0 <= j < |OPERATOR_PATHS| ==> Get(Apply(definition, overrides), OPERATOR_PATHS[j]) == Over(overrides, definition, OPERATOR_PATHS[j])
    ensures forall q :: Outside(q) && Apart(OVERRIDES, q) ==> Get(Apply(definition, overrides), q) == Get(definition, q)
    ensures Get(Apply(definition, overrides), OVERRIDES) == Found(overrides)
    ensures Shaped(definition) ==> Shaped(Apply(definition, overrides))
  {
    hide Applied;
    PathsApart();
    var base := Put(definition, OVERRIDES, overrides);
    forall j | 0 <= j < |OPERATOR_PATHS| ensures Get(Apply(definition, overrides), OPERATOR_PATHS[j]) == Over(overrides, definition, OPERATOR_PATHS[j])
    {
      AppliedAt(base, overrides, |OPERATOR_PATHS|, j);
      GetPutApart(definition, OVERRIDES, overrides, OPERATOR_PATHS[j]);
    }
    forall q | Outside(q) && Apart(OVERRIDES, q) ensures Get(Apply(definition, overrides), q) == Get(definition, q) {
      AppliedOutside(base, overrides, |OPERATOR_PATHS|, q);
      GetPutApart(definition, OVERRIDES, overrides, q);
    }
    AppliedOutside(base, overrides, |OPERATOR_PATHS|, OVERRIDES);
    GetPut(definition, OVERRIDES, overrides);
  }

  /** Extracting from a Recipe and applying again restores the operator's values. */
  lemma ExtractApply(recipe: Json, definition: Json)
    requires Shaped(recipe) && Shaped(definition)
    ensures var saved := Apply(definition, Extract(recipe, definition));
            forall j :: 0 <= j < |OPERATOR_PATHS| ==> Kept(saved, recipe, definition, j)
  {
    hide Applied, Extracted, Overridden;
    var overrides := Extract(recipe, definition);
    ApplyExactly(definition, overrides);
    forall j | 0 <= j < |OPERATOR_PATHS| ensures Kept(Apply(definition, overrides), recipe, definition, j) {
      ExtractedAt(recipe, definition, |OPERATOR_PATHS|, j);
    }
  }

  ghost predicate Kept(saved: Json, recipe: Json, definition: Json, j: nat)
    requires Shaped(recipe) && Shaped(definition) && j < |OPERATOR_PATHS|
  {
    Get(saved, OPERATOR_PATHS[j]) == Get(if Overridden(recipe, definition, j) then recipe else definition, OPERATOR_PATHS[j])
  }

  /** On every operator path the saved Recipe equals the edited one, except that a blank
      maintainer falls back to the definition. */
  lemma KeptMeans(saved: Json, recipe: Json, definition: Json, j: nat)
    requires Shaped(recipe) && Shaped(definition) && j < |OPERATOR_PATHS| && Kept(saved, recipe, definition, j)
    ensures AsEdited(saved, recipe, definition, OPERATOR_PATHS[j])
  {
    hide PyEq, Blank;
    PyEqReflexive(Get(recipe, OPERATOR_PATHS[j]).value);
    PyEqReflexive(Get(definition, OPERATOR_PATHS[j]).value);
    if Overridden(recipe, definition, j) {
    } else if OPERATOR_PATHS[j] != MAINTAINER || !Blank(Get(recipe, OPERATOR_PATHS[j]).value) {
      PyEqSymmetric(Get(recipe, OPERATOR_PATHS[j]).value, Get(definition, OPERATOR_PATHS[j]).value);
    }
  }

  lemma {:induction false} PyEqSymmetric(a: Json, b: Json)
    requires PyEq(a, b)
    ensures PyEq(b, a)
    decreases a
  {
    if a.Dict? {
      forall k | k in a.fields ensures PyEq(b.fields[k], a.fields[k]) { PyEqSymmetric(a.fields[k], b.fields[k]); }
    } else if a.List? {
      forall i | 0 <= i < |a.items| ensures PyEq(b.items[i], a.items[i]) { PyEqSymmetric(a.items[i], b.items[i]); }
    }
  }

  ghost predicate AsEdited(saved: Json, recipe: Json, definition: Json, p: Path) {
    && Get(saved, p).Found? && Get(recipe, p).Found?
    && (if p == MAINTAINER && Blank(Get(recipe, p).value) then Get(saved, p) == Get(definition, p)
        else PyEq(Get(saved, p).value, Get(recipe, p).value))
  }

  /** The overrides of a saved Recipe are the ones it was saved with. */
  lemma ExtractAgain(recipe: Json, definition: Json)
    requires Shaped(recipe) && Shaped(definition)
    ensures Shaped(Apply(definition, Extract(recipe, definition)))
    ensures Extract(Apply(definition, Extract(recipe, definition)), definition) == Extract(recipe, definition)
  {
    hide Applied, Extracted, Shaped;
    var saved := Apply(definition, Extract(recipe, definition));
    ApplyExactly(definition, Extract(recipe, definition));
    ExtractApply(recipe, definition);
    forall i | 0 <= i < |OPERATOR_PATHS|
      ensures Overridden(saved, definition, i) == Overridden(recipe, definition, i)
      ensures Overridden(recipe, definition, i) ==> Get(saved, OPERATOR_PATHS[i]) == Get(recipe, OPERATOR_PATHS[i])
    {
      assert Kept(saved, recipe, definition, i);
      ShapedAt(definition, i);
      PyEqReflexive(Get(definition, OPERATOR_PATHS[i]).value);
    }
    ExtractedSame(saved, recipe, definition, |OPERATOR_PATHS|);
  }

  lemma ShapedAt(r: Json, i: nat)
    requires Shaped(r) && i < |OPERATOR_PATHS|
    ensures Get(r, OPERATOR_PATHS[i]).Found?
  {}

  // ------------------------------------------------------------------- managed fields

  const MANAGEMENT: Path := ["management"]

  /** _managed_projection: everything but management and the operator's values. */
  function RemoveAll(doc: Json, paths: seq<Path>): Json {
    if paths == [] then doc else Remove(RemoveAll(doc, paths[..|paths| - 1]), paths[|paths| - 1])
  }

  function Projection(recipe: Json): Json { RemoveAll(recipe, [MANAGEMENT] + OPERATOR_PATHS) }

  lemma {:induction false} RemoveAllApart(doc: Json, paths: seq<Path>, q: Path)
    requires forall i :: 0 <= i < |paths| ==> Apart(paths[i], q)
    ensures Get(RemoveAll(doc, paths), q) == Get(doc, q)
    decreases |paths|
  {
    if paths != [] {
      RemoveAllApart(doc, paths[..|paths| - 1], q);
      GetRemoveApart(RemoveAll(doc, paths[..|paths| - 1]), paths[|paths| - 1], q);
    }
  }

  ghost predicate Managed(q: Path) { Outside(q) && Apart(MANAGEMENT, q) }

  /** Recipes with equal projections agree on every managed path. */
  lemma ProjectionAgrees(a: Json, b: Json, q: Path)
    requires PyEq(Projection(a), Projection(b)) && Managed(q)
    ensures Same(Get(a, q), Get(b, q))
  {
    var paths := [MANAGEMENT] + OPERATOR_PATHS;
    assert forall i :: 1 <= i < |paths| ==> paths[i] == OPERATOR_PATHS[i - 1];
    RemoveAllApart(a, paths, q);
    RemoveAllApart(b, paths, q);
    PyEqGet(Projection(a), Projection(b), q);
  }

  ghost predicate Same(a: Lookup, b: Lookup) {
    (a.Missing? && b.Missing?) || (a.Found? && b.Found? && PyEq(a.value, b.value))
  }

  lemma {:induction false} RemovePutSame(doc: Json, p: Path, v: Json)
    requires p != [] && Get(doc, p).Found?
    ensures Remove(Put(doc, p, v), p) == Remove(doc, p)
    decreases |p|
  {
    var k := p[0];
    if |p| == 1 {
      assert doc.fields[k := Put(Inner(doc, k), p[1..], v)] - {k} == doc.fields - {k};
    } else {
      RemovePutSame(doc.fields[k], p[1..], v);
    }
  }

  lemma {:induction false} RemovePutApart(doc: Json, p: Path, v: Json, q: Path)
    requires Apart(p, q) && Get(doc, p).Found?
    ensures Remove(Put(doc, p, v), q) == Put(Remove(doc, q), p, v)
    decreases |p|
  {
    ApartTail(p, q);
    var k, l := p[0], q[0];
    if k == l {
      ApartTail(p[1..], q[1..]);
      RemovePutApart(doc.fields[k], p[1..], v, q[1..]);
    } else if l in doc.fields {
      var inner := Put(Inner(doc, k), p[1..], v);
      if |q| == 1 {
        assert doc.fields[k := inner] - {l} == (doc.fields - {l})[k := inner];
      } else {
        var less := Remove(doc.fields[l], q[1..]);
        assert doc.fields[k := inner][l := less] == doc.fields[l := less][k := inner];
      }
    }
  }

  lemma {:induction false} RemoveAllPut(doc: Json, paths: seq<Path>, m: nat, v: Json, n: nat)
    requires m < |paths| && n <= |paths| && paths[m] != [] && Get(doc, paths[m]).Found?
    requires forall i :: 0 <= i < |paths| && i != m ==> Apart(paths[m], paths[i]) && Apart(paths[i], paths[m])
    ensures n <= m ==> Get(RemoveAll(doc, paths[..n]), paths[m]).Found?
                       && RemoveAll(Put(doc, paths[m], v), paths[..n]) == Put(RemoveAll(doc, paths[..n]), paths[m], v)
    ensures n > m ==> RemoveAll(Put(doc, paths[m], v), paths[..n]) == RemoveAll(doc, paths[..n])
    decreases n
  {
    if n > 0 {
      RemoveAllPut(doc, paths, m, v, n - 1);
      assert paths[..n][..n - 1] == paths[..n - 1];
      var before := RemoveAll(doc, paths[..n - 1]);
      if n - 1 == m {
        RemovePutSame(before, paths[m], v);
      } else if n - 1 < m {
        RemovePutApart(before, paths[m], v, paths[n - 1]);
        GetRemoveApart(before, paths[n - 1], paths[m]);
      }
    }
  }

  /** Editing an operator value never touches the projection, so it is never refused as a
      managed field. */
  lemma OperatorEditsPass(recipe: Json, j: nat, v: Json)
    requires j < |OPERATOR_PATHS| && Get(recipe, OPERATOR_PATHS[j]).Found?
    ensures Projection(Put(recipe, OPERATOR_PATHS[j], v)) == Projection(recipe)
  {
    var paths := [MANAGEMENT] + OPERATOR_PATHS;
    PathsApart();
    forall i | 0 <= i < |paths| && i != j + 1 ensures Apart(paths[j + 1], paths[i]) && Apart(paths[i], paths[j + 1]) {
      if i == 0 { ManagementApart(j); } else { assert paths[i] == OPERATOR_PATHS[i - 1]; }
    }
    assert paths[j + 1] == OPERATOR_PATHS[j] && OPERATOR_PATHS[j] != [] by { ManagementApart(j); ApartTail(OPERATOR_PATHS[j], MANAGEMENT); }
    RemoveAllPut(recipe, paths, j + 1, v, |paths|);
    assert paths[..|paths|] == paths;
  }

  lemma ManagementApart(j: nat)
    requires j < |OPERATOR_PATHS|
    ensures Apart(OPERATOR_PATHS[j], MANAGEMENT) && Apart(MANAGEMENT, OPERATOR_PATHS[j])
  {
    var initials := "apbbbr";
    assert forall i :: 0 <= i < COUNT ==> OPERATOR_PATHS[i] != [] && OPERATOR_PATHS[i][0] != "" && OPERATOR_PATHS[i][0][0] == initials[i];
    assert MANAGEMENT[0][0] == 'm' && |OPERATOR_PATHS| == COUNT;
    ApartBy(OPERATOR_PATHS[j], MANAGEMENT);
  }

  // ------------------------------------------------------------------- the canonical form

  /** recipe_document_for_storage, whose internals are not modelled: it returns canonical
      documents, keeps a definition under overrides it already normalised, and finds nothing
      to normalise in overrides taken from a canonical Recipe. */
  ghost predicate Canonicaliser(canon: Json -> Option<Json>, definition: Json) {
    && (forall x :: canon(x).Some? ==> Shaped(canon(x).value) && canon(canon(x).value) == canon(x))
    && canon(definition) == Some(definition)
    && (forall o :: canon(Put(definition, OVERRIDES, o)).Some? ==> Get(canon(Put(definition, OVERRIDES, o)).value, OVERRIDES).Found?)
    && (forall o :: canon(Put(definition, OVERRIDES, o)).Some? && canon(Apply(definition, Normalised(canon, definition, o))).Some?
          ==> canon(Apply(definition, Normalised(canon, definition, o))).value == Apply(definition, Normalised(canon, definition, o)))
    && (forall r :: Shaped(r) && canon(r) == Some(r) && canon(Put(definition, OVERRIDES, Extract(r, definition))).Some?
          ==> Normalised(canon, definition, Extract(r, definition)) == Extract(r, definition))
  }

  function Normalised(canon: Json -> Option<Json>, definition: Json, overrides: Json): Json {
    var declared := canon(Put(definition, OVERRIDES, overrides));
    if declared.Some? && Get(declared.value, OVERRIDES).Found? then Get(declared.value, OVERRIDES).value else Null
  }

  /** The contract can be met: a canonicaliser that accepts every well-shaped document as it is. */
  function AcceptShaped(x: Json): Option<Json> {
    if Shaped(x) && Get(x, OVERRIDES).Found? then Some(x) else None
  }

  lemma CanonicaliserExists(definition: Json)
    requires Shaped(definition) && Get(definition, OVERRIDES).Found?
    ensures Canonicaliser(AcceptShaped, definition)
  {
    hide Apply, Extract, Shaped, Put, Get;
    forall o ensures Get(Put(definition, OVERRIDES, o), OVERRIDES) == Found(o) { GetPut(definition, OVERRIDES, o); }
  }

  /** The effective Recipe, if both canonicalisations accept. */
  function EffectiveOf(canon: Json -> Option<Json>, definition: Json, overrides: Json): Option<Json> {
    if canon(Put(definition, OVERRIDES, overrides)).None? then None
    else canon(Apply(definition, Normalised(canon, definition, overrides)))
  }

  /** effective_builtin_recipe */
  method Effective(canon: Json -> Option<Json>, definition: Json, overrides: Json) returns (r: Option<Json>)
    requires Canonicaliser(canon, definition)
    ensures r == EffectiveOf(canon, definition, overrides)
    ensures r.Some? <==>
      && canon(Put(definition, OVERRIDES, overrides)).Some?
      && canon(Apply(definition, Normalised(canon, definition, overrides))).Some?
    ensures r.Some? ==> r.value == Apply(definition, Normalised(canon, definition, overrides)) && canon(r.value) == r
  {
    hide Apply, Put, Get, Extract, Shaped;
    var declared := canon(Put(definition, OVERRIDES, overrides));
    if declared.None? { return None; }
    var normal := Get(declared.value, OVERRIDES).value;
    assert normal == Normalised(canon, definition, overrides);
    var base := ApplyOverrides(definition, normal);
    return canon(base);
  }

  datatype Outcome =
    | Saved(recipe: Json)
    | Reserved
    | AdoptionFailed
    | RevisionConflict
    | UpgradeRequired
    | OverrideInvalid
    | ManagedField(path: string)

  const VERSION: Path := ["management", "definition_version"]

  function VersionOf(recipe: Json): (n: int)
    ensures forall v: int :: Get(recipe, VERSION) == Found(Int(v)) ==> n == v
  {
    var v := Get(recipe, VERSION);
    if v.Found? && v.value.Int? then v.value.i else 0
  }

  /** What saving an accepted edit means. */
  ghost predicate EditSaved(saved: Json, edited: Json, definition: Json) {
    && (forall j :: 0 <= j < |OPERATOR_PATHS| ==> AsEdited(saved, edited, definition, OPERATOR_PATHS[j]))
    && (forall q :: Managed(q) ==> Get(saved, q) == Get(definition, q) && Same(Get(edited, q), Get(saved, q)))
    && Shaped(edited) && Shaped(definition)
    && Get(saved, OVERRIDES) == Found(Extract(edited, definition))
  }

  lemma AcceptedEdit(edited: Json, definition: Json, current: Json, overrides: Json)
    requires Shaped(edited) && Shaped(definition)
    requires current == Apply(definition, overrides) && PyEq(Projection(edited), Projection(current))
    ensures EditSaved(Apply(definition, Extract(edited, definition)), edited, definition)
  {
    hide Apply, Get, Extract, Projection, PyEq, Apart, AsEdited, Outside, Shaped, Kept;
    var extracted := Extract(edited, definition);
    var saved := Apply(definition, extracted);
    ExtractApply(edited, definition);
    forall j | 0 <= j < |OPERATOR_PATHS| ensures AsEdited(saved, edited, definition, OPERATOR_PATHS[j]) {
      KeptMeans(saved, edited, definition, j);
    }
    ApplyExactly(definition, extracted);
    ApplyExactly(definition, overrides);
    forall q | Managed(q) ensures Get(saved, q) == Get(definition, q) && Same(Get(edited, q), Get(saved, q)) {
      ApartLonger(q);
      ProjectionAgrees(edited, current, q);
    }
  }

  lemma ApartLonger(q: Path)
    requires Apart(MANAGEMENT, q)
    ensures Apart(OVERRIDES, q)
  {
    ApartTail(MANAGEMENT, q);
    assert OVERRIDES[0] == MANAGEMENT[0];
    assert MANAGEMENT[1..] == [];
  }

  /** The stored Recipe can be edited, and what it stands for now. */
  ghost predicate Editable(canon: Json -> Option<Json>, definition: Json, stored: Option<Json>, expected: bool, matches: bool) {
    && stored.Some? && (expected ==> matches) && Get(stored.value, MANAGEMENT).Found?
    && VersionOf(stored.value) <= VersionOf(definition) && Get(stored.value, OVERRIDES).Found?
    && var current := EffectiveOf(canon, definition, Get(stored.value, OVERRIDES).value);
       current.Some? && (expected ==> PyEq(current.value, stored.value))
  }

  /** The edit leaves everything the application manages as it is now. */
  ghost predicate LeavesManaged(edited: Json, current: Json) {
    && (Get(edited, MANAGEMENT).Found? ==> Same(Get(edited, MANAGEMENT), Get(current, MANAGEMENT)))
    && PyEq(Projection(edited), Projection(current))
  }

  /** update_builtin_recipe; `stored` is the persisted Recipe, `expected` whether the caller
      named a revision and `matches` whether it is the current one. */
  method UpdateBuiltin(canon: Json -> Option<Json>, definition: Json, stored: Option<Json>, expected: bool, matches: bool, candidate: Json)
    returns (r: Outcome)
    requires Canonicaliser(canon, definition)
    ensures r.Saved? ==> canon(candidate).Some? && EditSaved(r.recipe, canon(candidate).value, definition)
    ensures r.Saved? <==>
      && Editable(canon, definition, stored, expected, matches) && canon(candidate).Some?
      && LeavesManaged(canon(candidate).value, EffectiveOf(canon, definition, Get(stored.value, OVERRIDES).value).value)
      && EffectiveOf(canon, definition, Extract(canon(candidate).value, definition)).Some?
    ensures r.ManagedField? <==>
      && Editable(canon, definition, stored, expected, matches) && canon(candidate).Some?
      && !LeavesManaged(canon(candidate).value, EffectiveOf(canon, definition, Get(stored.value, OVERRIDES).value).value)
    ensures r == Reserved <==> stored.None? || ((expected ==> matches) && Get(stored.value, MANAGEMENT).Missing?)
  {
    hide Apply, Put, Get, Extract, Shaped, Projection, PyEq, EditSaved, VersionOf;
    if stored.None? { return Reserved; }
    if expected && !matches { return RevisionConflict; }
    var existing := stored.value;
    var management := Get(existing, MANAGEMENT);
    if management.Missing? { return Reserved; }
    if VersionOf(existing) > VersionOf(definition) { return UpgradeRequired; }
    var recorded := Get(existing, OVERRIDES);
    if recorded.Missing? { return OverrideInvalid; }
    var current := Effective(canon, definition, recorded.value);
    if current.None? { return OverrideInvalid; }
    if expected {
      var changed := FirstDifference(current.value, existing, "$");
      if changed != "" { return RevisionConflict; }
    }
    var edited := canon(candidate);
    if edited.None? { return OverrideInvalid; }
    var own := Get(edited.value, MANAGEMENT);
    if own.Found? {
      var currentOwn := Get(current.value, MANAGEMENT);
      if currentOwn.Missing? { return ManagedField("$.management"); }
      var changed := FirstDifference(own.value, currentOwn.value, "$");
      if changed != "" { return ManagedField("$.management"); }
    }
    var difference := FirstDifference(Projection(edited.value), Projection(current.value), "$");
    if difference != "" { return ManagedField(difference); }
    var overrides := ExtractOverrides(edited.value, definition);
    var effective := Effective(canon, definition, overrides);
    if effective.None? { return OverrideInvalid; }
    AcceptedEdit(edited.value, definition, current.value, Normalised(canon, definition, recorded.value));
    return Saved(effective.value);
  }

  const NAME: Path := ["name"]
  const BUILTIN := Str("debbuilder")

  /** What reconciliation makes of a stored Recipe, if it accepts it. */
  function Reconciled(canon: Json -> Option<Json>, definition: Json, stored: Json): Option<Json> {
    if Get(stored, NAME) != Found(BUILTIN) || Get(stored, MANAGEMENT).Missing? || VersionOf(stored) > VersionOf(definition)
       || Get(stored, OVERRIDES).Missing? then None
    else EffectiveOf(canon, definition, Get(stored, OVERRIDES).value)
  }

  /** reconcile_builtin_recipe: seed, or lay the recorded overrides over the definition. */
  method Reconcile(canon: Json -> Option<Json>, definition: Json, stored: Option<Json>) returns (r: Outcome)
    requires Canonicaliser(canon, definition)
    ensures stored.None? ==> r == Saved(definition)
    ensures r == AdoptionFailed <==>
      stored.Some? && (Get(stored.value, NAME) != Found(BUILTIN) || Get(stored.value, MANAGEMENT).Missing?)
    ensures r == UpgradeRequired <==> stored.Some? && r != AdoptionFailed && VersionOf(stored.value) > VersionOf(definition)
    ensures stored.Some? ==> (r.Saved? <==> Reconciled(canon, definition, stored.value).Some?)
    ensures stored.Some? && r.Saved? ==> Some(r.recipe) == Reconciled(canon, definition, stored.value)
    ensures stored.Some? && r.Saved? && Get(stored.value, OVERRIDES).Found?
        ==> Upgraded(r.recipe, definition, Normalised(canon, definition, Get(stored.value, OVERRIDES).value))
  {
    hide Apply, Put, Extract, Shaped, VersionOf, Get;
    if stored.None? { return Saved(definition); }
    var existing := stored.value;
    if Get(existing, NAME) != Found(BUILTIN) || Get(existing, MANAGEMENT).Missing? { return AdoptionFailed; }
    if VersionOf(existing) > VersionOf(definition) { return UpgradeRequired; }
    var recorded := Get(existing, OVERRIDES);
    if recorded.Missing? { return OverrideInvalid; }
    var effective := Effective(canon, definition, recorded.value);
    if effective.None? { return OverrideInvalid; }
    UpgradeKeeps(definition, Normalised(canon, definition, recorded.value));
    return Saved(effective.value);
  }

  /** The definition shows on managed paths, and exactly the overrides on operator paths. */
  ghost predicate Upgraded(saved: Json, definition: Json, overrides: Json) {
    && Get(saved, OVERRIDES) == Found(overrides)
    && (forall j :: 0 <= j < |OPERATOR_PATHS| ==> Get(saved, OPERATOR_PATHS[j]) == Over(overrides, definition, OPERATOR_PATHS[j]))
    && (forall q :: Managed(q) ==> Get(saved, q) == Get(definition, q))
  }

  lemma UpgradeKeeps(definition: Json, overrides: Json)
    ensures Upgraded(Apply(definition, overrides), definition, overrides)
  {
    hide Apply, Apart, Outside;
    ApplyExactly(definition, overrides);
    forall q | Managed(q) ensures Get(Apply(definition, overrides), q) == Get(definition, q) { ApartLonger(q); }
  }

  /** Overrides are normalised by their own rules: alike under both definitions, and once. */
  ghost predicate OneNormaliser(canon: Json -> Option<Json>, a: Json, b: Json) {
    forall o {:trigger Normalised(canon, a, o)} :: canon(Put(a, OVERRIDES, o)).Some? ==>
      && canon(Put(b, OVERRIDES, o)).Some? && Normalised(canon, b, o) == Normalised(canon, a, o)
      && canon(Put(b, OVERRIDES, Normalised(canon, a, o))).Some?
      && Normalised(canon, b, Normalised(canon, a, o)) == Normalised(canon, a, o)
  }

  /** Upgrading step by step is upgrading at once: what reconciliation stores under a newer
      definition is reconciled under the newest one to exactly what the original would be. */
  lemma UpgradesCompose(canon: Json -> Option<Json>, newer: Json, newest: Json, stored: Json)
    requires Canonicaliser(canon, newer) && Canonicaliser(canon, newest) && OneNormaliser(canon, newer, newest)
    requires VersionOf(newer) <= VersionOf(newest) && Get(newer, NAME) == Found(BUILTIN)
    requires Reconciled(canon, newer, stored).Some?
    ensures Reconciled(canon, newest, Reconciled(canon, newer, stored).value) == Reconciled(canon, newest, stored)
  {
    var o := Get(stored, OVERRIDES).value;
    var n := Normalised(canon, newer, o);
    var step := Reconciled(canon, newer, stored).value;
    assert step == Apply(newer, n);
    HeaderKept(newer, n);
    assert Normalised(canon, newest, n) == n == Normalised(canon, newest, o);
  }

  /** Name, version and the presence of management are the definition's. */
  lemma HeaderKept(definition: Json, overrides: Json)
    ensures Get(Apply(definition, overrides), NAME) == Get(definition, NAME)
    ensures VersionOf(Apply(definition, overrides)) == VersionOf(definition)
    ensures Get(Apply(definition, overrides), OVERRIDES) == Found(overrides)
    ensures Get(Apply(definition, overrides), MANAGEMENT).Found?
  {
    hide Apply;
    ApplyExactly(definition, overrides);
    HeaderOutside();
    GetParent(Apply(definition, overrides), OVERRIDES);
  }

  lemma HeaderOutside()
    ensures Outside(NAME) && Apart(OVERRIDES, NAME) && Outside(VERSION) && Apart(OVERRIDES, VERSION)
  {
    hide Apart;
    var initials := "apbbbr";
    assert forall i :: 0 <= i < COUNT ==> OPERATOR_PATHS[i] != [] && OPERATOR_PATHS[i][0] != "" && OPERATOR_PATHS[i][0][0] == initials[i];
    assert NAME[0][0] == 'n' && VERSION[0][0] == 'm' && VERSION[1][0] == 'd' && OVERRIDES[1][0] == 'o' && OVERRIDES[0][0] == 'm';
    forall i | 0 <= i < |OPERATOR_PATHS| ensures Apart(OPERATOR_PATHS[i], NAME) && Apart(OPERATOR_PATHS[i], VERSION) {
      ApartBy(OPERATOR_PATHS[i], NAME);
      ApartBy(OPERATOR_PATHS[i], VERSION);
    }
    ApartBy(OVERRIDES, NAME);
    ApartBy(OVERRIDES, VERSION);
  }

  lemma GetParent(doc: Json, p: Path)
    requires Get(doc, p).Found? && |p| >= 1
    ensures Get(doc, p[..1]).Found?
  {
    assert p[..1][0] == p[0] && p[..1][1..] == [];
  }
}
