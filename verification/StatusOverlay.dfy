/** The modelled dpkg status: a base status overlaid with the packages APT decided to
    install, the last decision per (Package, Architecture) winning. */
module StatusOverlay {
  import opened Wrappers
  import opened ControlStanzas

  /** dict.get */
  function Get(row: Row, key: string): (r: Option<string>)
    ensures r.Some? <==> HasKey(row, key)
  {
    if row == [] then None
    else
      var init, f := row[..|row| - 1], row[|row| - 1];
      assert row == init + [f];
      HasKeyAppend(init, f, key);
      if HasKey(init, key) then Get(init, key) else if f.key == key then Some(f.value) else None
  }

  lemma HasKeyAppend(init: Row, f: Field, key: string)
    ensures HasKey(init + [f], key) <==> HasKey(init, key) || f.key == key
    ensures (init + [f])[..|init|] == init
  {
    var row := init + [f];
    assert row[|init|] == f && forall i :: 0 <= i < |init| ==> row[i] == init[i];
  }

  /** dict[key] = value: in place when the key is there, at the end otherwise. */
  function Put(row: Row, key: string, value: string): (r: Row)
  {
    if !HasKey(row, key) then row + [Field(key, value)]
    else
      var init, f := row[..|row| - 1], row[|row| - 1];
      assert row == init + [f];
      HasKeyAppend(init, f, key);
      if HasKey(init, key) then Put(init, key, value) + [f] else init + [Field(key, value)]
  }

  /** The fields whose key is not in `keys`, in order. */
  function Without(row: Row, keys: set<string>): Row {
    if row == [] then []
    else
      var rest := Without(row[..|row| - 1], keys);
      if row[|row| - 1].key in keys then rest else rest + [row[|row| - 1]]
  }

  const DROP_FIELDS := {"Filename", "Size", "MD5sum", "SHA1", "SHA256", "SHA512", "Description-md5"}
  const INSTALLED := "install ok installed"

  type Key = (Option<string>, Option<string>)

  function KeyOf(row: Row): Key { (Get(row, "Package"), Get(row, "Architecture")) }

  predicate Present(v: Option<string>) { v.Some? && v.value != "" }

  predicate Complete(row: Row) {
    Present(Get(row, "Package")) && Present(Get(row, "Architecture")) && Present(Get(row, "Version"))
  }

  /** What an addition becomes in the status file. */
  function Modeled(row: Row): Row
    requires Complete(row)
  {
    [Field("Package", Get(row, "Package").value), Field("Status", INSTALLED)]
    + Without(row, DROP_FIELDS + {"Package", "Status"})
  }

  function RemoveKey(rows: seq<Row>, k: Key): seq<Row> {
    if rows == [] then []
    else
      var rest := RemoveKey(rows[..|rows| - 1], k);
      if KeyOf(rows[|rows| - 1]) == k then rest else rest + [rows[|rows| - 1]]
  }

  // ------------------------------------------------------------------- the loop

  /** Dictionary comprehension over one addition. */
  method Drop(row: Row) returns (r: Row)
    ensures r == Without(row, DROP_FIELDS)
  {
    r := [];
    for i := 0 to |row|
      invariant r == Without(row[..i], DROP_FIELDS)
    {
      assert row[..i + 1][..i] == row[..i];
      if row[i].key !in DROP_FIELDS { r := r + [row[i]]; }
    }
    assert row[..|row|] == row;
  }

  /** dict.update */
  method Update(row: Row, other: Row) returns (r: Row)
    ensures r == Updated(row, other)
  {
    r := row;
    for i := 0 to |other|
      invariant r == Updated(row, other[..i])
    {
      assert other[..i + 1][..i] == other[..i];
      r := Put(r, other[i].key, other[i].value);
    }
    assert other[..|other|] == other;
  }

  function Updated(row: Row, other: Row): Row {
    if other == [] then row
    else
      var f := other[|other| - 1];
      Put(Updated(row, other[..|other| - 1]), f.key, f.value)
  }

  method RemoveMatching(rows: seq<Row>, name: string, architecture: string) returns (r: seq<Row>)
    ensures r == RemoveKey(rows, (Some(name), Some(architecture)))
  {
    r := [];
    for i := 0 to |rows|
      invariant r == RemoveKey(rows[..i], (Some(name), Some(architecture)))
    {
      assert rows[..i + 1][..i] == rows[..i];
      if !(Get(rows[i], "Package") == Some(name) && Get(rows[i], "Architecture") == Some(architecture)) {
        r := r + [rows[i]];
      }
    }
    assert rows[..|rows|] == rows;
  }

  /** The rows after the additions in order. */
  function Overlay(base: seq<Row>, adds: seq<Row>): seq<Row>
    requires forall i :: 0 <= i < |adds| ==> Complete(adds[i])
  {
    if adds == [] then base
    else
      var a := adds[|adds| - 1];
      RemoveKey(Overlay(base, adds[..|adds| - 1]), KeyOf(a)) + [Modeled(a)]
  }

  /** build_modeled_status, from the parsed base and the additions' stanzas to the written rows. */
  method BuildModeledStatus(base: seq<Row>, adds: seq<Row>) returns (rows: Option<seq<Row>>)
    requires forall i :: 0 <= i < |adds| ==> DistinctKeys(adds[i])
    ensures rows.Some? <==> forall i :: 0 <= i < |adds| ==> Complete(adds[i])
    ensures rows.Some? ==> rows.value == Overlay(base, adds)
  {
    hide Get, Put, HasKey, Modeled, Without, Updated, RemoveKey, DistinctKeys;
    var out := base;
    for i := 0 to |adds|
      invariant forall j :: 0 <= j < i ==> Complete(adds[j])
      invariant out == Overlay(base, adds[..i])
    {
      ghost var raw := adds[i];
      assert adds[..i + 1][..i] == adds[..i];
      var addition := Drop(adds[i]);
      addition := Put(addition, "Status", INSTALLED);
      IdentifyingKept(raw);
      var name := Get(addition, "Package");
      var architecture := Get(addition, "Architecture");
      if !Present(name) || !Present(architecture) || !Present(Get(addition, "Version")) {
        return None;
      }
      out := RemoveMatching(out, name.value, architecture.value);
      var ordered := [Field("Package", name.value), Field("Status", Get(addition, "Status").value)];
      addition := Pop(addition, "Status");
      ordered := Update(ordered, addition);
      OrderedIsModeled(raw);
      out := out + [ordered];
    }
    assert adds[..|adds|] == adds;
    return Some(out);
  }

  /** dict.pop */
  function Pop(row: Row, key: string): Row { Without(row, {key}) }

  // ------------------------------------------------------------- dictionary laws

  lemma {:induction false} WithoutGet(row: Row, keys: set<string>, key: string)
    ensures Get(Without(row, keys), key) == if key in keys then None else Get(row, key)
    decreases |row|
  {
    if row != [] {
      var init, f := row[..|row| - 1], row[|row| - 1];
      WithoutGet(init, keys, key);
      assert row == init + [f];
      HasKeyAppend(init, f, key);
      HasKeyAppend(Without(init, keys), f, key);
    }
  }

  lemma {:induction false} WithoutTwice(row: Row, a: set<string>, b: set<string>)
    ensures Without(Without(row, a), b) == Without(row, a + b)
    decreases |row|
  {
    if row != [] {
      var init, f := row[..|row| - 1], row[|row| - 1];
      WithoutTwice(init, a, b);
      HasKeyAppend(Without(init, a), f, f.key);
    }
  }

  /** Reading a row built by appending. */
  lemma GetAppend(init: Row, f: Field, key: string)
    ensures Get(init + [f], key) == if HasKey(init, key) then Get(init, key) else if f.key == key then Some(f.value) else None
    ensures HasKey(init + [f], key) <==> HasKey(init, key) || f.key == key
  {
    HasKeyAppend(init, f, key);
  }

  lemma {:induction false} PutGet(row: Row, key: string, value: string, other: string)
    ensures Get(Put(row, key, value), other) == if other == key then Some(value) else Get(row, other)
    decreases |row|
  {
    hide HasKey, Get;
    if !HasKey(row, key) {
      GetAppend(row, Field(key, value), other);
      GetSome(row, key);
    } else {
      NotEmpty(row, key);
      var init, f := row[..|row| - 1], row[|row| - 1];
      assert row == init + [f];
      GetAppend(init, f, key);
      GetAppend(init, f, other);
      if HasKey(init, key) {
        PutGet(init, key, value, other);
        GetAppend(Put(init, key, value), f, other);
        GetSome(init, other);
        GetSome(Put(init, key, value), other);
      } else {
        GetAppend(init, Field(key, value), other);
        GetSome(init, other);
      }
    }
  }

  lemma GetSome(row: Row, key: string)
    ensures Get(row, key).Some? <==> HasKey(row, key)
  {}

  lemma NotEmpty(row: Row, key: string)
    requires HasKey(row, key)
    ensures row != []
  {}

  lemma {:induction false} PutPop(row: Row, key: string, value: string)
    ensures Without(Put(row, key, value), {key}) == Without(row, {key})
    decreases |row|
  {
    if !HasKey(row, key) {
      HasKeyAppend(row, Field(key, value), key);
    } else {
      var init, f := row[..|row| - 1], row[|row| - 1];
      assert row == init + [f];
      HasKeyAppend(init, f, key);
      if HasKey(init, key) {
        PutPop(init, key, value);
        HasKeyAppend(Put(init, key, value), f, key);
      } else {
        HasKeyAppend(init, Field(key, value), key);
      }
    }
  }

  lemma {:induction false} PutSame(row: Row, key: string, value: string)
    requires Get(row, key) == Some(value)
    ensures Put(row, key, value) == row
    decreases |row|
  {
    var init, f := row[..|row| - 1], row[|row| - 1];
    assert row == init + [f];
    HasKeyAppend(init, f, key);
    if HasKey(init, key) { PutSame(init, key, value); }
  }

  lemma {:induction false} GetPrefix(a: Row, b: Row, key: string)
    ensures Get(a + b, key) == if HasKey(a, key) then Get(a, key) else Get(b, key)
    decreases |b|
  {
    if b == [] {
      assert a + b == a;
    } else {
      var init, f := b[..|b| - 1], b[|b| - 1];
      assert (a + b)[..|a + b| - 1] == a + init;
      GetPrefix(a, init, key);
      assert b == init + [f] && a + b == a + init + [f];
      HasKeyAppend(init, f, key);
      HasKeyAppend(a + init, f, key);
    }
  }

  lemma DistinctAppend(init: Row, f: Field)
    ensures DistinctKeys(init + [f]) <==> DistinctKeys(init) && !HasKey(init, f.key)
  {
    var row := init + [f];
    assert row[|init|] == f && forall i :: 0 <= i < |init| ==> row[i] == init[i];
  }

  /** Updating a Package/Status head with the rest keeps the head and appends the other fields. */
  lemma {:induction false} UpdateHead(name: string, other: Row)
    requires DistinctKeys(other) && !HasKey(other, "Status")
    requires HasKey(other, "Package") ==> Get(other, "Package") == Some(name)
    ensures Updated([Field("Package", name), Field("Status", INSTALLED)], other)
         == [Field("Package", name), Field("Status", INSTALLED)] + Without(other, {"Package"})
    decreases |other|
  {
    var head := [Field("Package", name), Field("Status", INSTALLED)];
    if other != [] {
      var init, f := other[..|other| - 1], other[|other| - 1];
      assert other == init + [f];
      DistinctAppend(init, f);
      HasKeyAppend(init, f, "Package");
      HasKeyAppend(init, f, "Status");
      UpdateHead(name, init);
      var done := head + Without(init, {"Package"});
      GetPrefix(head, Without(init, {"Package"}), f.key);
      HeadGet(name, f.key);
      WithoutGet(init, {"Package"}, f.key);
      assert Updated(head, other) == Put(done, f.key, f.value);
      if f.key == "Package" {
        GetAppend(init, f, "Package");
        PutSame(done, f.key, f.value);
      }
    }
  }

  lemma HeadGet(name: string, key: string)
    ensures Get([Field("Package", name), Field("Status", INSTALLED)], key)
         == if key == "Package" then Some(name) else if key == "Status" then Some(INSTALLED) else None
  {
    HasKeyAppend([], Field("Package", name), key);
    HasKeyAppend([Field("Package", name)], Field("Status", INSTALLED), key);
    assert [Field("Package", name)] + [Field("Status", INSTALLED)] == [Field("Package", name), Field("Status", INSTALLED)];
    assert [] + [Field("Package", name)] == [Field("Package", name)];
  }

  lemma {:induction false} DistinctWithout(row: Row, keys: set<string>)
    requires DistinctKeys(row)
    ensures DistinctKeys(Without(row, keys))
    decreases |row|
  {
    if row != [] {
      var init, f := row[..|row| - 1], row[|row| - 1];
      assert row == init + [f];
      DistinctAppend(init, f);
      DistinctWithout(init, keys);
      WithoutGet(init, keys, f.key);
      DistinctAppend(Without(init, keys), f);
    }
  }

  /** The dictionary edits of one iteration give the modelled row. */
  lemma OrderedIsModeled(raw: Row)
    requires DistinctKeys(raw) && Complete(raw)
    ensures var rest := Pop(Put(Without(raw, DROP_FIELDS), "Status", INSTALLED), "Status");
            Updated([Field("Package", Get(raw, "Package").value), Field("Status", INSTALLED)], rest) == Modeled(raw)
  {
    var dropped := Without(raw, DROP_FIELDS);
    var rest := Pop(Put(dropped, "Status", INSTALLED), "Status");
    PutPop(dropped, "Status", INSTALLED);
    WithoutTwice(raw, DROP_FIELDS, {"Status"});
    DistinctWithout(raw, DROP_FIELDS + {"Status"});
    WithoutGet(raw, DROP_FIELDS + {"Status"}, "Package");
    WithoutGet(raw, DROP_FIELDS + {"Status"}, "Status");
    UpdateHead(Get(raw, "Package").value, rest);
    WithoutTwice(raw, DROP_FIELDS + {"Status"}, {"Package"});
    assert DROP_FIELDS + {"Status"} + {"Package"} == DROP_FIELDS + {"Package", "Status"};
  }

  /** Dropping fields and setting the status hides no identifying field. */
  lemma IdentifyingKept(raw: Row)
    ensures Get(Put(Without(raw, DROP_FIELDS), "Status", INSTALLED), "Status") == Some(INSTALLED)
    ensures forall key :: key !in DROP_FIELDS + {"Status"} ==> Get(Put(Without(raw, DROP_FIELDS), "Status", INSTALLED), key) == Get(raw, key)
  {
    hide Get, Put;
    var dropped := Without(raw, DROP_FIELDS);
    PutGet(dropped, "Status", INSTALLED, "Status");
    forall key | key !in DROP_FIELDS + {"Status"} ensures Get(Put(dropped, "Status", INSTALLED), key) == Get(raw, key)
    {
      PutGet(dropped, "Status", INSTALLED, key);
      WithoutGet(raw, DROP_FIELDS, key);
    }
  }

  lemma ModeledKey(raw: Row)
    requires Complete(raw)
    ensures KeyOf(Modeled(raw)) == KeyOf(raw)
  {
    var name := Get(raw, "Package").value;
    var head := [Field("Package", name), Field("Status", INSTALLED)];
    var rest := Without(raw, DROP_FIELDS + {"Package", "Status"});
    HeadGet(name, "Package");
    HeadGet(name, "Architecture");
    GetPrefix(head, rest, "Package");
    GetPrefix(head, rest, "Architecture");
    WithoutGet(raw, DROP_FIELDS + {"Package", "Status"}, "Architecture");
  }

  // ---------------------------------------------------------------- the map update

  predicate AllComplete(adds: seq<Row>) { forall i :: 0 <= i < |adds| ==> Complete(adds[i]) }

  function KeysOf(adds: seq<Row>): set<Key> { set i | 0 <= i < |adds| :: KeyOf(adds[i]) }

  /** The last decision about its key. */
  predicate Wins(adds: seq<Row>, i: nat) {
    i < |adds| && forall j :: i < j < |adds| ==> KeyOf(adds[j]) != KeyOf(adds[i])
  }

  function RowsFor(rows: seq<Row>, k: Key): seq<Row> {
    if rows == [] then []
    else
      var rest := RowsFor(rows[..|rows| - 1], k);
      if KeyOf(rows[|rows| - 1]) == k then rest + [rows[|rows| - 1]] else rest
  }

  function Untouched(rows: seq<Row>, ks: set<Key>): seq<Row> {
    if rows == [] then []
    else
      var rest := Untouched(rows[..|rows| - 1], ks);
      if KeyOf(rows[|rows| - 1]) in ks then rest else rest + [rows[|rows| - 1]]
  }

  /** The winning decisions, oldest first. */
  function Winners(adds: seq<Row>): seq<Row>
    requires AllComplete(adds)
  {
    if adds == [] then []
    else (if KeyOf(adds[0]) in KeysOf(adds[1..]) then [] else [Modeled(adds[0])]) + Winners(adds[1..])
  }

  lemma {:induction false} RemoveAppend(a: seq<Row>, b: seq<Row>, k: Key)
    ensures RemoveKey(a + b, k) == RemoveKey(a, k) + RemoveKey(b, k)
    decreases |b|
  {
    if b == [] {
      assert a + b == a;
    } else {
      assert (a + b)[..|a + b| - 1] == a + b[..|b| - 1];
      RemoveAppend(a, b[..|b| - 1], k);
    }
  }

  lemma {:induction false} RemoveUntouched(rows: seq<Row>, ks: set<Key>, k: Key)
    ensures RemoveKey(Untouched(rows, ks), k) == Untouched(rows, ks + {k})
    decreases |rows|
  {
    if rows != [] {
      var init, row := rows[..|rows| - 1], rows[|rows| - 1];
      RemoveUntouched(init, ks, k);
      assert (Untouched(init, ks) + [row])[..|Untouched(init, ks)|] == Untouched(init, ks);
    }
  }

  lemma {:induction false} NoneTouched(rows: seq<Row>)
    ensures Untouched(rows, {}) == rows
    decreases |rows|
  {
    if rows != [] {
      NoneTouched(rows[..|rows| - 1]);
    }
  }

  lemma KeysAppend(adds: seq<Row>, a: Row)
    ensures KeysOf(adds + [a]) == KeysOf(adds) + {KeyOf(a)}
  {
    var all := adds + [a];
    assert all[|adds|] == a && forall i :: 0 <= i < |adds| ==> all[i] == adds[i];
    forall k | k in KeysOf(adds) ensures k in KeysOf(all) {
      var i :| 0 <= i < |adds| && KeyOf(adds[i]) == k;
      assert all[i] == adds[i];
    }
  }

  lemma {:induction false} WinnersAppend(adds: seq<Row>, a: Row)
    requires AllComplete(adds) && Complete(a)
    ensures AllComplete(adds + [a])
    ensures Winners(adds + [a]) == RemoveKey(Winners(adds), KeyOf(a)) + [Modeled(a)]
    decreases |adds|
  {
    hide KeyOf, Complete, Modeled;
    var all := adds + [a];
    if adds == [] {
      assert all[0] == a && all[1..] == [];
      assert KeysOf([]) == {};
    } else {
      assert all[0] == adds[0] && all[1..] == adds[1..] + [a];
      WinnersAppend(adds[1..], a);
      KeysAppend(adds[1..], a);
      ModeledKey(adds[0]);
      var first := [Modeled(adds[0])];
      RemoveAppend(first, Winners(adds[1..]), KeyOf(a));
      assert first[..0] == [];
      assert RemoveKey(first, KeyOf(a)) == if KeyOf(adds[0]) == KeyOf(a) then [] else first;
      var tail, older := Winners(adds[1..]), KeyOf(adds[0]) in KeysOf(adds[1..]);
      assert Winners(adds) == if older then tail else first + tail;
      assert Winners(all) == if older || KeyOf(adds[0]) == KeyOf(a) then Winners(all[1..]) else first + Winners(all[1..]);
    }
  }

  /** The whole result: untouched base rows as they were, then the winning decisions. */
  lemma {:induction false} OverlayExactly(base: seq<Row>, adds: seq<Row>)
    requires AllComplete(adds)
    ensures Overlay(base, adds) == Untouched(base, KeysOf(adds)) + Winners(adds)
    decreases |adds|
  {
    hide KeyOf, Complete, Modeled;
    if adds == [] {
      assert KeysOf(adds) == {};
      NoneTouched(base);
    } else {
      var init, a := adds[..|adds| - 1], adds[|adds| - 1];
      assert adds == init + [a];
      OverlayExactly(base, init);
      KeysAppend(init, a);
      WinnersAppend(init, a);
      RemoveAppend(Untouched(base, KeysOf(init)), Winners(init), KeyOf(a));
      RemoveUntouched(base, KeysOf(init), KeyOf(a));
    }
  }

  lemma {:induction false} RowsForRemoved(rows: seq<Row>, k: Key, other: Key)
    ensures RowsFor(RemoveKey(rows, k), other) == if other == k then [] else RowsFor(rows, other)
    decreases |rows|
  {
    if rows != [] {
      var init, row := rows[..|rows| - 1], rows[|rows| - 1];
      RowsForRemoved(init, k, other);
      assert (RemoveKey(init, k) + [row])[..|RemoveKey(init, k)|] == RemoveKey(init, k);
    }
  }

  lemma OverlayStep(base: seq<Row>, init: seq<Row>, a: Row, k: Key)
    requires AllComplete(init) && Complete(a)
    ensures AllComplete(init + [a])
    ensures RowsFor(Overlay(base, init + [a]), k) == if KeyOf(a) == k then [Modeled(a)] else RowsFor(Overlay(base, init), k)
  {
    hide KeyOf, Complete, Modeled;
    assert (init + [a])[..|init|] == init;
    ModeledKey(a);
    var kept := RemoveKey(Overlay(base, init), KeyOf(a));
    RowsForRemoved(Overlay(base, init), KeyOf(a), k);
    assert (kept + [Modeled(a)])[..|kept|] == kept;
  }

  /** Read by key, the overlay is a map update: an added key has exactly one row, its last
      decision, and every other key keeps its base rows. */
  lemma {:induction false} OverlayByKey(base: seq<Row>, adds: seq<Row>, k: Key)
    requires AllComplete(adds)
    ensures k !in KeysOf(adds) ==> RowsFor(Overlay(base, adds), k) == RowsFor(base, k)
    ensures forall i :: 0 <= i < |adds| && KeyOf(adds[i]) == k && Wins(adds, i) ==> RowsFor(Overlay(base, adds), k) == [Modeled(adds[i])]
    decreases |adds|
  {
    hide KeyOf, Complete, Modeled, RowsFor;
    if adds != [] {
      var init, a := adds[..|adds| - 1], adds[|adds| - 1];
      assert adds == init + [a];
      KeysAppend(init, a);
      OverlayByKey(base, init, k);
      OverlayStep(base, init, a, k);
      forall i | 0 <= i < |adds| && KeyOf(adds[i]) == k && Wins(adds, i)
        ensures RowsFor(Overlay(base, adds), k) == [Modeled(adds[i])]
      {
        if i < |init| {
          assert adds[i] == init[i] && KeyOf(adds[|init|]) != k;
          assert Wins(init, i);
        }
      }
    }
  }

  // --------------------------------------------------------------- the written file

  predicate SpaceKey(f: Field) { f.key != "" && IsSpace(f.key[0]) }

  /** The fields that follow Package and Status. A name that starts with a space would be
      read as a continuation unless the field before it has the empty name. */
  predicate Tidy(rest: Row) {
    forall i :: 0 <= i < |rest| && SpaceKey(rest[i]) ==> i > 0 && rest[i - 1].key == ""
  }

  function Rest(raw: Row): Row { Without(raw, DROP_FIELDS + {"Package", "Status"}) }

  lemma FieldOkSplit(last: string, f: Field)
    ensures FieldOk(last, f) <==> FieldOk("", f) && (SpaceKey(f) ==> last == "")
  {}

  /** Each field is well-formed wherever its name is allowed to stand. */
  predicate EachOk(row: Row) { forall i :: 0 <= i < |row| ==> FieldOk("", row[i]) }

  lemma {:induction false} FieldsEach(row: Row)
    requires FieldsOk(row)
    ensures EachOk(row)
    decreases |row|
  {
    hide FieldOk;
    if row != [] {
      var init, f := row[..|row| - 1], row[|row| - 1];
      FieldsEach(init);
      FieldOkSplit(LastKey(init), f);
    }
  }

  lemma {:induction false} EachWithout(row: Row, keys: set<string>)
    requires EachOk(row)
    ensures EachOk(Without(row, keys))
    decreases |row|
  {
    hide FieldOk;
    if row != [] { EachWithout(row[..|row| - 1], keys); }
  }

  lemma {:induction false} AfterHead(head: Row, rest: Row)
    requires FieldsOk(head) && head != [] && LastKey(head) != "" && EachOk(rest)
    ensures FieldsOk(head + rest) <==> Tidy(rest)
    decreases |rest|
  {
    hide FieldOk, FieldsOk;
    if rest == [] {
      assert head + rest == head;
    } else {
      var init, f := rest[..|rest| - 1], rest[|rest| - 1];
      AfterHead(head, init);
      assert head + rest == head + init + [f];
      FieldsAppend(head + init, f);
      FieldOkSplit(LastKey(head + init), f);
      assert LastKey(head + init) == if init == [] then LastKey(head) else LastKey(init);
      assert Tidy(rest) <==> Tidy(init) && (SpaceKey(f) ==> init != [] && init[|init| - 1].key == "");
    }
  }

  lemma ModeledReads(raw: Row)
    requires Complete(raw) && RowOk(raw)
    ensures RowOk(Modeled(raw)) <==> Tidy(Rest(raw))
  {
    var name := Field("Package", Get(raw, "Package").value);
    var status := Field("Status", INSTALLED);
    var head := [name, status];
    FieldsEach(raw);
    EachWithout(raw, DROP_FIELDS + {"Package", "Status"});
    HeadOk(raw);
    AfterHead(head, Rest(raw));
    ModeledDistinct(raw);
  }

  lemma {:induction false} GetField(row: Row, key: string)
    requires HasKey(row, key) && EachOk(row)
    ensures FieldOk("", Field(key, Get(row, key).value))
    decreases |row|
  {
    hide FieldOk;
    var init, f := row[..|row| - 1], row[|row| - 1];
    assert row == init + [f];
    HasKeyAppend(init, f, key);
    if HasKey(init, key) { GetField(init, key); }
  }

  lemma OneLineOk(last: string, f: Field)
    requires IsLine(f.key) && ':' !in f.key && !SpaceKey(f)
    requires IsLine(f.value) && f.value != "" && !IsSpace(f.value[0])
    ensures FieldOk(last, f)
  {
    LineValue(f.value);
  }

  lemma StatusOk()
    ensures FieldOk("Package", Field("Status", INSTALLED))
  {
    hide FieldOk, ValueLines;
    OneLineOk("Package", Field("Status", INSTALLED));
  }

  lemma HeadOk(raw: Row)
    requires Complete(raw) && EachOk(raw)
    ensures FieldsOk([Field("Package", Get(raw, "Package").value), Field("Status", INSTALLED)])
  {
    var name, status := Field("Package", Get(raw, "Package").value), Field("Status", INSTALLED);
    hide FieldOk, FieldsOk, Get;
    GetField(raw, "Package");
    StatusOk();
    NoFields();
    FieldsAppend([], name);
    FieldsAppend([name], status);
    assert [] + [name] == [name] && [name] + [status] == [name, status];
  }

  lemma ModeledDistinct(raw: Row)
    requires Complete(raw) && DistinctKeys(raw)
    ensures DistinctKeys(Modeled(raw))
  {
    var keys := DROP_FIELDS + {"Package", "Status"};
    DistinctWithout(raw, keys);
    WithoutGet(raw, keys, "Package");
    WithoutGet(raw, keys, "Status");
    var row := Modeled(raw);
    assert row[0].key == "Package" && row[1].key == "Status";
    assert forall i :: 2 <= i < |row| ==> row[i] == Rest(raw)[i - 2];
  }

  lemma {:induction false} UntouchedOk(rows: seq<Row>, ks: set<Key>)
    requires WellFormed(rows)
    ensures WellFormed(Untouched(rows, ks))
    decreases |rows|
  {
    hide RowOk;
    if rows != [] { UntouchedOk(rows[..|rows| - 1], ks); }
  }

  /** The winning rows are well-formed exactly when every winning decision is tidy. */
  lemma {:induction false} WinnersOk(adds: seq<Row>)
    requires AllComplete(adds) && WellFormed(adds)
    ensures WellFormed(Winners(adds)) <==> forall i :: 0 <= i < |adds| && Wins(adds, i) ==> Tidy(Rest(adds[i]))
    decreases |adds|
  {
    hide RowOk, Complete, KeyOf, Rest, Tidy, Modeled;
    if adds != [] {
      var tail := adds[1..];
      WinnersOk(tail);
      ModeledReads(adds[0]);
      assert forall i :: 0 <= i < |tail| ==> tail[i] == adds[i + 1];
      assert Wins(adds, 0) <==> KeyOf(adds[0]) !in KeysOf(tail) by {
        assert forall j :: 0 < j < |adds| ==> adds[j] == tail[j - 1];
      }
      forall i | 0 <= i < |tail| ensures Wins(tail, i) <==> Wins(adds, i + 1) {
        assert forall j :: i + 1 < j < |adds| ==> adds[j] == tail[j - 1];
      }
      var first := if Wins(adds, 0) then [Modeled(adds[0])] else [];
      assert Winners(adds) == first + Winners(tail);
      WellFormedAppend(first, Winners(tail));
      assert WellFormed(first) <==> (Wins(adds, 0) ==> RowOk(Modeled(adds[0])));
      if forall i :: 0 <= i < |adds| && Wins(adds, i) ==> Tidy(Rest(adds[i])) {
        forall i | 0 <= i < |tail| && Wins(tail, i) ensures Tidy(Rest(tail[i])) {
          assert Wins(adds, i + 1) && adds[i + 1] == tail[i];
        }
      }
      if WellFormed(Winners(adds)) {
        forall i | 0 <= i < |adds| && Wins(adds, i) ensures Tidy(Rest(adds[i])) {
          if i > 0 { assert Wins(tail, i - 1) && adds[i] == tail[i - 1]; }
        }
      }
    }
  }

  lemma WellFormedAppend(a: seq<Row>, b: seq<Row>)
    ensures WellFormed(a + b) <==> WellFormed(a) && WellFormed(b)
  {
    hide RowOk;
    assert forall i :: 0 <= i < |a| ==> a[i] == (a + b)[i];
    assert forall i :: 0 <= i < |b| ==> b[i] == (a + b)[|a| + i];
  }

  /** The written status reads back as the modelled rows exactly when no winning decision
      carries a field name that starts with a space behind a named field. */
  lemma WrittenStatusReads(base: seq<Row>, adds: seq<Row>)
    requires AllComplete(adds) && WellFormed(base) && WellFormed(adds)
    ensures Parse(Render(Overlay(base, adds))) == Some(Overlay(base, adds))
       <==> forall i :: 0 <= i < |adds| && Wins(adds, i) ==> Tidy(Rest(adds[i]))
  {
    OverlayExactly(base, adds);
    UntouchedOk(base, KeysOf(adds));
    WinnersOk(adds);
    WellFormedAppend(Untouched(base, KeysOf(adds)), Winners(adds));
    RoundTripExactly(Overlay(base, adds));
  }

  function Spaced(): Row {
    [Field(" X", "1"), Field("Package", "p"), Field("Architecture", "all"), Field("Version", "1")]
  }

  /** The parser accepts this addition, yet the status written for it does not read back. */
  lemma SpaceNameLost()
    ensures RowOk(Spaced()) && Complete(Spaced())
    ensures Parse(Render(Overlay([], [Spaced()]))) != Some(Overlay([], [Spaced()]))
  {
    hide FieldOk, ValueLines, FieldsOk, Tidy;
    var raw := Spaced();
    SpacedFields();
    SpacedRead();
    assert Wins([raw], 0);
    SpacedUntidy();
    WrittenStatusReads([], [raw]);
    assert !Tidy(Rest([raw][0]));
  }

  lemma SpacedFields()
    ensures FieldsOk(Spaced())
  {
    hide FieldOk, ValueLines, FieldsOk, IsLine, IsSpace;
    var raw := Spaced();
    NoFields();
    FirstOk();
    PackageOk();
    ArchitectureOk();
    VersionOk();
    FieldsAppend([], raw[0]);
    FieldsAppend([raw[0]], raw[1]);
    FieldsAppend([raw[0], raw[1]], raw[2]);
    FieldsAppend([raw[0], raw[1], raw[2]], raw[3]);
    assert [] + [raw[0]] == [raw[0]] && [raw[0]] + [raw[1]] == [raw[0], raw[1]];
    assert [raw[0], raw[1]] + [raw[2]] == [raw[0], raw[1], raw[2]];
    assert [raw[0], raw[1], raw[2]] + [raw[3]] == raw;
  }

  lemma PackageOk()
    ensures FieldOk(" X", Field("Package", "p"))
  {
    hide FieldOk, ValueLines;
    OneLineOk(" X", Field("Package", "p"));
  }

  lemma ArchitectureOk()
    ensures FieldOk("Package", Field("Architecture", "all"))
  {
    hide FieldOk, ValueLines;
    OneLineOk("Package", Field("Architecture", "all"));
  }

  lemma VersionOk()
    ensures FieldOk("Architecture", Field("Version", "1"))
  {
    hide FieldOk, ValueLines;
    OneLineOk("Architecture", Field("Version", "1"));
  }

  lemma FirstOk()
    ensures FieldOk("", Field(" X", "1"))
  {
    var f := Field(" X", "1");
    LineValue(f.value);
  }

  lemma SpacedRead()
    ensures Complete(Spaced()) && DistinctKeys(Spaced())
    ensures KeyOf(Spaced()) == (Some("p"), Some("all"))
  {
    var raw := Spaced();
    var two, three := [raw[0], raw[1]], [raw[0], raw[1], raw[2]];
    assert three + [raw[3]] == raw && two + [raw[2]] == three && [raw[0]] + [raw[1]] == two;
    forall key | key in {"Package", "Architecture", "Version"} ensures Get(raw, key) == Some(if key == "Package" then "p" else if key == "Architecture" then "all" else "1") {
      GetAppend(three, raw[3], key);
      GetAppend(two, raw[2], key);
      GetAppend([raw[0]], raw[1], key);
      GetAppend([], raw[0], key);
      assert [] + [raw[0]] == [raw[0]];
    }
  }

  lemma SpacedUntidy()
    ensures !Tidy(Rest(Spaced()))
  {
    var raw, keys := Spaced(), DROP_FIELDS + {"Package", "Status"};
    assert Without(raw[..1], keys) == [raw[0]] by { assert raw[..1][..0] == []; }
    WithoutPrefix(raw, 1, keys);
    assert SpaceKey(Rest(raw)[0]);
  }

  lemma {:induction false} WithoutPrefix(row: Row, n: nat, keys: set<string>)
    requires n <= |row|
    ensures Without(row[..n], keys) <= Without(row, keys)
    decreases |row|
  {
    if n == |row| {
      assert row[..n] == row;
    } else {
      assert row[..|row| - 1][..n] == row[..n];
      WithoutPrefix(row[..|row| - 1], n, keys);
    }
  }
}
