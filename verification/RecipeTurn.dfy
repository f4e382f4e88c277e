/** Which generation of a Recipe may work: the oldest active one. */
module RecipeTurn {
  import opened Wrappers
  import opened AutomationRow
  import opened AutomationLedger

  predicate IsActive(d: Document, recipeId: RecipeId, k: Key, g: int) {
    HasRow(d, k, g) && d[k].recipeId == recipeId && !d[k].generations[g].Stopped()
  }

  /** What `min(active)` compares: creation time, then key, then generation. */
  datatype Rank = Rank(createdAt: Time, key: Key, generation: int)
  {
    predicate Leq(o: Rank) {
      createdAt < o.createdAt
      || (createdAt == o.createdAt && (key < o.key || (key == o.key && generation <= o.generation)))
    }
  }

  function RankOf(d: Document, k: Key, g: int): Rank
    requires HasRow(d, k, g)
  {
    Rank(d[k].generations[g].createdAt, k, g)
  }

  /** `_is_recipe_turn`: nothing is active, or this row is the least active one. */
  ghost predicate HasTurn(d: Document, k: Key, g: int)
    requires HasRow(d, k, g)
  {
    var r := d[k].recipeId;
    (exists j, h :: IsActive(d, r, j, h)) ==>
      IsActive(d, r, k, g) && forall j, h :: IsActive(d, r, j, h) ==> RankOf(d, k, g).Leq(RankOf(d, j, h))
  }

  /** The least of what has been seen so far. */
  ghost predicate LeastOf(d: Document, recipeId: RecipeId, seen: set<Key>, least: Option<Rank>) {
    && (least.Some? ==>
          var m := least.value;
          && m.key in seen && IsActive(d, recipeId, m.key, m.generation) && m == RankOf(d, m.key, m.generation)
          && forall j, h :: j in seen && IsActive(d, recipeId, j, h) ==> m.Leq(RankOf(d, j, h)))
    && (least.None? ==> forall j, h :: j in seen ==> !IsActive(d, recipeId, j, h))
  }

  /** One attempt's generations, in order. */
  method LeastInEntry(d: Document, recipeId: RecipeId, key: Key, ghost seen: set<Key>, least: Option<Rank>)
    returns (next: Option<Rank>)
    requires key in d && key !in seen && LeastOf(d, recipeId, seen, least)
    ensures LeastOf(d, recipeId, seen + {key}, next)
  {
    next := least;
    if d[key].recipeId != recipeId { return; }
    var rows := d[key].generations;
    for g := 0 to |rows|
      invariant next.Some? ==>
        && (next.value.key in seen || (next.value.key == key && next.value.generation < g))
        && IsActive(d, recipeId, next.value.key, next.value.generation)
        && next.value == RankOf(d, next.value.key, next.value.generation)
      invariant forall j, h :: j in seen && IsActive(d, recipeId, j, h) ==>
        next.Some? && next.value.Leq(RankOf(d, j, h))
      invariant forall h :: 0 <= h < g && IsActive(d, recipeId, key, h) ==>
        next.Some? && next.value.Leq(RankOf(d, key, h))
    {
      if !rows[g].Stopped() {
        var candidate := Rank(rows[g].createdAt, key, g);
        assert IsActive(d, recipeId, key, g) && candidate == RankOf(d, key, g);
        if next.None? || candidate.Leq(next.value) { next := Some(candidate); }
      }
    }
  }

  method IsRecipeTurn(d: Document, key: Key, generation: nat) returns (turn: bool)
    requires HasRow(d, key, generation)
    ensures turn <==> HasTurn(d, key, generation)
  {
    var recipeId := d[key].recipeId;
    var least: Option<Rank> := None;
    var todo := d.Keys;
    ghost var seen: set<Key> := {};
    while todo != {}
      invariant todo <= d.Keys && seen == d.Keys - todo
      invariant LeastOf(d, recipeId, seen, least)
      decreases |todo|
    {
      var k :| k in todo;
      least := LeastInEntry(d, recipeId, k, seen, least);
      seen, todo := seen + {k}, todo - {k};
    }
    assert seen == d.Keys;
    turn := least.None? || least.value == RankOf(d, key, generation);
    if least.Some? {
      assert IsActive(d, recipeId, least.value.key, least.value.generation);
    }
  }

  /** While a Recipe has active generations, exactly one of its rows passes the check. */
  lemma TurnIsExclusive(d: Document, k: Key, g: int) returns (k1: Key, g1: int)
    requires k in d && IsActive(d, d[k].recipeId, k, g)
    ensures IsActive(d, d[k].recipeId, k1, g1) && HasTurn(d, k1, g1)
    ensures forall j, h :: HasRow(d, j, h) && d[j].recipeId == d[k].recipeId && HasTurn(d, j, h) ==> j == k1 && h == g1
  {
    var r := d[k].recipeId;
    k1, g1 := LeastActive(d, r, d.Keys, k, g);
    forall j, h | HasRow(d, j, h) && d[j].recipeId == r && HasTurn(d, j, h) ensures j == k1 && h == g1 {
      assert IsActive(d, r, k1, g1);
    }
  }

  lemma LeastActive(d: Document, r: RecipeId, keys: set<Key>, k: Key, g: int) returns (k1: Key, g1: int)
    requires keys <= d.Keys && IsActive(d, r, k, g)
    ensures IsActive(d, r, k1, g1) && RankOf(d, k1, g1).Leq(RankOf(d, k, g))
    ensures forall j, h :: j in keys && IsActive(d, r, j, h) ==> RankOf(d, k1, g1).Leq(RankOf(d, j, h))
    decreases |keys|
  {
    if keys == {} {
      k1, g1 := k, g;
    } else {
      var j :| j in keys;
      k1, g1 := LeastActive(d, r, keys - {j}, k, g);
      for h := 0 to |d[j].generations|
        invariant IsActive(d, r, k1, g1) && RankOf(d, k1, g1).Leq(RankOf(d, k, g))
        invariant forall i, h :: i in keys - {j} && IsActive(d, r, i, h) ==> RankOf(d, k1, g1).Leq(RankOf(d, i, h))
        invariant forall i :: 0 <= i < h && IsActive(d, r, j, i) ==> RankOf(d, k1, g1).Leq(RankOf(d, j, i))
      {
        if IsActive(d, r, j, h) && RankOf(d, j, h).Leq(RankOf(d, k1, g1)) { k1, g1 := j, h; }
      }
    }
  }

  /** The turn survives any change that revives no other row and admits only later ones. */
  lemma TurnSurvives(a: Document, b: Document, k: Key, g: int)
    requires HasRow(a, k, g) && HasTurn(a, k, g) && IsActive(a, a[k].recipeId, k, g)
    requires HasRow(b, k, g) && b[k].recipeId == a[k].recipeId && IsActive(b, b[k].recipeId, k, g)
    requires b[k].generations[g].createdAt == a[k].generations[g].createdAt
    requires forall j, h :: IsActive(b, b[k].recipeId, j, h) ==>
               (IsActive(a, a[k].recipeId, j, h) && a[j].generations[h].createdAt == b[j].generations[h].createdAt)
               || a[k].generations[g].createdAt < b[j].generations[h].createdAt
    ensures HasTurn(b, k, g)
  {
    forall j, h | IsActive(b, b[k].recipeId, j, h) ensures RankOf(b, k, g).Leq(RankOf(b, j, h)) {
      if IsActive(a, a[k].recipeId, j, h) && a[j].generations[h].createdAt == b[j].generations[h].createdAt {
        assert RankOf(a, k, g).Leq(RankOf(a, j, h));
      }
    }
  }
}
