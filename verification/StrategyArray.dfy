/**
  The list of saved strategies and its two edits, as the desktop backend and the
  browser backend perform them.
 */
module StrategyArray {
  import opened Options

  datatype Preset = Preset(id: string, name: string, savedAt: string, strategy: string)

  const BUILTIN_ID_PREFIX: string := "builtin-"
  const SAVED_ID_PREFIX: string := "saved-"

  predicate IsBuiltInId(id: string) {
    BUILTIN_ID_PREFIX <= id
  }

  // The custom part of a list, in order.
  function Custom(items: seq<Preset>): (r: seq<Preset>) {
    if items == [] then []
    else
      Custom(items[..|items| - 1])
      + if IsBuiltInId(items[|items| - 1].id) then [] else [items[|items| - 1]]
  }

  // All items but those with the given id, in order.
  function Without(items: seq<Preset>, id: string): (r: seq<Preset>)
    ensures |r| <= |items|
  {
    if items == [] then []
    else
      Without(items[..|items| - 1], id)
      + if items[|items| - 1].id == id then [] else [items[|items| - 1]]
  }

  lemma {:induction false} CustomMembers(items: seq<Preset>)
    ensures forall p :: p in Custom(items) <==> p in items && !IsBuiltInId(p.id)
  {
    if items != [] {
      CustomMembers(items[..|items| - 1]);
    }
  }

  lemma {:induction false} WithoutMembers(items: seq<Preset>, id: string)
    ensures forall p :: p in Without(items, id) <==> p in items && p.id != id
  {
    if items != [] {
      WithoutMembers(items[..|items| - 1], id);
    }
  }

  // The first position holding an id.
  function PositionOf(items: seq<Preset>, id: string, from: nat): (r: Option<nat>)
    requires from <= |items|
    ensures r.Some? ==> from <= r.value < |items| && items[r.value].id == id
    ensures r.Some? ==> forall k :: from <= k < r.value ==> items[k].id != id
    ensures r.None? ==> forall k :: from <= k < |items| ==> items[k].id != id
    decreases |items| - from
  {
    if from == |items| then None
    else if items[from].id == id then Some(from)
    else PositionOf(items, id, from + 1)
  }

  // Replace the first entry with the preset's id, or insert the preset in front.
  function Upserted(items: seq<Preset>, preset: Preset): (r: seq<Preset>) {
    match PositionOf(items, preset.id, 0)
    case Some(pos) => items[pos := preset]
    case None => [preset] + items
  }

  // A known id keeps its first place and every other entry keeps its own; a new
  // preset stands in front of the others.
  lemma UpsertedInPlaces(items: seq<Preset>, preset: Preset)
    ensures
      var after := Upserted(items, preset);
      if exists k :: 0 <= k < |items| && items[k].id == preset.id then
        exists pos :: 0 <= pos < |items| && items[pos].id == preset.id
                      && (forall k :: 0 <= k < pos ==> items[k].id != preset.id)
                      && |after| == |items| && after[pos] == preset
                      && (forall k :: 0 <= k < |items| && k != pos ==> after[k] == items[k])
      else after == [preset] + items
  {
    var pos := PositionOf(items, preset.id, 0);
    if pos.Some? {
      assert items[pos.value].id == preset.id && Upserted(items, preset)[pos.value] == preset;
    }
  }

  // What is left after a removal keeps its order.
  lemma {:induction false} WithoutOfConcat(a: seq<Preset>, b: seq<Preset>, id: string)
    ensures Without(a + b, id) == Without(a, id) + Without(b, id)
  {
    if b == [] {
      assert a + b == a;
    } else {
      assert (a + b)[..|a + b| - 1] == a + b[..|b| - 1];
      WithoutOfConcat(a, b[..|b| - 1], id);
    }
  }

  lemma WithoutOfOne(p: Preset, id: string)
    ensures Without([p], id) == if p.id == id then [] else [p]
  {
    assert [p][..0] == [];
  }

  // ----- the loops of the backend, on an array it edits

  method UpsertInPlace(items: seq<Preset>, preset: Preset) returns (r: seq<Preset>)
    ensures r == Upserted(items, preset)
  {
    r := items;
    var pos := 0;
    while pos < |items| && items[pos].id != preset.id
      invariant pos <= |items|
      invariant PositionOf(items, preset.id, 0) == PositionOf(items, preset.id, pos)
    {
      pos := pos + 1;
    }
    if pos < |items| {
      r := r[pos := preset];
    } else {
      r := [preset] + r;
    }
  }

  method RetainOthers(items: seq<Preset>, id: string) returns (r: seq<Preset>)
    ensures r == Without(items, id)
  {
    r := [];
    for i := 0 to |items|
      invariant r == Without(items[..i], id)
    {
      assert items[..i + 1][..i] == items[..i];
      if items[i].id != id {
        r := r + [items[i]];
      }
    }
    assert items[..|items|] == items;
  }

  // ----- what the edits keep

  ghost predicate UniqueIds(items: seq<Preset>) {
    forall i, j :: 0 <= i < j < |items| ==> items[i].id != items[j].id
  }

  ghost predicate UniqueNames(items: seq<Preset>) {
    forall i, j :: 0 <= i < j < |items| ==> items[i].name != items[j].name
  }

  lemma UpsertKeepsIdsUnique(items: seq<Preset>, preset: Preset)
    requires UniqueIds(items)
    ensures UniqueIds(Upserted(items, preset))
    ensures preset in Upserted(items, preset)
    ensures forall p: Preset :: p.id != preset.id ==> (p in Upserted(items, preset) <==> p in items)
  {
    var r := Upserted(items, preset);
    match PositionOf(items, preset.id, 0)
    case Some(pos) =>
      assert r[pos] == preset;
      forall p: Preset | p.id != preset.id
        ensures p in r <==> p in items
      {
        if p in items {
          var k :| 0 <= k < |items| && items[k] == p;
          assert r[k] == p;
        }
      }
    case None =>
  }

  lemma {:induction false} WithoutKeepsIdsUnique(items: seq<Preset>, id: string)
    requires UniqueIds(items)
    ensures UniqueIds(Without(items, id))
  {
    if items != [] {
      var rest, last := items[..|items| - 1], items[|items| - 1];
      WithoutKeepsIdsUnique(rest, id);
      WithoutMembers(rest, id);
      forall p | p in rest
        ensures p.id != last.id
      {
        var k :| 0 <= k < |rest| && rest[k] == p;
        assert items[k].id != items[|items| - 1].id;
      }
    }
  }

  lemma {:induction false} WithoutKeepsNamesUnique(items: seq<Preset>, id: string)
    requires UniqueNames(items)
    ensures UniqueNames(Without(items, id))
  {
    if items != [] {
      var rest, last := items[..|items| - 1], items[|items| - 1];
      WithoutKeepsNamesUnique(rest, id);
      WithoutMembers(rest, id);
      forall p | p in rest
        ensures p.name != last.name
      {
        var k :| 0 <= k < |rest| && rest[k] == p;
        assert items[k].name != items[|items| - 1].name;
      }
    }
  }

  lemma UpsertKeepsNamesUnique(items: seq<Preset>, preset: Preset)
    requires UniqueNames(items) && forall p :: p in items ==> p.name != preset.name
    ensures UniqueNames(Upserted(items, preset))
  {
    assert forall k :: 0 <= k < |items| ==> items[k] in items;
  }

  // Deleting an id that is not there changes nothing.
  lemma {:induction false} WithoutAbsent(items: seq<Preset>, id: string)
    requires forall p :: p in items ==> p.id != id
    ensures Without(items, id) == items
  {
    if items != [] {
      WithoutAbsent(items[..|items| - 1], id);
    }
  }

  // A delete directly after an upsert of a new id undoes it.
  lemma DeleteUndoesUpsert(items: seq<Preset>, preset: Preset)
    requires forall p :: p in items ==> p.id != preset.id
    ensures Without(Upserted(items, preset), preset.id) == items
  {
    WithoutOfFront(items, preset);
    WithoutAbsent(items, preset.id);
  }

  lemma {:induction false} WithoutOfFront(items: seq<Preset>, preset: Preset)
    ensures Without([preset] + items, preset.id) == Without(items, preset.id)
  {
    if items != [] {
      var rest := items[..|items| - 1];
      assert ([preset] + items)[..|items|] == [preset] + rest;
      WithoutOfFront(rest, preset);
    }
  }

  // ----- the custom part under the edits

  lemma {:induction false} CustomOfCustom(items: seq<Preset>)
    requires forall k :: 0 <= k < |items| ==> !IsBuiltInId(items[k].id)
    ensures Custom(items) == items
  {
    if items != [] {
      CustomOfCustom(items[..|items| - 1]);
    }
  }

  lemma {:induction false} CustomOfBuiltins(items: seq<Preset>)
    requires forall k :: 0 <= k < |items| ==> IsBuiltInId(items[k].id)
    ensures Custom(items) == []
  {
    if items != [] {
      CustomOfBuiltins(items[..|items| - 1]);
    }
  }

  lemma {:induction false} CustomOfConcat(a: seq<Preset>, b: seq<Preset>)
    ensures Custom(a + b) == Custom(a) + Custom(b)
  {
    if b == [] {
      assert a + b == a;
    } else {
      CustomOfConcat(a, b[..|b| - 1]);
      assert (a + b)[..|a + b| - 1] == a + b[..|b| - 1];
    }
  }
}
