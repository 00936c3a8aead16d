/**
 * The data helpers of js/api.js: the cast list of scene 0, the normalised row shape, the index
 * lists per scene and the sorted list of scene numbers.
 */
module Api {
  import opened Common
  import opened Script
  import opened JsText
  import opened OrderedMaps
  import opened Sorting

  // ---------------------------------------------------------------- getActors

  /** A cast row: it names a role, and its scene is loosely equal to 0 (`'0'`, `'00'`, `' 0 '`, ...). */
  predicate IsCastRow(r: Row) {
    r.charakter != "" && r.szene != "" && LooselyZero(r.szene)
  }

  function TextOf(r: Row): string { r.text }

  /**
   * The `[row.Charakter, v(row)]` entries of the rows that satisfy `p`, in sheet order (a `filter`,
   * then a `map`).
   */
  function EntriesOf(data: seq<Row>, p: Row -> bool, v: Row -> string): seq<(string, string)> {
    if data == [] then []
    else
      var last := data[|data| - 1];
      EntriesOf(data[..|data| - 1], p, v) + (if p(last) then [(last.charakter, v(last))] else [])
  }

  /** A role has an entry exactly when some row that satisfies `p` names it. */
  lemma {:induction false} EntriesOfRoles(data: seq<Row>, p: Row -> bool, v: Row -> string, role: string)
    ensures role in Firsts(EntriesOf(data, p, v)) <==> exists i | 0 <= i < |data| :: p(data[i]) && data[i].charakter == role
  {
    if data != [] {
      var init, last := data[..|data| - 1], data[|data| - 1];
      EntriesOfRoles(init, p, v, role);
      var a, b := EntriesOf(init, p, v), if p(last) then [(last.charakter, v(last))] else [];
      assert EntriesOf(data, p, v) == a + b;
      assert Firsts(a + b) == Firsts(a) + Firsts(b);
      if role in Firsts(a) {
        var i :| 0 <= i < |init| && p(init[i]) && init[i].charakter == role;
        assert data[i] == init[i];
      }
      if exists i | 0 <= i < |data| :: p(data[i]) && data[i].charakter == role {
        var i :| 0 <= i < |data| && p(data[i]) && data[i].charakter == role;
        if i < |init| {
          assert init[i] == data[i];
        } else {
          assert Firsts(b) == [role];
        }
      }
    }
  }

  /** `actors.map((actor) => [actor.Charakter, actor['Text/Anweisung']])` over the cast rows. */
  function CastEntries(data: seq<Row>): seq<(string, string)> {
    EntriesOf(data, IsCastRow, TextOf)
  }

  /** `getActors(data)`: `[...new Map(entries).entries()]`. */
  function GetActors(data: seq<Row>): (r: seq<(string, string)>)
    ensures Distinct(Firsts(r))
  {
    var m := FromEntries(CastEntries(data));
    FromEntriesSpec(CastEntries(data));
    Entries(m)
  }

  /**
   * The roles come once each, in the order of their first cast row, and each role carries the text
   * of its LAST cast row.
   */
  lemma GetActorsSpec(data: seq<Row>)
    ensures Firsts(GetActors(data)) == Dedup(Firsts(CastEntries(data)))
    ensures forall i | 0 <= i < |GetActors(data)| ::
      LastValue(CastEntries(data), GetActors(data)[i].0) == Some(GetActors(data)[i].1)
  {
    var ps := CastEntries(data);
    FromEntriesSpec(ps);
    var m := FromEntries(ps);
    assert Firsts(Entries(m)) == m.keys;
  }

  /** A role is listed exactly when some cast row names it. */
  lemma GetActorsRoles(data: seq<Row>, role: string)
    ensures role in Firsts(GetActors(data)) <==> exists i | 0 <= i < |data| :: IsCastRow(data[i]) && data[i].charakter == role
  {
    GetActorsSpec(data);
    EntriesOfRoles(data, IsCastRow, TextOf, role);
    var fs := Firsts(CastEntries(data));
    assert role in Dedup(fs) <==> role in fs;
  }

  // ---------------------------------------------------------------- normalizeScriptData

  /** A normalised row: trimmed fields under `Text` instead of `Text/Anweisung`, and the input as `raw`. */
  datatype NormalRow = NormalRow(szene: string, kategorie: string, charakter: string, mikrofon: string, text: string, raw: Row)

  /**
   * The field rewrite `normalizeScriptData` applies (and `DataManager.normalizeData` applies in
   * place): every field trimmed, `Charakter` also upper-cased.
   */
  function NormalFields(row: Row): Row {
    Row(Trim(row.szene), Trim(row.kategorie), ToUpper(Trim(row.charakter)), Trim(row.mikrofon), Trim(row.text), row.isAutoMic)
  }

  /** Every rewritten field is trimmed, and the role is its own upper case. */
  lemma NormalFieldsTrimmed(row: Row)
    ensures var f := NormalFields(row);
      && Trimmed(f.szene) && Trimmed(f.kategorie) && Trimmed(f.charakter) && Trimmed(f.mikrofon) && Trimmed(f.text)
      && f.charakter == ToUpper(f.charakter)
  {
    TrimShape(row.szene);
    TrimShape(row.kategorie);
    TrimShape(row.charakter);
    TrimShape(row.mikrofon);
    TrimShape(row.text);
    ToUpperKeepsTrimmed(Trim(row.charakter));
    ToUpperIdempotent(Trim(row.charakter));
  }

  /** Rewriting the fields a second time changes nothing. */
  lemma NormalFieldsIdempotent(row: Row)
    ensures NormalFields(NormalFields(row)) == NormalFields(row)
  {
    NormalFieldsTrimmed(row);
    var f := NormalFields(row);
    TrimIdempotent(row.szene);
    TrimIdempotent(row.kategorie);
    TrimIdempotent(row.mikrofon);
    TrimIdempotent(row.text);
    TrimOfTrimmed(f.charakter);
  }

  /** A field a row leaves out stays the empty string. */
  lemma NormalFieldsOfEmpty(row: Row)
    ensures row.szene == "" ==> NormalFields(row).szene == ""
    ensures row.charakter == "" ==> NormalFields(row).charakter == ""
    ensures row.text == "" ==> NormalFields(row).text == ""
  {
    assert Trim("") == "";
    assert ToUpper("") == "";
  }

  /** One row of `normalizeScriptData`: the rewritten fields, with `Text/Anweisung` as `text` and the input as `raw`. */
  function Normalize(row: Row): (n: NormalRow)
    ensures n.raw == row && Fields(n) == NormalFields(row)
  {
    var f := NormalFields(row);
    NormalRow(f.szene, f.kategorie, f.charakter, f.mikrofon, f.text, row)
  }

  /** `normalizeScriptData(data)`: the same rows, in order, each normalised. */
  function NormalizeScriptData(data: seq<Row>): (r: seq<NormalRow>)
    ensures |r| == |data|
    ensures forall i | 0 <= i < |r| :: r[i].raw == data[i] && Fields(r[i]) == NormalFields(data[i])
  {
    seq(|data|, i requires 0 <= i < |data| => Normalize(data[i]))
  }

  /** The text fields of a normalised row, as a row again. */
  function Fields(n: NormalRow): Row {
    Row(n.szene, n.kategorie, n.charakter, n.mikrofon, n.text, n.raw.isAutoMic)
  }

  // ---------------------------------------------------------------- buildSceneIndexMap

  /** A row of a numbered scene: `buildSceneIndexMap` files it and `collectScenes` lists its scene. */
  predicate Indexed(r: Row) {
    r.szene != "" && r.szene != "0"
  }

  /** The scenes of the numbered rows among the first `n`, in order, with repeats. */
  function FiledScenes(data: seq<Row>, n: nat): (r: seq<string>)
    requires n <= |data|
    ensures forall i | 0 <= i < |r| :: r[i] != "" && r[i] != "0"
  {
    if n == 0 then [] else FiledScenes(data, n - 1) + (if Indexed(data[n - 1]) then [data[n - 1].szene] else [])
  }

  /** A scene is among the first `n` filed scenes exactly when a numbered row below `n` has it. */
  lemma {:induction false} FiledScenesMembers(data: seq<Row>, n: nat, sc: string)
    requires n <= |data|
    ensures sc in FiledScenes(data, n) <==> exists i | 0 <= i < n :: Indexed(data[i]) && data[i].szene == sc
  {
    if n > 0 {
      FiledScenesMembers(data, n - 1, sc);
      if Indexed(data[n - 1]) && data[n - 1].szene == sc {
        assert sc in FiledScenes(data, n);
      }
    }
  }

  /** The indices below `n` of the rows of scene `sc`, increasing. */
  function IndicesOf(data: seq<Row>, sc: string, n: nat): (r: seq<nat>)
    requires n <= |data|
    ensures forall i | 0 <= i < |r| :: r[i] < n && data[r[i]].szene == sc
  {
    if n == 0 then [] else IndicesOf(data, sc, n - 1) + (if data[n - 1].szene == sc then [n - 1] else [])
  }

  /** Each list is strictly increasing. */
  lemma {:induction false} IndicesOfIncreasing(data: seq<Row>, sc: string, n: nat)
    requires n <= |data|
    ensures forall i, j | 0 <= i < j < |IndicesOf(data, sc, n)| :: IndicesOf(data, sc, n)[i] < IndicesOf(data, sc, n)[j]
  {
    if n > 0 {
      IndicesOfIncreasing(data, sc, n - 1);
    }
  }

  /** Every row of scene `sc` below `n` is listed. */
  lemma {:induction false} IndicesOfComplete(data: seq<Row>, sc: string, n: nat, i: nat)
    requires i < n <= |data| && data[i].szene == sc
    ensures i in IndicesOf(data, sc, n)
  {
    if i < n - 1 {
      IndicesOfComplete(data, sc, n - 1, i);
    }
  }

  /** The numbered scenes of the first `n` rows, each once, in order of first appearance. */
  function SceneOrder(data: seq<Row>, n: nat): seq<string>
    requires n <= |data|
  {
    if n == 0 then []
    else
      var order := SceneOrder(data, n - 1);
      if Indexed(data[n - 1]) && data[n - 1].szene !in order then order + [data[n - 1].szene] else order
  }

  /** That order is the distinct filed scenes. */
  lemma {:induction false} SceneOrderIsDedup(data: seq<Row>, n: nat)
    requires n <= |data|
    ensures SceneOrder(data, n) == Dedup(FiledScenes(data, n))
  {
    if n == 0 {
      assert FiledScenes(data, 0) == [];
    } else {
      SceneOrderIsDedup(data, n - 1);
      var fs, order := FiledScenes(data, n - 1), SceneOrder(data, n - 1);
      if Indexed(data[n - 1]) {
        var sc := data[n - 1].szene;
        assert FiledScenes(data, n) == fs + [sc];
        DedupSnoc(fs, sc);
        if sc in order {
          assert SceneOrder(data, n) == order;
        } else {
          assert SceneOrder(data, n) == order + [sc];
        }
      } else {
        calc {
          SceneOrder(data, n);
          order;
          { assert FiledScenes(data, n) == fs; }
          Dedup(FiledScenes(data, n));
        }
      }
    }
  }

  /** A scene is in that order exactly when a numbered row below `n` has it. */
  lemma {:induction false} SceneOrderMembers(data: seq<Row>, n: nat, sc: string)
    requires n <= |data|
    ensures sc in SceneOrder(data, n) <==> exists i | 0 <= i < n :: Indexed(data[i]) && data[i].szene == sc
  {
    if n > 0 {
      SceneOrderMembers(data, n - 1, sc);
      if Indexed(data[n - 1]) && data[n - 1].szene == sc {
        assert sc in SceneOrder(data, n);
      }
    }
  }

  /** The loop's state after the rows `0..n-1`. */
  ghost predicate IndexInv(data: seq<Row>, n: nat, m: OMap<string, seq<nat>>)
    requires n <= |data|
  {
    Valid(m) && m.keys == SceneOrder(data, n)
    && forall k | k in m.values :: m.values[k] == IndicesOf(data, k, n)
  }

  /**
   * `buildSceneIndexMap(data)`: one key per scene (empty and `'0'` excluded) in order of first
   * appearance, each listing the indices of that scene's rows in increasing order.
   */
  method BuildSceneIndexMap(data: seq<Row>) returns (m: OMap<string, seq<nat>>)
    ensures IndexInv(data, |data|, m)
  {
    m := Empty();
    var index := 0;
    while index < |data|
      invariant index <= |data|
      invariant m == IndexUpTo(data, index)
    {
      m := FileIndex(data, index, m);
      index := index + 1;
    }
    IndexUpToInv(data, |data|);
  }

  /** The map after the loop has filed the rows `0..n-1`. */
  function IndexUpTo(data: seq<Row>, n: nat): OMap<string, seq<nat>>
    requires n <= |data|
  {
    if n == 0 then Empty() else FileRow(data, n - 1, IndexUpTo(data, n - 1))
  }

  lemma {:induction false} IndexUpToInv(data: seq<Row>, n: nat)
    requires n <= |data|
    ensures IndexInv(data, n, IndexUpTo(data, n))
  {
    if n == 0 {
      IndexStart(data);
    } else {
      IndexUpToInv(data, n - 1);
      IndexStep(data, n - 1, IndexUpTo(data, n - 1), IndexUpTo(data, n));
    }
  }

  /** The loop body: `map.get(scene).push(index)`, creating the list first if the scene is new. */
  method FileIndex(data: seq<Row>, index: nat, m: OMap<string, seq<nat>>) returns (next: OMap<string, seq<nat>>)
    requires index < |data|
    ensures next == FileRow(data, index, m)
  {
    next := m;
    var row := data[index];
    if Indexed(row) {
      var scene := row.szene;
      if scene !in next.values {
        next := Put(next, scene, []);
      }
      next := Put(next, scene, next.values[scene] + [index]);
    }
  }

  /** What the loop body does with row `index`. */
  function FileRow(data: seq<Row>, index: nat, m: OMap<string, seq<nat>>): OMap<string, seq<nat>>
    requires index < |data|
  {
    var row := data[index];
    if !Indexed(row) then m
    else
      var m1 := if row.szene !in m.values then Put(m, row.szene, []) else m;
      Put(m1, row.szene, m1.values[row.szene] + [index])
  }

  lemma IndexStart(data: seq<Row>)
    ensures IndexInv(data, 0, Empty())
  {
  }

  lemma IndexStep(data: seq<Row>, index: nat, m: OMap<string, seq<nat>>, next: OMap<string, seq<nat>>)
    requires index < |data| && IndexInv(data, index, m) && next == FileRow(data, index, m)
    ensures IndexInv(data, index + 1, next)
  {
    if Indexed(data[index]) {
      FileKeys(data, index, m);
      forall k | k in next.values ensures next.values[k] == IndicesOf(data, k, index + 1) {
        FileValue(data, index, m, k);
      }
    } else {
      SkipRow(data, index, m);
    }
  }

  lemma FileKeys(data: seq<Row>, index: nat, m: OMap<string, seq<nat>>)
    requires index < |data| && Indexed(data[index]) && Valid(m) && m.keys == SceneOrder(data, index)
    ensures FileRow(data, index, m).keys == SceneOrder(data, index + 1)
  {
  }

  lemma FileValue(data: seq<Row>, index: nat, m: OMap<string, seq<nat>>, k: string)
    requires index < |data| && Indexed(data[index]) && IndexInv(data, index, m)
    requires k in FileRow(data, index, m).values
    ensures FileRow(data, index, m).values[k] == IndicesOf(data, k, index + 1)
  {
    var sc := data[index].szene;
    if k != sc {
      var m1 := if sc !in m.values then Put(m, sc, []) else m;
      assert k in m1.values;
      assert k in m.values;
    } else if sc !in m.values {
      assert sc !in SceneOrder(data, index);
      SceneOrderMembers(data, index, sc);
      IndicesOfNone(data, sc, index);
    }
  }

  lemma SkipRow(data: seq<Row>, index: nat, m: OMap<string, seq<nat>>)
    requires index < |data| && !Indexed(data[index]) && IndexInv(data, index, m)
    ensures IndexInv(data, index + 1, m)
  {
    assert SceneOrder(data, index + 1) == SceneOrder(data, index);
    forall k | k in m.values ensures IndicesOf(data, k, index + 1) == IndicesOf(data, k, index) {
      SceneOrderMembers(data, index, k);
    }
  }

  /** A numbered scene with no rows below `n` has an empty list there. */
  lemma {:induction false} IndicesOfNone(data: seq<Row>, sc: string, n: nat)
    requires n <= |data| && forall i | 0 <= i < n :: data[i].szene != sc
    ensures IndicesOf(data, sc, n) == []
  {
    if n > 0 {
      IndicesOfNone(data, sc, n - 1);
    }
  }

  /** Each filed index is in its own scene's list and in no other. */
  lemma SceneIndexMapExact(data: seq<Row>, m: OMap<string, seq<nat>>, i: nat, sc: string)
    requires IndexInv(data, |data|, m) && i < |data|
    ensures (sc in m.values && i in m.values[sc]) <==> Indexed(data[i]) && data[i].szene == sc
  {
    SceneOrderMembers(data, |data|, sc);
    if Indexed(data[i]) && data[i].szene == sc {
      IndicesOfComplete(data, sc, |data|, i);
    }
  }

  // ---------------------------------------------------------------- collectScenes

  /** `collectScenes(data)`: the distinct scenes sorted by `parseInt(s) || 0`. */
  function CollectScenes(data: seq<Row>): (r: seq<string>)
    ensures Distinct(r) && SortedByKey(r, ParseIntOrZero)
  {
    var d := Dedup(FiledScenes(data, |data|));
    DistinctPermutation(d, SortByKey(d, ParseIntOrZero));
    SortByKey(d, ParseIntOrZero)
  }

  /** A scene is listed exactly when a row with that scene, neither empty nor `'0'`, exists. */
  lemma CollectScenesMembers(data: seq<Row>, sc: string)
    ensures sc in CollectScenes(data) <==> exists i | 0 <= i < |data| :: data[i].szene == sc && Indexed(data[i])
  {
    var fs := FiledScenes(data, |data|);
    var d := Dedup(fs);
    var r := SortByKey(d, ParseIntOrZero);
    assert sc in r <==> sc in multiset(r);
    assert sc in d <==> sc in multiset(d);
    assert sc in d <==> sc in fs;
    FiledScenesMembers(data, |data|, sc);
  }

  /** Scenes with the same number keep the order in which they first appear. */
  lemma CollectScenesTies(data: seq<Row>, k: int)
    ensures Filter(CollectScenes(data), KeyIs(ParseIntOrZero, k))
         == Filter(Dedup(FiledScenes(data, |data|)), KeyIs(ParseIntOrZero, k))
  {
    SortByKeyStable(Dedup(FiledScenes(data, |data|)), ParseIntOrZero, k);
  }
}
