/**
 * The rehearsal suggester (js/suggestor.js): from the script's cast and the set of actors marked
 * present, it lists every numbered scene with the share of its cast that is present, marks the
 * scenes nobody is missing from as playable, and orders the scenes by that share, highest first.
 */
module Suggestor {
  import opened Common
  import opened Script
  import opened JsText
  import opened Sorting
  import Api

  // ---------------------------------------------------------------- names read from the rows

  /** The trimmed `Charakter` of the rows below `n` that satisfy `p`, as a `Set` filled in row order. */
  function NamesUpTo(data: seq<Row>, n: nat, p: Row -> bool): set<string>
    requires n <= |data|
  {
    if n == 0 then {}
    else NamesUpTo(data, n - 1, p) + (if p(data[n - 1]) then {Trim(data[n - 1].charakter)} else {})
  }

  /** A name is collected exactly when some row below `n` satisfies `p` and trims to it. */
  lemma {:induction false} NamesUpToMembers(data: seq<Row>, n: nat, p: Row -> bool, x: string)
    requires n <= |data|
    ensures x in NamesUpTo(data, n, p) <==> exists k | 0 <= k < n :: p(data[k]) && Trim(data[k].charakter) == x
  {
    if n > 0 {
      var before := NamesUpTo(data, n - 1, p);
      NamesUpToMembers(data, n - 1, p, x);
      if x in NamesUpTo(data, n, p) {
        if x in before {
          var k :| 0 <= k < n - 1 && p(data[k]) && Trim(data[k].charakter) == x;
          assert 0 <= k < n;
        } else {
          assert p(data[n - 1]) && Trim(data[n - 1].charakter) == x;
        }
      }
      if exists k | 0 <= k < n :: p(data[k]) && Trim(data[k].charakter) == x {
        var k :| 0 <= k < n && p(data[k]) && Trim(data[k].charakter) == x;
        if k < n - 1 {
          assert x in before;
        }
      }
    }
  }

  /** `row.Charakter && row.Szene && row.Szene > 0`: a row whose character `init` collects. */
  predicate CastRow(r: Row) {
    r.charakter != "" && r.szene != "" && GreaterThanZero(r.szene)
  }

  /** `row.Szene === scene && row.Charakter`. */
  function InScene(scene: string): Row -> bool {
    (r: Row) => r.szene == scene && r.charakter != ""
  }

  /** The actors `init` collects from the script. */
  function Cast(data: seq<Row>): set<string> {
    NamesUpTo(data, |data|, CastRow)
  }

  /** The trimmed characters of a scene. */
  function SceneCast(data: seq<Row>, scene: string): set<string> {
    NamesUpTo(data, |data|, InScene(scene))
  }

  // ---------------------------------------------------------------- percentages and cards

  /**
   * `Math.round(present / total * 100)` on exact rationals: the nearest integer, halves rounded up.
   */
  function RoundPercent(present: nat, total: nat): (p: int)
    requires 0 < total && present <= total
    ensures 0 <= p <= 100
    ensures p == 100 <==> 200 * present >= 199 * total
    ensures p == 0 <==> 200 * present < total
  {
    var p := (200 * present + total) / (2 * total);
    PercentBounds(present, total, p);
    p
  }

  /** The quotient's defining inequalities give its bounds and its two boundary cases. */
  lemma PercentBounds(present: nat, total: nat, p: int)
    requires 0 < total && present <= total && p == (200 * present + total) / (2 * total)
    ensures 0 <= p <= 100
    ensures p == 100 <==> 200 * present >= 199 * total
    ensures p == 0 <==> 200 * present < total
  {
    var d, n := 2 * total, 200 * present + total;
    QuotientAtLeast(n, d, 0);
    QuotientAtLeast(n, d, 1);
    QuotientAtLeast(n, d, 100);
    QuotientAtLeast(n, d, 101);
  }

  /** `n / d` is at least `k` exactly when `n` is at least `k * d`. */
  lemma QuotientAtLeast(n: int, d: int, k: int)
    requires d > 0
    ensures n / d >= k <==> n >= k * d
  {
    var q, r := n / d, n % d;
    assert n == q * d + r && 0 <= r < d;
    if q >= k {
      MulMonotone(k, q, d);
    } else {
      MulMonotone(q + 1, k, d);
      assert (q + 1) * d == q * d + d;
    }
  }

  lemma MulMonotone(a: int, b: int, d: int)
    requires a <= b && d > 0
    ensures a * d <= b * d
  {
    assert b * d - a * d == (b - a) * d;
  }

  /** What `updateSuggestions` builds for one scene. */
  datatype Card = Card(scene: string, sceneActors: set<string>, percentage: int, isPlayable: bool, missingActors: set<string>)

  /** The comparator `(a, b) => b.percentage - a.percentage` as a key: higher shares sort first. */
  function DescendingShare(c: Card): int {
    -c.percentage
  }

  /** `scene && scene > 0`. */
  predicate Considered(scene: string) {
    scene != "" && GreaterThanZero(scene)
  }

  // ---------------------------------------------------------------- the toggle

  /** `presentActors.size === actors.size`, the test both the toggle and its label use. */
  predicate AllSelected(present: set<string>, actors: set<string>) {
    |present| == |actors|
  }

  /** The present set after `toggleAllActors`: cleared when the sizes match, else joined with the cast. */
  function Toggled(present: set<string>, actors: set<string>): (r: set<string>)
    ensures AllSelected(present, actors) ==> r == {}
    ensures !AllSelected(present, actors) ==> actors <= r && present <= r && r <= present + actors
  {
    if AllSelected(present, actors) then {} else present + actors
  }

  /**
   * A name kept from an earlier session that is not in the cast makes the sizes differ although
   * every actor is present, so the toggle "selects all" again and never clears the selection.
   */
  lemma ToggleNeverClearsStaleSelection()
    ensures var present, actors := {"HANS", "ALT"}, {"HANS"};
      actors <= present && Toggled(present, actors) == present && Toggled(Toggled(present, actors), actors) == present
  {
    assert |{"HANS", "ALT"}| == 2;
  }

  /** The toggle as intended: clear when every actor is present, otherwise mark every actor present. */
  function ToggledCovering(present: set<string>, actors: set<string>): (r: set<string>)
    ensures actors <= present ==> r == {}
    ensures !(actors <= present) ==> actors <= r && r == present + actors
  {
    if actors <= present then {} else present + actors
  }

  /** With a non-empty cast, the intended toggle always flips whether every actor is present. */
  lemma ToggledCoveringFlips(present: set<string>, actors: set<string>)
    requires actors != {}
    ensures (actors <= ToggledCovering(present, actors)) <==> !(actors <= present)
  {
    if actors <= present {
      var a :| a in actors;
      assert a !in ToggledCovering(present, actors);
    }
  }

  // ---------------------------------------------------------------- the page object

  class RoleSuggestor {
    var scriptData: seq<Row>
    var actors: set<string>
    var presentActors: set<string>
    var characterMap: map<string, string>

    constructor()
      ensures scriptData == [] && actors == {} && presentActors == {} && characterMap == map[]
    {
      scriptData := [];
      actors := {};
      presentActors := {};
      characterMap := map[];
    }

    /**
     * The data part of `init()`: `data` is the loaded script and `saved` the stored present actors
     * (`None` when nothing is stored or it does not parse). Every collected actor is marked present,
     * and a stored list then replaces the present set.
     */
    method Init(data: seq<Row>, saved: Option<seq<string>>)
      modifies this
      ensures scriptData == data && characterMap == old(characterMap)
      ensures actors == old(actors) + Cast(data)
      ensures presentActors == if saved.Some? then set x | x in saved.value else old(presentActors) + actors
    {
      scriptData := data;
      CollectActors();
      AddAllActors();
      if saved.Some? {
        presentActors := set x | x in saved.value;
      }
    }

    /** The `forEach` of `init` that adds the trimmed character of every cast row to `actors`. */
    method CollectActors()
      modifies this
      ensures actors == old(actors) + Cast(scriptData)
      ensures scriptData == old(scriptData) && presentActors == old(presentActors) && characterMap == old(characterMap)
    {
      var data, names, i := scriptData, actors, 0;
      while i < |data|
        invariant i <= |data|
        invariant names == old(actors) + NamesUpTo(data, i, CastRow)
      {
        var row := data[i];
        if CastRow(row) {
          names := names + {Trim(row.charakter)};
        }
        i := i + 1;
      }
      actors := names;
    }

    /** `this.actors.forEach((actor) => this.presentActors.add(actor))`. */
    method AddAllActors()
      modifies this
      ensures presentActors == old(presentActors) + actors
      ensures scriptData == old(scriptData) && actors == old(actors) && characterMap == old(characterMap)
    {
      var rest := actors;
      while rest != {}
        invariant rest <= actors
        invariant presentActors == old(presentActors) + (actors - rest)
        invariant scriptData == old(scriptData) && actors == old(actors) && characterMap == old(characterMap)
        decreases rest
      {
        var a :| a in rest;
        presentActors := presentActors + {a};
        rest := rest - {a};
      }
    }

    /**
     * `loadCharacterMap()`, with the parsed `charaktere.csv` rows as `rows` (`None` when the file is
     * missing): each row with both columns maps the upper-cased role to the trimmed actor name.
     */
    method LoadCharacterMap(rows: Option<seq<(string, string)>>)
      modifies this
      ensures scriptData == old(scriptData) && actors == old(actors) && presentActors == old(presentActors)
      ensures characterMap == if rows.Some? then MapRows(old(characterMap), rows.value) else old(characterMap)
      ensures rows.Some? ==> forall k :: k in characterMap <==>
        k in old(characterMap) || exists i | 0 <= i < |rows.value| :: MapsRole(rows.value[i], k)
    {
      if rows.None? {
        return;
      }
      var i := 0;
      while i < |rows.value|
        invariant i <= |rows.value|
        invariant scriptData == old(scriptData) && actors == old(actors) && presentActors == old(presentActors)
        invariant characterMap == MapRows(old(characterMap), rows.value[..i])
      {
        var (role, actor) := rows.value[i];
        if role != "" && actor != "" {
          characterMap := characterMap[ToUpper(Trim(role)) := Trim(actor)];
        }
        assert rows.value[..i + 1][..i] == rows.value[..i];
        i := i + 1;
      }
      assert rows.value[..i] == rows.value;
      forall k ensures k in characterMap <==>
        k in old(characterMap) || exists j | 0 <= j < |rows.value| :: MapsRole(rows.value[j], k)
      {
        MapRowsSpec(old(characterMap), rows.value, k);
      }
    }

    /** `getActorName(character)`: ` (actor)` when the character map names an actor, else nothing. */
    function GetActorName(character: string): (r: string)
      reads this
      ensures r == "" <==> character !in characterMap || characterMap[character] == ""
      ensures r != "" ==> r == " (" + characterMap[character] + ")"
    {
      if character in characterMap && characterMap[character] != "" then " (" + characterMap[character] + ")" else ""
    }

    /** `toggleAllActors()`: the present set before the display is refreshed. */
    method ToggleAllActors()
      modifies this
      ensures presentActors == Toggled(old(presentActors), actors)
      ensures scriptData == old(scriptData) && actors == old(actors) && characterMap == old(characterMap)
    {
      var allSelected := |presentActors| == |actors|;
      if allSelected {
        presentActors := {};
      } else {
        AddAllActors();
      }
    }

    /** The toggle with "all selected" read as "every actor is present". */
    method ToggleAllActorsCovering()
      modifies this
      ensures presentActors == ToggledCovering(old(presentActors), actors)
      ensures scriptData == old(scriptData) && actors == old(actors) && characterMap == old(characterMap)
    {
      if actors <= presentActors {
        presentActors := {};
      } else {
        AddAllActors();
      }
    }

    /** The checkbox handler: a ticked box adds its actor, an unticked one removes it. */
    method OnCheckboxChange(actor: string, checked: bool)
      modifies this
      ensures presentActors == if checked then old(presentActors) + {actor} else old(presentActors) - {actor}
      ensures scriptData == old(scriptData) && actors == old(actors) && characterMap == old(characterMap)
    {
      if checked {
        presentActors := presentActors + {actor};
      } else {
        presentActors := presentActors - {actor};
      }
    }

    /** `getSceneActors(scene)`: the trimmed characters of the rows of `scene`. */
    method GetSceneActors(scene: string) returns (sceneActors: set<string>)
      ensures sceneActors == SceneCast(scriptData, scene)
    {
      sceneActors := {};
      var i := 0;
      while i < |scriptData|
        invariant i <= |scriptData|
        invariant sceneActors == NamesUpTo(scriptData, i, InScene(scene))
      {
        var row := scriptData[i];
        if row.szene == scene && row.charakter != "" {
          sceneActors := sceneActors + {Trim(row.charakter)};
        }
        i := i + 1;
      }
    }

    /**
     * `calculateScenePercentage(sceneActors)`: 100 for a scene without actors, else the rounded share
     * of its actors that are present; 100 when all are present, 0 when none is.
     */
    function CalculateScenePercentage(sceneActors: set<string>): (p: int)
      reads this
      ensures 0 <= p <= 100
      ensures sceneActors == {} ==> p == 100
      ensures sceneActors <= presentActors ==> p == 100
      ensures sceneActors != {} && sceneActors * presentActors == {} ==> p == 0
    {
      if sceneActors == {} then 100
      else
        var present := sceneActors * presentActors;
        assert |present| <= |sceneActors| by { SubsetCard(present, sceneActors); }
        assert sceneActors <= presentActors ==> present == sceneActors;
        RoundPercent(|present|, |sceneActors|)
    }

    /** The card of one scene, as `updateSuggestions` maps it. */
    function CardOf(scene: string): (c: Card)
      reads this
      ensures c.scene == scene && c.sceneActors == SceneCast(scriptData, scene)
      ensures c.missingActors == c.sceneActors - presentActors
      ensures c.isPlayable <==> c.sceneActors <= presentActors
      ensures c.isPlayable ==> c.percentage == 100
    {
      var sceneActors := SceneCast(scriptData, scene);
      var missing := sceneActors - presentActors;
      NoneMissing(sceneActors, presentActors);
      Card(scene, sceneActors, CalculateScenePercentage(sceneActors), missing == {}, missing)
    }

    /** The scenes `updateSuggestions` shows: those of `collectScenes` that are greater than 0. */
    function ShownScenes(): seq<string>
      reads this
    {
      Filter(Api.CollectScenes(scriptData), Considered)
    }

    /**
     * The data part of `updateSuggestions()`: the cards sorted by share, highest first (ties keep
     * scene order), the number of playable scenes, and the number of scenes `collectScenes` found.
     */
    method UpdateSuggestions() returns (cards: seq<Card>, playableScenes: nat, totalScenes: nat)
      ensures multiset(cards) == multiset(Cards(this, ShownScenes()))
      ensures cards == SortByKey(Cards(this, ShownScenes()), DescendingShare)
      ensures forall i, j | 0 <= i < j < |cards| :: cards[i].percentage >= cards[j].percentage
      ensures playableScenes == Count(cards, IsPlayable)
      ensures totalScenes == |Api.CollectScenes(scriptData)|
    {
      var scenes := Api.CollectScenes(scriptData);
      var shown := Filter(scenes, Considered);
      var built;
      built, playableScenes := BuildCards(shown);
      cards := SortByKey(built, DescendingShare);
      CountPermutation(built, cards, IsPlayable);
      totalScenes := |scenes|;
    }

    /** The `map` over the shown scenes, counting the playable ones as it goes. */
    method BuildCards(shown: seq<string>) returns (built: seq<Card>, playableScenes: nat)
      ensures built == Cards(this, shown)
      ensures playableScenes == Count(built, IsPlayable)
    {
      built := [];
      playableScenes := 0;
      var k := 0;
      while k < |shown|
        invariant k <= |shown|
        invariant built == Cards(this, shown[..k])
        invariant playableScenes == Count(built, IsPlayable)
      {
        var scene := shown[k];
        var sceneActors := GetSceneActors(scene);
        var percentage := CalculateScenePercentage(sceneActors);
        var missingActors := sceneActors - presentActors;
        var isPlayable := missingActors == {};
        if isPlayable {
          playableScenes := playableScenes + 1;
        }
        var card := Card(scene, sceneActors, percentage, isPlayable, missingActors);
        assert card == CardOf(scene);
        CardsSnoc(this, shown, k);
        assert (built + [card])[..|built|] == built;
        built := built + [card];
        k := k + 1;
      }
      assert shown[..k] == shown;
    }
  }

  /** The card of each scene, in order. */
  function Cards(s: RoleSuggestor, scenes: seq<string>): (cs: seq<Card>)
    reads s
    ensures |cs| == |scenes| && forall i | 0 <= i < |scenes| :: cs[i] == s.CardOf(scenes[i])
  {
    if scenes == [] then [] else Cards(s, scenes[..|scenes| - 1]) + [s.CardOf(scenes[|scenes| - 1])]
  }

  lemma CardsSnoc(s: RoleSuggestor, scenes: seq<string>, k: nat)
    requires k < |scenes|
    ensures Cards(s, scenes[..k + 1]) == Cards(s, scenes[..k]) + [s.CardOf(scenes[k])]
  {
    assert scenes[..k + 1][..k] == scenes[..k];
  }

  predicate IsPlayable(c: Card) {
    c.isPlayable
  }

  /** Nobody is missing exactly when everybody is present. */
  lemma NoneMissing<T>(a: set<T>, b: set<T>)
    ensures a - b == {} <==> a <= b
  {
    if a - b == {} {
      forall x | x in a ensures x in b {
        assert x !in a - b;
      }
    }
  }

  /** A subset is no larger than its superset. */
  lemma {:induction false} SubsetCard<T>(a: set<T>, b: set<T>)
    requires a <= b
    ensures |a| <= |b|
  {
    if a != {} {
      var x :| x in a;
      SubsetCard(a - {x}, b - {x});
    }
  }

  /** Reordering keeps the number of elements that satisfy `p`. */
  lemma {:induction false} CountPermutation<T>(a: seq<T>, b: seq<T>, p: T -> bool)
    requires multiset(a) == multiset(b)
    ensures Count(a, p) == Count(b, p)
  {
    if a != [] {
      var x := a[|a| - 1];
      assert x in multiset(b);
      var j :| 0 <= j < |b| && b[j] == x;
      var a', b' := a[..|a| - 1], b[..j] + b[j + 1..];
      assert a == a' + [x];
      assert b == b[..j] + [x] + b[j + 1..];
      assert multiset(a) == multiset(a') + multiset{x};
      assert multiset(b) == multiset(b[..j]) + multiset{x} + multiset(b[j + 1..]);
      assert multiset(b') == multiset(b[..j]) + multiset(b[j + 1..]);
      assert multiset(a') == multiset(a) - multiset{x};
      assert multiset(b') == multiset(b) - multiset{x};
      CountPermutation(a', b', p);
      CountRemove(b, j, p);
    }
  }

  /** Taking out the element at `j` lowers the count by one exactly when that element satisfies `p`. */
  lemma {:induction false} CountRemove<T>(b: seq<T>, j: nat, p: T -> bool)
    requires j < |b|
    ensures Count(b, p) == Count(b[..j] + b[j + 1..], p) + (if p(b[j]) then 1 else 0)
  {
    if j < |b| - 1 {
      var b' := b[..|b| - 1];
      CountRemove(b', j, p);
      assert b'[..j] + b'[j + 1..] == (b[..j] + b[j + 1..])[..|b| - 2];
      assert b[..j] + b[j + 1..] == (b[..j] + b[j + 1..])[..|b| - 2] + [b[|b| - 1]];
    } else {
      assert b[..j] + b[j + 1..] == b[..|b| - 1];
    }
  }

  /** `charaktere.csv` rows applied in order; a later row for the same role wins. */
  function MapRows(m: map<string, string>, rows: seq<(string, string)>): (r: map<string, string>)
    ensures forall k | k in m :: k in r
  {
    if rows == [] then m
    else
      var prev := MapRows(m, rows[..|rows| - 1]);
      var (role, actor) := rows[|rows| - 1];
      if role != "" && actor != "" then prev[ToUpper(Trim(role)) := Trim(actor)] else prev
  }

  /** A `charaktere.csv` row with both columns that maps role key `k`. */
  predicate MapsRole(row: (string, string), k: string) {
    row.0 != "" && row.1 != "" && ToUpper(Trim(row.0)) == k
  }

  /**
   * After the rows, a role key is mapped exactly when it was before or some row with both columns
   * names it; its actor is the trimmed actor of the last such row, or the old one when there is none.
   */
  lemma MapRowsSpec(m: map<string, string>, rows: seq<(string, string)>, k: string)
    ensures k in MapRows(m, rows) <==> k in m || exists i | 0 <= i < |rows| :: MapsRole(rows[i], k)
    ensures k in m && (forall i | 0 <= i < |rows| :: !MapsRole(rows[i], k)) ==> MapRows(m, rows)[k] == m[k]
    ensures forall i | 0 <= i < |rows| && MapsRole(rows[i], k) && (forall j | i < j < |rows| :: !MapsRole(rows[j], k)) ::
      MapRows(m, rows)[k] == Trim(rows[i].1)
  {
    MapRowsUnnamed(m, rows, k);
    forall i | 0 <= i < |rows| && MapsRole(rows[i], k) && (forall j | i < j < |rows| :: !MapsRole(rows[j], k))
      ensures MapRows(m, rows)[k] == Trim(rows[i].1)
    {
      MapRowsLast(m, rows, k, i);
    }
  }

  /** A key that no row names is mapped as before. */
  lemma {:induction false} MapRowsUnnamed(m: map<string, string>, rows: seq<(string, string)>, k: string)
    ensures k in MapRows(m, rows) <==> k in m || exists i | 0 <= i < |rows| :: MapsRole(rows[i], k)
    ensures (forall i | 0 <= i < |rows| :: !MapsRole(rows[i], k)) ==> k in m ==> MapRows(m, rows)[k] == m[k]
  {
    if rows != [] {
      var init, last := rows[..|rows| - 1], rows[|rows| - 1];
      MapRowsUnnamed(m, init, k);
      MapRowsSnoc(m, rows, k);
      if !MapsRole(last, k) && exists i | 0 <= i < |rows| :: MapsRole(rows[i], k) {
        var i :| 0 <= i < |rows| && MapsRole(rows[i], k);
        assert init[i] == rows[i];
      }
      if exists i | 0 <= i < |init| :: MapsRole(init[i], k) {
        var i :| 0 <= i < |init| && MapsRole(init[i], k);
        assert rows[i] == init[i];
      }
    }
  }

  /** The last row naming a key decides its actor. */
  lemma {:induction false} MapRowsLast(m: map<string, string>, rows: seq<(string, string)>, k: string, i: nat)
    requires i < |rows| && MapsRole(rows[i], k)
    requires forall j | i < j < |rows| :: !MapsRole(rows[j], k)
    ensures k in MapRows(m, rows) && MapRows(m, rows)[k] == Trim(rows[i].1)
  {
    var init := rows[..|rows| - 1];
    MapRowsSnoc(m, rows, k);
    if i < |rows| - 1 {
      assert !MapsRole(rows[|rows| - 1], k);
      assert init[i] == rows[i];
      assert forall j | i < j < |init| :: init[j] == rows[j];
      MapRowsLast(m, init, k, i);
    }
  }

  /** One more row: it sets key `k` exactly when it names it, and leaves `k` alone otherwise. */
  lemma MapRowsSnoc(m: map<string, string>, rows: seq<(string, string)>, k: string)
    requires rows != []
    ensures var prev, last := MapRows(m, rows[..|rows| - 1]), rows[|rows| - 1];
      if MapsRole(last, k) then k in MapRows(m, rows) && MapRows(m, rows)[k] == Trim(last.1)
      else (k in MapRows(m, rows) <==> k in prev) && (k in prev ==> MapRows(m, rows)[k] == prev[k])
  {
  }
}
