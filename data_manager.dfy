/**
 * The stand-alone client's data manager (js/data-manager.js): the plays configuration with its
 * fallback, the sheet URL chosen for a play, the `[role, actor]` pairs of the cast rows, and the
 * normalisation that drops scene `"0"` and trims the surviving row objects in place.
 */
module DataManagement {
  import opened Common
  import opened Script
  import opened JsText
  import Api

  /** `CONFIG.DEFAULT_SHEET_URL`. */
  const DefaultSheetUrl: string := "https://docs.google.com/spreadsheets/d/1LEhNzES1aLQ_UVA8esjXcGgkK3I5gv3q/export?format=csv&gid=967194980"

  /** An entry of `plays.json`; a missing `sheet` is the empty string. */
  datatype PlayEntry = PlayEntry(name: string, sheet: string)

  /** The configuration used when `plays.json` gives none. */
  const DefaultPlays: map<string, PlayEntry> := map["default" := PlayEntry("Standardstück", DefaultSheetUrl)]

  /** `obj[key] && obj[key].sheet`: the entry's sheet when it has a non-empty one. */
  function SheetOf(config: map<string, PlayEntry>, key: string): (r: Option<string>)
    ensures r.Some? <==> key in config && config[key].sheet != ""
    ensures r.Some? ==> r.value == config[key].sheet
  {
    if key in config && config[key].sheet != "" then Some(config[key].sheet) else None
  }

  /**
   * The outcome of `fetch('plays.json')`: no usable response (a thrown error or a non-OK status),
   * or the parsed body, `None` standing for `null` or another falsy value.
   */
  datatype Fetched = NotLoaded | Loaded(body: Option<map<string, PlayEntry>>)

  /** A mutable script row object as parsed from the sheet; `text` is `Text/Anweisung`. */
  class RowObject {
    var szene: string
    var kategorie: string
    var charakter: string
    var mikrofon: string
    var text: string
    var isAutoMic: bool

    function Value(): Row
      reads this
    {
      Row(szene, kategorie, charakter, mikrofon, text, isAutoMic)
    }

    constructor(r: Row)
      ensures Value() == r
    {
      szene, kategorie, charakter, mikrofon, text, isAutoMic := r.szene, r.kategorie, r.charakter, r.mikrofon, r.text, r.isAutoMic;
    }
  }

  /** The values of the row objects, in order. */
  function ValuesOf(data: seq<RowObject>): (vs: seq<Row>)
    reads set r | r in data
    ensures |vs| == |data| && forall i | 0 <= i < |data| :: vs[i] == data[i].Value()
  {
    if data == [] then [] else ValuesOf(data[..|data| - 1]) + [data[|data| - 1].Value()]
  }

  /** The objects whose (recorded) `Szene` is not exactly `"0"`, in order. */
  function Kept(data: seq<RowObject>, values: seq<Row>): (kept: seq<RowObject>)
    requires |values| == |data|
    ensures forall r | r in kept :: r in data
    ensures forall i | 0 <= i < |data| :: values[i].szene != "0" ==> data[i] in kept
  {
    if data == [] then []
    else
      var n := |data| - 1;
      Kept(data[..n], values[..n]) + (if values[n].szene != "0" then [data[n]] else [])
  }

  /** One more row of the filter: it is appended exactly when its `Szene` is not `"0"`. */
  lemma KeptStep(data: seq<RowObject>, values: seq<Row>, k: nat)
    requires |values| == |data| && k < |data|
    ensures Kept(data[..k + 1], values[..k + 1])
      == Kept(data[..k], values[..k]) + if values[k].szene != "0" then [data[k]] else []
  {
    assert data[..k + 1][..k] == data[..k] && values[..k + 1][..k] == values[..k];
  }

  /** Every kept object stands at a position whose `Szene` is not exactly `"0"`: a `"0"` row is dropped. */
  lemma {:induction false} KeptOnlyNonZero(data: seq<RowObject>, values: seq<Row>)
    requires |values| == |data|
    ensures forall r | r in Kept(data, values) :: exists i | 0 <= i < |data| :: data[i] == r && values[i].szene != "0"
  {
    if data != [] {
      var n := |data| - 1;
      KeptOnlyNonZero(data[..n], values[..n]);
      forall r | r in Kept(data, values) ensures exists i | 0 <= i < |data| :: data[i] == r && values[i].szene != "0" {
        if r in Kept(data[..n], values[..n]) {
          var i :| 0 <= i < n && data[..n][i] == r && values[..n][i].szene != "0";
          assert data[i] == r && values[i].szene != "0";
        } else {
          assert data[n] == r && values[n].szene != "0";
        }
      }
    }
  }

  /** The filter keeps order: the kept objects of two stretches of rows are those of each, one after the other. */
  lemma {:induction false} KeptAppend(a: seq<RowObject>, va: seq<Row>, b: seq<RowObject>, vb: seq<Row>)
    requires |va| == |a| && |vb| == |b|
    ensures Kept(a + b, va + vb) == Kept(a, va) + Kept(b, vb)
  {
    if b != [] {
      var n := |b| - 1;
      assert (a + b)[..|a + b| - 1] == a + b[..n];
      assert (va + vb)[..|va + vb| - 1] == va + vb[..n];
      KeptAppend(a, va, b[..n], vb[..n]);
    } else {
      assert a + b == a && va + vb == va;
    }
  }

  /** A single object is kept exactly when its `Szene` is not `"0"`. */
  lemma KeptOne(r: RowObject, v: Row)
    ensures Kept([r], [v]) == if v.szene != "0" then [r] else []
  {
    assert [r][..0] == [] && [v][..0] == [];
  }

  class DataManager {
    var playsConfig: Option<map<string, PlayEntry>>

    constructor()
      ensures playsConfig.None?
    {
      playsConfig := None;
    }

    /**
     * `loadPlaysConfig()`, with the outcome of fetching `plays.json` as `fetched`: a parsed body
     * replaces the current configuration, a JSON `null` (or other falsy body) clears it, and a
     * failed request or a non-OK response leaves it alone; without any configuration left, the
     * built-in default play is used.
     */
    method LoadPlaysConfig(fetched: Fetched) returns (config: map<string, PlayEntry>)
      modifies this
      ensures playsConfig == Some(config)
      ensures config == match fetched
        case Loaded(Some(body)) => body
        case Loaded(None) => DefaultPlays
        case NotLoaded => old(playsConfig).GetOr(DefaultPlays)
    {
      if fetched.Loaded? {
        playsConfig := fetched.body;
      }
      if playsConfig.None? {
        playsConfig := Some(DefaultPlays);
      }
      config := playsConfig.value;
    }

    /** `getPlaysConfig()`. */
    function GetPlaysConfig(): (c: Option<map<string, PlayEntry>>)
      reads this
      ensures c == playsConfig
    {
      playsConfig
    }

    /**
     * `getSheetUrl(playId)`: the play's sheet, else the default play's sheet, else the built-in URL,
     * which is also the answer before any configuration is loaded.
     */
    function GetSheetUrl(playId: string): (url: string)
      reads this
      ensures url != ""
      ensures playsConfig.None? ==> url == DefaultSheetUrl
      ensures playsConfig.Some? && SheetOf(playsConfig.value, playId).Some? ==> url == playsConfig.value[playId].sheet
      ensures playsConfig.Some? && SheetOf(playsConfig.value, playId).None? ==>
        url == SheetOf(playsConfig.value, "default").GetOr(DefaultSheetUrl)
    {
      if playsConfig.None? then DefaultSheetUrl
      else
        match SheetOf(playsConfig.value, playId)
        case Some(sheet) => sheet
        case None => SheetOf(playsConfig.value, "default").GetOr(DefaultSheetUrl)
    }

    /** `getActors(data)`: one `[Charakter, Text/Anweisung]` pair per role row, in order, duplicates kept. */
    static function GetActors(data: seq<Row>): (pairs: seq<(string, string)>)
      ensures |pairs| == Count(data, IsRoleRow)
      ensures forall k | 0 <= k < |pairs| :: pairs[k].0 != "" && pairs[k].1 != ""
    {
      var roles := Filter(data, IsRoleRow);
      seq(|roles|, i requires 0 <= i < |roles| => (roles[i].charakter, roles[i].text))
    }

    /**
     * `normalizeData(data)`: the row objects whose `Szene` was not exactly `"0"` (before trimming),
     * in order; each of them is rewritten in place, every other object is left as it was.
     */
    method NormalizeData(data: seq<RowObject>) returns (normalized: seq<RowObject>)
      modifies set r | r in data
      ensures normalized == Kept(data, old(ValuesOf(data)))
      ensures forall r | r in normalized :: r in data && old(r.Value()).szene != "0"
      ensures forall r | r in data && old(r.Value()).szene != "0" :: r in normalized
      ensures forall r | r in data :: r.Value() == if r in normalized then Api.NormalFields(old(r.Value())) else old(r.Value())
    {
      ghost var values := ValuesOf(data);
      normalized := KeepScenes(data, values);
      KeptOnlyNonZero(data, values);
      RewriteRows(normalized, data);
    }

    /** The `forEach` over the kept rows: each of `rows`, all of them in `data`, is rewritten once. */
    method RewriteRows(rows: seq<RowObject>, ghost data: seq<RowObject>)
      requires forall r | r in rows :: r in data
      modifies set r | r in rows
      ensures forall r | r in data :: r.Value() == if r in rows then Api.NormalFields(old(r.Value())) else old(r.Value())
    {
      ghost var before := map r | r in data :: r.Value();
      var i := 0;
      while i < |rows|
        invariant i <= |rows|
        invariant forall r | r in data :: r.Value() == Expected(before, rows[..i], r)
      {
        var row := rows[i];
        assert rows[..i + 1] == rows[..i] + [row];
        NormalizeRow(row, before[row]);
        i := i + 1;
      }
      assert rows[..i] == rows;
    }

    /** `data.filter((row) => row.Szene !== '0')`, with the rows' current values as `values`. */
    method KeepScenes(data: seq<RowObject>, ghost values: seq<Row>) returns (kept: seq<RowObject>)
      requires |values| == |data| && forall i | 0 <= i < |data| :: values[i].szene == data[i].szene
      ensures kept == Kept(data, values)
    {
      kept := [];
      var k := 0;
      while k < |data|
        invariant k <= |data|
        invariant kept == Kept(data[..k], values[..k])
      {
        KeptStep(data, values, k);
        if data[k].szene != "0" {
          kept := kept + [data[k]];
        }
        k := k + 1;
      }
      assert data[..k] == data && values[..k] == values;
    }

    /**
     * The body of the `forEach`: trims every field of one row and upper-cases its `Charakter`.
     * The row holds its original value `orig` or, when it was listed twice, that value rewritten
     * already; either way it ends up as the rewritten original.
     */
    method NormalizeRow(row: RowObject, ghost orig: Row)
      requires row.Value() == orig || row.Value() == Api.NormalFields(orig)
      modifies row
      ensures row.Value() == Api.NormalFields(orig)
    {
      ghost var current := row.Value();
      var charakter, szene, text := ToUpper(Trim(row.charakter)), Trim(row.szene), Trim(row.text);
      var mikrofon, kategorie := Trim(row.mikrofon), Trim(row.kategorie);
      row.charakter, row.szene, row.text, row.mikrofon, row.kategorie := charakter, szene, text, mikrofon, kategorie;
      assert row.Value() == Api.NormalFields(current);
      RewriteAgain(current, orig);
    }
  }

  /** The value of `r` once the objects in `done` are rewritten, from the values `before`. */
  ghost function Expected(before: map<RowObject, Row>, done: seq<RowObject>, r: RowObject): Row
    requires r in before
  {
    if r in done then Api.NormalFields(before[r]) else before[r]
  }

  /** Rewriting a row that is either original or rewritten already gives the rewritten original. */
  lemma RewriteAgain(current: Row, orig: Row)
    requires current == orig || current == Api.NormalFields(orig)
    ensures Api.NormalFields(current) == Api.NormalFields(orig)
  {
    Api.NormalFieldsIdempotent(orig);
  }

  /** The pairs are exactly those of the role rows. */
  lemma GetActorsMembers(data: seq<Row>, role: string, actor: string)
    ensures (role, actor) in DataManager.GetActors(data) <==>
      exists i | 0 <= i < |data| :: IsRoleRow(data[i]) && data[i].charakter == role && data[i].text == actor
  {
    var roles := Filter(data, IsRoleRow);
    var pairs := DataManager.GetActors(data);
    FilterMembers(data, IsRoleRow);
    if (role, actor) in pairs {
      var k :| 0 <= k < |pairs| && pairs[k] == (role, actor);
      assert roles[k] in data;
      var i :| 0 <= i < |data| && data[i] == roles[k];
    }
    if exists i | 0 <= i < |data| :: IsRoleRow(data[i]) && data[i].charakter == role && data[i].text == actor {
      var i :| 0 <= i < |data| && IsRoleRow(data[i]) && data[i].charakter == role && data[i].text == actor;
      assert data[i] in roles;
      var k :| 0 <= k < |roles| && roles[k] == data[i];
      assert pairs[k] == (role, actor);
    }
  }

  /** The pairs of two sheets read one after the other are those of the first, then those of the second. */
  lemma GetActorsAppend(a: seq<Row>, b: seq<Row>)
    ensures DataManager.GetActors(a + b) == DataManager.GetActors(a) + DataManager.GetActors(b)
  {
    FilterAppend(a, b, IsRoleRow);
  }

  /** A role listed twice gives two pairs; a role row without an actor gives none. */
  lemma GetActorsExample()
    ensures var hans := Row("", Role, "HANS", "", "Anna", false);
      DataManager.GetActors([hans, hans, Row("", Role, "GRETE", "", "", false)]) == [("HANS", "Anna"), ("HANS", "Anna")]
  {
    var hans := Row("", Role, "HANS", "", "Anna", false);
    var grete := Row("", Role, "GRETE", "", "", false);
    assert [hans, hans, grete][..2] == [hans, hans] && [hans, hans][..1] == [hans] && [hans][..0] == [];
    assert Filter([hans], IsRoleRow) == [hans];
    assert Filter([hans, hans], IsRoleRow) == [hans, hans];
    assert Filter([hans, hans, grete], IsRoleRow) == [hans, hans];
  }

  /** Once the built-in default play is the configuration, every play reads the built-in sheet. */
  lemma DefaultConfigSheetUrl(dm: DataManager, playId: string)
    requires dm.playsConfig == Some(DefaultPlays)
    ensures dm.GetSheetUrl(playId) == DefaultSheetUrl
  {
  }

  /** A play with a sheet of its own reads that sheet; one without falls back to the default play. */
  lemma OwnSheetOrDefault(dm: DataManager, playId: string, sheet: string, fallback: string)
    requires sheet != "" && fallback != ""
    requires dm.playsConfig == Some(map[playId := PlayEntry("", sheet), "default" := PlayEntry("", fallback)])
    ensures dm.GetSheetUrl(playId) == if playId == "default" then fallback else sheet
  {
  }

  /** A row of scene `" 0"` survives the filter, which looks at the untrimmed value; scene `"0"` does not. */
  lemma KeptSceneZeroExample(a: RowObject, b: RowObject)
    ensures Kept([a, b], [Row(" 0", "", "", "", "", false), Row("0", "", "", "", "", false)]) == [a]
  {
    var spaced, zero := Row(" 0", "", "", "", "", false), Row("0", "", "", "", "", false);
    assert [a, b][..1] == [a] && [spaced, zero][..1] == [spaced];
    assert [a][..0] == [] && [spaced][..0] == [];
    assert Kept([a], [spaced]) == [a];
  }

  /** The surviving row is then rewritten to scene `"0"`, so the result can hold scene `"0"` after all. */
  lemma SpacedSceneZeroExample(row: Row)
    requires row.szene == " 0"
    ensures Api.NormalFields(row).szene == "0"
  {
    TrimSpacedZero();
  }

  lemma TrimSpacedZero()
    ensures Trim(" 0") == "0"
  {
    assert " 0"[1..] == "0";
    assert !IsJsSpace('0');
    assert TrimStart("0") == "0";
    assert TrimStart(" 0") == "0";
    assert TrimEnd("0") == "0";
  }

  /** `row.Charakter && row.Kategorie === CATEGORIES.ROLE && row['Text/Anweisung']`. */
  predicate IsRoleRow(r: Row) {
    r.charakter != "" && r.kategorie == Role && r.text != ""
  }
}
