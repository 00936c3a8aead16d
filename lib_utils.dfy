/**
 * The React client's category and visibility rules (lib/utils.ts): the sheet's German category
 * names mapped onto seven filters, the CSS class of a category, whether a row is shown under the
 * current filters and actor selection, and the three-digit line numbers.
 */
module LibUtils {
  import opened Common
  import opened Script
  import opened JsText

  /** `CategoryFilter`. */
  datatype Filter = ActorFilter | InstructionFilter | TechnicalFilter | LightingFilter | AudioFilter | PropsFilter | MicrophoneFilter

  /** The filter's name as the client spells it. */
  function Name(f: Filter): string {
    match f
    case ActorFilter => "actor"
    case InstructionFilter => "instruction"
    case TechnicalFilter => "technical"
    case LightingFilter => "lighting"
    case AudioFilter => "audio"
    case PropsFilter => "props"
    case MicrophoneFilter => "microphone"
  }

  /** `categoryMap`: the nine category names the client knows. */
  const CategoryMap: map<string, Filter> := map[
    "Schauspieler" := ActorFilter,
    "Anweisung" := InstructionFilter,
    "Regieanweisung" := InstructionFilter,
    "Einblendung" := InstructionFilter,
    "Technik" := TechnicalFilter,
    "Licht" := LightingFilter,
    "Ton" := AudioFilter,
    "Requisite" := PropsFilter,
    "Mikrofon" := MicrophoneFilter]

  /** `getCategoryFilter(kategorie)`: the mapped filter, `instruction` for an unknown name. */
  function GetCategoryFilter(kategorie: string): (f: Filter)
    ensures f == ActorFilter <==> kategorie == "Schauspieler"
    ensures f == TechnicalFilter <==> kategorie == "Technik"
    ensures f == LightingFilter <==> kategorie == "Licht"
    ensures f == AudioFilter <==> kategorie == "Ton"
    ensures f == PropsFilter <==> kategorie == "Requisite"
    ensures f == MicrophoneFilter <==> kategorie == "Mikrofon"
    ensures f == InstructionFilter <==> kategorie in {"Anweisung", "Regieanweisung", "Einblendung"} || kategorie !in CategoryMap
  {
    if kategorie in CategoryMap then CategoryMap[kategorie] else InstructionFilter
  }

  /** `getCategoryClass(kategorie)`: `category-` followed by the filter's name. */
  function GetCategoryClass(kategorie: string): (c: string)
    ensures |c| > 9 && c[..9] == "category-" && c[9..] == Name(GetCategoryFilter(kategorie))
  {
    "category-" + Name(GetCategoryFilter(kategorie))
  }

  /** Different filters have different names. */
  lemma NameInjective(f: Filter, g: Filter)
    ensures Name(f) == Name(g) <==> f == g
  {
    if f != g {
      assert Name(f)[0] != Name(g)[0] || |Name(f)| != |Name(g)| || Name(f)[1] != Name(g)[1];
    }
  }

  /** Two categories get the same CSS class exactly when they fall under the same filter. */
  lemma SameClassSameFilter(a: string, b: string)
    ensures GetCategoryClass(a) == GetCategoryClass(b) <==> GetCategoryFilter(a) == GetCategoryFilter(b)
  {
    var ca, cb := GetCategoryClass(a), GetCategoryClass(b);
    if ca == cb {
      assert ca[9..] == cb[9..];
    }
    NameInjective(GetCategoryFilter(a), GetCategoryFilter(b));
  }

  /** `filters[category]?.enabled`: a filter missing from the record counts as disabled. */
  predicate Enabled(filters: map<Filter, bool>, f: Filter) {
    f in filters && filters[f]
  }

  /** A selected actor, if any: `null` and the empty string select nobody. */
  predicate Selects(selectedActor: Option<string>) {
    selectedActor.Some? && selectedActor.value != ""
  }

  /**
   * `isLineVisible(row, filters, selectedActor)`: the row's filter must be enabled, and while an
   * actor is selected, an actor line must be that actor's.
   */
  function IsLineVisible(row: Row, filters: map<Filter, bool>, selectedActor: Option<string>): (v: bool)
    ensures !Enabled(filters, GetCategoryFilter(row.kategorie)) ==> !v
    ensures Enabled(filters, GetCategoryFilter(row.kategorie)) && Selects(selectedActor) && row.kategorie == "Schauspieler" ==>
      (v <==> row.charakter == selectedActor.value)
    ensures Enabled(filters, GetCategoryFilter(row.kategorie)) && !(Selects(selectedActor) && row.kategorie == "Schauspieler") ==> v
  {
    var category := GetCategoryFilter(row.kategorie);
    if !Enabled(filters, category) then false
    else if Selects(selectedActor) && category == ActorFilter then row.charakter == selectedActor.value
    else true
  }

  /** Enabling more filters never hides a line. */
  lemma MoreFiltersShowMore(row: Row, filters: map<Filter, bool>, more: map<Filter, bool>, selectedActor: Option<string>)
    requires forall f :: Enabled(filters, f) ==> Enabled(more, f)
    ensures IsLineVisible(row, filters, selectedActor) ==> IsLineVisible(row, more, selectedActor)
  {
  }

  /** Selecting an actor only ever hides lines, and only other characters' actor lines. */
  lemma SelectionOnlyHidesOthers(row: Row, filters: map<Filter, bool>, actor: string)
    ensures IsLineVisible(row, filters, Some(actor)) ==> IsLineVisible(row, filters, None)
    ensures IsLineVisible(row, filters, None) && !IsLineVisible(row, filters, Some(actor)) ==>
      row.kategorie == "Schauspieler" && row.charakter != actor && actor != ""
  {
  }

  /** `formatLineNumber(index)`: `String(index + 1)` padded on the left with `0` to three characters. */
  function FormatLineNumber(index: int): (r: string)
    ensures |r| == Max(3, |IntToString(index + 1)|)
    ensures r[|r| - |IntToString(index + 1)|..] == IntToString(index + 1)
    ensures forall i | 0 <= i < |r| - |IntToString(index + 1)| :: r[i] == '0'
  {
    PadStart(IntToString(index + 1), 3, '0')
  }

  /** For a row index, the line number reads back as the index plus one. */
  lemma FormatLineNumberReadsBack(index: nat)
    ensures |FormatLineNumber(index)| >= 3
    ensures ParseInt(FormatLineNumber(index)) == Some(index + 1)
  {
    ParseIntOfPaddedDecimal(index + 1, 3);
  }

  /** The padding of the first rows. */
  lemma FormatLineNumberPadded()
    ensures FormatLineNumber(0) == "001" && FormatLineNumber(9) == "010"
  {
    assert Decimal(1) == "1";
    assert Decimal(10) == Decimal(1) + "0" == "10";
    assert seq(2, _ => '0') + "1" == "001";
    assert seq(1, _ => '0') + "10" == "010";
  }

  /** Three digits need no padding, and four are not cut back. */
  lemma FormatLineNumberUnpadded()
    ensures FormatLineNumber(99) == "100" && FormatLineNumber(999) == "1000"
  {
    assert Decimal(1) == "1";
    assert Decimal(10) == Decimal(1) + "0" == "10";
    assert Decimal(100) == Decimal(10) + "0" == "100";
    assert Decimal(1000) == Decimal(100) + "0" == "1000";
  }
}
