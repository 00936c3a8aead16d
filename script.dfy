/**
 * A row of a play's script sheet and the category names the clients compare against
 * (static/js/config.js). Every text field is a string; a field the sheet leaves out is the empty
 * string, which every test in the clients treats like JavaScript's `undefined` (both are falsy).
 */
module Script {

  /** One script row. `text` is the `Text/Anweisung` column; `isAutoMic` marks generated mic cues. */
  datatype Row = Row(szene: string, kategorie: string, charakter: string, mikrofon: string, text: string, isAutoMic: bool)

  /** A sheet row with the given columns. */
  function SheetRow(szene: string, kategorie: string, charakter: string, mikrofon: string, text: string): Row {
    Row(szene, kategorie, charakter, mikrofon, text, false)
  }

  const Instruction: string := "Anweisung"
  const Technical: string := "Technik"
  const Lighting: string := "Licht"
  const Audio: string := "Einspieler"
  const Props: string := "Requisiten"
  const Actor: string := "Schauspieler"
  const SceneStart: string := "Szenenbeginn"
  const Role: string := "Rolle"

  /**
   * The category of generated microphone rows. The clients read it from a `MICROPHONE` entry that
   * the category table does not define, so the model leaves its value unspecified.
   */
  const Microphone: string
}
