/**
 * The create screen: the form fields, its layer session, resetting the form
 * and saving a new composition.
 */
module CrearMarea {
  import opened Wrappers
  import opened MareaTypes
  import opened SoundSession
  import opened MareaRepository

  /** The form's initial values. */
  const DefaultNombre: string := ""
  const DefaultColor: string := "#007BFF"
  const DefaultIntensidad: int := 50
  const DefaultDescripcion: string := ""

  /** The separator of the preview line listing the selected sounds. */
  const LabelSeparator: string := " + "

  /** The preview line: the selected sounds' display names joined by " + ". */
  function SelectedLabels(selected: seq<Sound>): string
  {
    if selected == [] then ""
    else if |selected| == 1 then selected[0].caption
    else selected[0].caption + LabelSeparator + SelectedLabels(selected[1..])
  }

  /** Selecting one more layer extends the preview line by the separator and its name. */
  lemma {:induction false} SelectedLabelsAppend(selected: seq<Sound>, s: Sound)
    requires selected != []
    ensures SelectedLabels(selected + [s]) == SelectedLabels(selected) + LabelSeparator + s.caption
  {
    if |selected| == 1 {
      assert (selected + [s])[1..] == [s];
    } else {
      assert (selected + [s])[1..] == selected[1..] + [s];
      SelectedLabelsAppend(selected[1..], s);
    }
  }

  class CrearMareaForm {
    var nombre: string
    var colorHex: string
    var intensidad: int
    var descripcion: string
    const session: LayerSession

    /** The form fields hold their initial values. */
    predicate AtDefaults()
      reads this
    {
      nombre == DefaultNombre && colorHex == DefaultColor
      && intensidad == DefaultIntensidad && descripcion == DefaultDescripcion
    }

    /** What the form would save, with the description always present. */
    function Form(): Draft
      reads this, session
    {
      MareaRepository.Draft(nombre, colorHex, intensidad, Some(descripcion), session.selectedSounds)
    }

    constructor ()
      ensures AtDefaults() && fresh(session)
      ensures session.State() == Session([], map[], map[], false)
    {
      nombre := DefaultNombre;
      colorHex := DefaultColor;
      intensidad := DefaultIntensidad;
      descripcion := DefaultDescripcion;
      session := new LayerSession([]);
    }

    /**
     * resetFormulario (also run whenever the screen gains focus): restore the
     * defaults, clear the selection, stop playing and release every handle;
     * `released` leaves out the handles in `failing`, whose stop or unload throws.
     */
    method ResetFormulario(failing: set<Handle>) returns (released: set<Handle>)
      modifies this, session
      ensures AtDefaults()
      ensures session.State() == Session([], map[], map[], false)
      ensures released == old(session.soundObjects).Values - failing
    {
      nombre := DefaultNombre;
      colorHex := DefaultColor;
      intensidad := DefaultIntensidad;
      descripcion := DefaultDescripcion;
      released := session.Reset(failing);
    }

    /**
     * handleGuardarMarea: validate, append the new record to the stored list
     * and reset the form (`failing` as for the reset); a refused save writes
     * nothing and changes nothing.
     */
    method HandleGuardarMarea(stored: Option<seq<Marea>>, fecha: string, failing: set<Handle>)
      returns (outcome: Result<seq<Marea>, SaveError>)
      modifies this, session
      ensures outcome == SaveNew(stored, old(Form()), fecha)
      ensures outcome.Ok? ==> AtDefaults() && session.State() == Session([], map[], map[], false)
      ensures outcome.Err? ==> unchanged(this) && unchanged(session)
    {
      outcome := SaveNew(stored, Form(), fecha);
      if outcome.Ok? {
        var _ := ResetFormulario(failing);
      }
    }
  }
}
