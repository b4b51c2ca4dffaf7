/**
 * The edit screen: a form and a layer session seeded from the record being
 * edited, and the save that patches it in the stored list.
 */
module EditarMarea {
  import opened Wrappers
  import opened MareaTypes
  import opened SoundSession
  import opened MareaRepository

  class EditarMareaForm {
    /** The record the screen was opened with. */
    const marea: Marea
    var nombre: string
    var colorHex: string
    var intensidad: int
    var descripcion: Option<string>
    const session: LayerSession

    /** What the form would save; the description may be absent, as in the record. */
    function Form(): Draft
      reads this, session
    {
      MareaRepository.Draft(nombre, colorHex, intensidad, descripcion, session.selectedSounds)
    }

    /**
     * The form starts from the record's fields and its sounds; no handle is
     * loaded and nothing plays.
     */
    constructor (marea: Marea)
      ensures this.marea == marea
      ensures Form() == MareaRepository.Draft(marea.nombre, marea.color, marea.intensidad, marea.descripcion, marea.sonidos)
      ensures fresh(session) && session.State() == Session(marea.sonidos, map[], map[], false)
    {
      this.marea := marea;
      nombre := marea.nombre;
      colorHex := marea.color;
      intensidad := marea.intensidad;
      descripcion := marea.descripcion;
      session := new LayerSession(marea.sonidos);
    }

    /**
     * guardarCambios: the list to write back, with every record sharing the
     * edited record's `fecha` patched; no field is validated.
     */
    method GuardarCambios(stored: Option<seq<Marea>>, fechaActual: string) returns (written: seq<Marea>)
      ensures written == ReplaceByFecha(Load(stored), marea.fecha, Form(), fechaActual)
      ensures |written| == |Load(stored)|
    {
      written := ReplaceByFecha(Load(stored), marea.fecha, Form(), fechaActual);
    }
  }

  /** Layers restored from the record have no handle, so playing right after opening starts nothing. */
  lemma RestoredLayersStartSilent(marea: Marea, failing: set<Handle>)
    ensures Playable(marea.sonidos, map[]) == []
    ensures Played(Session(marea.sonidos, map[], map[], false), failing).playing
  {
    NothingPlayableWithoutHandles(marea.sonidos);
  }
}
