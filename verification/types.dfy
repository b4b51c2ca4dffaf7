/** The records the app stores and passes between screens. */
module MareaTypes {
  import opened Wrappers

  /** One entry of the sound catalog: identifier, display name (`label` in the app, a reserved word here) and audio source. */
  datatype Sound = Sound(id: string, caption: string, uri: string)

  /**
   * A saved composition as it sits in the stored JSON array. Optional keys are
   * `Option`s. Besides the declared fields, a record may carry
   * `fechaActualizacion`, the key the edit screen actually writes.
   */
  datatype Marea = Marea(
    id: Option<string>,
    nombre: string,
    color: string,
    intensidad: int,
    descripcion: Option<string>,
    sonidos: seq<Sound>,
    fecha: string,
    fechaActualizada: Option<string>,
    fechaActualizacion: Option<string>)

  function IdOf(s: Sound): string { s.id }

  function NombreOf(m: Marea): string { m.nombre }
}
