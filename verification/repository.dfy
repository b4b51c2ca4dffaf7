/**
 * The saved compositions: one JSON array under the storage key "mareas", read whole,
 * transformed and written back whole. The array is a `seq<Marea>`; parsing
 * and serialising are not modelled.
 */
module MareaRepository {
  import opened Wrappers
  import opened MareaTypes
  import opened Seqs

  /**
   * The array read from storage: `None` stands for an absent (or empty)
   * stored value, which every screen treats as the empty list.
   */
  function Load(stored: Option<seq<Marea>>): seq<Marea>
  {
    match stored
    case None => []
    case Some(ms) => ms
  }

  lemma LoadAbsentIsEmpty()
    ensures Load(None) == []
  {
  }

  /** The characters JavaScript's `String.prototype.trim` strips: white space and line terminators. */
  predicate IsJsWhitespace(c: char)
  {
    || c == '\t' || c == '\n' || c == '\U{000B}' || c == '\U{000C}' || c == '\r' || c == ' '
    || c == '\U{00A0}' || c == '\U{1680}' || ('\U{2000}' <= c <= '\U{200A}')
    || c == '\U{2028}' || c == '\U{2029}' || c == '\U{202F}' || c == '\U{205F}'
    || c == '\U{3000}' || c == '\U{FEFF}'
  }

  /** Every character of `s` is white space (vacuously true of ""). */
  predicate IsBlank(s: string)
  {
    forall i :: 0 <= i < |s| ==> IsJsWhitespace(s[i])
  }

  /** `s` without its leading white space. */
  function TrimStart(s: string): (r: string)
    ensures |r| <= |s| && r == s[|s| - |r|..]
    ensures IsBlank(s[..|s| - |r|])
    ensures r != "" ==> !IsJsWhitespace(r[0])
  {
    if s != [] && IsJsWhitespace(s[0]) then
      var r := TrimStart(s[1..]);
      var k := |s| - |r|;
      assert s[1..][k - 1..] == s[k..];
      assert forall i :: 1 <= i < k ==> s[..k][i] == s[1..][..k - 1][i - 1];
      r
    else s
  }

  /** `s` without its trailing white space. */
  function TrimEnd(s: string): (r: string)
    ensures |r| <= |s| && r == s[..|r|]
    ensures IsBlank(s[|r|..])
    ensures r != "" ==> !IsJsWhitespace(r[|r| - 1])
  {
    if s != [] && IsJsWhitespace(s[|s| - 1]) then TrimEnd(s[..|s| - 1]) else s
  }

  /** `String.prototype.trim`. */
  function Trim(s: string): string
  {
    TrimEnd(TrimStart(s))
  }

  /** A non-empty string is blank exactly when its first character is white space and the rest is blank. */
  lemma BlankCons(s: string)
    requires s != []
    ensures IsBlank(s) <==> IsJsWhitespace(s[0]) && IsBlank(s[1..])
  {
    assert forall i :: 0 <= i < |s| - 1 ==> s[1..][i] == s[i + 1];
  }

  /** A non-empty string is blank exactly when its last character is white space and the rest is blank. */
  lemma BlankSnoc(s: string)
    requires s != []
    ensures IsBlank(s) <==> IsJsWhitespace(s[|s| - 1]) && IsBlank(s[..|s| - 1])
  {
    assert forall i :: 0 <= i < |s| - 1 ==> s[..|s| - 1][i] == s[i];
  }

  /** Stripping leading white space leaves nothing exactly when the string is blank. */
  lemma {:induction false} TrimStartEmptyIffBlank(s: string)
    ensures TrimStart(s) == "" <==> IsBlank(s)
  {
    if s != [] {
      BlankCons(s);
      TrimStartEmptyIffBlank(s[1..]);
    }
  }

  /** Stripping trailing white space leaves nothing exactly when the string is blank. */
  lemma {:induction false} TrimEndEmptyIffBlank(s: string)
    ensures TrimEnd(s) == "" <==> IsBlank(s)
  {
    if s != [] {
      BlankSnoc(s);
      TrimEndEmptyIffBlank(s[..|s| - 1]);
    }
  }

  /** A name trims to the empty string exactly when it is all white space. */
  lemma TrimEmptyIffBlank(s: string)
    ensures Trim(s) == "" <==> IsBlank(s)
  {
    var t := TrimStart(s);
    TrimStartEmptyIffBlank(s);
    TrimEndEmptyIffBlank(t);
    if t != "" {
      assert !IsJsWhitespace(t[0]);
    }
  }

  /** Why a save was refused. */
  datatype SaveError = MissingName | NoSounds

  /** The fields of the composition form, as they are written into a record. */
  datatype Draft = Draft(
    nombre: string,
    color: string,
    intensidad: int,
    descripcion: Option<string>,
    sonidos: seq<Sound>)

  /** The record the create screen writes: no `id` key and no update timestamp. */
  function NuevaMarea(d: Draft, fecha: string): Marea
  {
    Marea(None, d.nombre, d.color, d.intensidad, d.descripcion, d.sonidos, fecha, None, None)
  }

  /**
   * The create screen's save: refused when the trimmed name is empty (checked
   * first) or when no sound is selected; otherwise the new record is appended
   * after every existing one.
   */
  function SaveNew(stored: Option<seq<Marea>>, d: Draft, fecha: string): (r: Result<seq<Marea>, SaveError>)
    ensures r.Err? <==> IsBlank(d.nombre) || d.sonidos == []
    ensures r.Err? ==> r.error == if IsBlank(d.nombre) then MissingName else NoSounds
    ensures r.Ok? ==> && |r.value| == |Load(stored)| + 1
                      && r.value[..|Load(stored)|] == Load(stored)
                      && r.value[|Load(stored)|] == NuevaMarea(d, fecha)
  {
    TrimEmptyIffBlank(d.nombre);
    if Trim(d.nombre) == "" then Err(MissingName)
    else if |d.sonidos| == 0 then Err(NoSounds)
    else Ok(Load(stored) + [NuevaMarea(d, fecha)])
  }

  /** Creating then listing: the new record is the last one listed, after the old ones. */
  lemma SavedIsListed(stored: Option<seq<Marea>>, d: Draft, fecha: string)
    requires !IsBlank(d.nombre) && d.sonidos != []
    ensures SaveNew(stored, d, fecha).Ok?
    ensures var ms := Load(Some(SaveNew(stored, d, fecha).value));
      ms == Load(stored) + [NuevaMarea(d, fecha)]
  {
    var ms := SaveNew(stored, d, fecha).value;
    assert ms == ms[..|Load(stored)|] + [ms[|Load(stored)|]];
  }

  /**
   * The edit screen's patch: the form's fields over the stored record, plus the
   * update time under `fechaActualizacion`; `id`, `fecha` and the declared
   * `fechaActualizada` are kept.
   */
  function Patched(m: Marea, d: Draft, now: string): Marea
  {
    m.(nombre := d.nombre, color := d.color, intensidad := d.intensidad,
       descripcion := d.descripcion, sonidos := d.sonidos, fechaActualizacion := Some(now))
  }

  /** The edit screen's save: every record whose `fecha` matches is patched, the rest are kept. */
  function ReplaceByFecha(ms: seq<Marea>, fecha: string, d: Draft, now: string): (r: seq<Marea>)
    ensures |r| == |ms|
    ensures forall i :: 0 <= i < |ms| && ms[i].fecha != fecha ==> r[i] == ms[i]
    ensures forall i :: 0 <= i < |ms| && ms[i].fecha == fecha ==>
      && r[i].nombre == d.nombre && r[i].color == d.color && r[i].intensidad == d.intensidad
      && r[i].descripcion == d.descripcion && r[i].sonidos == d.sonidos
      && r[i].fechaActualizacion == Some(now)
    ensures forall i :: 0 <= i < |ms| ==>
      r[i].id == ms[i].id && r[i].fecha == ms[i].fecha && r[i].fechaActualizada == ms[i].fechaActualizada
  {
    if ms == [] then []
    else
      var head := if ms[0].fecha == fecha then Patched(ms[0], d, now) else ms[0];
      var tail := ReplaceByFecha(ms[1..], fecha, d, now);
      assert forall i :: 1 <= i < |ms| ==> ([head] + tail)[i] == tail[i - 1] && ms[i] == ms[1..][i - 1];
      [head] + tail
  }

  /** When no record has the edited record's `fecha`, the saved list is the stored one. */
  lemma {:induction false} ReplaceNoMatch(ms: seq<Marea>, fecha: string, d: Draft, now: string)
    requires forall i :: 0 <= i < |ms| ==> ms[i].fecha != fecha
    ensures ReplaceByFecha(ms, fecha, d, now) == ms
  {
    if ms != [] {
      assert forall i :: 0 <= i < |ms[1..]| ==> ms[1..][i] == ms[i + 1];
      ReplaceNoMatch(ms[1..], fecha, d, now);
      assert ms == [ms[0]] + ms[1..];
    }
  }

  /** With exactly one matching record, exactly that record is patched. */
  lemma {:induction false} ReplaceSingleMatch(ms: seq<Marea>, k: nat, d: Draft, now: string)
    requires k < |ms|
    requires forall i :: 0 <= i < |ms| && i != k ==> ms[i].fecha != ms[k].fecha
    ensures ReplaceByFecha(ms, ms[k].fecha, d, now) == ms[k := Patched(ms[k], d, now)]
  {
    var fecha := ms[k].fecha;
    var r := ReplaceByFecha(ms, fecha, d, now);
    forall i | 0 <= i < |ms| ensures r[i] == ms[k := Patched(ms[k], d, now)][i] {
      if i == k {
        assert r[i] == Patched(ms[k], d, now) by {
          assert r[i].id == ms[i].id && r[i].fechaActualizada == ms[i].fechaActualizada;
        }
      }
    }
  }

  /** The detail screen's delete: drop every record with the given name. */
  function RemoveByNombre(ms: seq<Marea>, nombre: string): (r: seq<Marea>)
    ensures forall m :: m in r <==> m in ms && m.nombre != nombre
  {
    Without(ms, NombreOf, nombre)
  }

  /** Deleting distributes over any split of the list, so survivors keep their relative order. */
  lemma RemoveKeepsOrder(a: seq<Marea>, b: seq<Marea>, nombre: string)
    ensures RemoveByNombre(a + b, nombre) == RemoveByNombre(a, nombre) + RemoveByNombre(b, nombre)
  {
    WithoutConcat(a, b, NombreOf, nombre);
  }

  /** Records that do not carry the name are all kept, so such a list survives unchanged. */
  lemma RemoveAbsentName(ms: seq<Marea>, nombre: string)
    requires forall i :: 0 <= i < |ms| ==> ms[i].nombre != nombre
    ensures RemoveByNombre(ms, nombre) == ms
  {
    WithoutAbsent(ms, NombreOf, nombre);
  }

  /** Two compositions sharing a name are both deleted. */
  lemma RemoveDeletesDuplicates(a: Marea, b: Marea, rest: seq<Marea>)
    requires a.nombre == b.nombre
    ensures RemoveByNombre([a] + rest + [b], a.nombre) == RemoveByNombre(rest, a.nombre)
  {
    WithoutConcat([a] + rest, [b], NombreOf, a.nombre);
    WithoutConcat([a], rest, NombreOf, a.nombre);
  }
}
