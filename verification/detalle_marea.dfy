/**
 * The detail screen: playing a saved composition back through a list of
 * handles, pausing it, tearing it down when the app leaves the foreground or
 * the screen is about to be removed, and deleting the composition.
 */
module DetalleMarea {
  import opened Wrappers
  import opened MareaTypes
  import opened SoundSession
  import opened MareaRepository

  /**
   * Opening every sound of `sonidos` in turn: the handles in order when every
   * open succeeds, nothing otherwise.
   */
  function OpenedAll(sonidos: seq<Sound>, open: Sound -> Option<Handle>): (r: Option<seq<Handle>>)
    ensures r.Some? <==> forall i :: 0 <= i < |sonidos| ==> open(sonidos[i]).Some?
    ensures r.Some? ==> |r.value| == |sonidos|
                        && forall i :: 0 <= i < |sonidos| ==> Some(r.value[i]) == open(sonidos[i])
  {
    if sonidos == [] then Some([])
    else match open(sonidos[0])
      case None => None
      case Some(h) =>
        match OpenedAll(sonidos[1..], open)
        case None => None
        case Some(rest) => Some([h] + rest)
  }

  class DetalleMareaPlayer {
    /** The composition shown on the screen. */
    const marea: Marea
    var soundObjects: seq<Handle>
    var isPlaying: bool

    constructor (marea: Marea)
      ensures this.marea == marea && soundObjects == [] && !isPlaying
    {
      this.marea := marea;
      soundObjects := [];
      isPlaying := false;
    }

    /**
     * reproducir: open, loop and start each sound of the composition in order,
     * stopping at the first failure. `started` is every handle that was created
     * and started; only when all succeed do they become the screen's handles
     * and the screen switches to playing.
     */
    method Reproducir(open: Sound -> Option<Handle>) returns (started: seq<Handle>)
      modifies this
      ensures |started| <= |marea.sonidos|
      ensures forall i :: 0 <= i < |started| ==> Some(started[i]) == open(marea.sonidos[i])
      ensures |started| < |marea.sonidos| ==> open(marea.sonidos[|started|]).None?
      ensures match OpenedAll(marea.sonidos, open)
              case Some(hs) => soundObjects == hs && isPlaying
              case None => soundObjects == old(soundObjects) && isPlaying == old(isPlaying)
    {
      var nuevosSonidos: seq<Handle> := [];
      var i := 0;
      while i < |marea.sonidos|
        invariant 0 <= i <= |marea.sonidos| && |nuevosSonidos| == i
        invariant forall j :: 0 <= j < i ==> Some(nuevosSonidos[j]) == open(marea.sonidos[j])
        invariant soundObjects == old(soundObjects) && isPlaying == old(isPlaying)
      {
        match open(marea.sonidos[i]) {
          case None =>
            started := nuevosSonidos;
            return;
          case Some(h) =>
            nuevosSonidos := nuevosSonidos + [h];
        }
        i := i + 1;
      }
      started := nuevosSonidos;
      soundObjects := nuevosSonidos;
      isPlaying := true;
    }

    /**
     * pausar: pause and stop each handle in order, giving up at the first one
     * that fails; the handle list is kept, and the screen stops playing only
     * if every handle was stopped. `stopped` is the handles paused and stopped.
     */
    method Pausar(failing: set<Handle>) returns (stopped: seq<Handle>)
      modifies this
      ensures soundObjects == old(soundObjects)
      ensures |stopped| <= |soundObjects| && stopped == soundObjects[..|stopped|] && NoneFail(stopped, failing)
      ensures |stopped| < |soundObjects| ==> soundObjects[|stopped|] in failing
      ensures isPlaying == if |stopped| == |soundObjects| then false else old(isPlaying)
    {
      stopped := [];
      var i := 0;
      while i < |soundObjects|
        invariant 0 <= i <= |soundObjects| && stopped == soundObjects[..i]
        invariant NoneFail(stopped, failing)
        invariant soundObjects == old(soundObjects) && isPlaying == old(isPlaying)
      {
        if soundObjects[i] in failing {
          return;
        }
        stopped := stopped + [soundObjects[i]];
        assert soundObjects[..i + 1] == soundObjects[..i] + [soundObjects[i]];
        i := i + 1;
      }
      isPlaying := false;
    }

    /**
     * The teardown both listeners run (the app leaving the foreground, or the
     * screen about to be removed): stop and unload each handle in order; a
     * handle whose stop or unload throws (it is in `failing`) is only logged.
     * Then forget them all and stop playing. `released` is the handles that
     * were stopped and unloaded, in order.
     */
    method Liberar(failing: set<Handle>) returns (released: seq<Handle>)
      modifies this
      ensures released == Unfailed(old(soundObjects), failing)
      ensures soundObjects == [] && !isPlaying
    {
      var hs := soundObjects;
      released := [];
      var i := 0;
      while i < |hs|
        invariant 0 <= i <= |hs| && released == Unfailed(hs[..i], failing)
      {
        UnfailedStep(hs, i, failing);
        if hs[i] !in failing {
          released := released + [hs[i]];
        }
        i := i + 1;
      }
      assert hs[..i] == hs;
      soundObjects := [];
      isPlaying := false;
    }

    /** The app-state listener: any non-active state tears the playback down. */
    method OnAppStateChange(active: bool, failing: set<Handle>) returns (released: seq<Handle>)
      modifies this
      ensures released == if active then [] else Unfailed(old(soundObjects), failing)
      ensures active ==> soundObjects == old(soundObjects) && isPlaying == old(isPlaying)
      ensures !active ==> soundObjects == [] && !isPlaying
    {
      released := [];
      if !active {
        released := Liberar(failing);
      }
    }

    /** The navigation listener: the screen is about to be removed. */
    method OnBeforeRemove(failing: set<Handle>) returns (released: seq<Handle>)
      modifies this
      ensures released == Unfailed(old(soundObjects), failing)
      ensures soundObjects == [] && !isPlaying
    {
      released := Liberar(failing);
    }

    /**
     * The effect cleanup: ask each current handle to unload, without waiting
     * or catching, and without touching the state. `unloaded` is the handles
     * asked, in order.
     */
    method OnCleanup() returns (unloaded: seq<Handle>)
      ensures unloaded == soundObjects
    {
      unloaded := [];
      for i := 0 to |soundObjects|
        invariant unloaded == soundObjects[..i]
      {
        unloaded := unloaded + [soundObjects[i]];
        assert soundObjects[..i + 1] == soundObjects[..i] + [soundObjects[i]];
      }
      assert soundObjects[..|soundObjects|] == soundObjects;
    }

    /** handleEliminar: the list to write back, without any composition named like this one. */
    method HandleEliminar(stored: Option<seq<Marea>>) returns (written: seq<Marea>)
      ensures written == RemoveByNombre(Load(stored), marea.nombre)
      ensures forall m :: m in written ==> m.nombre != marea.nombre
    {
      written := RemoveByNombre(Load(stored), marea.nombre);
    }
  }
}
