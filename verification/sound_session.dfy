/**
 * The layer selector and playback registry that the create and edit screens
 * both run: an ordered selection of at most three sounds, a registry of live
 * audio handles keyed by sound id, the per-id volumes and a playing flag.
 *
 * `Session` is the value of that state and the functions below give each
 * operation's effect on it; the class `LayerSession` holds the same four
 * pieces of state as fields and its methods are proved to follow the
 * functions. The audio backend is abstract: a load is an `Option<Handle>`
 * (None when opening, looping or setting the volume failed) and transport
 * failures are the set of handles whose calls throw.
 */
module SoundSession {
  import opened Wrappers
  import opened MareaTypes
  import opened Seqs
  import opened SoundSelector

  /** A live, decoded, looping audio handle; only its identity matters here. */
  datatype Handle = Handle(serial: nat)

  /** At most this many layers can be selected at once. */
  const MaxLayers: nat := 3

  datatype Session = Session(
    selected: seq<Sound>,
    handles: map<string, Handle>,
    volumes: map<string, int>,
    playing: bool)

  /** At most three layers, no id twice. */
  predicate WellFormedSelection(selected: seq<Sound>)
  {
    |selected| <= MaxLayers && DistinctIds(selected)
  }

  /** Every registered handle belongs to a selected id. */
  predicate Registered(st: Session)
  {
    forall id :: id in st.handles ==> IsSelected(st.selected, id)
  }

  predicate Inv(st: Session)
  {
    WellFormedSelection(st.selected) && Registered(st)
  }

  /** The two maps agree at key `k`: both lack it, or both hold the same value. */
  predicate SameAt<V(==)>(m: map<string, V>, m': map<string, V>, k: string)
  {
    (k in m <==> k in m') && (k in m ==> m[k] == m'[k])
  }

  /** The handles of all selected ids that have one, in selection order. */
  function Playable(selected: seq<Sound>, handles: map<string, Handle>): (r: seq<Handle>)
    ensures |r| <= |selected|
    ensures forall h :: h in r ==> exists i :: 0 <= i < |selected| && selected[i].id in handles && handles[selected[i].id] == h
    ensures forall i :: 0 <= i < |selected| && selected[i].id in handles ==> handles[selected[i].id] in r
  {
    if selected == [] then []
    else
      (if selected[0].id in handles then [handles[selected[0].id]] else [])
      + Playable(selected[1..], handles)
  }

  /** No handle of `hs` is one whose transport call throws. */
  predicate NoneFail(hs: seq<Handle>, failing: set<Handle>)
  {
    forall i :: 0 <= i < |hs| ==> hs[i] !in failing
  }

  /**
   * The handles of `hs`, in order, whose calls go through: a handle whose first
   * call throws has the second call of the same `try` skipped.
   */
  function Unfailed(hs: seq<Handle>, failing: set<Handle>): (r: seq<Handle>)
    ensures |r| <= |hs|
  {
    if hs == [] then []
    else
      var last := hs[|hs| - 1];
      Unfailed(hs[..|hs| - 1], failing) + (if last in failing then [] else [last])
  }

  /** A handle goes through exactly when it is one of `hs` and does not fail. */
  lemma {:induction false} UnfailedMembers(hs: seq<Handle>, failing: set<Handle>)
    ensures forall h :: h in Unfailed(hs, failing) <==> h in hs && h !in failing
  {
    if hs != [] {
      var init := hs[..|hs| - 1];
      UnfailedMembers(init, failing);
      assert hs == init + [hs[|hs| - 1]];
    }
  }

  /** Appending one handle appends it to the handles that go through, unless it fails. */
  lemma UnfailedAppend(hs: seq<Handle>, h: Handle, failing: set<Handle>)
    ensures Unfailed(hs + [h], failing) == Unfailed(hs, failing) + (if h in failing then [] else [h])
  {
    assert (hs + [h])[..|hs|] == hs;
  }

  /** One more handle of `hs` considered: it goes through unless it fails. */
  lemma UnfailedStep(hs: seq<Handle>, i: nat, failing: set<Handle>)
    requires i < |hs|
    ensures Unfailed(hs[..i + 1], failing) == Unfailed(hs[..i], failing) + (if hs[i] in failing then [] else [hs[i]])
  {
    assert hs[..i + 1] == hs[..i] + [hs[i]];
    UnfailedAppend(hs[..i], hs[i], failing);
  }

  /** Every handle goes through exactly when none fails. */
  lemma {:induction false} UnfailedAll(hs: seq<Handle>, failing: set<Handle>)
    ensures Unfailed(hs, failing) == hs <==> NoneFail(hs, failing)
  {
    if NoneFail(hs, failing) && hs != [] {
      var init := hs[..|hs| - 1];
      assert NoneFail(init, failing) by {
        assert forall i :: 0 <= i < |init| ==> init[i] == hs[i];
      }
      UnfailedAll(init, failing);
      assert hs == init + [hs[|hs| - 1]];
    } else if !NoneFail(hs, failing) {
      var i :| 0 <= i < |hs| && hs[i] in failing;
      UnfailedMembers(hs, failing);
      assert hs[i] !in Unfailed(hs, failing);
    }
  }

  /**
   * toggleSound: a selected id is removed (its handle and volume dropped when
   * it had a handle); an unselected one is ignored at the cap, otherwise it is
   * appended and, when the load succeeded, registered at full volume.
   */
  function Toggle(st: Session, s: Sound, load: Option<Handle>): (r: Session)
    ensures r.playing == st.playing
    ensures IsSelected(r.selected, s.id) <==> !IsSelected(st.selected, s.id) && |st.selected| < MaxLayers
    ensures forall id :: id != s.id ==> (IsSelected(r.selected, id) <==> IsSelected(st.selected, id))
    ensures forall id :: id != s.id ==> SameAt(r.handles, st.handles, id) && SameAt(r.volumes, st.volumes, id)
  {
    if IsSelected(st.selected, s.id) then
      var rest := Without(st.selected, IdOf, s.id);
      SelectedWithout(st.selected, s.id);
      if s.id in st.handles then
        Session(rest, st.handles - {s.id}, st.volumes - {s.id}, st.playing)
      else
        st.(selected := rest)
    else if |st.selected| >= MaxLayers then
      st
    else
      SelectedAppend(st.selected, s);
      match load
      case Some(h) =>
        Session(st.selected + [s], st.handles[s.id := h], st.volumes[s.id := FullVolume], st.playing)
      case None =>
        st.(selected := st.selected + [s])
  }

  /** handleVolumeChange: the value is recorded for `id` whether or not a handle exists. */
  function VolumeChanged(st: Session, id: string, v: int): Session
  {
    st.(volumes := st.volumes[id := v])
  }

  /** stopAndUnloadAll: every handle is released and both maps are emptied. */
  function Released(st: Session): Session
  {
    st.(handles := map[], volumes := map[])
  }

  /** playAll: the session is playing afterwards unless a started handle failed. */
  function Played(st: Session, failing: set<Handle>): Session
  {
    if NoneFail(Playable(st.selected, st.handles), failing) then st.(playing := true) else st
  }

  /** pauseAll: the session is paused afterwards unless some registered handle failed. */
  function Paused(st: Session, failing: set<Handle>): Session
  {
    if forall h :: h in st.handles.Values ==> h !in failing then st.(playing := false) else st
  }

  /** The app left the foreground: pause everything, then release everything. */
  function Backgrounded(st: Session, failing: set<Handle>): Session
  {
    Released(Paused(st, failing))
  }

  /** After removing id `k`, exactly the other previously selected ids are selected. */
  lemma SelectedWithout(selected: seq<Sound>, k: string)
    ensures forall id :: IsSelected(Without(selected, IdOf, k), id) <==> id != k && IsSelected(selected, id)
  {
    var r := Without(selected, IdOf, k);
    forall id ensures IsSelected(r, id) <==> id != k && IsSelected(selected, id) {
      if IsSelected(r, id) {
        var i :| 0 <= i < |r| && r[i].id == id;
        assert r[i] in r;
        var j :| 0 <= j < |selected| && selected[j] == r[i];
      }
      if id != k && IsSelected(selected, id) {
        var j :| 0 <= j < |selected| && selected[j].id == id;
        assert selected[j] in r;
        var i :| 0 <= i < |r| && r[i] == selected[j];
      }
    }
  }

  /** Appending `s` adds exactly its id to the selected ids. */
  lemma SelectedAppend(selected: seq<Sound>, s: Sound)
    ensures forall id :: IsSelected(selected + [s], id) <==> id == s.id || IsSelected(selected, id)
  {
    var r := selected + [s];
    assert r[|selected|] == s;
    forall id ensures IsSelected(r, id) <==> id == s.id || IsSelected(selected, id) {
      if IsSelected(selected, id) {
        var j :| 0 <= j < |selected| && selected[j].id == id;
        assert r[j] == selected[j];
      }
    }
  }

  // ---------------------------------------------------------------------------
  // Properties of the operations

  /** Toggling a selected id splices it out of the selection, keeping the others in order. */
  lemma ToggleOff(st: Session, s: Sound, load: Option<Handle>, k: nat)
    requires DistinctIds(st.selected)
    requires k < |st.selected| && st.selected[k].id == s.id
    ensures var r := Toggle(st, s, load);
      && r.selected == st.selected[..k] + st.selected[k + 1..]
      && (s.id in st.handles ==> r.handles == st.handles - {s.id} && r.volumes == st.volumes - {s.id})
      && (s.id !in st.handles ==> r.handles == st.handles && r.volumes == st.volumes)
  {
    WithoutOnly(st.selected, IdOf, s.id, k);
  }

  /** Toggling an unselected id at the cap changes nothing at all. */
  lemma ToggleAtCap(st: Session, s: Sound, load: Option<Handle>)
    requires !IsSelected(st.selected, s.id) && |st.selected| >= MaxLayers
    ensures Toggle(st, s, load) == st
  {
  }

  /**
   * Toggling an unselected id below the cap appends it; a successful load
   * registers its handle at full volume, a failed one leaves both maps alone.
   */
  lemma ToggleOn(st: Session, s: Sound, load: Option<Handle>)
    requires !IsSelected(st.selected, s.id) && |st.selected| < MaxLayers
    ensures var r := Toggle(st, s, load);
      && r.selected == st.selected + [s]
      && (load.Some? ==> r.handles == st.handles[s.id := load.value] && r.volumes == st.volumes[s.id := FullVolume])
      && (load.None? ==> r.handles == st.handles && r.volumes == st.volumes)
  {
  }

  /** Toggle keeps the selection within the cap and free of duplicate ids, and keeps handles registered to selected ids. */
  lemma ToggleKeepsInv(st: Session, s: Sound, load: Option<Handle>)
    ensures Registered(st) ==> Registered(Toggle(st, s, load))
    ensures WellFormedSelection(st.selected) ==> WellFormedSelection(Toggle(st, s, load).selected)
  {
    var r := Toggle(st, s, load);
    if IsSelected(st.selected, s.id) {
      if DistinctIds(st.selected) {
        WithoutKeepsDistinct(st.selected, IdOf, s.id);
      }
    } else if |st.selected| < MaxLayers {
      if DistinctIds(st.selected) {
        forall i, j | 0 <= i < j < |r.selected| ensures r.selected[i].id != r.selected[j].id {
          if j == |st.selected| {
            assert r.selected[i] == st.selected[i];
          }
        }
      }
    }
  }

  /**
   * Selecting an id and toggling it off again restores the selection and the
   * handle registry; the volume entry does not survive a successful load.
   */
  lemma ToggleTwice(st: Session, s: Sound, load: Option<Handle>, load': Option<Handle>)
    requires Registered(st)
    requires !IsSelected(st.selected, s.id) && |st.selected| < MaxLayers
    ensures Toggle(Toggle(st, s, load), s, load')
         == if load.Some? then st.(volumes := st.volumes - {s.id}) else st
  {
    assert s.id !in st.handles;
    RemoveAppended(st.selected, s);
    match load {
      case Some(h) => ToggleTwiceLoaded(st, s, h, load');
      case None => ToggleTwiceUnloaded(st, s, load');
    }
  }

  /** ToggleTwice when the first toggle loaded a handle: the second one unloads it. */
  lemma ToggleTwiceLoaded(st: Session, s: Sound, h: Handle, load': Option<Handle>)
    requires !IsSelected(st.selected, s.id) && |st.selected| < MaxLayers && s.id !in st.handles
    requires Without(st.selected + [s], IdOf, s.id) == st.selected
    ensures Toggle(Toggle(st, s, Some(h)), s, load') == st.(volumes := st.volumes - {s.id})
  {
    var mid := Session(st.selected + [s], st.handles[s.id := h], st.volumes[s.id := FullVolume], st.playing);
    ToggleLoads(st, s, h);
    assert IsSelected(mid.selected, s.id) by {
      assert mid.selected[|st.selected|].id == s.id;
    }
    ToggleUnloads(mid, s, load');
    assert mid.handles - {s.id} == st.handles by {
      MapPutRemove(st.handles, s.id, h);
    }
    assert mid.volumes - {s.id} == st.volumes - {s.id} by {
      MapPutRemoveAny(st.volumes, s.id, FullVolume);
    }
  }

  /** Adding a fresh key and then removing it gives the map back. */
  lemma MapPutRemove<V>(m: map<string, V>, k: string, v: V)
    requires k !in m
    ensures m[k := v] - {k} == m
  {
  }

  /** Adding a key and then removing it is removing it. */
  lemma MapPutRemoveAny<V>(m: map<string, V>, k: string, v: V)
    ensures m[k := v] - {k} == m - {k}
  {
  }

  /** Toggling on an id under the cap with a successful load registers the handle at full volume. */
  lemma ToggleLoads(st: Session, s: Sound, h: Handle)
    requires !IsSelected(st.selected, s.id) && |st.selected| < MaxLayers
    ensures Toggle(st, s, Some(h))
         == Session(st.selected + [s], st.handles[s.id := h], st.volumes[s.id := FullVolume], st.playing)
  {
  }

  /** Toggling off an id that holds a handle drops its handle and volume entries. */
  lemma ToggleUnloads(st: Session, s: Sound, load: Option<Handle>)
    requires IsSelected(st.selected, s.id) && s.id in st.handles
    ensures Toggle(st, s, load)
         == Session(Without(st.selected, IdOf, s.id), st.handles - {s.id}, st.volumes - {s.id}, st.playing)
  {
  }

  /** ToggleTwice when the first toggle failed to load: only the selection changes back. */
  lemma ToggleTwiceUnloaded(st: Session, s: Sound, load': Option<Handle>)
    requires !IsSelected(st.selected, s.id) && |st.selected| < MaxLayers && s.id !in st.handles
    requires Without(st.selected + [s], IdOf, s.id) == st.selected
    ensures Toggle(Toggle(st, s, None), s, load') == st
  {
    var mid := st.(selected := st.selected + [s]);
    assert Toggle(st, s, None) == mid;
    assert IsSelected(mid.selected, s.id) by {
      assert mid.selected[|st.selected|].id == s.id;
    }
  }

  /** Removing the id of an entry just appended to a selection without it gives the selection back. */
  lemma RemoveAppended(selected: seq<Sound>, s: Sound)
    requires !IsSelected(selected, s.id)
    ensures Without(selected + [s], IdOf, s.id) == selected
  {
    WithoutConcat(selected, [s], IdOf, s.id);
    WithoutAbsent(selected, IdOf, s.id);
    assert Without([s], IdOf, s.id) == [];
  }

  /** After a volume change on a selected id the slider shows that volume (unless it is 0). */
  lemma VolumeChangeShown(st: Session, item: Sound, v: int)
    requires IsSelected(st.selected, item.id) && v != 0
    ensures VolumeChanged(st, item.id, v).volumes[item.id] == v
    ensures SliderFor(st.selected, VolumeChanged(st, item.id, v).volumes, true, item) == Some(v)
  {
  }

  /** A freshly loaded layer's slider shows full volume. */
  lemma FreshLayerShowsFull(st: Session, s: Sound, h: Handle)
    requires !IsSelected(st.selected, s.id) && |st.selected| < MaxLayers
    ensures var r := Toggle(st, s, Some(h));
      SliderFor(r.selected, r.volumes, true, s) == Some(FullVolume)
  {
  }

  /** Prefix of a selection plus one more entry: its playable handles grow by that entry's handle, if any. */
  lemma {:induction false} PlayableAppend(selected: seq<Sound>, s: Sound, handles: map<string, Handle>)
    ensures Playable(selected + [s], handles)
         == Playable(selected, handles) + (if s.id in handles then [handles[s.id]] else [])
  {
    if selected != [] {
      assert (selected + [s])[1..] == selected[1..] + [s];
      PlayableAppend(selected[1..], s, handles);
    } else {
      assert [s][1..] == [];
    }
  }

  /** Ids without a handle (e.g. a selection restored from storage) are skipped by playAll. */
  lemma {:induction false} NothingPlayableWithoutHandles(selected: seq<Sound>)
    ensures Playable(selected, map[]) == []
  {
    if selected != [] {
      NothingPlayableWithoutHandles(selected[1..]);
    }
  }

  /** Releasing empties the registry, keeps the selection and is idempotent. */
  lemma ReleaseEmpties(st: Session)
    ensures Released(st).handles == map[] && Released(st).volumes == map[]
    ensures Released(st).selected == st.selected && Released(st).playing == st.playing
    ensures Released(Released(st)) == Released(st)
  {
  }

  /**
   * Backgrounding releases every handle; the playing flag is cleared exactly
   * when no registered handle failed to pause.
   */
  lemma BackgroundReleases(st: Session, failing: set<Handle>)
    ensures var r := Backgrounded(st, failing);
      && r.handles == map[] && r.volumes == map[] && r.selected == st.selected
      && (r.playing <==> st.playing && exists h :: h in st.handles.Values && h in failing)
  {
  }

  /** Appending one handle: none fails exactly when none failed before and the new one does not. */
  lemma NoneFailAppend(hs: seq<Handle>, h: Handle, failing: set<Handle>)
    ensures NoneFail(hs + [h], failing) <==> NoneFail(hs, failing) && h !in failing
  {
    assert (hs + [h])[|hs|] == h;
    assert forall j :: 0 <= j < |hs| ==> (hs + [h])[j] == hs[j];
  }

  /** One step of playAll: the next selected id's handle, if any, is attempted and started unless it fails. */
  lemma PlayStep(selected: seq<Sound>, i: nat, handles: map<string, Handle>, failing: set<Handle>)
    requires i < |selected|
    ensures var p, p' := Playable(selected[..i], handles), Playable(selected[..i + 1], handles);
      var id := selected[i].id;
      && p' == p + (if id in handles then [handles[id]] else [])
      && Unfailed(p', failing) == Unfailed(p, failing) + (if id in handles && handles[id] !in failing then [handles[id]] else [])
      && (NoneFail(p', failing) <==> NoneFail(p, failing) && (id in handles ==> handles[id] !in failing))
  {
    var p := Playable(selected[..i], handles);
    assert selected[..i + 1] == selected[..i] + [selected[i]];
    PlayableAppend(selected[..i], selected[i], handles);
    var id := selected[i].id;
    if id in handles {
      var h := handles[id];
      NoneFailAppend(p, h, failing);
      UnfailedAppend(p, h, failing);
    } else {
      assert p + [] == p;
    }
  }

  /** After playAll the session plays exactly when it already did or every attempted handle started. */
  lemma PlayedIffAllStarted(st: Session, failing: set<Handle>)
    ensures var attempted := Playable(st.selected, st.handles);
      Played(st, failing).playing <==> st.playing || Unfailed(attempted, failing) == attempted
  {
    UnfailedAll(Playable(st.selected, st.handles), failing);
  }

  /** One user gesture or lifecycle event acting on the session. */
  datatype Event =
    | ToggleEvent(sound: Sound, load: Option<Handle>)
    | VolumeEvent(id: string, v: int)
    | PlayEvent(playFailing: set<Handle>)
    | PauseEvent(pauseFailing: set<Handle>)
    | ReleaseEvent
    | BackgroundEvent(bgFailing: set<Handle>)

  function Apply(st: Session, e: Event): Session
  {
    match e
    case ToggleEvent(s, load) => Toggle(st, s, load)
    case VolumeEvent(id, v) => VolumeChanged(st, id, v)
    case PlayEvent(failing) => Played(st, failing)
    case PauseEvent(failing) => Paused(st, failing)
    case ReleaseEvent => Released(st)
    case BackgroundEvent(failing) => Backgrounded(st, failing)
  }

  function Run(st: Session, events: seq<Event>): Session
    decreases |events|
  {
    if events == [] then st else Run(Apply(st, events[0]), events[1..])
  }

  /**
   * Whatever the sequence of gestures and lifecycle events, the selection never
   * exceeds three layers, never holds an id twice, and every handle belongs to
   * a selected id.
   */
  lemma {:induction false} RunKeepsInv(st: Session, events: seq<Event>)
    requires Inv(st)
    ensures Inv(Run(st, events))
    decreases |events|
  {
    if events != [] {
      var next := Apply(st, events[0]);
      if events[0].ToggleEvent? {
        ToggleKeepsInv(st, events[0].sound, events[0].load);
      }
      assert Inv(next);
      RunKeepsInv(next, events[1..]);
    }
  }

  // ---------------------------------------------------------------------------
  // The stateful component

  /** The four pieces of state a create or edit screen keeps for its sound layers. */
  class LayerSession {
    var selectedSounds: seq<Sound>
    var soundObjects: map<string, Handle>
    var volumes: map<string, int>
    var isPlaying: bool

    function State(): Session
      reads this
    {
      Session(selectedSounds, soundObjects, volumes, isPlaying)
    }

    /** A session starts from a given selection with no handles, no volumes and not playing. */
    constructor (initial: seq<Sound>)
      ensures State() == Session(initial, map[], map[], false)
    {
      selectedSounds := initial;
      soundObjects := map[];
      volumes := map[];
      isPlaying := false;
    }

    /**
     * toggleSound; `released` is the handle stopped and unloaded, if any. The
     * handle is dropped from the registry even when stopping or unloading it
     * throws (it is in `failing`); it is then not reported as released.
     */
    method ToggleSound(s: Sound, load: Option<Handle>, failing: set<Handle>) returns (released: Option<Handle>)
      modifies this
      ensures State() == Toggle(old(State()), s, load)
      ensures Inv(old(State())) ==> Inv(State())
      ensures released == if IsSelected(old(selectedSounds), s.id) && s.id in old(soundObjects)
                             && old(soundObjects)[s.id] !in failing
                          then Some(old(soundObjects)[s.id]) else None
    {
      ToggleKeepsInv(State(), s, load);
      released := None;
      var updatedSelection: seq<Sound>;
      if IsSelected(selectedSounds, s.id) {
        updatedSelection := Without(selectedSounds, IdOf, s.id);
        if s.id in soundObjects {
          if soundObjects[s.id] !in failing {
            released := Some(soundObjects[s.id]);
          }
          soundObjects := soundObjects - {s.id};
          volumes := volumes - {s.id};
        }
      } else {
        if |selectedSounds| >= MaxLayers {
          return;
        }
        updatedSelection := selectedSounds + [s];
        match load {
          case Some(h) =>
            soundObjects := soundObjects[s.id := h];
            volumes := volumes[s.id := FullVolume];
          case None =>
        }
      }
      selectedSounds := updatedSelection;
    }

    /** handleVolumeChange; `applied` is the handle whose volume is set, if one exists. */
    method HandleVolumeChange(id: string, value: int) returns (applied: Option<Handle>)
      modifies this
      ensures State() == VolumeChanged(old(State()), id, value)
      ensures Inv(old(State())) ==> Inv(State())
      ensures applied == if id in old(soundObjects) then Some(old(soundObjects)[id]) else None
    {
      volumes := volumes[id := value];
      applied := if id in soundObjects then Some(soundObjects[id]) else None;
    }

    /**
     * stopAndUnloadAll: every registered handle is stopped and unloaded; one
     * whose stop or unload throws (it is in `failing`) is only logged.
     * `released` is the handles that were stopped and unloaded. The registry is
     * emptied either way.
     */
    method StopAndUnloadAll(failing: set<Handle>) returns (released: set<Handle>)
      modifies this
      ensures released == old(soundObjects).Values - failing
      ensures State() == Released(old(State()))
      ensures Inv(old(State())) ==> Inv(State())
    {
      var pending := soundObjects.Values;
      released := {};
      while pending != {}
        invariant pending <= soundObjects.Values
        invariant released == (soundObjects.Values - pending) - failing
        decreases pending
      {
        var h :| h in pending;
        if h !in failing {
          released := released + {h};
        }
        pending := pending - {h};
      }
      soundObjects := map[];
      volumes := map[];
    }

    /**
     * playAll: each selected id's handle is rewound and started, in selection
     * order; a handle in `failing` throws and is not started, and then the
     * flag is left alone. `started` is the handles that were started.
     */
    method PlayAll(failing: set<Handle>) returns (started: seq<Handle>)
      modifies this
      ensures started == Unfailed(Playable(old(selectedSounds), old(soundObjects)), failing)
      ensures State() == Played(old(State()), failing)
      ensures Inv(old(State())) ==> Inv(State())
    {
      var selected, objects := selectedSounds, soundObjects;
      started := [];
      var ok := true;
      var i := 0;
      while i < |selected|
        invariant 0 <= i <= |selected|
        invariant started == Unfailed(Playable(selected[..i], objects), failing)
        invariant ok == NoneFail(Playable(selected[..i], objects), failing)
        invariant State() == old(State())
      {
        PlayStep(selected, i, objects, failing);
        var id := selected[i].id;
        if id in objects {
          var h := objects[id];
          if h in failing {
            ok := false;
          } else {
            started := started + [h];
          }
        }
        i := i + 1;
      }
      assert selected[..i] == selected;
      if ok {
        isPlaying := true;
      }
    }

    /** pauseAll; `paused` is every registered handle asked to pause. */
    method PauseAll(failing: set<Handle>) returns (paused: set<Handle>)
      modifies this
      ensures paused == old(soundObjects).Values
      ensures State() == Paused(old(State()), failing)
      ensures Inv(old(State())) ==> Inv(State())
    {
      var pending := soundObjects.Values;
      paused := {};
      var ok := true;
      while pending != {}
        invariant paused + pending == soundObjects.Values
        invariant paused !! pending
        invariant ok == forall h :: h in paused ==> h !in failing
        decreases pending
      {
        var h :| h in pending;
        paused := paused + {h};
        pending := pending - {h};
        if h in failing {
          ok := false;
        }
      }
      if ok {
        isPlaying := false;
      }
    }

    /**
     * The foreground listener: on any non-active app state, pause all, then
     * release all; `pauseFailing` and `releaseFailing` are the handles whose
     * pause, or whose stop or unload, throws.
     */
    method OnAppStateChange(active: bool, pauseFailing: set<Handle>, releaseFailing: set<Handle>)
      returns (released: set<Handle>)
      modifies this
      ensures released == if active then {} else old(soundObjects).Values - releaseFailing
      ensures State() == if active then old(State()) else Backgrounded(old(State()), pauseFailing)
      ensures Inv(old(State())) ==> Inv(State())
    {
      released := {};
      if !active {
        var _ := PauseAll(pauseFailing);
        released := StopAndUnloadAll(releaseFailing);
      }
    }

    /** The session half of resetting the form: clear the selection, stop playing, release everything. */
    method Reset(failing: set<Handle>) returns (released: set<Handle>)
      modifies this
      ensures released == old(soundObjects).Values - failing
      ensures State() == Session([], map[], map[], false)
      ensures Inv(State())
    {
      selectedSounds := [];
      isPlaying := false;
      released := StopAndUnloadAll(failing);
    }
  }
}
