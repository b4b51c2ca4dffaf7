# Marea — a verified model of the composition core

Marea is a mobile app for composing "mareas": moods made of up to three
looping ambient sounds. Each composition has a name, a colour, an intensity
and an optional description. It is saved to on-device storage and can later
be listed, played back, edited or deleted. This project models the core of
the app in Dafny:

- **The layer session** (`SoundSession`) behind the create and edit screens.
  It has the four pieces of state those screens keep: the ordered selection
  (`selectedSounds`), the loaded audio handles (`soundObjects`), the
  per-layer volumes (`volumes`) and the playing flag (`isPlaying`).
  `LayerSession` is a class whose methods are toggleSound,
  handleVolumeChange, stopAndUnloadAll, playAll, pauseAll, the app-state
  listener and the session half of resetFormulario. Each method is proved
  equal to a pure transition on a `Session` value. The lemmas about those
  transitions state the screen's promises:
  - at most three layers, no id selected twice, and handles only for
    selected ids, kept across any sequence of gestures and lifecycle events
    (`RunKeepsInv`);
  - toggling splices or appends;
  - selecting then deselecting an id restores the session, apart from the
    volume entry of a successful load (`ToggleTwice`); deselecting then
    reselecting is no undo, since the id moves to the end of the selection
    and gets the new load's handle at full volume;
  - releasing empties the handle and volume maps and keeps the selection
    and the playing flag (`ReleaseEmpties`).
- **The sound picker** (`SoundSelector`): the fixed 19-sound catalog, the
  "selected" test, and the volume slider's displayed value.
- **The repository** (`MareaRepository`): the stored array of compositions
  under the key `mareas`. It covers:
  - the create screen's validation and append;
  - the edit screen's `fecha`-keyed patch;
  - the detail screen's delete-by-name;
  - JavaScript `trim`, which the name check uses.
- **The create, edit and detail screens** (`CrearMarea`, `EditarMarea`,
  `DetalleMarea`):
  - the form classes and their save and reset;
  - the detail screen's sequential playback, pause and teardown, over a
    list of handles.
- **The list screen's date text** (`MisMareas`): `formatFecha`, with a
  decoder for each of its two lines and round-trip lemmas.

Audio handles are opaque values (`Handle`). Whether a backend call fails is
an input:
- an `Option<Handle>` for a load;
- a set of failing handles for play, pause, and stop-and-unload;
- a function from sound to optional handle for the detail screen's opens.

Volumes are integers in hundredths, so 100 is full volume.

The edit screen writes the update time under the key `fechaActualizacion`
(src/screens/EditarMareaScreen.tsx:171). The declared record type names the
field `fechaActualizada` (src/types/marea.ts:15). The model follows the code:
`Marea` carries both keys, and the edit save sets only `fechaActualizacion`.

## Model

| member | source | states |
|---|---|---|
| Seqs.Without | src/screens/CrearMareaScreen.tsx:102 | `filter` on a key: the result holds exactly the entries whose key differs from `k`, and is no longer than the input |
| Seqs.WithoutConcat | src/screens/DetalleMareaScreen.tsx:93 | filtering distributes over concatenation, so survivors keep their relative order |
| Seqs.WithoutAbsent | src/screens/DetalleMareaScreen.tsx:93 | filtering a list that lacks the key returns the list itself |
| Seqs.WithoutOnly | src/screens/CrearMareaScreen.tsx:102 | when the key occurs only at position j, filtering removes exactly that position |
| Seqs.WithoutKeepsDistinct | src/screens/CrearMareaScreen.tsx:102 | filtering keeps keys pairwise distinct |
| SoundSelector.Catalog | src/components/SoundSelector.tsx:19-39 | a constant, no contract of its own; its properties (19 entries, distinct ids) are stated by `CatalogWellFormed` |
| SoundSelector.CatalogAscending | src/components/SoundSelector.tsx:19-39 | proof helper for `CatalogWellFormed`: the catalog ids ascend by their three-letter prefixes, so no two are equal |
| SoundSelector.CatalogWellFormed | src/components/SoundSelector.tsx:19-39 | the catalog has 19 entries and no two share an id |
| SoundSelector.IsSelected | src/components/SoundSelector.tsx:47-49 | an id is selected iff some selected entry carries it |
| SoundSelector.SliderFor | src/components/SoundSelector.tsx:65-71 | a slider appears iff the entry is selected and a volume handler exists; it shows the stored volume, or full volume when none is stored or the stored one is 0; never 0 |
| SoundSelector.ZeroVolumeShowsFull | src/components/SoundSelector.tsx:71 | a stored volume of 0 is displayed as full volume, because `\|\|` treats 0 as missing |
| SoundSession.Playable | src/screens/CrearMareaScreen.tsx:149-154 | the handles playAll starts: one per selected id that has a handle, in selection order, and only those |
| SoundSession.Toggle | src/screens/CrearMareaScreen.tsx:97-133 | toggling a selected id deselects it; an unselected id is added only below the cap of three; no other id's selection, handle or volume changes; the playing flag is kept |
| SoundSession.SelectedWithout | src/screens/CrearMareaScreen.tsx:102 | after removing id k, exactly the other previously selected ids are selected |
| SoundSession.SelectedAppend | src/screens/CrearMareaScreen.tsx:118 | after appending s, exactly the previous ids and s's id are selected |
| SoundSession.ToggleOff | src/screens/CrearMareaScreen.tsx:101-115 | toggling a selected id splices it out at its position; its handle and volume entries are dropped only if it had a handle |
| SoundSession.ToggleAtCap | src/screens/CrearMareaScreen.tsx:117 | toggling an unselected id with three layers selected changes nothing |
| SoundSession.ToggleOn | src/screens/CrearMareaScreen.tsx:116-132 | toggling an unselected id below the cap appends it; a successful load registers the handle at full volume; a failed load leaves both maps as they were but still selects the id |
| SoundSession.VolumeChanged | src/screens/CrearMareaScreen.tsx:135-136 | no contract; `VolumeChangeShown` states that the stored value and the slider show the new volume, and `HandleVolumeChange` and `RunKeepsInv` that the invariant holds |
| SoundSession.Released | src/screens/CrearMareaScreen.tsx:82-95 | no contract; `ReleaseEmpties` states that both maps end empty with the selection and the flag kept, and that releasing twice is releasing once |
| SoundSession.Played | src/screens/CrearMareaScreen.tsx:146-162 | no contract; `PlayedIffAllStarted` states when the session plays afterwards |
| SoundSession.Paused | src/screens/CrearMareaScreen.tsx:164-176 | no contract; `PauseAll` states that the flag is cleared when no handle failed and otherwise kept |
| SoundSession.Backgrounded | src/screens/CrearMareaScreen.tsx:45-55 | no contract; `BackgroundReleases` states its outcome and `RunKeepsInv` that it keeps the invariant |
| SoundSession.ToggleLoads | src/screens/CrearMareaScreen.tsx:118-126 | proof helper for `ToggleTwice`: the complete session after a successful load below the cap |
| SoundSession.ToggleUnloads | src/screens/CrearMareaScreen.tsx:101-114 | proof helper for `ToggleTwice`: the complete session after toggling off an id that holds a handle |
| SoundSession.ToggleKeepsInv | src/screens/CrearMareaScreen.tsx:97-133 | toggling keeps the selection within three distinct ids and keeps every handle tied to a selected id |
| SoundSession.ToggleTwice | src/screens/CrearMareaScreen.tsx:97-133 | selecting and then deselecting a sound restores the session, except that a successfully loaded layer's volume entry is gone |
| SoundSession.ToggleTwiceLoaded | src/screens/CrearMareaScreen.tsx:97-133 | the ToggleTwice case where the load succeeded |
| SoundSession.ToggleTwiceUnloaded | src/screens/CrearMareaScreen.tsx:97-133 | the ToggleTwice case where the load failed: the session is fully restored |
| SoundSession.RemoveAppended | src/screens/CrearMareaScreen.tsx:102 | filtering out the id just appended to a selection that lacked it gives the selection back |
| SoundSession.VolumeChangeShown | src/screens/CrearMareaScreen.tsx:135-136 | after a nonzero volume change on a selected id, the stored value and the slider both show that value |
| SoundSession.FreshLayerShowsFull | src/screens/CrearMareaScreen.tsx:124-126 | a freshly loaded layer's slider shows full volume |
| SoundSession.PlayableAppend | src/screens/CrearMareaScreen.tsx:149-154 | extending the selection by one entry extends the started handles by that entry's handle, if it has one |
| SoundSession.NoneFailAppend | src/screens/CrearMareaScreen.tsx:148-157 | one more started handle keeps "no start failed" iff that handle did not fail |
| SoundSession.Unfailed | src/screens/DetalleMareaScreen.tsx:28-35 | the handles, in order, whose calls go through; never longer than the input |
| SoundSession.UnfailedMembers | src/screens/DetalleMareaScreen.tsx:28-35 | a handle goes through iff it is one of the handles tried and it does not fail |
| SoundSession.UnfailedAppend | src/screens/DetalleMareaScreen.tsx:28-35 | trying one more handle adds it to those that went through iff it does not fail |
| SoundSession.UnfailedStep | src/screens/DetalleMareaScreen.tsx:28-35 | proof helper for the loops: `UnfailedAppend` at position i of a list |
| SoundSession.UnfailedAll | src/screens/CrearMareaScreen.tsx:146-157 | every tried handle goes through iff none fails |
| SoundSession.PlayStep | src/screens/CrearMareaScreen.tsx:146-157 | proof helper for `PlayAll`: one more selected id extends the tries, the started handles and the no-failure flag by that id's handle, if any |
| SoundSession.PlayedIffAllStarted | src/screens/CrearMareaScreen.tsx:146-162 | after playAll the session plays iff it already did or every tried handle started |
| SoundSession.NothingPlayableWithoutHandles | src/screens/CrearMareaScreen.tsx:150-151 | with no handles loaded, playAll starts nothing |
| SoundSession.ReleaseEmpties | src/screens/CrearMareaScreen.tsx:82-95 | releasing empties both maps, keeps the selection and the playing flag, and is idempotent |
| SoundSession.BackgroundReleases | src/screens/CrearMareaScreen.tsx:45-55 | leaving the foreground empties both maps and keeps the selection; the session still counts as playing iff it was playing and some handle failed to pause |
| SoundSession.RunKeepsInv | src/screens/CrearMareaScreen.tsx:97-176 | after any sequence of toggles, volume changes, play, pause, release and backgrounding, there are at most three selected ids, none twice, and every handle belongs to a selected id |
| SoundSession.LayerSession.constructor | src/screens/CrearMareaScreen.tsx:35-40 | a session starts from the given selection, with no handles, no volumes and not playing |
| SoundSession.LayerSession.ToggleSound | src/screens/CrearMareaScreen.tsx:97-133 | the new state is `Toggle` of the old one, so the session invariant is preserved; the released handle is the one registered for a deselected id, unless its stop or unload throws (then the unload after a failing stop is skipped and nothing is reported released, though the registry still drops it) |
| SoundSession.LayerSession.HandleVolumeChange | src/screens/CrearMareaScreen.tsx:135-144 | the volume is recorded for the id whether or not a handle exists; the handle it is applied to is that id's handle, if any; the session invariant is preserved |
| SoundSession.LayerSession.StopAndUnloadAll | src/screens/CrearMareaScreen.tsx:82-95 | the released handles are the registered ones except those whose stop or unload throws (a failing stop skips that handle's unload); both maps end empty either way, nothing else changes, and the session invariant is preserved |
| SoundSession.LayerSession.PlayAll | src/screens/CrearMareaScreen.tsx:146-162 | it tries exactly the selected ids' handles in selection order; the started ones are those tries minus the handles whose rewind or start throws (a failing rewind skips that handle's play); the session is playing afterwards iff it was already playing or none failed; the session invariant is preserved |
| SoundSession.LayerSession.PauseAll | src/screens/CrearMareaScreen.tsx:164-176 | it asks every registered handle to pause; the playing flag is set to false when none of them failed, and otherwise kept; the session invariant is preserved |
| SoundSession.LayerSession.OnAppStateChange | src/screens/CrearMareaScreen.tsx:45-55 | on a non-active state, pause all and then release all, the released handles leaving out those whose stop or unload throws; on the active state, nothing changes; the session invariant is preserved |
| SoundSession.LayerSession.Reset | src/screens/CrearMareaScreen.tsx:77-79 | the selection is cleared, playing stops, every handle is dropped, and the released ones are all but those whose stop or unload throws; the result satisfies the session invariant |
| MareaRepository.Load | src/screens/MisMareasScreen.tsx:21-22 | no contract; `LoadAbsentIsEmpty` states that a missing value reads as the empty list, and `SavedIsListed` that a save reads back |
| MareaRepository.LoadAbsentIsEmpty | src/screens/MisMareasScreen.tsx:21-22 | a missing stored value reads as the empty list |
| MareaRepository.TrimStart | src/screens/CrearMareaScreen.tsx:179 | the result is a suffix of the input, the dropped prefix is all white space, and the result does not start with white space |
| MareaRepository.TrimEnd | src/screens/CrearMareaScreen.tsx:179 | the result is a prefix of the input, the dropped suffix is all white space, and the result does not end with white space |
| MareaRepository.Trim | src/screens/CrearMareaScreen.tsx:179 | no contract; `TrimEmptyIffBlank` states when the trimmed name is empty |
| MareaRepository.BlankCons | src/screens/CrearMareaScreen.tsx:179 | proof helper: a non-empty string is blank iff its first character is white space and the rest is blank |
| MareaRepository.BlankSnoc | src/screens/CrearMareaScreen.tsx:179 | proof helper: a non-empty string is blank iff its last character is white space and the rest is blank |
| MareaRepository.TrimStartEmptyIffBlank | src/screens/CrearMareaScreen.tsx:179 | trimming the front leaves nothing iff the string is entirely white space |
| MareaRepository.TrimEndEmptyIffBlank | src/screens/CrearMareaScreen.tsx:179 | trimming the back leaves nothing iff the string is entirely white space |
| MareaRepository.TrimEmptyIffBlank | src/screens/CrearMareaScreen.tsx:179 | `nombre.trim()` is empty iff the name is entirely white space (JavaScript's white-space and line-terminator set) |
| MareaRepository.NuevaMarea | src/screens/CrearMareaScreen.tsx:191-198 | no contract; `SaveNew` and `SavedIsListed` state that the record written and listed last is this one, built from the form with no `id` and no update time |
| MareaRepository.SaveNew | src/screens/CrearMareaScreen.tsx:178-204 | a save is refused iff the name is blank or no sound is selected, and the name is checked first; otherwise the list written is the old list followed by the new record |
| MareaRepository.SavedIsListed | src/screens/CrearMareaScreen.tsx:200-204 | reading back after a valid save gives the old records, then the new record |
| MareaRepository.Patched | src/screens/EditarMareaScreen.tsx:164-172 | no contract; `ReplaceByFecha` states which fields a matching record takes from the form and which it keeps |
| MareaRepository.ReplaceByFecha | src/screens/EditarMareaScreen.tsx:162-174 | the length is kept; records with another `fecha` are untouched; matching records take the form's fields and `fechaActualizacion := now`; every record keeps its `id`, `fecha` and `fechaActualizada` |
| MareaRepository.ReplaceNoMatch | src/screens/EditarMareaScreen.tsx:162-174 | when no record has the edited `fecha`, the written list equals the stored one |
| MareaRepository.ReplaceSingleMatch | src/screens/EditarMareaScreen.tsx:162-174 | when exactly one record matches, only that position is replaced by the patched record |
| MareaRepository.RemoveByNombre | src/screens/DetalleMareaScreen.tsx:93 | a record survives iff it was stored and has another name |
| MareaRepository.RemoveKeepsOrder | src/screens/DetalleMareaScreen.tsx:93 | deleting distributes over any split of the list, so survivors keep their order |
| MareaRepository.RemoveAbsentName | src/screens/DetalleMareaScreen.tsx:93 | deleting a name that no record has leaves the list unchanged |
| MareaRepository.RemoveDeletesDuplicates | src/screens/DetalleMareaScreen.tsx:93 | every record sharing the name is deleted, not just one |
| CrearMarea.SelectedLabels | src/screens/CrearMareaScreen.tsx:214 | no contract; `SelectedLabelsAppend` states how one more layer extends the preview line |
| CrearMarea.SelectedLabelsAppend | src/screens/CrearMareaScreen.tsx:214 | selecting one more layer extends the preview line by " + " and that layer's name |
| CrearMarea.CrearMareaForm.constructor | src/screens/CrearMareaScreen.tsx:31-40 | the form starts at its defaults (`""`, `#007BFF`, 50, `""`) with an empty, silent session |
| CrearMarea.CrearMareaForm.ResetFormulario | src/screens/CrearMareaScreen.tsx:72-80 | the fields return to their defaults, the selection is cleared, playing stops, every handle is dropped, and the released ones are all but those whose stop or unload throws |
| CrearMarea.CrearMareaForm.HandleGuardarMarea | src/screens/CrearMareaScreen.tsx:178-212 | the outcome is `SaveNew` of the form before the call; a successful save resets the form; a refused save changes nothing |
| EditarMarea.EditarMareaForm.constructor | src/screens/EditarMareaScreen.tsx:34-43 | the form holds the record's fields and its sounds as the selection, with no handles, no volumes and not playing |
| EditarMarea.EditarMareaForm.GuardarCambios | src/screens/EditarMareaScreen.tsx:156-176 | the written list is the stored list with the `fecha`-matching records patched, and it has the same length; nothing is validated |
| EditarMarea.RestoredLayersStartSilent | src/screens/EditarMareaScreen.tsx:126-141 | right after opening, playAll starts no handle, yet the screen switches to playing |
| DetalleMarea.OpenedAll | src/screens/DetalleMareaScreen.tsx:61-71 | all sounds open iff each open succeeds, and then the handles are those opens' results, in order |
| DetalleMarea.DetalleMareaPlayer.constructor | src/screens/DetalleMareaScreen.tsx:22-23 | the screen starts with no handles and not playing |
| DetalleMarea.DetalleMareaPlayer.Reproducir | src/screens/DetalleMareaScreen.tsx:61-75 | it opens the sounds in order and stops at the first failure; the handles started so far are reported; only when all open do they become the screen's handles, and the screen plays; otherwise the state is unchanged |
| DetalleMarea.DetalleMareaPlayer.Pausar | src/screens/DetalleMareaScreen.tsx:77-87 | it stops handles in order up to the first failing one; the handle list is kept; playing stops only when every handle stopped |
| DetalleMarea.DetalleMareaPlayer.Liberar | src/screens/DetalleMareaScreen.tsx:28-37 | each handle is stopped and unloaded in order; the released ones are, in order, those whose stop or unload does not throw (a failing stop skips that handle's unload); the list ends empty and playing stops |
| DetalleMarea.DetalleMareaPlayer.OnAppStateChange | src/screens/DetalleMareaScreen.tsx:26-39 | on a non-active state, the handles are released as by `Liberar` (failing ones left out) and the screen stops; on the active state, nothing changes |
| DetalleMarea.DetalleMareaPlayer.OnBeforeRemove | src/screens/DetalleMareaScreen.tsx:41-52 | before the screen is removed, the handles are released as by `Liberar` (failing ones left out) and the screen stops |
| DetalleMarea.DetalleMareaPlayer.OnCleanup | src/screens/DetalleMareaScreen.tsx:54-58 | the effect cleanup asks every current handle to unload, in order, without awaiting or catching, and leaves the state alone |
| DetalleMarea.DetalleMareaPlayer.HandleEliminar | src/screens/DetalleMareaScreen.tsx:89-94 | the written list is the stored list without any composition of this name |
| MisMareas.FormatFecha | src/screens/MisMareasScreen.tsx:33-55 | no contract; `DiaTextoRoundTrip` and `HoraTextoRoundTrip` state that both lines decode back to the calendar fields they were built from |
| MisMareas.DigitChar | src/screens/MisMareasScreen.tsx:45 | a decimal digit character for each digit value |
| MisMareas.NatToString | src/screens/MisMareasScreen.tsx:48 | `String(n)`: non-empty, digits only, no leading zero, one character iff n < 10 |
| MisMareas.PadStart2 | src/screens/MisMareasScreen.tsx:48-49 | `padStart(2, "0")`: a string shorter than two gets leading zeros up to length two; longer strings are kept |
| MisMareas.ParseNatToString | src/screens/MisMareasScreen.tsx:45 | reading back a number's decimal text gives the number |
| MisMareas.ParseNatLeadingZero | src/screens/MisMareasScreen.tsx:48-49 | a leading zero does not change a digit string's value |
| MisMareas.ParseIntToString | src/screens/MisMareasScreen.tsx:47 | reading back a year's text, sign included, gives the year |
| MisMareas.TwoDigits | src/screens/MisMareasScreen.tsx:48-49 | a number below 100, zero-padded, is exactly two digits that read back as the number |
| MisMareas.SplitSpaces | src/screens/MisMareasScreen.tsx:52 | decoder side of the date-line round trip for src/screens/MisMareasScreen.tsx:52 (the screen itself only joins): splitting on spaces always yields at least one piece |
| MisMareas.SplitWord | src/screens/MisMareasScreen.tsx:52 | decoder side of the date-line round trip for src/screens/MisMareasScreen.tsx:52 (the screen itself only joins): a space-free word followed by a space splits off as the first piece |
| MisMareas.SplitSingle | src/screens/MisMareasScreen.tsx:52 | decoder side of the date-line round trip for src/screens/MisMareasScreen.tsx:52 (the screen itself only joins): a space-free word splits into itself alone |
| MisMareas.IndexOf | src/screens/MisMareasScreen.tsx:36-42 | decoder side of the round trip for the name tables: a found position holds the name; no position is found iff the name is absent from the table |
| MisMareas.DiasSemanaDistinct | src/screens/MisMareasScreen.tsx:36-38 | the seven weekday names are pairwise distinct |
| MisMareas.MesesDistinct | src/screens/MisMareasScreen.tsx:39-42 | the twelve month names are pairwise distinct |
| MisMareas.DiasSemanaNoSpace | src/screens/MisMareasScreen.tsx:36-38 | no weekday name contains a space |
| MisMareas.MesesNoSpace | src/screens/MisMareasScreen.tsx:39-42 | no month name contains a space |
| MisMareas.TablesAreWordTables | src/screens/MisMareasScreen.tsx:36-42 | both name tables are free of duplicates and spaces |
| MisMareas.IndexOfWordTable | src/screens/MisMareasScreen.tsx:44-46 | looking up a table's k-th name gives k back |
| MisMareas.NoSpaceInNumbers | src/screens/MisMareasScreen.tsx:45-47 | the day and year text contain no space |
| MisMareas.SplitDiaTexto | src/screens/MisMareasScreen.tsx:52 | decoder side of the date-line round trip for src/screens/MisMareasScreen.tsx:52 (the screen itself only joins): the date line splits back into its six words |
| MisMareas.DiaWordsRoundTrip | src/screens/MisMareasScreen.tsx:44-52 | the six words of a formatted date line decode to its weekday, day, month and year |
| MisMareas.DiaTextoRoundTrip | src/screens/MisMareasScreen.tsx:33-52 | decoding the date line of `formatFecha` gives back the weekday, day, month and year |
| MisMareas.HoraLineReadsBack | src/screens/MisMareasScreen.tsx:53 | proof helper for `HoraTextoRoundTrip`: any two two-digit fields joined as an hour line are 12 characters and read back as their values |
| MisMareas.HoraTextoRoundTrip | src/screens/MisMareasScreen.tsx:48-53 | for hours and minutes below 100, the hour line is 12 characters and decodes to the same hour and minute |

## Left out

- The audio backend (expo-av) is left out. A handle is an opaque value. One load stands for `createAsync`, `setIsLoopingAsync` and `setVolumeAsync` together. A handle created before a later step of the same load fails is not tracked.
- Storage (AsyncStorage) is a parameter, not a service. A stored value is `Option<seq<Marea>>`, and each save returns the list it would write. JSON parsing and serialising, parse failures and write failures are left out. So are the alerts and the "not reset on error" path they trigger.
- Two backend calls made for one handle inside one `try` (stop then unload; rewind then play) are modelled as one step. A handle is in the failing set when either call throws, and it then counts as neither released nor started. The model does not say which of the two calls threw. This applies to `LayerSession.ToggleSound`, `LayerSession.StopAndUnloadAll`, `LayerSession.PlayAll`, `DetalleMareaPlayer.Liberar` and `DetalleMareaPlayer.Pausar` (pause then stop, so a handle whose pause succeeds and whose stop throws ends paused but not stopped, and the model only records it as failing).
- DetalleMarea.DetalleMareaPlayer.OnCleanup: the unloads it starts are neither awaited nor caught, so the model only reports which handles were asked.
- Concurrency is left out. `Promise.all` is modelled as a sequential pass. Its first-failure rejection is modelled as "the flag update is skipped if any call fails". Interleavings of overlapping async handlers are not modelled.
- React hook semantics are left out. The listeners registered once (src/screens/CrearMareaScreen.tsx:45-70, src/screens/EditarMareaScreen.tsx:46-61) capture the first render's `soundObjects`. The model gives them the current state instead. Deferred and batched `setState` updates are treated as immediate.
- The create screen's blur cleanup (src/screens/CrearMareaScreen.tsx:62-70) and unmount cleanup run `stopAndUnloadAll`, so `LayerSession.StopAndUnloadAll` and `ResetFormulario` cover them.
- The edit screen's session has the same toggle, volume, play, pause, listener and release code as the create screen (src/screens/EditarMareaScreen.tsx:46-154). `LayerSession` models both. The rows above cite the create screen.
- Volumes are integers in hundredths, not floating point. The slider's 0..1 range in steps of 0.01 becomes 0..100 in steps of 1.
- Timestamps are left out. `new Date().toISOString()` is a string parameter (`fecha`, `fechaActual`). For `formatFecha`, the calendar fields that `Date` would extract are parameters.
- MisMareas.FormatFecha: ISO parsing, time zones and the `Invalid Date` case (NaN fields) are not modelled. It requires a weekday index below 7 and a month index below 12, which any valid `Date` provides.
- MisMareas.HoraTextoRoundTrip: it requires hours and minutes below 100, since a clock gives 0..23 and 0..59. For three-digit values, `padStart` would not pad and the line would be longer.
- The detail screen's `toLocaleDateString` text is not modelled.
- Navigation and rendering are left out: screen transitions, `CommonActions.reset`, alerts, keyboard handling, the colour picker, the intensity slider's widget and the list layout.
- Sound: the catalog field `label` is named `caption`, because `label` is a reserved word in Dafny.
- The list screen's `focus` reload (src/screens/MisMareasScreen.tsx:18-31) is modelled only as `Load`. The error path only logs.
