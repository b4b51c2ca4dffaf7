/**
 * The sound picker: the fixed catalog, the "is this entry selected" test and
 * the per-layer volume slider shown under a selected entry.
 * Volumes are integers in hundredths: 100 stands for full volume (1.0).
 */
module SoundSelector {
  import opened Wrappers
  import opened MareaTypes
  import opened Seqs

  /** Full volume (1.0), the slider's fallback value; the slider runs from 0 to 1 in steps of 0.01. */
  const FullVolume: int := 100

  /** The 19 sounds a composition can use, in display order. */
  const Catalog: seq<Sound> := [
    Sound("arpa", "Arpa",
          "https://drive.google.com/uc?export=download&id=11EojLqCB3-lnfKkh8iMjwlGwKQlEv_a_"),
    Sound("boligrafo", "Bolígrafo",
          "https://drive.google.com/uc?export=download&id=1RI9Xl25xxYM0yw4YDjv4oXKvnkvPKs5N"),
    Sound("brillos", "Brillos",
          "https://drive.google.com/uc?export=download&id=1C5Tk-tCXWLA1BEmahQxJwJl9mEjw2Vq0"),
    Sound("calles", "Ciudad",
          "https://drive.google.com/uc?export=download&id=1h-YucY8zzTyW2AhnEPmB-pnr5hgIbiOg"),
    Sound("campanas", "Campanas",
          "https://drive.google.com/uc?export=download&id=1Dkh9FGCL6ISubN3DmNHbl84zDmB-EDtA"),
    Sound("eco", "Eco",
          "https://drive.google.com/uc?export=download&id=1Bm7jMlCAcuiy6kIum0VyENzi_XMY_5MR"),
    Sound("flauta", "Flauta",
          "https://drive.google.com/uc?export=download&id=1Jbjc-wZuah6miXJVqq9qAVDx3Jq3V5WT"),
    Sound("fogata", "Fogata",
          "https://drive.google.com/uc?export=download&id=1T5KtKiWVADequOR_X5jO0_8p-b-_6kCz"),
    Sound("latido", "Latidos",
          "https://drive.google.com/uc?export=download&id=1iTfcISCZe_OiPD0NlJG4-G4zmYnYXSwY"),
    Sound("madera", "Madera",
          "https://drive.google.com/uc?export=download&id=1sZrDvT4PitdVHRU0jw-9526heWsxcQT_"),
    Sound("metro", "Metro",
          "https://drive.google.com/uc?export=download&id=1HOqYDjwDXKFt_73-M_suK2DNH0Fr3SD-"),
    Sound("pajaros", "Pájaros",
          "https://drive.google.com/uc?export=download&id=1VVTJO4aph__lclC4ym75LgvX36TsJBfH"),
    Sound("payaso", "Payaso",
          "https://drive.google.com/uc?export=download&id=1p1jmP4ktlDGj_xbV1AAHOZK9QeDOQ9pO"),
    Sound("piano", "Piano",
          "https://docs.google.com/uc?export=download&id=1JAElEXerfdfyCqR45CKZvLLN7NQ6QrC6"),
    Sound("playa", "Playa",
          "https://drive.google.com/uc?export=download&id=1DYcfg5d7NEE5UmIREY_VjnRRB23n0xFw"),
    Sound("reloj", "Reloj",
          "https://drive.google.com/uc?export=download&id=163jTcZkuQEcnV-766rqqd9xKiewfmhhU"),
    Sound("silbido", "Silbido",
          "https://drive.google.com/uc?export=download&id=1FJjTUja9N8DOWy2yElfyWJzjwSXK-eiZ"),
    Sound("viento", "Viento",
          "https://drive.google.com/uc?export=download&id=1oE53Y0BYdU9-SieA8CJ-uabKJaR6BfP6"),
    Sound("violin", "Violín",
          "https://drive.google.com/uc?export=download&id=1U99wmsaTQFYNuyw1m7EGu-0sxuTsGLEF")
  ]

  /** No two entries of `sounds` share an id. */
  predicate DistinctIds(sounds: seq<Sound>)
  {
    DistinctKeys(sounds, IdOf)
  }

  /**
   * The first three characters of an id packed into one number, ordered like
   * the characters themselves (-1 for ids shorter than three).
   */
  function PrefixCode(id: string): int
  {
    if |id| < 3 then -1
    else (id[0] as int) * 0x1_0000_0000 + (id[1] as int) * 0x1_0000 + id[2] as int
  }

  /** Consecutive catalog entries have strictly ascending id prefixes (the catalog is alphabetical). */
  lemma CatalogAscending()
    ensures forall k :: 0 <= k < |Catalog| - 1 ==> PrefixCode(Catalog[k].id) < PrefixCode(Catalog[k + 1].id)
  {
  }

  /** The catalog has 19 entries and its ids are pairwise distinct. */
  lemma CatalogWellFormed()
    ensures |Catalog| == 19
    ensures DistinctIds(Catalog)
  {
    CatalogAscending();
    forall i, j | 0 <= i < j < |Catalog|
      ensures PrefixCode(Catalog[i].id) < PrefixCode(Catalog[j].id)
    {
      var k := i + 1;
      while k < j
        invariant i < k <= j
        invariant PrefixCode(Catalog[i].id) < PrefixCode(Catalog[k].id)
      {
        k := k + 1;
      }
    }
  }

  /** Whether some selected entry has the id `id` (a `some` scan over the selection). */
  function IsSelected(selected: seq<Sound>, id: string): (r: bool)
    ensures r <==> exists i :: 0 <= i < |selected| && selected[i].id == id
  {
    if selected == [] then false
    else selected[0].id == id || IsSelected(selected[1..], id)
  }

  /**
   * The volume slider under catalog entry `item`: absent unless the entry is
   * selected and the screen supplied a volume handler; otherwise it shows the
   * stored volume, falling back to full volume when none is stored or the
   * stored one is 0.
   */
  function SliderFor(selected: seq<Sound>, volumes: map<string, int>, hasHandler: bool, item: Sound): (r: Option<int>)
    ensures r.Some? <==> IsSelected(selected, item.id) && hasHandler
    ensures r.Some? ==> r.value != 0
    ensures r.Some? && item.id in volumes && volumes[item.id] != 0 ==> r.value == volumes[item.id]
    ensures r.Some? && (item.id !in volumes || volumes[item.id] == 0) ==> r.value == FullVolume
  {
    if IsSelected(selected, item.id) && hasHandler then
      Some(if item.id in volumes && volumes[item.id] != 0 then volumes[item.id] else FullVolume)
    else None
  }

  /** A stored volume of 0 is displayed as full volume: `||` treats 0 like a missing entry. */
  lemma ZeroVolumeShowsFull(selected: seq<Sound>, volumes: map<string, int>, item: Sound)
    requires IsSelected(selected, item.id)
    requires item.id in volumes && volumes[item.id] == 0
    ensures SliderFor(selected, volumes, true, item) == Some(FullVolume)
  {
  }
}
