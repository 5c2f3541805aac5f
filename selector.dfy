/**
 * The daily selection. A date's seed is its ISO string; a generator seeded
 * from it shuffles the four volume names and the first two are the day's
 * volumes. Each volume's halacha is drawn by its own generator (seeded from
 * the ISO string with "-1" or "-2" appended); a failed draw is replaced by
 * a fallback halacha whose siman comes from the day's generator.
 *
 * Pairs are cached in two tiers: an in-memory map and a per-date snapshot
 * file, with a third map for the day's formatted messages. The snapshot is
 * written only for a pair without a fallback; the memory map always keeps
 * the pair.
 */
module Selector {
  import opened Wrappers
  import opened Text
  import opened Decimal
  import opened Dates
  import opened Models
  import opened Random
  import opened Sefaria
  import opened Formatter

  /** The text of a fallback halacha. */
  const FallbackText: string := FallbackMarker + " את הטקסט כרגע. לחץ על הקישור לקריאה בספריא."

  /** The words that mark a fallback text; a pair holding them is not saved. */
  const FallbackMarker: string := "לא ניתן לטעון"

  const FallbackUrlPrefix: string := "https://www.sefaria.org/"

  /** Why no pair could be produced: the catalog file is missing
      (`FileNotFoundError`), a chosen volume is not in it (`RuntimeError`),
      or a snapshot pairs two halachot of one volume (`ValueError`). */
  datatype SelectError = CatalogMissing | VolumeMissing | InvalidPair

  /** A snapshot file: unreadable (bad JSON, a missing key, a wrong type),
      or the pair's fields and, when the file has them, the formatted
      messages. */
  datatype StoredFile =
    | Corrupt
    | Stored(first: Halacha, second: Halacha, dateSeed: string, messages: Option<seq<string>>)

  // ---------------------------------------------------------------------
  // Seeds and file names
  // ---------------------------------------------------------------------

  /** `_get_daily_seed`: the ISO date, from which the date can be read back. */
  function DailySeed(d: Date): (s: string)
    ensures |s| == 10 && ParseIso(s) == Some(d)
  {
    IsoRoundTrip(d);
    IsoFormat(d)
  }

  /** `_get_cache_path`: `pair_<ISO date>.json` in the cache directory. */
  function CachePath(d: Date): string {
    "pair_" + DailySeed(d) + ".json"
  }

  /** Different dates never share a snapshot file. */
  lemma CachePathInjective(d1: Date, d2: Date)
    requires CachePath(d1) == CachePath(d2)
    ensures d1 == d2
  {
    assert CachePath(d1)[5..15] == DailySeed(d1);
    assert CachePath(d2)[5..15] == DailySeed(d2);
  }

  // ---------------------------------------------------------------------
  // Choosing the two volumes
  // ---------------------------------------------------------------------

  lemma VolumeNamesDistinct()
    ensures |VolumeNames| == 4 && NoDuplicates(VolumeNames)
  {
    assert VolumeNames[0][0] == 'O' && VolumeNames[1][0] == 'Y';
    assert VolumeNames[2][0] == 'E' && VolumeNames[3][0] == 'C';
  }

  /** `_select_two_volumes`: shuffle the names, look up the first two. */
  function SelectVolumes(catalogFile: Option<seq<Volume>>, g: Rng): (r: (Result<(Volume, Volume), SelectError>, Rng))
    ensures r.0.Ok? ==> catalogFile.Some? && r.0.value.0 in catalogFile.value && r.0.value.1 in catalogFile.value
  {
    var (names, g') := Shuffled(VolumeNames, g);
    if catalogFile.None? then (Err(CatalogMissing), g')
    else
      var v1 := FindVolume(catalogFile.value, names[0]);
      var v2 := FindVolume(catalogFile.value, names[1]);
      if v1.None? || v2.None? then (Err(VolumeMissing), g')
      else (Ok((v1.value, v2.value)), g')
  }

  /** The two volumes are the catalog entries named by the first two names
      of a shuffle of the four names, so they always differ; the selection
      fails exactly when the catalog is missing or lacks one of those two
      names. */
  lemma SelectVolumesSpec(catalogFile: Option<seq<Volume>>, g: Rng)
    ensures var names := Shuffled(VolumeNames, g).0;
            var r := SelectVolumes(catalogFile, g).0;
            |names| == 4 &&
            (r.Ok? ==> r.value.0.volume == names[0] && r.value.1.volume == names[1] &&
                       r.value.0.volume != r.value.1.volume &&
                       names[0] in VolumeNames && names[1] in VolumeNames) &&
            (r == Err(CatalogMissing) <==> catalogFile.None?) &&
            (r == Err(VolumeMissing) <==>
               catalogFile.Some? &&
               (FindVolume(catalogFile.value, names[0]).None? || FindVolume(catalogFile.value, names[1]).None?))
  {
    var names := Shuffled(VolumeNames, g).0;
    VolumeNamesDistinct();
    ShuffledPermutes(VolumeNames, g);
    assert names[0] in multiset(names) && names[1] in multiset(names);
  }

  // ---------------------------------------------------------------------
  // The fallback halacha
  // ---------------------------------------------------------------------

  /** `_get_fallback_halacha`: a random siman of the volume, seif 1, the
      fallback text and a link to the siman's page. */
  function Fallback(volume: Volume, g: Rng): (r: (Halacha, Rng))
    requires volume.maxSiman >= 1
    ensures r.0.volume == volume && r.0.seif == Some(1) && 1 <= r.0.siman <= volume.maxSiman
    ensures r.1.draws == g.draws && r.1.used == g.used + 1
  {
    var (siman, g') := RandInt(g, 1, volume.maxSiman);
    (Halacha(volume, siman, Some(1), FallbackText,
             FallbackUrlPrefix + ReplaceChar(volume.refBase, ' ', '_') + "." + IntToString(siman)), g')
  }

  /** A fallback's text carries the marker. */
  lemma FallbackMarked(volume: Volume, g: Rng)
    requires volume.maxSiman >= 1
    ensures Contains(Fallback(volume, g).0.hebrewText, FallbackMarker)
  {
    ContainsPrefix(FallbackText, FallbackMarker, FallbackText[|FallbackMarker|..]);
  }

  lemma ReplaceCharAppend(a: string, b: string, x: char, y: char)
    ensures ReplaceChar(a + b, x, y) == ReplaceChar(a, x, y) + ReplaceChar(b, x, y)
  {
  }

  lemma ReplaceCharAbsent(s: string, x: char, y: char)
    requires forall i :: 0 <= i < |s| ==> s[i] != x
    ensures ReplaceChar(s, x, y) == s
  {
  }

  /** The fallback links to the same page as a fetched whole siman. */
  lemma FallbackLink(volume: Volume, g: Rng)
    requires volume.maxSiman >= 1
    ensures var h := Fallback(volume, g).0;
            h.sefariaUrl == WebLink(SimanReference(volume, h.siman))
  {
    var h := Fallback(volume, g).0;
    var num := IntToString(h.siman);
    ReplaceCharAppend(volume.refBase, "." + num, ' ', '_');
    ReplaceCharAbsent("." + num, ' ', '_');
    assert FallbackUrlPrefix == WebUrl + "/";
  }

  // ---------------------------------------------------------------------
  // Length bounds that let a day be formatted
  // ---------------------------------------------------------------------

  /** A catalog volume with simanim to draw from and names of bounded length. */
  predicate ShortVolume(v: Volume) {
    1 <= v.maxSiman < 1000000 && |v.refBase| <= 1000 && |v.volumeHe| <= 1000
  }

  predicate ShortCatalog(catalogFile: Option<seq<Volume>>) {
    catalogFile.Some? ==> forall v :: v in catalogFile.value ==> ShortVolume(v)
  }

  predicate CompactStore(store: map<string, StoredFile>) {
    forall p :: p in store && store[p].Stored? ==> Compact(store[p].first) && Compact(store[p].second)
  }

  predicate CompactMemory(memory: map<string, DailyPair>) {
    forall k :: k in memory ==> Compact(memory[k].first) && Compact(memory[k].second)
  }

  lemma CompactStoreInsert(store: map<string, StoredFile>, path: string, f: StoredFile)
    requires CompactStore(store)
    requires f.Stored? ==> Compact(f.first) && Compact(f.second)
    ensures CompactStore(store[path := f])
  {
  }

  lemma SimanNumberLength(siman: int)
    requires 1 <= siman < 1000000
    ensures |IntToString(siman)| <= 6
  {
    assert Pow10(6) == 1000000;
    NatToStringLength(siman, 6);
  }

  /** A whole siman or its first seif of a short volume is compact when
      it links to the siman's page. */
  lemma SimanCompact(h: Halacha)
    requires ShortVolume(h.volume) && 1 <= h.siman <= h.volume.maxSiman
    requires h.seif == None || h.seif == Some(1)
    requires h.sefariaUrl == WebLink(SimanReference(h.volume, h.siman))
    ensures Compact(h)
  {
    SimanNumberLength(h.siman);
    assert |IntToString(1)| == 1;
    assert |WebUrl| == 23;
    assert |h.sefariaUrl| <= |h.volume.refBase| + 31;
  }

  lemma FallbackCompact(volume: Volume, g: Rng)
    requires ShortVolume(volume)
    ensures Compact(Fallback(volume, g).0)
  {
    FallbackLink(volume, g);
    SimanCompact(Fallback(volume, g).0);
  }

  lemma FetchedSimanCompact(getText: string -> Fetched, volume: Volume, siman: int)
    requires ShortVolume(volume) && 1 <= siman <= volume.maxSiman
    ensures var h := FetchFullSiman(getText, volume, siman);
            h.Some? ==> Compact(h.value)
  {
    var h := FetchFullSiman(getText, volume, siman);
    if h.Some? {
      assert Reference(h.value) == SimanReference(volume, siman);
      SimanCompact(h.value);
    }
  }

  /** Every halacha fetched from a short volume is compact. */
  lemma FetchedCompact(getText: string -> Fetched, volume: Volume, g: Rng, n: nat)
    requires ShortVolume(volume)
    ensures var r := Attempts(FetchOf(getText, volume), volume.maxSiman, g, n).0;
            r.Some? ==> Compact(r.value)
  {
    var fetch := FetchOf(getText, volume);
    forall siman | 1 <= siman <= volume.maxSiman
      ensures fetch(siman).Some? ==> Compact(fetch(siman).value)
    {
      FetchedSimanCompact(getText, volume, siman);
    }
    AttemptsCompact(fetch, volume.maxSiman, g, n);
  }

  /** Attempts whose every successful fetch in range is compact find only
      compact halachot. */
  lemma AttemptsCompact(fetch: int -> Option<Halacha>, maxSiman: int, g: Rng, n: nat)
    requires maxSiman >= 1
    requires forall siman :: 1 <= siman <= maxSiman && fetch(siman).Some? ==> Compact(fetch(siman).value)
    ensures var r := Attempts(fetch, maxSiman, g, n).0;
            r.Some? ==> Compact(r.value)
  {
    AttemptsFound(fetch, maxSiman, g, n);
  }

  // ---------------------------------------------------------------------
  // A fresh pair
  // ---------------------------------------------------------------------

  /** The fetched halacha, or a fallback drawn from `g`. */
  function OrFallback(h: Option<Halacha>, volume: Volume, g: Rng): (r: (Halacha, Rng))
    requires volume.maxSiman >= 1
  {
    if h.Some? then (h.value, g) else Fallback(volume, g)
  }

  /** The halacha drawn for a volume with its own seeded generator. */
  function Drawn(getText: string -> Fetched, gen: string -> (nat -> nat), volume: Volume, seed: string): Option<Halacha>
    requires volume.maxSiman >= 1
  {
    Attempts(FetchOf(getText, volume), volume.maxSiman, Seeded(gen(seed)), MaxAttempts).0
  }

  /** What `get_daily_pair` computes when neither cache tier has the date. */
  function FreshPair(catalogFile: Option<seq<Volume>>, getText: string -> Fetched,
                     gen: string -> (nat -> nat), d: Date): (r: Result<DailyPair, SelectError>)
    requires ShortCatalog(catalogFile)
    ensures r.Ok? ==> Compact(r.value.first) && Compact(r.value.second)
  {
    var seed := DailySeed(d);
    var (vols, g) := SelectVolumes(catalogFile, Seeded(gen(seed)));
    if vols.Err? then Err(vols.error)
    else
      var (v1, v2) := vols.value;
      var (first, g1) := OrFallback(Drawn(getText, gen, v1, seed + "-1"), v1, g);
      var (second, _) := OrFallback(Drawn(getText, gen, v2, seed + "-2"), v2, g1);
      OrFallbackSpec(getText, gen, v1, seed + "-1", g);
      OrFallbackSpec(getText, gen, v2, seed + "-2", g1);
      match NewDailyPair(first, second, seed)
      case Ok(pair) => Ok(pair)
      case Err(_) => Err(InvalidPair)
  }

  /** A drawn or fallback halacha of a short volume belongs to it, lies in
      its range of simanim and is compact. */
  lemma OrFallbackSpec(getText: string -> Fetched, gen: string -> (nat -> nat), volume: Volume, seed: string, g: Rng)
    requires ShortVolume(volume)
    ensures var h := OrFallback(Drawn(getText, gen, volume, seed), volume, g).0;
            h.volume == volume && 1 <= h.siman <= volume.maxSiman && Compact(h)
  {
    RandomHalachaInVolume(getText, volume, Seeded(gen(seed)), MaxAttempts);
    FetchedCompact(getText, volume, Seeded(gen(seed)), MaxAttempts);
    FallbackCompact(volume, g);
  }

  /** A fresh pair exists exactly when the volumes could be chosen (the two
      volumes differ, so the pair's check never fails), is seeded with the
      ISO date, and holds one halacha of each chosen volume in that order. */
  lemma FreshPairSpec(catalogFile: Option<seq<Volume>>, getText: string -> Fetched,
                      gen: string -> (nat -> nat), d: Date)
    requires ShortCatalog(catalogFile)
    ensures var vols := SelectVolumes(catalogFile, Seeded(gen(DailySeed(d)))).0;
            var r := FreshPair(catalogFile, getText, gen, d);
            (r.Ok? <==> vols.Ok?) &&
            (vols.Err? ==> r == Err(vols.error)) &&
            (r.Ok? ==> r.value.dateSeed == DailySeed(d) &&
                       r.value.first.volume == vols.value.0 && r.value.second.volume == vols.value.1)
  {
    var seed := DailySeed(d);
    var (vols, g) := SelectVolumes(catalogFile, Seeded(gen(seed)));
    SelectVolumesSpec(catalogFile, Seeded(gen(seed)));
    if vols.Ok? {
      var (v1, v2) := vols.value;
      OrFallbackSpec(getText, gen, v1, seed + "-1", g);
      var g1 := OrFallback(Drawn(getText, gen, v1, seed + "-1"), v1, g).1;
      OrFallbackSpec(getText, gen, v2, seed + "-2", g1);
    }
  }

  // ---------------------------------------------------------------------
  // The cache tiers
  // ---------------------------------------------------------------------

  /** The durable tier alone: nothing for a missing or unreadable file; a
      snapshot of two halachot of one volume raises. */
  function SnapshotPair(store: map<string, StoredFile>, d: Date): Result<Option<DailyPair>, SelectError> {
    var path := CachePath(d);
    if path !in store || store[path].Corrupt? then Ok(None)
    else
      var f := store[path];
      match NewDailyPair(f.first, f.second, f.dateSeed)
      case Ok(pair) => Ok(Some(pair))
      case Err(_) => Err(InvalidPair)
  }

  /** `_load_cached_pair`: the memory tier first, then the snapshot. */
  function CachedPair(memory: map<string, DailyPair>, store: map<string, StoredFile>, d: Date): Result<Option<DailyPair>, SelectError> {
    if DailySeed(d) in memory then Ok(Some(memory[DailySeed(d)])) else SnapshotPair(store, d)
  }

  /** The memory tier misses and the snapshot yields a pair. */
  predicate DurableHit(memory: map<string, DailyPair>, store: map<string, StoredFile>, d: Date) {
    DailySeed(d) !in memory && SnapshotPair(store, d).Ok? && SnapshotPair(store, d).value.Some?
  }

  /** The snapshot that `_save_cached_pair` writes. */
  function Snapshot(pair: DailyPair, messages: seq<string>): StoredFile {
    Stored(pair.first, pair.second, pair.dateSeed, Some(messages))
  }

  /** Reading back a written snapshot gives the pair and its messages. */
  lemma SnapshotRoundTrip(store: map<string, StoredFile>, pair: DailyPair, messages: seq<string>, d: Date)
    ensures var store' := store[CachePath(d) := Snapshot(pair, messages)];
            SnapshotPair(store', d) == Ok(Some(pair)) &&
            store'[CachePath(d)].messages == Some(messages)
  {
  }

  /** A pair is saved only when neither text holds the fallback marker. */
  ghost predicate Saveable(pair: DailyPair) {
    !Contains(pair.first.hebrewText, FallbackMarker) && !Contains(pair.second.hebrewText, FallbackMarker)
  }

  /** A pair with a fallback halacha is never saved. */
  lemma FallbackNotSaveable(pair: DailyPair, volume: Volume, g: Rng)
    requires volume.maxSiman >= 1
    requires pair.first == Fallback(volume, g).0 || pair.second == Fallback(volume, g).0
    ensures !Saveable(pair)
  {
    FallbackMarked(volume, g);
  }

  /** The selector and the module-level caches it shares. */
  class HalachaSelector {
    const client: SefariaClient
    /** SHA-256 of a seed string, fed to Python's Mersenne Twister: the stream of raw draws. */
    const gen: string -> (nat -> nat)
    /** The welcome text, as `format_welcome_message` returns it. */
    const welcome: string
    var memory: map<string, DailyPair>       // `_memory_cache`, keyed by ISO date
    var messages: map<string, seq<string>>   // `_message_cache`, keyed by ISO date
    var store: map<string, StoredFile>       // snapshot files, keyed by file name

    ghost predicate Valid()
      reads this, client
    {
      client.Valid() && ShortCatalog(client.catalogFile) && CompactStore(store) && CompactMemory(memory)
    }

    /** Every date with cached messages also has its pair in memory: the
        message tier is filled only by a promotion, which fills both, or by
        a save, which the memory write follows. */
    ghost predicate Paired()
      reads this
    {
      forall k :: k in messages ==> k in memory
    }

    constructor (client: SefariaClient, gen: string -> (nat -> nat), store: map<string, StoredFile>)
      requires client.Valid() && ShortCatalog(client.catalogFile) && CompactStore(store)
      ensures Valid() && Paired()
      ensures this.client == client && this.gen == gen && this.store == store
      ensures welcome == WelcomeText
      ensures memory == map[] && messages == map[]
    {
      this.client := client;
      this.gen := gen;
      this.store := store;
      welcome := WelcomeText;
      memory := map[];
      messages := map[];
    }

    /** The messages cached for a pair: the welcome, then the day's messages. */
    function DayMessages(pair: DailyPair, d: Date): (msgs: seq<string>)
      requires Compact(pair.first) && Compact(pair.second)
      ensures |msgs| >= 3 && msgs[0] == welcome
    {
      CompactDailyFits(pair, d);
      FormatDailySpec(pair, d);
      [welcome] + FormatDaily(pair, d)
    }

    /** The messages a loaded snapshot contributes: its own, or freshly formatted. */
    function LoadedMessages(f: StoredFile, pair: DailyPair, d: Date): seq<string>
      requires f.Stored? && Compact(pair.first) && Compact(pair.second)
    {
      if f.messages.Some? then f.messages.value else DayMessages(pair, d)
    }

    /** What `get_daily_pair` returns on caches in the given state: the
        cached pair, the error the snapshot raised, or a fresh pair. */
    function PairFrom(memory: map<string, DailyPair>, store: map<string, StoredFile>, d: Date): (r: Result<DailyPair, SelectError>)
      requires ShortCatalog(client.catalogFile) && CompactMemory(memory) && CompactStore(store)
      ensures r.Ok? ==> Compact(r.value.first) && Compact(r.value.second)
    {
      var cached := CachedPair(memory, store, d);
      if cached.Err? then Err(cached.error)
      else if cached.value.Some? then Ok(cached.value.value)
      else FreshPair(client.catalogFile, client.getText, gen, d)
    }

    /** What `get_cached_messages` returns on caches in the given state:
        the message tier, else what loading the snapshot puts there. */
    function CachedMessagesFrom(messages: map<string, seq<string>>, memory: map<string, DailyPair>,
                                store: map<string, StoredFile>, d: Date): Result<Option<seq<string>>, SelectError>
      requires CompactStore(store)
    {
      if DailySeed(d) in messages then Ok(Some(messages[DailySeed(d)]))
      else
        var cached := CachedPair(memory, store, d);
        if cached.Err? then Err(cached.error)
        else if DurableHit(memory, store, d) then Ok(Some(LoadedMessages(store[CachePath(d)], cached.value.value, d)))
        else Ok(None)
    }

    /** How a call may move what `get_cached_messages` returns for the day:
        not at all, or from nothing to the messages a save caches for the
        day's pair. */
    predicate Settles(c0: Result<Option<seq<string>>, SelectError>, c1: Result<Option<seq<string>>, SelectError>,
                      pair: Result<DailyPair, SelectError>, d: Date)
    {
      c1 == c0 ||
      (c0 == Ok(None) && pair.Ok? && Compact(pair.value.first) && Compact(pair.value.second) &&
       c1 == Ok(Some(DayMessages(pair.value, d))))
    }

    /** Two moves in a row are one move. */
    lemma SettlesTrans(c0: Result<Option<seq<string>>, SelectError>, c1: Result<Option<seq<string>>, SelectError>,
                       c2: Result<Option<seq<string>>, SelectError>, pair: Result<DailyPair, SelectError>, d: Date)
      requires Settles(c0, c1, pair, d) && Settles(c1, c2, pair, d)
      ensures Settles(c0, c2, pair, d)
    {
    }

    method SelectTwoVolumes(g: Rng) returns (r: Result<(Volume, Volume), SelectError>, g': Rng)
      requires Valid()
      modifies client
      ensures Valid()
      ensures (r, g') == SelectVolumes(client.catalogFile, g)
    {
      var names := new string[|VolumeNames|](i requires 0 <= i < |VolumeNames| => VolumeNames[i]);
      assert names[..] == VolumeNames;
      g' := Shuffle(names, g);
      var vol1 := client.GetVolume(names[0]);
      if vol1.Err? {
        return Err(CatalogMissing), g';
      }
      var vol2 := client.GetVolume(names[1]);
      if vol1.value.None? || vol2.value.None? {
        return Err(VolumeMissing), g';
      }
      r := Ok((vol1.value.value, vol2.value.value));
    }

    /** The steps of `get_daily_pair` after both tiers missed. */
    method Compute(d: Date) returns (r: Result<DailyPair, SelectError>)
      requires Valid()
      modifies client
      ensures Valid()
      ensures r == FreshPair(client.catalogFile, client.getText, gen, d)
    {
      var seed := DailySeed(d);
      var vols, g := SelectTwoVolumes(Seeded(gen(seed)));
      if vols.Err? {
        return Err(vols.error);
      }
      var (v1, v2) := vols.value;
      var h1, _ := client.GetRandomHalacha(v1, Seeded(gen(seed + "-1")));
      var h2, _ := client.GetRandomHalacha(v2, Seeded(gen(seed + "-2")));
      var first := if h1.Some? then h1.value else Fallback(v1, g).0;
      g := if h1.Some? then g else Fallback(v1, g).1;
      var second := if h2.Some? then h2.value else Fallback(v2, g).0;
      var pair := NewDailyPair(first, second, seed);
      r := if pair.Ok? then Ok(pair.value) else Err(InvalidPair);
    }

    /** `_load_cached_pair`. */
    method LoadCachedPair(d: Date) returns (r: Result<Option<DailyPair>, SelectError>)
      requires Valid()
      modifies this
      ensures Valid() && store == old(store)
      ensures r == CachedPair(old(memory), store, d)
      ensures DurableHit(old(memory), store, d) ==>
                memory == old(memory)[DailySeed(d) := r.value.value] &&
                messages == old(messages)[DailySeed(d) := LoadedMessages(store[CachePath(d)], r.value.value, d)]
      ensures !DurableHit(old(memory), store, d) ==> memory == old(memory) && messages == old(messages)
    {
      var key := DailySeed(d);
      if key in memory {
        return Ok(Some(memory[key]));
      }
      var path := CachePath(d);
      if path !in store || store[path].Corrupt? {
        return Ok(None);
      }
      var f := store[path];
      var pair := NewDailyPair(f.first, f.second, f.dateSeed);
      if pair.Err? {
        return Err(InvalidPair);
      }
      Promote(pair.value, f, d);
      r := Ok(Some(pair.value));
    }

    /** A snapshot's pair enters the memory tier and its messages the message tier. */
    method Promote(pair: DailyPair, f: StoredFile, d: Date)
      requires Valid() && f.Stored? && Compact(pair.first) && Compact(pair.second)
      modifies this
      ensures Valid() && store == old(store)
      ensures memory == old(memory)[DailySeed(d) := pair]
      ensures messages == old(messages)[DailySeed(d) := LoadedMessages(f, pair, d)]
    {
      var key := DailySeed(d);
      memory := memory[key := pair];
      messages := messages[key := LoadedMessages(f, pair, d)];
    }

    /** `_save_cached_pair`: cache the day's messages and write the snapshot. */
    method SaveCachedPair(pair: DailyPair, d: Date)
      requires Valid() && Compact(pair.first) && Compact(pair.second)
      modifies this
      ensures Valid() && memory == old(memory)
      ensures messages == old(messages)[DailySeed(d) := DayMessages(pair, d)]
      ensures store == old(store)[CachePath(d) := Snapshot(pair, DayMessages(pair, d))]
    {
      var formatted := DayMessages(pair, d);
      messages := messages[DailySeed(d) := formatted];
      WriteSnapshot(CachePath(d), Snapshot(pair, formatted));
    }

    /** Writes one snapshot file. */
    method WriteSnapshot(path: string, f: StoredFile)
      requires Valid() && f.Stored? && Compact(f.first) && Compact(f.second)
      modifies this
      ensures Valid() && memory == old(memory) && messages == old(messages)
      ensures store == old(store)[path := f]
    {
      CompactStoreInsert(store, path, f);
      store := store[path := f];
    }

    /** Keeps a fresh pair: saved when it has no fallback, always remembered. */
    method Keep(pair: DailyPair, d: Date)
      requires Valid() && Compact(pair.first) && Compact(pair.second)
      modifies this
      ensures Valid()
      ensures memory == old(memory)[DailySeed(d) := pair]
      ensures Saveable(pair) ==>
                messages == old(messages)[DailySeed(d) := DayMessages(pair, d)] &&
                store == old(store)[CachePath(d) := Snapshot(pair, DayMessages(pair, d))]
      ensures !Saveable(pair) ==> messages == old(messages) && store == old(store)
    {
      var firstMarked := HasInfix(pair.first.hebrewText, FallbackMarker);
      var secondMarked := HasInfix(pair.second.hebrewText, FallbackMarker);
      HasInfixContains(pair.first.hebrewText, FallbackMarker);
      HasInfixContains(pair.second.hebrewText, FallbackMarker);
      if !firstMarked && !secondMarked {
        SaveCachedPair(pair, d);
      }
      memory := memory[DailySeed(d) := pair];
    }

    /** `get_daily_pair`: a cached pair if either tier has one, else a fresh
        pair, kept as `Keep` says. */
    method GetDailyPair(d: Date) returns (r: Result<DailyPair, SelectError>)
      requires Valid() && Paired()
      modifies this, client
      ensures Valid() && Paired()
      ensures Settles(CachedMessagesFrom(old(messages), old(memory), old(store), d),
                      CachedMessagesFrom(messages, memory, store, d), r, d)
      ensures r == PairFrom(old(memory), old(store), d)
      ensures PairFrom(memory, store, d) == r
      ensures var cached := CachedPair(old(memory), old(store), d);
              cached.Ok? && cached.value.Some? ==>
                store == old(store) &&
                (DurableHit(old(memory), old(store), d) ==>
                   memory == old(memory)[DailySeed(d) := cached.value.value] &&
                   messages == old(messages)[DailySeed(d) := LoadedMessages(store[CachePath(d)], cached.value.value, d)]) &&
                (!DurableHit(old(memory), old(store), d) ==> memory == old(memory) && messages == old(messages))
      ensures CachedPair(old(memory), old(store), d).Err? || r.Err? ==>
                memory == old(memory) && messages == old(messages) && store == old(store)
      ensures CachedPair(old(memory), old(store), d) == Ok(None) && r.Ok? ==>
                memory == old(memory)[DailySeed(d) := r.value] &&
                (Saveable(r.value) ==>
                   messages == old(messages)[DailySeed(d) := DayMessages(r.value, d)] &&
                   store == old(store)[CachePath(d) := Snapshot(r.value, DayMessages(r.value, d))]) &&
                (!Saveable(r.value) ==> store == old(store) && messages == old(messages))
    {
      var cached := LoadCachedPair(d);
      if cached.Err? {
        return Err(cached.error);
      }
      if cached.value.Some? {
        return Ok(cached.value.value);
      }
      r := Compute(d);
      if r.Ok? {
        FreshPairSpec(client.catalogFile, client.getText, gen, d);
        Keep(r.value, d);
      }
    }

    /** `get_cached_messages`: the message tier, else whatever loading the
        date's pair puts there. */
    method GetCachedMessages(d: Date) returns (r: Result<Option<seq<string>>, SelectError>)
      requires Valid() && Paired()
      modifies this
      ensures Valid() && Paired() && store == old(store)
      ensures CachedMessagesFrom(messages, memory, store, d) == r
      ensures r == CachedMessagesFrom(old(messages), old(memory), old(store), d)
      ensures PairFrom(memory, store, d) == PairFrom(old(memory), old(store), d)
      ensures DailySeed(d) !in old(messages) && DurableHit(old(memory), store, d) ==>
                memory == old(memory)[DailySeed(d) := SnapshotPair(store, d).value.value] &&
                messages == old(messages)[DailySeed(d) := LoadedMessages(store[CachePath(d)], SnapshotPair(store, d).value.value, d)]
      ensures DailySeed(d) in old(messages) || !DurableHit(old(memory), store, d) ==>
                memory == old(memory) && messages == old(messages)
    {
      var key := DailySeed(d);
      if key in messages {
        return Ok(Some(messages[key]));
      }
      var loaded := LoadCachedPair(d);
      if loaded.Err? {
        return Err(loaded.error);
      }
      if key in messages {
        return Ok(Some(messages[key]));
      }
      r := Ok(None);
    }
  }
}
