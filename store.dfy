/** The raw per-browser session store the game lives in, a dictionary from
    key to value, and the start-up loop that fills in every default key the
    store does not hold yet. */
module Store {
  import opened Rules
  import Game

  /** The kinds of value the game keeps in the store. */
  datatype Value =
    | Number(n: int)
    | Flag(b: bool)
    | Catalog(strains: map<string, Strain>)
    | Names(items: seq<string>)

  /** The store's keys: the game's own, and any other (the widgets keep
      their values under keys of their own). */
  datatype Key =
    | CreditsKey | SeasonKey | OverheadKey | BreedsLeftKey | SellsLeftKey
    | StrainsKey | GameOverKey | UpgradesKey
    | WidgetKey(name: string)

  type Entry = (Key, Value)

  /** The defaults, in their dictionary order; upgrades start empty. */
  const DefaultEntries: seq<Entry> := [
    (CreditsKey, Number(StartCredits)),
    (SeasonKey, Number(1)),
    (OverheadKey, Number(StartOverhead)),
    (BreedsLeftKey, Number(BreedsPerSeason)),
    (SellsLeftKey, Number(SellsPerSeason)),
    (StrainsKey, Catalog(Founders)),
    (GameOverKey, Flag(false)),
    (UpgradesKey, Names([]))
  ]

  function KeysOf(entries: seq<Entry>): (ks: set<Key>)
    ensures forall i :: 0 <= i < |entries| ==> entries[i].0 in ks
    decreases |entries|
  {
    if entries == [] then {} else {entries[0].0} + KeysOf(entries[1..])
  }

  /** The value of the first entry with key k. */
  function Lookup(entries: seq<Entry>, k: Key): (v: Value)
    requires k in KeysOf(entries)
    decreases |entries|
  {
    if entries[0].0 == k then entries[0].1 else Lookup(entries[1..], k)
  }

  /** The store after adding, entry by entry, every key it lacks: keys the
      store already holds keep their values, every other default key gets
      its default. */
  function WithDefaults(store: map<Key, Value>, entries: seq<Entry>): (r: map<Key, Value>)
    decreases |entries|
  {
    if entries == [] then store
    else
      var k := entries[0].0;
      WithDefaults(if k in store then store else store[k := entries[0].1], entries[1..])
  }

  /** Filling in defaults adds exactly the missing default keys: keys the
      store holds keep their values, and every key it lacks gets the value
      of the first default entry for it. */
  lemma {:induction false} WithDefaultsSpec(store: map<Key, Value>, entries: seq<Entry>)
    ensures WithDefaults(store, entries).Keys == store.Keys + KeysOf(entries)
    ensures forall k :: k in store ==> WithDefaults(store, entries)[k] == store[k]
    ensures forall k :: k in KeysOf(entries) && k !in store ==>
              WithDefaults(store, entries)[k] == Lookup(entries, k)
    decreases |entries|
  {
    if entries != [] {
      var k := entries[0].0;
      var next := if k in store then store else store[k := entries[0].1];
      WithDefaultsSpec(next, entries[1..]);
    }
  }

  /** The start-up loop of every script run. */
  method FillMissing(store: map<Key, Value>, entries: seq<Entry>) returns (r: map<Key, Value>)
    ensures r == WithDefaults(store, entries)
  {
    r := store;
    var i := 0;
    while i < |entries|
      invariant 0 <= i <= |entries|
      invariant WithDefaults(r, entries[i..]) == WithDefaults(store, entries)
    {
      var (k, v) := entries[i];
      if k !in r {
        r := r[k := v];
      }
      i := i + 1;
    }
  }

  /** Running the loop again changes nothing, so a rerun never resets a
      game in progress. */
  lemma WithDefaultsIdempotent(store: map<Key, Value>, entries: seq<Entry>)
    ensures WithDefaults(WithDefaults(store, entries), entries) == WithDefaults(store, entries)
  {
    var once := WithDefaults(store, entries);
    var twice := WithDefaults(once, entries);
    WithDefaultsSpec(store, entries);
    WithDefaultsSpec(once, entries);
    assert forall k :: k in twice ==> twice[k] == once[k];
  }

  /** A store that already holds every default key is left as it is. */
  lemma FullStoreUnchanged(store: map<Key, Value>, entries: seq<Entry>)
    requires KeysOf(entries) <= store.Keys
    ensures WithDefaults(store, entries) == store
  {
    var r := WithDefaults(store, entries);
    WithDefaultsSpec(store, entries);
    assert forall k :: k in r ==> r[k] == store[k];
  }

  datatype Option<T> = None | Some(value: T)

  /** The typed game state a store holds, if every key holds a value of
      the right kind. */
  function Decode(store: map<Key, Value>): (g: Option<Game.State>) {
    if && CreditsKey in store && store[CreditsKey].Number?
       && SeasonKey in store && store[SeasonKey].Number?
       && OverheadKey in store && store[OverheadKey].Number?
       && BreedsLeftKey in store && store[BreedsLeftKey].Number?
       && SellsLeftKey in store && store[SellsLeftKey].Number?
       && UpgradesKey in store && store[UpgradesKey].Names?
       && StrainsKey in store && store[StrainsKey].Catalog?
       && GameOverKey in store && store[GameOverKey].Flag?
    then
      Some(Game.State(store[CreditsKey].n, store[SeasonKey].n, store[OverheadKey].n,
                      store[BreedsLeftKey].n, store[SellsLeftKey].n, store[UpgradesKey].items,
                      store[StrainsKey].strains, store[GameOverKey].b))
    else
      None
  }

  /** One turn of the loop on a key the store lacks. */
  lemma FillStep(m: map<Key, Value>, entries: seq<Entry>, i: nat)
    requires i < |entries| && entries[i].0 !in m
    ensures WithDefaults(m, entries[i..]) == WithDefaults(m[entries[i].0 := entries[i].1], entries[i + 1..])
  {
    assert entries[i..][1..] == entries[i + 1..];
  }

  /** The store the loop builds from nothing. */
  function FreshStore(): (m: map<Key, Value>) {
    map[CreditsKey := Number(StartCredits), SeasonKey := Number(1),
        OverheadKey := Number(StartOverhead), BreedsLeftKey := Number(BreedsPerSeason),
        SellsLeftKey := Number(SellsPerSeason), StrainsKey := Catalog(Founders),
        GameOverKey := Flag(false), UpgradesKey := Names([])]
  }

  lemma {:induction false} EmptyStoreFills()
    ensures WithDefaults(map[], DefaultEntries) == FreshStore()
  {
    var e := DefaultEntries;
    var m0: map<Key, Value> := map[];
    var m1 := m0[CreditsKey := Number(StartCredits)];
    var m2 := m1[SeasonKey := Number(1)];
    var m3 := m2[OverheadKey := Number(StartOverhead)];
    var m4 := m3[BreedsLeftKey := Number(BreedsPerSeason)];
    var m5 := m4[SellsLeftKey := Number(SellsPerSeason)];
    var m6 := m5[StrainsKey := Catalog(Founders)];
    var m7 := m6[GameOverKey := Flag(false)];
    var m8 := m7[UpgradesKey := Names([])];
    assert e[0..] == e;
    FillStep(m0, e, 0);
    FillStep(m1, e, 1);
    FillStep(m2, e, 2);
    FillStep(m3, e, 3);
    FillStep(m4, e, 4);
    FillStep(m5, e, 5);
    FillStep(m6, e, 6);
    FillStep(m7, e, 7);
    assert e[8..] == [];
    assert m8 == FreshStore();
  }

  /** The first run of a session, and the run after a restart has deleted
      every key, both start from an empty store and yield a new game. */
  lemma EmptyStoreGivesNewGame()
    ensures Decode(WithDefaults(map[], DefaultEntries)) == Some(Game.Default())
  {
    EmptyStoreFills();
  }
}
