/**
 * The local key-value store the session is loaded from and written back to (App.tsx, lines 12-48).
 * JSON text is abstracted by a codec per record; a stored value counts as present only when it is a
 * non-empty string, as JavaScript's truthiness test on `getItem` has it.
 */
module Store {
  import opened Wrappers
  import opened Types
  import opened Constants

  type Storage = map<string, string>

  const STATS_KEY: string := "life_rpg_stats"
  const QUESTS_KEY: string := "life_rpg_quests"
  const HISTORY_KEY: string := "life_rpg_history"
  const LANG_KEY: string := "lang"
  const FONT_SIZE_KEY: string := "font_size"

  /** How one record is written as text and read back; `parse` answers None on malformed text. */
  datatype Codec<!T> = Codec(parse: string -> Option<T>, show: T -> string)

  /** What `JSON.stringify` and `JSON.parse` guarantee each other: non-empty text that reads back as it was. */
  ghost predicate RoundTrips<T(!new)>(c: Codec<T>) {
    forall x :: c.show(x) != "" && c.parse(c.show(x)) == Some(x)
  }

  datatype Codecs = Codecs(
    stats: Codec<PlayerStats>,
    quests: Codec<seq<Quest>>,
    history: Codec<seq<DailyStats>>)

  /** A stored value that JSON.parse rejects; the source lets the exception escape. */
  datatype LoadError = Malformed(key: string)

  /** The persisted part of a session. */
  datatype SessionData = SessionData(
    stats: PlayerStats,
    quests: seq<Quest>,
    history: seq<DailyStats>,
    lang: string,
    fontSize: string)

  /** What a first session starts from. */
  function Defaults(): (d: SessionData)
    ensures d.stats.health == MAX_STATS && d.stats.hunger == MAX_STATS && d.stats.experience == 0
    ensures d.quests == InitialQuests() && d.history == []
    ensures d.lang == Cn.Code() && d.fontSize == Medium.Code()
  {
    SessionData(PlayerStats(MAX_STATS, MAX_STATS, 0), InitialQuests(), [], "cn", "medium")
  }

  /** `saved ? JSON.parse(saved) : fallback`. */
  function LoadOrDefault<T>(store: Storage, key: string, c: Codec<T>, fallback: T): (r: Result<T, LoadError>)
    ensures r.Err? ==> r.error == Malformed(key)
    ensures r.Err? <==> key in store && store[key] != "" && c.parse(store[key]).None?
    ensures (key !in store || store[key] == "") ==> r == Ok(fallback)
    ensures key in store && store[key] != "" && c.parse(store[key]).Some? ==> r == Ok(c.parse(store[key]).value)
  {
    if key !in store || store[key] == "" then Ok(fallback)
    else match c.parse(store[key])
      case Some(v) => Ok(v)
      case None => Err(Malformed(key))
  }

  /** `getItem(key) || fallback`, for the settings stored as raw text. */
  function LoadText(store: Storage, key: string, fallback: string): (r: string)
    ensures fallback != "" ==> r != ""
    ensures (key !in store || store[key] == "") ==> r == fallback
    ensures key in store && store[key] != "" ==> r == store[key]
  {
    if key !in store || store[key] == "" then fallback else store[key]
  }

  /** Every initialiser at start-up; the first malformed record, in declaration order, is the error. */
  function Load(store: Storage, cs: Codecs): (r: Result<SessionData, LoadError>)
    ensures r.Ok? ==> r.value.lang != "" && r.value.fontSize != ""
    ensures r.Err? <==> LoadOrDefault(store, STATS_KEY, cs.stats, Defaults().stats).Err? ||
                        LoadOrDefault(store, QUESTS_KEY, cs.quests, Defaults().quests).Err? ||
                        LoadOrDefault(store, HISTORY_KEY, cs.history, Defaults().history).Err?
    ensures r.Ok? ==>
      r.value.stats == LoadOrDefault(store, STATS_KEY, cs.stats, Defaults().stats).value &&
      r.value.quests == LoadOrDefault(store, QUESTS_KEY, cs.quests, Defaults().quests).value &&
      r.value.history == LoadOrDefault(store, HISTORY_KEY, cs.history, Defaults().history).value &&
      r.value.lang == LoadText(store, LANG_KEY, Cn.Code()) &&
      r.value.fontSize == LoadText(store, FONT_SIZE_KEY, Medium.Code())
  {
    var lang := LoadText(store, LANG_KEY, Cn.Code());
    var fontSize := LoadText(store, FONT_SIZE_KEY, Medium.Code());
    match LoadOrDefault(store, STATS_KEY, cs.stats, Defaults().stats)
    case Err(e) => Err(e)
    case Ok(stats) =>
      match LoadOrDefault(store, QUESTS_KEY, cs.quests, Defaults().quests)
      case Err(e) => Err(e)
      case Ok(quests) =>
        match LoadOrDefault(store, HISTORY_KEY, cs.history, Defaults().history)
        case Err(e) => Err(e)
        case Ok(history) => Ok(SessionData(stats, quests, history, lang, fontSize))
  }

  /** The five write-back effects: every persisted record under its key. */
  function Persist(store: Storage, cs: Codecs, d: SessionData): (r: Storage)
    ensures STATS_KEY in r && r[STATS_KEY] == cs.stats.show(d.stats)
    ensures QUESTS_KEY in r && r[QUESTS_KEY] == cs.quests.show(d.quests)
    ensures HISTORY_KEY in r && r[HISTORY_KEY] == cs.history.show(d.history)
    ensures LANG_KEY in r && r[LANG_KEY] == d.lang
    ensures FONT_SIZE_KEY in r && r[FONT_SIZE_KEY] == d.fontSize
    ensures forall k :: k !in {STATS_KEY, QUESTS_KEY, HISTORY_KEY, LANG_KEY, FONT_SIZE_KEY} ==>
      (k in r <==> k in store) && (k in store ==> r[k] == store[k])
  {
    store[STATS_KEY := cs.stats.show(d.stats)]
         [QUESTS_KEY := cs.quests.show(d.quests)]
         [HISTORY_KEY := cs.history.show(d.history)]
         [LANG_KEY := d.lang]
         [FONT_SIZE_KEY := d.fontSize]
  }

  /** A missing key, or one holding the empty string, loads the default. */
  lemma LoadMissingKey<T>(store: Storage, key: string, c: Codec<T>, fallback: T)
    requires key !in store || store[key] == ""
    ensures LoadOrDefault(store, key, c, fallback) == Ok(fallback)
  {
  }

  /** In a store that loads, every key that is absent or holds "" yields its default, whatever the other keys hold. */
  lemma LoadAbsentKeysDefault(store: Storage, cs: Codecs)
    requires Load(store, cs).Ok?
    ensures var d := Load(store, cs).value;
      ((STATS_KEY !in store || store[STATS_KEY] == "") ==> d.stats == Defaults().stats) &&
      ((QUESTS_KEY !in store || store[QUESTS_KEY] == "") ==> d.quests == Defaults().quests) &&
      ((HISTORY_KEY !in store || store[HISTORY_KEY] == "") ==> d.history == Defaults().history) &&
      ((LANG_KEY !in store || store[LANG_KEY] == "") ==> d.lang == Defaults().lang) &&
      ((FONT_SIZE_KEY !in store || store[FONT_SIZE_KEY] == "") ==> d.fontSize == Defaults().fontSize)
  {
  }

  /** Writing one key does not change what another key loads. */
  lemma LoadOtherKey<T>(store: Storage, key: string, other: string, text: string, c: Codec<T>, fallback: T)
    requires key != other
    ensures LoadOrDefault(store[other := text], key, c, fallback) == LoadOrDefault(store, key, c, fallback)
  {
  }

  /** A record written through a round-tripping codec loads back as it was written. */
  lemma LoadWritten<T(!new)>(store: Storage, key: string, c: Codec<T>, fallback: T, x: T)
    requires RoundTrips(c)
    ensures LoadOrDefault(store[key := c.show(x)], key, c, fallback) == Ok(x)
  {
  }

  /** A session written back and loaded by a fresh session comes back equal. */
  lemma PersistThenLoad(store: Storage, cs: Codecs, d: SessionData)
    requires RoundTrips(cs.stats) && RoundTrips(cs.quests) && RoundTrips(cs.history)
    requires d.lang != "" && d.fontSize != ""
    ensures Load(Persist(store, cs, d), cs) == Ok(d)
  {
  }

  /** `localStorage.clear()`. */
  function Cleared(store: Storage): (r: Storage)
    ensures forall k :: k !in r
  {
    map[]
  }

  /** After a factory reset the next session starts from the defaults, whatever was stored and however it is parsed. */
  lemma FactoryReset(store: Storage, cs: Codecs)
    ensures Load(Cleared(store), cs) == Ok(Defaults())
  {
  }
}
