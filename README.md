# Life RPG session state, in Dafny

A model of the session state of the Life RPG habit tracker, a single-page browser app. The player performs
quests, and each quest moves two bounded stats, health and hunger. Every change of those stats is recorded
as a daily snapshot in a history keyed by date. A transient log shows the four latest actions. The quest
catalog can be created into, edited, reordered and deleted from. Every record is loaded from the browser's
key-value store at start-up, or defaulted when it is absent.

Modules, one per file:

- `Types` (`types.dfy`): the records of `types.ts`: `Quest`, `PlayerStats`, `DailyStats`, `GameLog`,
  `Language`, `FontSize`; catalog ids and the uniqueness predicates.
- `Constants` (`constants.dfy`): the seed catalog `InitialQuests` and `MAX_STATS`.
- `Text` (`text.dfy`): decimal text of integers and upper case, as the log and the quest form use them.
- `QuestEngine` (`quest_engine.dfy`): `handleAction`'s clamped stat update and its bounded, newest-first log.
- `HistoryRecorder` (`history_recorder.dfy`): the history effect, an upsert by date.
- `QuestEditor` (`quest_editor.dfy`): `saveQuest` (create or edit), the delete filter, `moveQuest`.
- `Store` (`store.dfy`): the store as a `map<string, string>`, the load-or-default initialisers, write-back and
  factory reset. JSON is abstracted by a `Codec` per record: `parse` yields `None` on malformed text.
- `Calendar` (`calendar.dfy`): the month grid of `renderCalendar`, the Gregorian month lengths and weekdays.
- `App` (`app.dfy`): class `Session`. Its fields are the state (`stats`, `quests`, `history`, `logs`, `lang`,
  `fontSize`), and each handler is a method that states the whole new state.

Inputs the source takes from the host are parameters. Today's date string (`new Date().toISOString()`, hence
the UTC date), `Date.now()` and the ids drawn from `Math.random()` are passed in.

Behaviour of the code that the model keeps:

- The history is keyed by the UTC date (`toISOString()`), not by the local calendar day.
- An edit replaces every quest carrying the edited id (`map`), not only the first.
- A stored value that is the empty string counts as absent, for the JSON records too.
- A malformed stored record is an error (`LoadError`), not a default: the source lets `JSON.parse` throw.
- The history effect also runs once at start-up, so the `Session` constructor records today's snapshot.

## Model

| member | source | states |
|---|---|---|
| `Constants.InitialQuests` | constants.tsx:4-37 | four seed quests with ids stay-up-late, eat-well, workout, reading in that order; ids distinct; none custom; every impact in [-2, 2]; no lower-case letter in any title |
| `Constants.SeedTitlesUpperCase` | constants.tsx:4-37 | every seed title is a fixed point of the upper-casing done on save |
| `Text.ToUpper` | App.tsx:111 | the saved title has the input's length, each character upper-cased, and no lower-case letter |
| `Text.ToUpperIdempotent` | App.tsx:111 | upper-casing an already saved title changes nothing |
| `Text.ParseNatToString` | App.tsx:101 | the decimal text of a number reads back as that number |
| `QuestEngine.Clamp` | App.tsx:93-94 | the result lies in [0, MAX_STATS], equals the input inside the range, and is the nearer bound outside it |
| `QuestEngine.ApplyQuest` | App.tsx:91-95 | health' = Clamp(health + hpImpact) and hunger' = Clamp(hunger + hungerImpact), so both end in [0, 10]; each moves in the direction of its delta, never past it, and stops short only at the bound it overshoots; experience is unchanged |
| `QuestEngine.ImpactText` | App.tsx:101 | the text ends in " HP" and starts with '+' exactly when the delta is not negative, with '-' exactly when it is negative |
| `QuestEngine.ImpactTextRoundTrip` | App.tsx:101 | the impact text "+d HP" / "-d HP" reads back as exactly the HP delta |
| `QuestEngine.LogEntry` | App.tsx:97-102 | the entry carries the given id and time and the quest's title; its impact text encodes the HP delta only, with a '+' exactly when the delta is not negative |
| `QuestEngine.PushLog` | App.tsx:97-102 | the new entry first, then the first min(3, n) old entries in order; length min(n + 1, 4) |
| `QuestEngine.ReplayKeepsNewest` | App.tsx:97-102 | after any run of actions the log is the newest entries first, cut at four |
| `QuestEngine.LogBound` | App.tsx:97-102 | from an empty log, four or more actions leave exactly the last four, newest first |
| `HistoryRecorder.Snapshot` | App.tsx:54 | the snapshot carries today's date, health as hp, and hunger; experience is not recorded |
| `HistoryRecorder.FindDate` | App.tsx:53 | the first index dated `date`, or -1 exactly when no entry has that date |
| `HistoryRecorder.Upsert` | App.tsx:50-62 | the recorded entry is in the result; unique dates stay unique |
| `HistoryRecorder.FindDateAt` | App.tsx:53 | the lookup stops at the first entry of the date |
| `HistoryRecorder.UpsertExisting` | App.tsx:55-58 | a recorded date: same length, the first entry of that date replaced in place, all others untouched |
| `HistoryRecorder.UpsertNew` | App.tsx:60 | a new date: the entry appended at the end, earlier entries kept |
| `HistoryRecorder.UpsertSameDay` | App.tsx:50-62 | a second recording on the same day leaves the second snapshot at the place of the first |
| `HistoryRecorder.UpsertIdempotent` | App.tsx:50-62 | recording the same snapshot twice equals recording it once |
| `HistoryRecorder.UpsertSingleEntryForDay` | App.tsx:50-62 | with unique dates, the only entry for the recorded day is the recorded snapshot |
| `QuestEditor.FormQuest` | App.tsx:108-116 | the saved quest has the form's id, icon and impacts, is custom, and its title is the form's title upper-cased |
| `QuestEditor.ReplaceById` | App.tsx:120 | same length; each quest with the id becomes the new quest, every other quest stays; when the new quest keeps the id, the ids are unchanged |
| `QuestEditor.Save` | App.tsx:118-123 | an edit keeps length and the id sequence; a create appends one quest under the fresh id after the unchanged catalog; every quest not already there is custom with the upper-cased title |
| `QuestEditor.SaveNewAppends` | App.tsx:118-122 | creating appends exactly one quest at the end under the fresh id, custom, title upper-cased, earlier quests kept |
| `QuestEditor.SaveEditReplaces` | App.tsx:118-121 | editing keeps length and order; each quest with the edited id takes the form's values and becomes custom, even a seed quest; others are untouched |
| `QuestEditor.SaveEditUnknownId` | App.tsx:120 | editing an id no longer in the catalog leaves it unchanged |
| `QuestEditor.SaveKeepsIdsUnique` | App.tsx:105-123 | saving keeps ids unique when a created quest's id is fresh |
| `QuestEditor.FindById` | App.tsx:241 | the first quest with the id (no earlier quest has it), absent exactly when the id is not in the catalog |
| `QuestEditor.FirstAfterHead` | App.tsx:241 | a first match in the tail, behind a head with another id, is the first match of the whole catalog |
| `QuestEditor.CanDelete` | App.tsx:241 | the delete control is offered only while editing an existing id that some custom quest carries |
| `QuestEditor.SeedsNotDeletable` | App.tsx:241-243 | the delete control is offered for no quest of the seed catalog |
| `QuestEditor.EditedIsDeletable` | App.tsx:241-243 | after an edit, the delete control is offered for the edited quest |
| `QuestEditor.DeleteById` | App.tsx:242 | a quest remains exactly when it was there and its id differs from the deleted one |
| `QuestEditor.DeleteConcat` | App.tsx:242 | deletion distributes over concatenation, so the survivors keep their relative order |
| `QuestEditor.DeleteUnknownId` | App.tsx:242 | deleting an absent id changes nothing |
| `QuestEditor.DeleteKeepsIdsUnique` | App.tsx:242 | deletion keeps ids unique |
| `QuestEditor.Moved` | App.tsx:128-135 | a reorder keeps length and is a permutation of the catalog |
| `QuestEditor.MovedSwaps` | App.tsx:130-132 | with the neighbour in range, the two places trade quests and nothing else moves |
| `QuestEditor.MoveAtEnds` | App.tsx:131 | the first quest cannot move up, the last cannot move down |
| `QuestEditor.UpThenDown` | App.tsx:128-135 | moving a quest up, then down from its new place, restores the catalog |
| `QuestEditor.MovedKeepsIdsUnique` | App.tsx:128-135 | a reorder keeps ids unique |
| `QuestEditor.MoveInCopy` | App.tsx:129-133 | copying into a fresh array and swapping two cells yields the specified reorder |
| `Store.Defaults` | App.tsx:12-29 | full stats (10, 10, 0), the seed catalog, an empty history, language "cn", font size "medium" |
| `Store.LoadOrDefault` | App.tsx:16-29 | an absent key or "" loads the fallback; non-empty text loads its parsed value; the load fails, naming the key, exactly when non-empty text does not parse |
| `Store.LoadText` | App.tsx:12-13 | an absent key or a stored "" yields the fallback, any other stored text is returned as stored; never "" when the fallback is non-empty |
| `Store.Load` | App.tsx:12-29 | start-up fails exactly when one of the three JSON records is malformed; otherwise each field is what its own key loads, and language and font size are non-empty |
| `Store.LoadAbsentKeysDefault` | App.tsx:12-29 | in a store that loads, each key that is absent or holds "" yields its default, whatever the other keys hold |
| `Store.LoadMissingKey` | App.tsx:16-29 | an absent key, or one holding "", loads the default |
| `Store.Persist` | App.tsx:44-48 | each of the five keys holds its record's text afterwards; every other key is as it was |
| `Store.LoadOtherKey` | App.tsx:44-48 | writing one key does not change what another key loads |
| `Store.LoadWritten` | App.tsx:44-46 | a record written through a round-tripping codec loads back as written |
| `Store.PersistThenLoad` | App.tsx:44-48 | a session written back and loaded by a fresh session comes back equal |
| `Store.Cleared` | App.tsx:380 | a cleared store holds no key |
| `Store.FactoryReset` | App.tsx:380 | after a reset the next start-up yields the defaults, whatever the codecs |
| `Calendar.DaysInMonth` | App.tsx:263 | a month has 28 to 31 days; February has 29 exactly in a leap year |
| `Calendar.YearLengthIsGregorian` | App.tsx:263 | the twelve months add up to 366 days in a leap year and to 365 otherwise |
| `Calendar.Weekday` | App.tsx:264 | a weekday number from 0 (Sunday) to 6 |
| `Calendar.YearOffsetStep` | App.tsx:264 | a year moves the weekdays on by 2 in a leap year and by 1 otherwise |
| `Calendar.WeekdayAdvances` | App.tsx:262-264 | the 1st of each month falls that many weekdays after the previous 1st, across a year end too |
| `Calendar.LayoutAsWritten` | App.tsx:262-264 | blank count and month length as the source computes them, via the year `new Date` reads |
| `Calendar.Layout` | App.tsx:262-264 | blank count below 7 and month length 28 to 31 for the viewed month |
| `Calendar.LayoutAgreesFrom100` | App.tsx:262-264 | outside years 0 to 99 the layout as written is the intended one |
| `Calendar.LayoutAsWrittenWrongBefore100` | App.tsx:262-264 | January of year 1 and February of year 0 are laid out as those of 1901 and 1900 |
| `Calendar.MonthDays` | App.tsx:265-268 | for any blank count and month length (as written from `LayoutAsWritten`, as intended from `Layout`), the grid has startDay + length cells; the first startDay are blank and cell startDay + k - 1 is day k |
| `App.Session.constructor` | App.tsx:12-31 | every record loaded or defaulted, an empty log, and today's snapshot upserted from the loaded stats |
| `App.Session.RecordToday` | App.tsx:50-62 | the history becomes the upsert of today's snapshot; dates stay unique; nothing else changes |
| `App.Session.HandleAction` | App.tsx:86-103 | stats become the clamped update, experience kept; the log gets the entry pushed; the history is upserted only when health or hunger changed |
| `App.Session.SaveQuest` | App.tsx:105-126 | the catalog becomes the saved one; ids stay unique given a fresh id; nothing else changes |
| `App.Session.MoveQuest` | App.tsx:128-135 | the catalog becomes the reorder, a permutation keeping ids unique; nothing else changes |
| `App.Session.DeleteQuest` | App.tsx:242 | exactly the quests with the id are removed; ids stay unique; nothing else changes |

## Findings

| source | as written | input that shows it | evidently intended | confidence | as-written member | corrected member |
|---|---|---|---|---|---|---|
| App.tsx:262-264 | the grid's first weekday and month length come from `new Date(year, month, ...)`, which reads a year from 0 to 99 as 1900 + year | view January of year 1 (reachable with the -1 YEAR button): the grid starts on Tuesday, as 1901 does, not on Monday; February of year 0 gets 28 cells, not 29 | the layout of the viewed month of the viewed year | not executed; follows from the ECMAScript rule for the Date constructor's year | `Calendar.LayoutAsWritten` | `Calendar.Layout` |

## Left out

- Sound (`playBeep`), the click effect and its timer, and the motivation text fetched from a language model:
  presentation, floating point and network, with no state the session keeps.
- JSON and `localStorage` I/O: the store is a map, and JSON is a `Codec` parameter. Quota failures are not modelled.
- The write-back effects are one function (`Store.Persist`) over the whole persisted state. The session
  methods do not write the store themselves.
- The settings handlers (`setLang`, `setFontSize`, the sound toggle) only assign a field. They are not
  modelled, and the sound toggle is not persisted.
- Translation tables, font-size classes, the calendar's opacity values and locale date formatting.
- Calendar navigation by `Date` mutation. The viewed year and month are inputs of `Calendar.Layout` and `Calendar.LayoutAsWritten`, whose results feed `Calendar.MonthDays`.
- The calendar cells' lookup of history entries through `toISOString()` of local midnight: this needs the host's time zone.
- Numbers are unbounded integers. `parseInt` returning NaN on a malformed form field is not modelled.
- A history entry is stored as the stats are; values loaded out of range are not clamped on load, as in the source.
- Text.ToUpper: maps only the letters a to z, whereas JavaScript's `toUpperCase` also maps other scripts' letters and can change the length (ß becomes SS); the title lengths the model keeps hold only for this a-to-z mapping.
- App.Session.MoveQuest: requires a valid index, which the source's only caller passes (the index of the quest's card).
- App.Session.constructor: requires that every stored record parses; the source throws otherwise, and `Store.Load` returns that error.
