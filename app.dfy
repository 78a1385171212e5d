/**
 * The session controller of App.tsx: the persisted records and the transient log as fields,
 * one method per handler, each stating the whole new state.
 */
module App {
  import opened Wrappers
  import opened Types
  import opened QuestEngine
  import opened HistoryRecorder
  import opened QuestEditor
  import opened Store

  class Session {
    var stats: PlayerStats
    var quests: seq<Quest>
    var history: seq<DailyStats>
    var logs: seq<GameLog>
    var lang: string
    var fontSize: string

    /** The persisted part of the state, as the write-back effects store it. */
    function Data(): SessionData
      reads this
    {
      SessionData(stats, quests, history, lang, fontSize)
    }

    /**
     * Start-up: every record loaded or defaulted from `store`, an empty log, and the mount-time run of the
     * history effect, which records `today` from the loaded stats. A malformed stored record makes the source
     * throw before any session exists, hence the requirement.
     */
    constructor (store: Storage, cs: Codecs, today: string)
      requires Load(store, cs).Ok?
      ensures var d := Load(store, cs).value;
        stats == d.stats && quests == d.quests && lang == d.lang && fontSize == d.fontSize &&
        history == Upsert(d.history, Snapshot(today, d.stats)) && logs == []
    {
      var d := Load(store, cs).value;
      stats := d.stats;
      quests := d.quests;
      lang := d.lang;
      fontSize := d.fontSize;
      logs := [];
      history := Upsert(d.history, Snapshot(today, d.stats));
    }

    /**
     * The history effect: upsert today's snapshot, replacing the first entry of that date in a copy
     * of the history, or appending.
     */
    method RecordToday(today: string)
      modifies this
      ensures history == Upsert(old(history), Snapshot(today, stats))
      ensures stats == old(stats) && quests == old(quests) && logs == old(logs)
      ensures lang == old(lang) && fontSize == old(fontSize)
      ensures DatesUnique(old(history)) ==> DatesUnique(history)
    {
      var entry := Snapshot(today, stats);
      var existing := FindDate(history, today);
      if existing >= 0 {
        var next := history;
        next := next[existing := entry];
        history := next;
      } else {
        history := history + [entry];
      }
    }

    /**
     * handleAction: both stats clamped into range, the log entry pushed; when health or hunger changed,
     * the history effect then records `today`. `logId` and `now` stand for Math.random and Date.now.
     */
    method HandleAction(q: Quest, logId: string, now: int, today: string)
      modifies this
      ensures stats == ApplyQuest(old(stats), q)
      ensures logs == PushLog(old(logs), LogEntry(q, logId, now))
      ensures history == if (stats.health, stats.hunger) != (old(stats).health, old(stats).hunger)
                         then Upsert(old(history), Snapshot(today, stats)) else old(history)
      ensures quests == old(quests) && lang == old(lang) && fontSize == old(fontSize)
      ensures StatsInRange(stats) && stats.experience == old(stats).experience
      ensures |logs| <= 4 && logs[0].message == q.title
      ensures DatesUnique(old(history)) ==> DatesUnique(history)
    {
      var before := stats;
      stats := ApplyQuest(stats, q);
      logs := PushLog(logs, LogEntry(q, logId, now));
      if (stats.health, stats.hunger) != (before.health, before.hunger) {
        RecordToday(today);
      }
    }

    /**
     * saveQuest: an edit replaces the quests with the edited id, anything else appends a new quest under
     * `freshId`, which stands for the random id. Ids stay unique when a created quest's id is fresh.
     */
    method SaveQuest(editing: string, freshId: string, title: string, icon: string, hp: int, hunger: int)
      modifies this
      ensures quests == Save(old(quests), editing, freshId, title, icon, hp, hunger)
      ensures stats == old(stats) && history == old(history) && logs == old(logs)
      ensures lang == old(lang) && fontSize == old(fontSize)
      ensures IdsUnique(old(quests)) && (!IsEdit(editing) ==> freshId !in Ids(old(quests))) ==> IdsUnique(quests)
    {
      var newQuest := FormQuest(if IsEdit(editing) then editing else freshId, title, icon, hp, hunger);
      if IsEdit(editing) {
        quests := ReplaceById(quests, editing, newQuest);
      } else {
        quests := quests + [newQuest];
      }
      if IdsUnique(old(quests)) && (!IsEdit(editing) ==> freshId !in Ids(old(quests))) {
        SaveKeepsIdsUnique(old(quests), editing, freshId, title, icon, hp, hunger);
      }
    }

    /** moveQuest: the quest at `index` trades places with its neighbour, or nothing changes at the ends. */
    method MoveQuest(index: nat, dir: Direction)
      requires index < |quests|
      modifies this
      ensures quests == Moved(old(quests), index, dir)
      ensures multiset(quests) == multiset(old(quests))
      ensures stats == old(stats) && history == old(history) && logs == old(logs)
      ensures lang == old(lang) && fontSize == old(fontSize)
      ensures IdsUnique(old(quests)) ==> IdsUnique(quests)
    {
      if IdsUnique(quests) {
        MovedKeepsIdsUnique(quests, index, dir);
      }
      quests := MoveInCopy(quests, index, dir);
    }

    /** The delete button's handler: every quest with the edited id is filtered out. */
    method DeleteQuest(editing: string)
      modifies this
      ensures quests == DeleteById(old(quests), editing)
      ensures forall x :: x in quests <==> x in old(quests) && x.id != editing
      ensures stats == old(stats) && history == old(history) && logs == old(logs)
      ensures lang == old(lang) && fontSize == old(fontSize)
      ensures IdsUnique(old(quests)) ==> IdsUnique(quests)
    {
      if IdsUnique(quests) {
        DeleteKeepsIdsUnique(quests, editing);
      }
      quests := DeleteById(quests, editing);
    }
  }
}
