/** The daily history: one snapshot per date, upserted on every stat change (App.tsx, lines 50-62). */
module HistoryRecorder {
  import opened Types

  /** The snapshot recorded for `today` from the current health and hunger. */
  function Snapshot(today: string, s: PlayerStats): (e: DailyStats)
    ensures e.date == today && e.hp == s.health && e.hunger == s.hunger
  {
    DailyStats(today, s.health, s.hunger)
  }

  /** findIndex on the date: the first position dated `date`, or -1 when there is none. */
  function FindDate(h: seq<DailyStats>, date: string): (r: int)
    ensures -1 <= r < |h|
    ensures r >= 0 ==> h[r].date == date && forall k :: 0 <= k < r ==> h[k].date != date
    ensures r == -1 <==> forall k :: 0 <= k < |h| ==> h[k].date != date
    decreases |h|
  {
    if h == [] then -1
    else if h[0].date == date then 0
    else
      var r := FindDate(h[1..], date);
      if r == -1 then -1 else r + 1
  }

  /** The history after recording `e`: the first entry of the same date is replaced in place, else `e` is appended. */
  function Upsert(h: seq<DailyStats>, e: DailyStats): (r: seq<DailyStats>)
    ensures e in r
    ensures DatesUnique(h) ==> DatesUnique(r)
  {
    var i := FindDate(h, e.date);
    if i >= 0 then
      assert h[i := e][i] == e;
      h[i := e]
    else
      assert (h + [e])[|h|] == e;
      h + [e]
  }

  /** The first position with a given date is where findIndex stops. */
  lemma FindDateAt(h: seq<DailyStats>, date: string, k: nat)
    requires k < |h| && h[k].date == date
    requires forall j :: 0 <= j < k ==> h[j].date != date
    ensures FindDate(h, date) == k
  {
  }

  /** A date already recorded: same length, the first entry of that date replaced, every other entry untouched. */
  lemma UpsertExisting(h: seq<DailyStats>, e: DailyStats, k: nat)
    requires k < |h| && h[k].date == e.date
    requires forall j :: 0 <= j < k ==> h[j].date != e.date
    ensures |Upsert(h, e)| == |h|
    ensures Upsert(h, e)[k] == e
    ensures forall j :: 0 <= j < |h| && j != k ==> Upsert(h, e)[j] == h[j]
  {
  }

  /** A new date: appended at the end, the earlier entries kept as they were. */
  lemma UpsertNew(h: seq<DailyStats>, e: DailyStats)
    requires forall j :: 0 <= j < |h| ==> h[j].date != e.date
    ensures Upsert(h, e) == h + [e]
  {
  }

  /** Recording twice on the same day leaves what the second recording says, at the place of the first. */
  lemma UpsertSameDay(h: seq<DailyStats>, e1: DailyStats, e2: DailyStats)
    requires e1.date == e2.date
    ensures Upsert(Upsert(h, e1), e2) == Upsert(h, e2)
  {
    var i := FindDate(h, e1.date);
    var h1 := Upsert(h, e1);
    if i >= 0 {
      assert forall k :: 0 <= k < i ==> h1[k] == h[k];
      FindDateAt(h1, e2.date, i);
    } else {
      assert forall k :: 0 <= k < |h| ==> h1[k].date != e2.date;
      assert FindDate(h1, e2.date) == |h|;
    }
  }

  /** Recording the same stats again on the same day changes nothing. */
  lemma UpsertIdempotent(h: seq<DailyStats>, e: DailyStats)
    ensures Upsert(Upsert(h, e), e) == Upsert(h, e)
  {
    UpsertSameDay(h, e, e);
  }

  /** With unique dates, the history holds exactly one entry for the recorded day, and it is the recorded one. */
  lemma UpsertSingleEntryForDay(h: seq<DailyStats>, e: DailyStats)
    requires DatesUnique(h)
    ensures forall k :: 0 <= k < |Upsert(h, e)| && Upsert(h, e)[k].date == e.date ==> Upsert(h, e)[k] == e
  {
  }
}
