/** The records of the habit tracker (types.ts). */
module Types {

  datatype Language = En | Cn | Fr {
    /** The code under which the language is stored and displayed. */
    function Code(): string {
      match this
      case En => "en"
      case Cn => "cn"
      case Fr => "fr"
    }
  }

  datatype FontSize = Small | Medium | Large {
    function Code(): string {
      match this
      case Small => "small"
      case Medium => "medium"
      case Large => "large"
    }
  }

  /** A habit the player can perform; `isCustom` is false for the built-in quests. */
  datatype Quest = Quest(
    id: string,
    title: string,
    hpImpact: int,
    hungerImpact: int,
    icon: string,
    isCustom: bool)

  datatype PlayerStats = PlayerStats(health: int, hunger: int, experience: int)

  /** One day's snapshot; `date` is a YYYY-MM-DD string. */
  datatype DailyStats = DailyStats(date: string, hp: int, hunger: int)

  /** A line of the transient system log; `timestamp` is in epoch milliseconds. */
  datatype GameLog = GameLog(id: string, timestamp: int, message: string, impact: string)

  /** The ids of a quest catalog, in catalog order. */
  function Ids(qs: seq<Quest>): (ids: seq<string>)
    ensures |ids| == |qs|
    ensures forall i :: 0 <= i < |qs| ==> ids[i] == qs[i].id
  {
    seq(|qs|, i requires 0 <= i < |qs| => qs[i].id)
  }

  /** No two quests of the catalog share an id. */
  predicate IdsUnique(qs: seq<Quest>) {
    forall i, j :: 0 <= i < j < |qs| ==> qs[i].id != qs[j].id
  }

  /** No two snapshots of the history share a date. */
  predicate DatesUnique(h: seq<DailyStats>) {
    forall i, j :: 0 <= i < j < |h| ==> h[i].date != h[j].date
  }
}
