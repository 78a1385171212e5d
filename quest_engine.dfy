/** Performing a quest: the clamped stat update and the bounded log (App.tsx, handleAction). */
module QuestEngine {
  import opened Wrappers
  import opened Types
  import opened Text
  import opened Constants

  function Min(a: int, b: int): int { if a <= b then a else b }

  function Max(a: int, b: int): int { if a >= b then a else b }

  /** Math.min(MAX_STATS, Math.max(0, x)). */
  function Clamp(x: int): (r: int)
    ensures 0 <= r <= MAX_STATS
    ensures 0 <= x <= MAX_STATS ==> r == x
    ensures x < 0 ==> r == 0
    ensures x > MAX_STATS ==> r == MAX_STATS
  {
    Min(MAX_STATS, Max(0, x))
  }

  predicate InRange(x: int) { 0 <= x <= MAX_STATS }

  predicate StatsInRange(s: PlayerStats) {
    InRange(s.health) && InRange(s.hunger)
  }

  /** The stats after performing quest `q`: both deltas applied and clamped, experience untouched. */
  function ApplyQuest(s: PlayerStats, q: Quest): (r: PlayerStats)
    ensures r.health == Clamp(s.health + q.hpImpact) && r.hunger == Clamp(s.hunger + q.hungerImpact)
    ensures StatsInRange(r)
    ensures r.experience == s.experience
    // a stat moves in the direction of its delta and never past it
    ensures InRange(s.health) && q.hpImpact >= 0 ==> s.health <= r.health <= s.health + q.hpImpact
    ensures InRange(s.health) && q.hpImpact <= 0 ==> s.health + q.hpImpact <= r.health <= s.health
    ensures InRange(s.hunger) && q.hungerImpact >= 0 ==> s.hunger <= r.hunger <= s.hunger + q.hungerImpact
    ensures InRange(s.hunger) && q.hungerImpact <= 0 ==> s.hunger + q.hungerImpact <= r.hunger <= s.hunger
    // and stops only at the bound it overshoots
    ensures r.health != s.health + q.hpImpact ==>
      (s.health + q.hpImpact < 0 && r.health == 0) || (s.health + q.hpImpact > MAX_STATS && r.health == MAX_STATS)
    ensures r.hunger != s.hunger + q.hungerImpact ==>
      (s.hunger + q.hungerImpact < 0 && r.hunger == 0) || (s.hunger + q.hungerImpact > MAX_STATS && r.hunger == MAX_STATS)
  {
    s.(health := Clamp(s.health + q.hpImpact), hunger := Clamp(s.hunger + q.hungerImpact))
  }

  /** The log's impact text: the HP delta with an explicit sign, then " HP". */
  function ImpactText(d: int): (s: string)
    ensures |s| >= 5 && s[|s| - 3..] == " HP"
    ensures s[0] == '+' <==> d >= 0
    ensures s[0] == '-' <==> d < 0
  {
    (if d >= 0 then "+" else "") + IntToString(d) + " HP"
  }

  /** Reads an impact text back: a sign, decimal digits, " HP". */
  function ParseImpact(s: string): Option<int> {
    if |s| < 5 || s[|s| - 3..] != " HP" then None
    else
      var sign, digits := s[0], s[1..|s| - 3];
      if !AllDigits(digits) then None
      else
        var n: int := ParseNat(digits);
        if sign == '+' then Some(n)
        else if sign == '-' then Some(-n)
      else None
  }

  /** The impact text determines the HP delta: it can be read back exactly. */
  lemma ImpactTextRoundTrip(d: int)
    ensures ParseImpact(ImpactText(d)) == Some(d)
  {
    var n: nat := if d < 0 then -d else d;
    var s := ImpactText(d);
    assert s == [if d >= 0 then '+' else '-'] + NatToString(n) + " HP";
    assert s[1..|s| - 3] == NatToString(n);
    ParseNatToString(n);
  }

  /** The entry logged for quest `q`; `id` and `now` stand for the random id and the clock. */
  function LogEntry(q: Quest, id: string, now: int): (g: GameLog)
    ensures g.id == id && g.timestamp == now && g.message == q.title
    ensures ParseImpact(g.impact) == Some(q.hpImpact)
    ensures g.impact[0] == '+' <==> q.hpImpact >= 0
  {
    ImpactTextRoundTrip(q.hpImpact);
    GameLog(id, now, q.title, ImpactText(q.hpImpact))
  }

  /** The new entry goes first, followed by at most three of the previous entries. */
  function PushLog(logs: seq<GameLog>, g: GameLog): (r: seq<GameLog>)
    ensures |r| == Min(|logs| + 1, 4)
    ensures r[0] == g && r[1..] == logs[..|r| - 1]
  {
    [g] + logs[..Min(3, |logs|)]
  }

  /** The log after pushing `es` one after another, oldest first. */
  function Replay(logs: seq<GameLog>, es: seq<GameLog>): seq<GameLog>
    decreases |es|
  {
    if es == [] then logs else Replay(PushLog(logs, es[0]), es[1..])
  }

  function Reversed<T>(s: seq<T>): (r: seq<T>)
    ensures |r| == |s|
  {
    if s == [] then [] else Reversed(s[1..]) + [s[0]]
  }

  lemma TruncateTwice<T>(a: seq<T>, b: seq<T>)
    ensures (a + b[..Min(4, |b|)])[..Min(4, |a| + Min(4, |b|))] == (a + b)[..Min(4, |a| + |b|)]
  {
  }

  /** After any run of actions the log holds the four most recent entries (fewer if fewer), newest first. */
  lemma {:induction false} ReplayKeepsNewest(logs: seq<GameLog>, es: seq<GameLog>)
    requires |logs| <= 4
    ensures Replay(logs, es) == (Reversed(es) + logs)[..Min(4, |es| + |logs|)]
    decreases |es|
  {
    if es != [] {
      var e, rest := es[0], es[1..];
      var p := PushLog(logs, e);
      ReplayKeepsNewest(p, rest);
      assert p == ([e] + logs)[..Min(4, |logs| + 1)];
      TruncateTwice(Reversed(rest), [e] + logs);
      assert Reversed(es) + logs == Reversed(rest) + ([e] + logs);
    }
  }

  /** Starting from an empty log, more than four actions leave exactly the last four. */
  lemma LogBound(es: seq<GameLog>)
    requires |es| >= 4
    ensures Replay([], es) == Reversed(es)[..4]
  {
    ReplayKeepsNewest([], es);
    assert Reversed(es) + [] == Reversed(es);
  }
}
