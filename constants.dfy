/** The seed catalog and the stat bound (constants.tsx). */
module Constants {
  import opened Types
  import opened Text

  /** Upper bound of health and hunger, and their starting value. */
  const MAX_STATS: int := 10

  /** The four built-in quests a first session starts with. */
  function InitialQuests(): (qs: seq<Quest>)
    ensures |qs| == 4
    ensures Ids(qs) == ["stay-up-late", "eat-well", "workout", "reading"]
    ensures IdsUnique(qs)
    ensures forall i :: 0 <= i < |qs| ==> !qs[i].isCustom
    ensures forall i :: 0 <= i < |qs| ==> -2 <= qs[i].hpImpact <= 2 && -2 <= qs[i].hungerImpact <= 2
    ensures forall i :: 0 <= i < |qs| ==> NoLowercase(qs[i].title)
  {
    [ Quest("stay-up-late", "STAY UP LATE", -1, 0, "\U{1F319}", false),
      Quest("eat-well", "EAT WELL", 2, 2, "\U{1F357}", false),
      Quest("workout", "EXERCISE", 1, -2, "\U{1F3C3}", false),
      Quest("reading", "READ 30 MIN", 0, -1, "\U{1F4D6}", false) ]
  }

  /** Saving a seed quest unchanged leaves its title as it was: seed titles are already upper case. */
  lemma SeedTitlesUpperCase(i: nat)
    requires i < |InitialQuests()|
    ensures ToUpper(InitialQuests()[i].title) == InitialQuests()[i].title
  {
    UpperFixedPoint(InitialQuests()[i].title);
  }
}
