/** Editing the quest catalog: save (create or update), delete, reorder (App.tsx). */
module QuestEditor {
  import opened Wrappers
  import opened Types
  import opened Text
  import opened Constants

  /** The editor state `isEditing && isEditing !== 'new'`: the form edits the quest with that id. */
  predicate IsEdit(editing: string) {
    editing != "" && editing != "new"
  }

  /** The quest the form submits: its title upper-cased, and always marked custom. */
  function FormQuest(id: string, title: string, icon: string, hp: int, hunger: int): (q: Quest)
    ensures q.id == id && q.icon == icon && q.hpImpact == hp && q.hungerImpact == hunger
    ensures q.isCustom
    ensures q.title == ToUpper(title)
  {
    Quest(id, ToUpper(title), hp, hunger, icon, true)
  }

  /** `prev.map(q => q.id === id ? newQuest : q)`: every quest with that id becomes `q`. */
  function ReplaceById(qs: seq<Quest>, id: string, q: Quest): (r: seq<Quest>)
    ensures |r| == |qs|
    ensures forall i :: 0 <= i < |qs| && qs[i].id == id ==> r[i] == q
    ensures forall i :: 0 <= i < |qs| && qs[i].id != id ==> r[i] == qs[i]
    ensures q.id == id ==> Ids(r) == Ids(qs)
  {
    seq(|qs|, i requires 0 <= i < |qs| => if qs[i].id == id then q else qs[i])
  }

  /** The catalog after saving the form: an edit replaces in place, anything else appends a quest under `freshId`. */
  function Save(qs: seq<Quest>, editing: string, freshId: string,
                title: string, icon: string, hp: int, hunger: int): (r: seq<Quest>)
    ensures IsEdit(editing) ==> |r| == |qs| && Ids(r) == Ids(qs)
    ensures !IsEdit(editing) ==> |r| == |qs| + 1 && r[..|qs|] == qs && r[|qs|].id == freshId
    ensures forall i :: 0 <= i < |r| && r[i] !in qs ==> r[i].isCustom && r[i].title == ToUpper(title)
  {
    if IsEdit(editing) then ReplaceById(qs, editing, FormQuest(editing, title, icon, hp, hunger))
    else qs + [FormQuest(freshId, title, icon, hp, hunger)]
  }

  /** Creating appends exactly one custom, upper-case quest at the end and keeps the rest. */
  lemma SaveNewAppends(qs: seq<Quest>, editing: string, freshId: string,
                       title: string, icon: string, hp: int, hunger: int)
    requires !IsEdit(editing)
    ensures var r := Save(qs, editing, freshId, title, icon, hp, hunger);
      |r| == |qs| + 1 && r[..|qs|] == qs &&
      r[|qs|].id == freshId && r[|qs|].isCustom && r[|qs|].title == ToUpper(title)
  {
  }

  /** Editing keeps length and order: entries with the edited id get the form's values, marked custom; others stay. */
  lemma SaveEditReplaces(qs: seq<Quest>, editing: string, freshId: string,
                         title: string, icon: string, hp: int, hunger: int, k: nat)
    requires IsEdit(editing) && k < |qs|
    ensures var r := Save(qs, editing, freshId, title, icon, hp, hunger);
      |r| == |qs| &&
      (qs[k].id == editing ==>
         r[k].id == editing && r[k].isCustom && r[k].title == ToUpper(title) &&
         r[k].hpImpact == hp && r[k].hungerImpact == hunger && r[k].icon == icon) &&
      (qs[k].id != editing ==> r[k] == qs[k])
  {
  }

  /** Saving an edit of an id that is no longer in the catalog changes nothing. */
  lemma SaveEditUnknownId(qs: seq<Quest>, editing: string, freshId: string,
                          title: string, icon: string, hp: int, hunger: int)
    requires IsEdit(editing) && editing !in Ids(qs)
    ensures Save(qs, editing, freshId, title, icon, hp, hunger) == qs
  {
  }

  /** Saving keeps ids unique when they were, provided a created quest's id is fresh. */
  lemma SaveKeepsIdsUnique(qs: seq<Quest>, editing: string, freshId: string,
                           title: string, icon: string, hp: int, hunger: int)
    requires IdsUnique(qs)
    requires !IsEdit(editing) ==> freshId !in Ids(qs)
    ensures IdsUnique(Save(qs, editing, freshId, title, icon, hp, hunger))
  {
  }

  /** `quests.find(q => q.id === id)`: the first quest with that id. */
  function FindById(qs: seq<Quest>, id: string): (r: Option<Quest>)
    ensures r.Some? ==> r.value in qs && r.value.id == id
    ensures r.Some? ==> exists k :: 0 <= k < |qs| && qs[k] == r.value && forall j :: 0 <= j < k ==> qs[j].id != id
    ensures r.None? <==> id !in Ids(qs)
    decreases |qs|
  {
    if qs == [] then None
    else if qs[0].id == id then Some(qs[0])
    else
      var r := FindById(qs[1..], id);
      assert Ids(qs) == [qs[0].id] + Ids(qs[1..]);
      if r.Some? then FirstAfterHead(qs, id, r.value); r else r
  }

  /** A first match in the tail, behind a head of another id, is the first match of the whole catalog. */
  lemma FirstAfterHead(qs: seq<Quest>, id: string, x: Quest)
    requires qs != [] && qs[0].id != id
    requires exists k :: 0 <= k < |qs[1..]| && qs[1..][k] == x && forall j :: 0 <= j < k ==> qs[1..][j].id != id
    ensures exists k :: 0 <= k < |qs| && qs[k] == x && forall j :: 0 <= j < k ==> qs[j].id != id
  {
    var k :| 0 <= k < |qs[1..]| && qs[1..][k] == x && forall j :: 0 <= j < k ==> qs[1..][j].id != id;
    assert qs[k + 1] == x;
    forall j | 0 < j < k + 1 ensures qs[j].id != id {
      assert qs[j] == qs[1..][j - 1];
    }
  }

  /** The delete control is offered only when editing an existing quest that is custom. */
  predicate CanDelete(qs: seq<Quest>, editing: string)
    ensures CanDelete(qs, editing) ==> IsEdit(editing) && exists k :: 0 <= k < |qs| && qs[k].id == editing && qs[k].isCustom
  {
    IsEdit(editing) && FindById(qs, editing).Some? && FindById(qs, editing).value.isCustom
  }

  /** No seed quest can be deleted from the seed catalog. */
  lemma SeedsNotDeletable(editing: string)
    ensures !CanDelete(InitialQuests(), editing)
  {
  }

  /** Once a quest has been edited it is custom, so the delete control is offered for it. */
  lemma EditedIsDeletable(qs: seq<Quest>, editing: string, freshId: string,
                          title: string, icon: string, hp: int, hunger: int)
    requires IsEdit(editing) && editing in Ids(qs)
    ensures CanDelete(Save(qs, editing, freshId, title, icon, hp, hunger), editing)
  {
  }

  /** `prev.filter(x => x.id !== id)`. */
  function DeleteById(qs: seq<Quest>, id: string): (r: seq<Quest>)
    ensures |r| <= |qs|
    ensures forall x :: x in r <==> x in qs && x.id != id
    decreases |qs|
  {
    if qs == [] then []
    else if qs[0].id == id then DeleteById(qs[1..], id)
    else [qs[0]] + DeleteById(qs[1..], id)
  }

  /** Deleting keeps the relative order of what is left: it works piece by piece. */
  lemma {:induction false} DeleteConcat(a: seq<Quest>, b: seq<Quest>, id: string)
    ensures DeleteById(a + b, id) == DeleteById(a, id) + DeleteById(b, id)
    decreases |a|
  {
    if a != [] {
      assert (a + b)[1..] == a[1..] + b;
      DeleteConcat(a[1..], b, id);
    } else {
      assert a + b == b;
    }
  }

  /** Deleting an id that is not in the catalog changes nothing. */
  lemma {:induction false} DeleteUnknownId(qs: seq<Quest>, id: string)
    requires id !in Ids(qs)
    ensures DeleteById(qs, id) == qs
    decreases |qs|
  {
    if qs != [] {
      assert Ids(qs)[0] == qs[0].id;
      assert Ids(qs[1..]) == Ids(qs)[1..];
      DeleteUnknownId(qs[1..], id);
    }
  }

  /** Deleting keeps ids unique. */
  lemma {:induction false} DeleteKeepsIdsUnique(qs: seq<Quest>, id: string)
    requires IdsUnique(qs)
    ensures IdsUnique(DeleteById(qs, id))
    decreases |qs|
  {
    if qs != [] {
      DeleteKeepsIdsUnique(qs[1..], id);
      if qs[0].id != id {
        var rest := DeleteById(qs[1..], id);
        var r := [qs[0]] + rest;
        forall j | 1 <= j < |r| ensures r[0].id != r[j].id {
          assert rest[j - 1] in qs[1..];
        }
      }
    }
  }

  datatype Direction = Up | Down

  /** The neighbour a quest swaps with: one place earlier for up, one later for down. */
  function Target(index: int, dir: Direction): int {
    if dir == Up then index - 1 else index + 1
  }

  /** The catalog after `moveQuest(index, dir)`: the two places swapped, or unchanged when the neighbour is off the end. */
  function Moved(qs: seq<Quest>, index: nat, dir: Direction): (r: seq<Quest>)
    requires index < |qs|
    ensures |r| == |qs| && multiset(r) == multiset(qs)
  {
    var t := Target(index, dir);
    if t < 0 || t >= |qs| then qs else qs[index := qs[t]][t := qs[index]]
  }

  /** With the neighbour in range the two places trade quests and no other place changes. */
  lemma MovedSwaps(qs: seq<Quest>, index: nat, dir: Direction)
    requires index < |qs|
    requires 0 <= Target(index, dir) < |qs|
    ensures Moved(qs, index, dir)[index] == qs[Target(index, dir)]
    ensures Moved(qs, index, dir)[Target(index, dir)] == qs[index]
    ensures forall k :: 0 <= k < |qs| && k != index && k != Target(index, dir) ==> Moved(qs, index, dir)[k] == qs[k]
  {
  }

  /** The first quest cannot move up and the last cannot move down. */
  lemma MoveAtEnds(qs: seq<Quest>)
    requires qs != []
    ensures Moved(qs, 0, Up) == qs
    ensures Moved(qs, |qs| - 1, Down) == qs
  {
  }

  /** Moving a quest up and then moving it back down restores the catalog. */
  lemma UpThenDown(qs: seq<Quest>, index: nat)
    requires 1 <= index < |qs|
    ensures Moved(Moved(qs, index, Up), index - 1, Down) == qs
  {
  }

  /** Reordering keeps ids unique. */
  lemma MovedKeepsIdsUnique(qs: seq<Quest>, index: nat, dir: Direction)
    requires index < |qs| && IdsUnique(qs)
    ensures IdsUnique(Moved(qs, index, dir))
  {
  }

  /** `moveQuest` as written: copy the catalog into a fresh array and swap two of its cells. */
  method MoveInCopy(qs: seq<Quest>, index: nat, dir: Direction) returns (r: seq<Quest>)
    requires index < |qs|
    ensures r == Moved(qs, index, dir)
  {
    var next := new Quest[|qs|](k requires 0 <= k < |qs| => qs[k]);
    var t := Target(index, dir);
    if t < 0 || t >= next.Length {
      return qs;
    }
    next[index], next[t] := next[t], next[index];
    r := next[..];
  }
}
