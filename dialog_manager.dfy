/** The choice registry and conversation state of the dialog manager.

    Script-VM handles are opaque comparable values. The registry is the
    vector of offered choices, which the manager appends to, clears and sorts
    by each entry's sort index. */
module Dialog {

  /** int32_t */
  newtype int32 = x: int | -0x8000_0000 <= x < 0x8000_0000

  datatype NpcHandle = InvalidNpc | Npc(index: nat)
  datatype InfoHandle = InfoHandle(index: nat)

  /** One option of the dialog box. */
  datatype ChoiceEntry = ChoiceEntry(
    text: string,         // shown to the user
    functionSym: nat,     // script function run when chosen
    info: InfoHandle,     // the info it belongs to
    nr: int32,            // sort index
    important: bool)      // played without asking

  /** ChoiceEntry::comparator: a goes before b. An entry never goes before
      itself, nor before one with the same sort index. */
  predicate Comparator(a: ChoiceEntry, b: ChoiceEntry): (before: bool)
    ensures before ==> a != b && a.nr != b.nr
    ensures before ==> !(b.nr < a.nr)
  {
    a.nr < b.nr
  }

  /** The comparator is a strict weak order, as std::sort requires: irreflexive,
      transitive, and "neither is before the other" is transitive too. */
  lemma ComparatorIsStrictWeakOrder(a: ChoiceEntry, b: ChoiceEntry, c: ChoiceEntry)
    ensures !Comparator(a, a)
    ensures Comparator(a, b) && Comparator(b, c) ==> Comparator(a, c)
    ensures Comparator(a, b) ==> !Comparator(b, a)
    ensures !Comparator(a, b) && !Comparator(b, a) && !Comparator(b, c) && !Comparator(c, b) ==>
              !Comparator(a, c) && !Comparator(c, a)
  {
  }

  /** What std::sort with the comparator leaves: no entry is before an earlier one. */
  predicate SortedByNr(s: seq<ChoiceEntry>) {
    forall i, j :: 0 <= i < j < |s| ==> !Comparator(s[j], s[i])
  }

  /** Sorted by the comparator means the sort indices never decrease. */
  lemma SortedMeansNonDecreasing(s: seq<ChoiceEntry>)
    ensures SortedByNr(s) <==> forall i, j :: 0 <= i < j < |s| ==> s[i].nr <= s[j].nr
  {
  }

  /** Places e into a sorted registry after every entry it is not before. */
  function InsertByNr(s: seq<ChoiceEntry>, e: ChoiceEntry): (r: seq<ChoiceEntry>)
    ensures multiset(r) == multiset(s) + multiset{e}
  {
    if |s| == 0 then [e]
    else if Comparator(e, s[0]) then [e] + s
    else
      assert s == [s[0]] + s[1..];
      [s[0]] + InsertByNr(s[1..], e)
  }

  /** Inserting into a sorted registry keeps it sorted. */
  lemma {:induction false} InsertKeepsSorted(s: seq<ChoiceEntry>, e: ChoiceEntry)
    requires SortedByNr(s)
    ensures SortedByNr(InsertByNr(s, e))
  {
    if |s| > 0 && !Comparator(e, s[0]) {
      var tail := s[1..];
      var rest := InsertByNr(tail, e);
      InsertKeepsSorted(tail, e);
      forall k | 0 <= k < |rest|
        ensures !Comparator(rest[k], s[0])
      {
        assert rest[k] in multiset(rest);
        if rest[k] != e {
          assert rest[k] in multiset(tail);
          var m :| 0 <= m < |tail| && tail[m] == rest[k];
          assert s[m + 1] == rest[k];
        }
      }
      assert InsertByNr(s, e) == [s[0]] + rest;
    }
  }

  /** An entry whose sort index is below every other entry's comes first in
      any sorted arrangement of the registry holding it. */
  lemma SmallestNrSortsFirst(s: seq<ChoiceEntry>, e: ChoiceEntry, t: seq<ChoiceEntry>)
    requires forall i :: 0 <= i < |s| ==> e.nr < s[i].nr
    requires SortedByNr(t) && multiset(t) == multiset(s + [e])
    ensures |t| == |s| + 1 && t[0] == e
  {
    assert |t| == |multiset(t)| == |s + [e]|;
    assert e in multiset(t);
    var j :| 0 <= j < |t| && t[j] == e;
    assert t[0] in multiset(s + [e]);
    assert t[0].nr <= e.nr;
    assert t[0] in s + [e];
  }

  class DialogManager {
    var choices: seq<ChoiceEntry>
    var player: NpcHandle
    var target: NpcHandle
    /** someone is talking or the dialog box is visible */
    var dialogActive: bool
    /** the conditions of all choices will be re-evaluated */
    var processInfos: bool
    /** a subtitle box is shown */
    var talking: bool
    /** the hero is inside a multiple-choice sub-dialog */
    var subDialogActive: bool
    /** important infos already chosen in the current dialog */
    var importantKnown: set<InfoHandle>

    /** A manager with no conversation going on. */
    constructor ()
      ensures choices == [] && importantKnown == {}
      ensures player == InvalidNpc && target == InvalidNpc
      ensures !dialogActive && !processInfos && !talking && !subDialogActive
    {
      choices := [];
      player, target := InvalidNpc, InvalidNpc;
      dialogActive, processInfos, talking, subDialogActive := false, false, false, false;
      importantKnown := {};
    }

    function IsDialogActive(): (active: bool)
      reads this`dialogActive
      ensures active <==> dialogActive
    {
      dialogActive
    }

    function IsTalking(): (talks: bool)
      reads this`talking
      ensures talks <==> talking
    {
      talking
    }

    function GetTarget(): (npc: NpcHandle)
      reads this`target
      ensures npc == target
    {
      target
    }

    /** Removes every choice, except inside a sub-dialog, whose queue is kept. */
    method ClearChoices()
      modifies this`choices
      ensures choices == if subDialogActive then old(choices) else []
    {
      if !subDialogActive {
        choices := [];
      }
    }

    /** Appends one choice; the earlier ones stay as they were. */
    method AddChoice(entry: ChoiceEntry)
      modifies this`choices
      ensures choices == old(choices) + [entry]
      ensures |choices| == |old(choices)| + 1 && choices[|choices| - 1] == entry
      ensures forall i :: 0 <= i < |old(choices)| ==> choices[i] == old(choices)[i]
    {
      choices := choices + [entry];
    }

    /** A sort index smaller than every registered one: one below the smallest,
        or 0 when there is none. */
    method BeforeFrontIndex() returns (r: int)
      ensures forall i :: 0 <= i < |choices| ==> r < choices[i].nr as int
      ensures |choices| == 0 ==> r == 0
      ensures |choices| > 0 ==> exists i :: 0 <= i < |choices| && r == choices[i].nr as int - 1
    {
      if |choices| == 0 {
        return 0;
      }
      var least := choices[0].nr;
      var k := 0;
      for i := 1 to |choices|
        invariant 0 <= k < i && least == choices[k].nr
        invariant forall j :: 0 <= j < i ==> least <= choices[j].nr
      {
        if Comparator(choices[i], choices[k]) {
          least, k := choices[i].nr, i;
        }
      }
      r := least as int - 1;
    }

    method SetSubDialogActive(flag: bool)
      modifies this`subDialogActive
      ensures subDialogActive == flag
    {
      subDialogActive := flag;
    }

    /** Sorts the registry by sort index; the entries are the same as before. */
    method SortChoices()
      modifies this`choices
      ensures SortedByNr(choices)
      ensures multiset(choices) == multiset(old(choices))
    {
      var original := choices;
      var sorted := [];
      for i := 0 to |original|
        invariant SortedByNr(sorted)
        invariant multiset(sorted) == multiset(original[..i])
      {
        assert original[..i + 1] == original[..i] + [original[i]];
        InsertKeepsSorted(sorted, original[i]);
        sorted := InsertByNr(sorted, original[i]);
      }
      assert original[..|original|] == original;
      choices := sorted;
    }

    /** performChoice's index: it must name one of the current choices. */
    method PerformChoice(choice: nat) returns (entry: ChoiceEntry)
      requires choice < |choices|
      ensures entry == choices[choice]
    {
      entry := choices[choice];
    }

    /** Remembers an important info; remembering it again changes nothing. */
    method RememberImportant(info: InfoHandle)
      modifies this`importantKnown
      ensures importantKnown == old(importantKnown) + {info}
      ensures old(info in importantKnown) ==> importantKnown == old(importantKnown)
    {
      importantKnown := importantKnown + {info};
    }
  }
}
