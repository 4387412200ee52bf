/** Driver selection in the toolbar (components/Toolbar.tsx): toggling one
    driver, toggling a whole team, and the chip state of a team. A selection
    is the list of selected driver codes; membership in it is what the
    toolbar's set of the current selection answers. */
module Toolbar {
  import opened Common

  /** The codes of a list, as a set. */
  function Elems(s: seq<string>): set<string> {
    set x | x in s
  }

  /** `toggleDriver`: a selected driver is removed everywhere it occurs; an
      unselected one is appended. */
  function ToggleDriver(selected: seq<string>, code: string): (r: seq<string>)
    ensures code in selected ==> code !in r
    ensures code !in selected ==> r == selected + [code]
  {
    if code in selected then
      RemoveAllMembers(selected, {code});
      RemoveAll(selected, {code})
    else selected + [code]
  }

  /** Removing a driver leaves every other code as often as before, in the
      same relative order. */
  lemma ToggleDriverKeepsOthers(selected: seq<string>, code: string, other: string)
    requires code in selected && other != code
    ensures multiset(ToggleDriver(selected, code))[other] == multiset(selected)[other]
    ensures ToggleDriver(selected, code) == RemoveAll(selected, {code})
  {
    RemoveAllCounts(selected, {code}, other);
  }

  /** Toggling an unselected driver twice gives back the original selection. */
  lemma ToggleDriverTwice(selected: seq<string>, code: string)
    requires code !in selected
    ensures ToggleDriver(ToggleDriver(selected, code), code) == selected
  {
    RemoveAllAppend(selected, [code], {code});
    RemoveAllNone(selected, {code});
  }

  /** `allSelected` of a team chip: every code of the team is selected. */
  predicate AllSelected(team: seq<string>, selected: seq<string>) {
    forall code :: code in team ==> code in selected
  }

  /** `anySelected` of a team chip. */
  predicate AnySelected(team: seq<string>, selected: seq<string>) {
    AllSelected(team, selected) || exists code :: code in team && code in selected
  }

  /** A chip is partly lit exactly when its team is empty or one of its
      drivers is selected; so a fully lit chip is also partly lit. */
  lemma AnySelectedMeaning(team: seq<string>, selected: seq<string>)
    ensures AnySelected(team, selected) <==> team == [] || exists code :: code in team && code in selected
    ensures AllSelected(team, selected) ==> AnySelected(team, selected)
  {
    if AllSelected(team, selected) && team != [] {
      assert team[0] in team && team[0] in selected;
    }
  }

  /** What `toggleTeam` hands to the selection callback. */
  function ToggledTeam(selected: seq<string>, team: seq<string>): seq<string> {
    if AllSelected(team, selected) then RemoveAll(selected, Elems(team))
    else FirstOccurrences(selected + team)
  }

  /** `toggleTeam`: the removal branch filters, the merge branch starts from
      the set of the current selection and adds the team codes one by one. */
  method ToggleTeam(selected: seq<string>, team: seq<string>) returns (next: seq<string>)
    ensures next == ToggledTeam(selected, team)
  {
    if forall code :: code in team ==> code in selected {
      next := RemoveAll(selected, Elems(team));
    } else {
      next := FirstOccurrences(selected);
      assert selected + team[..0] == selected;
      for i := 0 to |team|
        invariant next == FirstOccurrences(selected + team[..i])
      {
        var merged := selected + team[..i + 1];
        assert merged[..|merged| - 1] == selected + team[..i];
        if team[i] !in next {
          next := next + [team[i]];
        }
      }
      assert selected + team[..|team|] == selected + team;
    }
  }

  /** Adding one more element to the de-duplicated list. */
  lemma FirstOccurrencesSnoc(s: seq<string>, x: string)
    ensures FirstOccurrences(s + [x]) == if x in FirstOccurrences(s) then FirstOccurrences(s) else FirstOccurrences(s) + [x]
  {
    assert (s + [x])[..|s|] == s;
  }

  /** The first occurrences of a concatenation: those of the first part, then
      those of the second part's codes that the first part lacks. */
  lemma {:induction false} FirstOccurrencesAppend(s: seq<string>, t: seq<string>)
    ensures FirstOccurrences(s + t) == FirstOccurrences(s) + FirstOccurrences(RemoveAll(t, Elems(s)))
    decreases |t|
  {
    if t == [] {
      assert s + t == s;
    } else {
      var init := t[..|t| - 1];
      var x := t[|t| - 1];
      FirstOccurrencesAppend(s, init);
      assert t == init + [x];
      AppendStep(s, init, x);
    }
  }

  /** The inductive step of `FirstOccurrencesAppend`: one more code at the end. */
  lemma AppendStep(s: seq<string>, init: seq<string>, x: string)
    requires FirstOccurrences(s + init) == FirstOccurrences(s) + FirstOccurrences(RemoveAll(init, Elems(s)))
    ensures FirstOccurrences(s + (init + [x])) == FirstOccurrences(s) + FirstOccurrences(RemoveAll(init + [x], Elems(s)))
  {
    var before := FirstOccurrences(s);
    var rest := RemoveAll(init, Elems(s));
    assert s + (init + [x]) == (s + init) + [x];
    FirstOccurrencesSnoc(s + init, x);
    RemoveAllAppend(init, [x], Elems(s));
    FirstOccurrencesHas(s, x);
    if x in s {
      assert RemoveAll([x], Elems(s)) == [];
      assert rest + [] == rest;
    } else {
      assert RemoveAll([x], Elems(s)) == [x];
      AppendNew(before, rest, x);
    }
  }

  lemma FirstOccurrencesHas(s: seq<string>, x: string)
    ensures x in FirstOccurrences(s) <==> x in s
  {
    FirstOccurrencesMembers(s);
  }

  /** A code the first part lacks lands at the end, unless the second part already has it. */
  lemma AppendNew(before: seq<string>, rest: seq<string>, x: string)
    requires x !in before
    ensures var with := before + FirstOccurrences(rest);
      (if x in with then with else with + [x]) == before + FirstOccurrences(rest + [x])
  {
    FirstOccurrencesSnoc(rest, x);
    assert before + FirstOccurrences(rest) + [x] == before + (FirstOccurrences(rest) + [x]);
  }

  /** The merge branch: each code of the selection and the team exactly once,
      the existing codes first in first-occurrence order, then the new team
      codes in team order; every team code ends up selected. */
  lemma ToggleTeamMerges(selected: seq<string>, team: seq<string>)
    requires !AllSelected(team, selected)
    ensures var r := ToggledTeam(selected, team);
      && r == FirstOccurrences(selected) + FirstOccurrences(RemoveAll(team, Elems(selected)))
      && NoDuplicates(r)
      && (forall x :: x in r <==> x in selected || x in team)
      && AllSelected(team, r)
  {
    FirstOccurrencesAppend(selected, team);
    FirstOccurrencesMembers(selected + team);
  }

  /** The removal branch takes out exactly the team's codes. */
  lemma ToggleTeamRemoves(selected: seq<string>, team: seq<string>, x: string)
    requires AllSelected(team, selected)
    ensures multiset(ToggledTeam(selected, team))[x] == if x in team then 0 else multiset(selected)[x]
  {
    RemoveAllCounts(selected, Elems(team), x);
  }

  /** Toggling a team none of whose drivers is selected, twice, gives back a
      selection without repeated codes. */
  lemma ToggleTeamTwice(selected: seq<string>, team: seq<string>)
    requires NoDuplicates(selected)
    requires forall code :: code in team ==> code !in selected
    ensures ToggledTeam(ToggledTeam(selected, team), team) == selected
  {
    if team == [] {
      RemoveAllNone(selected, Elems(team));
    } else {
      assert team[0] in team;
      var added := FirstOccurrences(RemoveAll(team, Elems(selected)));
      ToggleTeamMerges(selected, team);
      FirstOccurrencesOfDistinct(selected);
      var once := selected + added;
      assert ToggledTeam(selected, team) == once;
      RemoveAllAppend(selected, added, Elems(team));
      RemoveAllNone(selected, Elems(team));
      RemoveAllMembers(team, Elems(selected));
      FirstOccurrencesMembers(RemoveAll(team, Elems(selected)));
      RemoveAllEverything(added, Elems(team));
      assert RemoveAll(once, Elems(team)) == selected + [];
    }
  }
}
