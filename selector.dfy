/** The interactive selector's choice list: the skills in sorted order, each
    pre-checked when nothing is installed yet or when its name is
    installed. The checkbox prompt itself is an outside collaborator; its
    answer is the set of positions the user leaves checked, or None when
    the prompt is cancelled. */
module Selector {
  import opened Wrappers
  import opened Skills

  datatype Choice = Choice(skill: Skill, checked: bool)

  /** `(not installed) or (skill.name in installed)` */
  predicate PreChecked(skill: Skill, installed: set<string>) {
    installed == {} || skill.name in installed
  }

  /** The choices offered, in `sorted(skills)` order. */
  function Choices(skills: seq<Skill>, installed: set<string>): seq<Choice> {
    var sorted := SortSkills(skills);
    seq(|sorted|, i requires 0 <= i < |sorted| => Choice(sorted[i], PreChecked(sorted[i], installed)))
  }

  /** The `value` of each choice. */
  function ChoiceSkills(cs: seq<Choice>): seq<Skill> {
    seq(|cs|, i requires 0 <= i < |cs| => cs[i].skill)
  }

  /** The choices are the input skills, each once, sorted by
      (scope, name); all are checked on first use, and otherwise exactly
      those whose name is installed. */
  lemma ChoicesSpec(skills: seq<Skill>, installed: set<string>)
    ensures var cs := Choices(skills, installed);
      |cs| == |skills|
      && multiset(ChoiceSkills(cs)) == multiset(skills)
      && Sorted(ChoiceSkills(cs))
      && (installed == {} ==> forall i :: 0 <= i < |cs| ==> cs[i].checked)
      && (installed != {} ==> forall i :: 0 <= i < |cs| ==> (cs[i].checked <==> cs[i].skill.name in installed))
  {
    var cs := Choices(skills, installed);
    assert ChoiceSkills(cs) == SortSkills(skills);
    assert |SortSkills(skills)| == |multiset(SortSkills(skills))| == |multiset(skills)| == |skills|;
  }

  /** What the checkbox returns: the skills of the checked positions, in
      choice order. */
  function Picked(cs: seq<Choice>, picks: set<nat>): seq<Skill> {
    if cs == [] then []
    else Picked(cs[..|cs| - 1], picks) + (if |cs| - 1 in picks then [cs[|cs| - 1].skill] else [])
  }

  /** Each picked skill is the skill of a checked position. */
  lemma {:induction false} PickedFrom(cs: seq<Choice>, picks: set<nat>)
    ensures forall s :: s in Picked(cs, picks) ==> exists i :: 0 <= i < |cs| && i in picks && cs[i].skill == s
  {
    if cs != [] {
      var init := cs[..|cs| - 1];
      PickedFrom(init, picks);
      forall s | s in Picked(init, picks) ensures exists i :: 0 <= i < |cs| && i in picks && cs[i].skill == s {
        var i :| 0 <= i < |init| && i in picks && init[i].skill == s;
        assert cs[i] == init[i];
      }
    }
  }

  /** Conversely, the skill of every checked position is picked. */
  lemma {:induction false} PickedComplete(cs: seq<Choice>, picks: set<nat>)
    ensures forall i :: 0 <= i < |cs| && i in picks ==> cs[i].skill in Picked(cs, picks)
  {
    if cs != [] {
      var init := cs[..|cs| - 1];
      PickedComplete(init, picks);
      forall i | 0 <= i < |cs| && i in picks ensures cs[i].skill in Picked(cs, picks) {
        if i < |cs| - 1 {
          assert cs[i] == init[i];
        }
      }
    }
  }

  /** One skill is picked per checked position. */
  lemma {:induction false} PickedCount(cs: seq<Choice>, picks: set<nat>)
    ensures |Picked(cs, picks)| == |set i | 0 <= i < |cs| && i in picks|
  {
    if cs != [] {
      var n := |cs| - 1;
      PickedCount(cs[..n], picks);
      var before := set i | 0 <= i < n && i in picks;
      var all := set i | 0 <= i < |cs| && i in picks;
      if n in picks {
        assert all == before + {n};
      } else {
        assert all == before;
      }
    }
  }

  /** No skill is picked more often than it is offered. */
  lemma {:induction false} PickedMultiset(cs: seq<Choice>, picks: set<nat>)
    ensures multiset(Picked(cs, picks)) <= multiset(ChoiceSkills(cs))
  {
    if cs != [] {
      var init := cs[..|cs| - 1];
      PickedMultiset(init, picks);
      assert ChoiceSkills(cs) == ChoiceSkills(init) + [cs[|cs| - 1].skill];
    }
  }

  /** The picked skills keep the choices' order. */
  lemma {:induction false} PickedSorted(cs: seq<Choice>, picks: set<nat>)
    requires Sorted(ChoiceSkills(cs))
    ensures Sorted(Picked(cs, picks))
  {
    if cs != [] {
      var init, last := cs[..|cs| - 1], cs[|cs| - 1];
      var all := ChoiceSkills(cs);
      assert Sorted(ChoiceSkills(init)) by {
        forall i, j | 0 <= i < j < |init| ensures !SkillLess(ChoiceSkills(init)[j], ChoiceSkills(init)[i]) {
          assert ChoiceSkills(init)[i] == all[i] && ChoiceSkills(init)[j] == all[j];
        }
      }
      PickedSorted(init, picks);
      PickedFrom(init, picks);
      var p := Picked(init, picks);
      forall s | s in p ensures !SkillLess(last.skill, s) {
        var i :| 0 <= i < |init| && i in picks && init[i].skill == s;
        assert all[i] == s && all[|cs| - 1] == last.skill;
      }
    }
  }

  /** `select_skills_interactively(skills, installed)`: no prompt at all for
      an empty list; otherwise the prompt's answer over the choices, with no
      installed set counting as an empty one: the skills of the checked
      positions, one per position, in choice order. */
  function SelectSkillsInteractively(skills: seq<Skill>, installed: Option<set<string>>, answer: Option<set<nat>>)
    : (r: Option<seq<Skill>>)
    ensures skills == [] ==> r == Some([])
    ensures skills != [] ==> (r.None? <==> answer.None?)
    ensures r.Some? ==> multiset(r.value) <= multiset(skills) && Sorted(r.value)
    ensures skills != [] && answer.Some? ==>
      var cs := Choices(skills, installed.GetOr({}));
      (forall s :: s in r.value <==> exists i :: 0 <= i < |cs| && i in answer.value && cs[i].skill == s)
      && |r.value| == |set i | 0 <= i < |cs| && i in answer.value|
  {
    if skills == [] then Some([])
    else match answer
      case None => None
      case Some(picks) =>
        var cs := Choices(skills, installed.GetOr({}));
        ChoicesSpec(skills, installed.GetOr({}));
        PickedMultiset(cs, picks);
        PickedSorted(cs, picks);
        PickedFrom(cs, picks);
        PickedComplete(cs, picks);
        PickedCount(cs, picks);
        Some(Picked(cs, picks))
  }

  /** Passing no installed set is passing an empty one. */
  lemma SelectWithoutInstalled(skills: seq<Skill>, answer: Option<set<nat>>)
    ensures SelectSkillsInteractively(skills, None, answer) == SelectSkillsInteractively(skills, Some({}), answer)
  {
  }
}
