/** The match-type checkboxes of the home page: the `matchTypes` record and
    the rule `handleMatchTypeChange` applies when one checkbox changes. */
module Selection {

  /** The `name` of a match-type checkbox. */
  datatype MatchType = All | Broad | Phrase | Exact

  /** The page's `matchTypes` record. */
  datatype MatchTypes = MatchTypes(all: bool, broad: bool, phrase: bool, exact: bool)

  /** The record the page starts with and returns to on reset. */
  const NoneSelected := MatchTypes(false, false, false, false)

  /** The entry of `m` that the checkbox `name` shows. */
  function Flag(m: MatchTypes, name: MatchType): bool {
    match name
    case All => m.all
    case Broad => m.broad
    case Phrase => m.phrase
    case Exact => m.exact
  }

  /** "all" being on implies that each concrete match type is on. */
  predicate Consistent(m: MatchTypes) {
    m.all ==> m.broad && m.phrase && m.exact
  }

  /** The guard of submission: at least one concrete match type is on. */
  predicate AnySelected(m: MatchTypes) {
    m.broad || m.phrase || m.exact
  }

  /** How many of broad, phrase and exact are on. */
  function EnabledCount(m: MatchTypes): (n: nat)
    ensures n <= 3
    ensures n == 0 <==> !AnySelected(m)
    ensures n == 3 <==> m.broad && m.phrase && m.exact
  {
    (if m.broad then 1 else 0) + (if m.phrase then 1 else 0) + (if m.exact then 1 else 0)
  }

  /** `handleMatchTypeChange`: the record after checkbox `name` is set to
      `checked`.  "all" sets all four entries; any other checkbox sets its
      own entry and clears "all" when unchecked, keeping it otherwise. */
  function Toggled(m: MatchTypes, name: MatchType, checked: bool): (r: MatchTypes)
    ensures Flag(r, name) == checked
    ensures name == All ==> r.broad == checked && r.phrase == checked && r.exact == checked
    ensures name != All ==> r.all == (checked && m.all)
    ensures name != All ==>
              forall other :: other != name && other != All ==> Flag(r, other) == Flag(m, other)
  {
    match name
    case All => MatchTypes(checked, checked, checked, checked)
    case Broad => m.(broad := checked, all := if checked then m.all else false)
    case Phrase => m.(phrase := checked, all := if checked then m.all else false)
    case Exact => m.(exact := checked, all := if checked then m.all else false)
  }

  /** The page starts in a consistent state. */
  lemma InitialConsistent()
    ensures Consistent(NoneSelected) && !AnySelected(NoneSelected)
  {
  }

  /** Each checkbox change keeps "all" implying the three concrete types. */
  lemma ToggledConsistent(m: MatchTypes, name: MatchType, checked: bool)
    requires Consistent(m)
    ensures Consistent(Toggled(m, name, checked))
  {
  }

  /** One checkbox change: which box, and its new `checked` value. */
  datatype Change = Change(name: MatchType, checked: bool)

  /** The record after a series of checkbox changes, applied in order. */
  function ApplyChanges(m: MatchTypes, changes: seq<Change>): MatchTypes
    decreases changes
  {
    if changes == [] then m
    else ApplyChanges(Toggled(m, changes[0].name, changes[0].checked), changes[1..])
  }

  /** Any series of checkbox changes keeps the record consistent. */
  lemma {:induction false} ChangesConsistent(m: MatchTypes, changes: seq<Change>)
    requires Consistent(m)
    ensures Consistent(ApplyChanges(m, changes))
    decreases changes
  {
    if changes != [] {
      ToggledConsistent(m, changes[0].name, changes[0].checked);
      ChangesConsistent(Toggled(m, changes[0].name, changes[0].checked), changes[1..]);
    }
  }

  /** Changes to the individual checkboxes never turn "all" on, whatever
      they set the three concrete types to. */
  lemma {:induction false} IndividualChangesKeepAllOff(m: MatchTypes, changes: seq<Change>)
    requires !m.all
    requires forall c :: c in changes ==> c.name != All
    ensures !ApplyChanges(m, changes).all
    decreases changes
  {
    if changes != [] {
      assert changes[0] in changes;
      IndividualChangesKeepAllOff(Toggled(m, changes[0].name, changes[0].checked), changes[1..]);
    }
  }

  /** The asymmetry of the rule: from the initial record, checking broad,
      phrase and exact one by one selects all three but leaves "all" off,
      so consistency is an implication and not an equivalence. */
  lemma CheckingEachLeavesAllOff()
    ensures ApplyChanges(NoneSelected, [Change(Broad, true), Change(Phrase, true), Change(Exact, true)])
            == MatchTypes(false, true, true, true)
  {
  }
}
