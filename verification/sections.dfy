/** The section toggles (script.js, `initializeSectionToggles`): each of the
    three chart sections has a toggle button whose `active` class is the
    section's flag, and an inline `display` that is either `none` or not. */
module Sections {
  import opened Wrappers

  datatype SectionId = Pca | Contribution | Cumulative

  /** `active`: the button has the `active` class. `hidden`: the section's
      inline style is `display: none`, which is what the plot guards test. */
  datatype Panel = Panel(active: bool, hidden: bool)

  datatype Board = Board(pca: Panel, contribution: Panel, cumulative: Panel) {

    function Get(id: SectionId): Panel
    {
      match id
      case Pca => pca
      case Contribution => contribution
      case Cumulative => cumulative
    }

    /** Replaces one section's panel and leaves the other two alone. */
    function Set(id: SectionId, p: Panel): (b: Board)
      ensures b.Get(id) == p
      ensures forall other :: other != id ==> b.Get(other) == Get(other)
    {
      match id
      case Pca => this.(pca := p)
      case Contribution => this.(contribution := p)
      case Cumulative => this.(cumulative := p)
    }
  }

  /** Every section is shown exactly when its button is active. */
  predicate Consistent(b: Board)
  {
    forall id :: b.Get(id).hidden == !b.Get(id).active
  }

  /** A click on the button of `id`. The result is the new board and the
      section whose re-render was scheduled, if any. */
  function Toggle(b: Board, id: SectionId): (r: (Board, Option<SectionId>))
    ensures r.0.Get(id).active == !b.Get(id).active
    ensures r.0.Get(id).hidden <==> b.Get(id).active
    ensures forall other :: other != id ==> r.0.Get(other) == b.Get(other)
    ensures r.1.Some? <==> !b.Get(id).active
    ensures r.1.Some? ==> r.1.value == id
  {
    var nowActive := !b.Get(id).active;
    (b.Set(id, Panel(nowActive, !nowActive)), if nowActive then Some(id) else None)
  }

  /** Toggling keeps buttons and sections in step. */
  lemma TogglePreservesConsistency(b: Board, id: SectionId)
    requires Consistent(b)
    ensures Consistent(Toggle(b, id).0)
  {
    var b' := Toggle(b, id).0;
    forall other
      ensures b'.Get(other).hidden == !b'.Get(other).active
    {
      if other != id {
        assert b'.Get(other) == b.Get(other);
      }
    }
  }

  /** Two clicks on the same button give back the board it started from,
      when that section was in step. */
  lemma ToggleTwiceRestores(b: Board, id: SectionId)
    requires b.Get(id).hidden == !b.Get(id).active
    ensures Toggle(Toggle(b, id).0, id).0 == b
  {
    var b2 := Toggle(Toggle(b, id).0, id).0;
    assert b2.Get(id) == b.Get(id);
    assert forall other :: b2.Get(other) == b.Get(other);
  }

  /** Clicks on different buttons do not interfere. */
  lemma TogglesCommute(b: Board, i: SectionId, j: SectionId)
    requires i != j
    ensures Toggle(Toggle(b, i).0, j).0 == Toggle(Toggle(b, j).0, i).0
  {
    var x := Toggle(Toggle(b, i).0, j).0;
    var y := Toggle(Toggle(b, j).0, i).0;
    assert forall other :: x.Get(other) == y.Get(other);
  }
}
