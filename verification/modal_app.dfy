/** The single-page shell: one nullable selected project, set by a card's
    "View Details" and cleared by the modal's back button; the modal is on
    screen exactly while a project is selected. */
module ModalApp {
  import opened Optional
  import opened Projects
  import ModalPortfolio

  datatype App = App(selection: Option<Project>)

  const Initial: App := App(None)

  /** `handleProjectSelect`. */
  function Select(a: App, p: Project): (r: App)
    ensures r.selection == Some(p)
  {
    a.(selection := Some(p))
  }

  /** `handleProjectClose`. */
  function Close(a: App): (r: App)
    ensures r.selection.None?
  {
    a.(selection := None)
  }

  predicate ModalShown(a: App) {
    a.selection.Some?
  }

  /** Close undoes any select, is idempotent, and a later select overwrites
      an earlier one. */
  lemma SelectCloseLaws(a: App, p: Project, q: Project)
    ensures Close(Select(a, p)) == Initial
    ensures Close(Close(a)) == Close(a)
    ensures Select(Select(a, p), q) == Select(a, q)
    ensures ModalShown(Select(a, p)) && !ModalShown(Close(a))
  {
  }

  /** A card's "View Details" in the grid filtered by `filter`, or the
      modal's back button. */
  datatype Event = ViewDetails(filter: string, index: nat) | Back

  /** The grid is always on the page, so any existing card is an event. While
      the modal is open it covers the grid, so this event set over-approximates
      what a user can press then; the back button exists only while the modal
      is shown. */
  function Step(a: App, e: Event): App {
    match e
    case ViewDetails(filter, index) =>
      if index < |ModalPortfolio.Visible(filter)| then
        var picked := ModalPortfolio.ViewDetails(ModalPortfolio.Visible(filter)[index]);
        Select(a, picked.value)
      else a
    case Back => if ModalShown(a) then Close(a) else a
  }

  function Run(a: App, es: seq<Event>): App
    decreases |es|
  {
    if es == [] then a else Run(Step(a, es[0]), es[1..])
  }

  /** Any shown project is a catalog record. */
  predicate Inv(a: App) {
    a.selection.Some? ==> a.selection.value in ModalPortfolio.Catalog()
  }

  lemma StepPreservesInv(a: App, e: Event)
    requires Inv(a)
    ensures Inv(Step(a, e))
  {
    match e
    case ViewDetails(filter, index) =>
      if index < |ModalPortfolio.Visible(filter)| {
        FilterSpec(ModalPortfolio.Catalog(), filter);
      }
    case Back =>
  }

  lemma {:induction false} RunPreservesInv(a: App, es: seq<Event>)
    requires Inv(a)
    ensures Inv(Run(a, es))
    decreases |es|
  {
    if es != [] {
      StepPreservesInv(a, es[0]);
      RunPreservesInv(Step(a, es[0]), es[1..]);
    }
  }

  lemma {:induction false} RunAppend(a: App, es: seq<Event>, e: Event)
    ensures Run(a, es + [e]) == Step(Run(a, es), e)
    decreases |es|
  {
    if es == [] {
      assert es + [e] == [e];
    } else {
      assert (es + [e])[1..] == es[1..] + [e];
      RunAppend(Step(a, es[0]), es[1..], e);
    }
  }

  /** Whatever came before, pressing back leaves nothing selected, and
      pressing a card afterwards shows exactly that card. */
  lemma LastEventDecides(a: App, es: seq<Event>, filter: string, index: nat)
    ensures !ModalShown(Run(a, es + [Back]))
    ensures index < |ModalPortfolio.Visible(filter)| ==>
      Run(a, es + [ViewDetails(filter, index)]).selection == Some(ModalPortfolio.Visible(filter)[index])
  {
    RunAppend(a, es, Back);
    RunAppend(a, es, ViewDetails(filter, index));
  }
}
