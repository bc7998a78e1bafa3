/**
 * Modal dialogs. Each modal element carries its own "active" flag; the page
 * body's overflow style is one global scroll lock that every open sets and
 * every close clears.
 */
module Overlay {

  const ReportModal := "reportModal"
  const CivicStarModal := "civicStarModal"

  /** The active flag of each modal present in the page, by element id, and the body's scroll lock. */
  datatype Modals = Modals(active: map<string, bool>, scrollLocked: bool)

  /** Every modal other than `id` keeps its flag. */
  ghost predicate OthersKept(before: map<string, bool>, after: map<string, bool>, id: string) {
    after.Keys == before.Keys
    && forall other :: other in before && other != id ==> after[other] == before[other]
  }

  /** openModal: add "active" and set overflow to hidden. */
  function Open(m: Modals, id: string): (r: Modals)
    requires id in m.active
    ensures OthersKept(m.active, r.active, id)
    ensures id in r.active && r.active[id] && r.scrollLocked
  {
    Modals(m.active[id := true], true)
  }

  /** closeModal: remove "active" and clear overflow, whatever else is open. */
  function Close(m: Modals, id: string): (r: Modals)
    requires id in m.active
    ensures OthersKept(m.active, r.active, id)
    ensures id in r.active && !r.active[id] && !r.scrollLocked
  {
    Modals(m.active[id := false], false)
  }

  /** A click on the modal element: it closes only when the click landed on the backdrop itself. */
  function Click(m: Modals, id: string, onBackdrop: bool): (r: Modals)
    requires id in m.active
    ensures onBackdrop ==> OthersKept(m.active, r.active, id)
    ensures onBackdrop ==> id in r.active && !r.active[id] && !r.scrollLocked
    ensures !onBackdrop ==> r == m
  {
    if onBackdrop then Close(m, id) else m
  }

  /**
   * The Escape key runs two document listeners in the order they were
   * registered: the report modal's, which closes it unconditionally, then
   * (only when the civic-star modal exists) the civic-star modal's, which
   * closes it only while it is active.
   */
  function Escape(m: Modals): (r: Modals)
    requires ReportModal in m.active
    ensures r.active.Keys == m.active.Keys
    ensures !r.active[ReportModal] && !r.scrollLocked
    ensures CivicStarModal in m.active ==> !r.active[CivicStarModal]
    ensures forall other :: (other in m.active && other != ReportModal && other != CivicStarModal
      ==> r.active[other] == m.active[other])
  {
    var afterReport := Close(m, ReportModal);
    if CivicStarModal in afterReport.active && afterReport.active[CivicStarModal]
    then Close(afterReport, CivicStarModal)
    else afterReport
  }

  /** Only modal `id` is open. */
  ghost predicate OnlyOpen(m: Modals, id: string) {
    id in m.active && forall other :: other in m.active && other != id ==> !m.active[other]
  }

  /** Closing twice is closing once. */
  lemma CloseIdempotent(m: Modals, id: string)
    requires id in m.active
    ensures Close(Close(m, id), id) == Close(m, id)
  {
  }

  /**
   * Opening and then closing a modal ends where closing alone would, and
   * restores the state exactly when that modal was closed and scrolling free.
   */
  lemma OpenThenClose(m: Modals, id: string)
    requires id in m.active
    ensures Close(Open(m, id), id) == Close(m, id)
    ensures !m.active[id] && !m.scrollLocked ==> Close(Open(m, id), id) == m
  {
  }

  /**
   * The close button, a backdrop click and the Escape key all reach the state
   * that closeModal reaches, for either modal, whenever it is the only one open.
   */
  lemma ClosePathsAgree(m: Modals, id: string)
    requires ReportModal in m.active
    requires id == ReportModal || id == CivicStarModal
    requires OnlyOpen(m, id)
    ensures Click(m, id, true) == Close(m, id)
    ensures Escape(m) == Close(m, id)
  {
  }

  /** With the civic-star modal closed, its Escape listener changes nothing. */
  lemma EscapeSkipsClosedCivicStar(m: Modals)
    requires ReportModal in m.active
    requires CivicStarModal !in m.active || !m.active[CivicStarModal]
    ensures Escape(m) == Close(m, ReportModal)
  {
  }

  /**
   * The scroll lock is shared: closing one modal releases it even while
   * another modal is still open.
   */
  lemma SharedScrollLock(m: Modals, first: string, second: string)
    requires first in m.active && second in m.active && first != second
    ensures var r := Close(Open(Open(m, first), second), second);
      r.active[first] && !r.scrollLocked
  {
  }
}
