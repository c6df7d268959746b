/**
 * The value types a collection is described with: identifiers, cell and
 * supplementary-view models, sections and index paths. Their Swift sources are
 * not part of this model; each keeps only the members the collection model and
 * the snapshot builders read.
 */
module ViewModels {
  import opened Options

  /** An opaque, hashable identity; only equality between identifiers is observable. */
  type UniqueIdentifier(==, !new)

  /** An opaque descriptor naming the view class and reuse identifier a model needs. */
  type ViewRegistration(==, !new)

  /** A header, footer or other supplementary view, tagged with its element kind. */
  datatype AnySupplementaryViewModel = AnySupplementaryViewModel(
    id: UniqueIdentifier,
    kind: string,
    registration: ViewRegistration)

  /** A cell, with the cells nested under it when it is expandable. */
  datatype AnyCellViewModel = AnyCellViewModel(
    id: UniqueIdentifier,
    registration: ViewRegistration,
    children: seq<AnyCellViewModel>)

  /** A section: its cells and its optional header, footer and other supplementary views. */
  datatype SectionViewModel = SectionViewModel(
    id: UniqueIdentifier,
    cells: seq<AnyCellViewModel>,
    header: Option<AnySupplementaryViewModel>,
    footer: Option<AnySupplementaryViewModel>,
    supplementaryViews: seq<AnySupplementaryViewModel>)
  {
    /** Nothing to display: no cells, no header, no footer, no other supplementary view. */
    predicate IsEmpty() {
      cells == [] && header.None? && footer.None? && supplementaryViews == []
    }

    predicate IsNotEmpty() {
      !IsEmpty()
    }

    /** The registrations of the section's cells and supplementary views. */
    function AllRegistrations(): set<ViewRegistration> {
      (set c | c in cells :: c.registration)
      + (if header.Some? then {header.value.registration} else {})
      + (if footer.Some? then {footer.value.registration} else {})
      + (set v | v in supplementaryViews :: v.registration)
    }
  }

  /** A position handed in by the collection view: a section index and an item (row) index. */
  datatype IndexPath = IndexPath(section: nat, item: nat)

  /** `sections.map(\.id)` */
  function SectionIds(sections: seq<SectionViewModel>): seq<UniqueIdentifier> {
    seq(|sections|, i requires 0 <= i < |sections| => sections[i].id)
  }

  /** `cells.map(\.id)` */
  function CellIds(cells: seq<AnyCellViewModel>): seq<UniqueIdentifier> {
    seq(|cells|, i requires 0 <= i < |cells| => cells[i].id)
  }

  lemma CellIdsPrefix(a: seq<AnyCellViewModel>, b: seq<AnyCellViewModel>)
    requires a <= b
    ensures CellIds(a) <= CellIds(b)
  {
    assert forall i :: 0 <= i < |a| ==> CellIds(a)[i] == CellIds(b)[i];
  }

  lemma CellIdsAppend(a: seq<AnyCellViewModel>, b: seq<AnyCellViewModel>)
    ensures CellIds(a + b) == CellIds(a) + CellIds(b)
  {
  }
}
