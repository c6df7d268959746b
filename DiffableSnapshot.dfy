/**
 * The snapshot builders: a collection model becomes a flat plan (ordered
 * section identifiers, and per section its ordered item identifiers); a
 * section becomes a hierarchical plan (ordered root items, and per top-level
 * cell the ordered identifiers of its children). The platform's snapshot
 * types are represented by the identifier lists and edges they hold, with
 * mutators that append to them the way the builders call them.
 */
module DiffableSnapshots {
  import opened Collections
  import opened ViewModels
  import opened CollectionViewModels

  /** The items of the listed sections, concatenated in section order; a section without an entry holds none. */
  function ItemsInSectionOrder(sectionIds: seq<UniqueIdentifier>, itemsBySection: map<UniqueIdentifier, seq<UniqueIdentifier>>): seq<UniqueIdentifier>
    decreases |sectionIds|
  {
    if sectionIds == [] then []
    else
      var n := |sectionIds| - 1;
      var last := if sectionIds[n] in itemsBySection then itemsBySection[sectionIds[n]] else [];
      ItemsInSectionOrder(sectionIds[..n], itemsBySection) + last
  }

  /**
   * When the first `filled` sections hold their cells' identifiers and the
   * others hold nothing, the plan's items, read in section order, are the
   * identifiers of the top-level cells of those first sections. With every
   * section filled: children never appear, and there are as many items as cells.
   */
  lemma {:induction false} FlatPlanItems(sections: seq<SectionViewModel>, itemsBySection: map<UniqueIdentifier, seq<UniqueIdentifier>>, filled: nat)
    requires filled <= |sections|
    requires forall i :: 0 <= i < |sections| ==>
      sections[i].id in itemsBySection &&
      itemsBySection[sections[i].id] == if i < filled then CellIds(sections[i].cells) else []
    ensures forall id :: id in SectionIds(sections) ==> id in itemsBySection
    ensures ItemsInSectionOrder(SectionIds(sections), itemsBySection) == CellIds(AllCells(sections[..filled]))
    decreases |sections|
  {
    if sections != [] {
      var n := |sections| - 1;
      assert SectionIds(sections)[..n] == SectionIds(sections[..n]);
      if filled <= n {
        FlatPlanItems(sections[..n], itemsBySection, filled);
        assert sections[..n][..filled] == sections[..filled];
      } else {
        FlatPlanItems(sections[..n], itemsBySection, n);
        assert sections[..n][..n] == sections[..n];
        assert sections[..filled] == sections;
        CellIdsAppend(AllCells(sections[..n]), sections[n].cells);
      }
    }
  }

  /** The plan of the first `filled` sections, as the flat builder's loop holds it. */
  ghost predicate FilledUpTo(sections: seq<SectionViewModel>, itemsBySection: map<UniqueIdentifier, seq<UniqueIdentifier>>, filled: nat) {
    forall k :: 0 <= k < |sections| ==>
      sections[k].id in itemsBySection &&
      itemsBySection[sections[k].id] == if k < filled then CellIds(sections[k].cells) else []
  }

  /** Filling the next section in a plan of the first `filled` sections gives the plan of one more. */
  lemma FillNextSection(sections: seq<SectionViewModel>, itemsBySection: map<UniqueIdentifier, seq<UniqueIdentifier>>, filled: nat)
    requires Distinct(SectionIds(sections)) && filled < |sections|
    requires FilledUpTo(sections, itemsBySection, filled)
    ensures var next := itemsBySection[sections[filled].id := CellIds(sections[filled].cells)];
      && FilledUpTo(sections, next, filled + 1)
      && ItemsInSectionOrder(SectionIds(sections), next) == CellIds(AllCells(sections[..filled + 1]))
  {
    SectionIdsDistinct(sections, filled);
    var next := itemsBySection[sections[filled].id := CellIds(sections[filled].cells)];
    assert FilledUpTo(sections, next, filled + 1);
    FlatPlanItems(sections, next, filled + 1);
  }

  /**
   * One step of the flat builder: in a plan of the first `i` sections,
   * section `i` is listed and still empty, its cell identifiers are distinct
   * and new to the plan, and appending them gives the plan of `i + 1` sections.
   */
  lemma FlatStep(sections: seq<SectionViewModel>, itemsBySection: map<UniqueIdentifier, seq<UniqueIdentifier>>, i: nat)
    requires Distinct(SectionIds(sections)) && Distinct(CellIds(AllCells(sections))) && i < |sections|
    requires FilledUpTo(sections, itemsBySection, i)
    requires ItemsInSectionOrder(SectionIds(sections), itemsBySection) == CellIds(AllCells(sections[..i]))
    ensures sections[i].id in SectionIds(sections)
    ensures Distinct(CellIds(sections[i].cells))
    ensures forall id :: id in CellIds(sections[i].cells) ==> id !in ItemsInSectionOrder(SectionIds(sections), itemsBySection)
    ensures var next := itemsBySection[sections[i].id := itemsBySection[sections[i].id] + CellIds(sections[i].cells)];
      && FilledUpTo(sections, next, i + 1)
      && ItemsInSectionOrder(SectionIds(sections), next) == CellIds(AllCells(sections[..i + 1]))
  {
    SectionIdsDistinct(sections, i);
    NextSectionItemsAreNew(sections, i);
    var items := CellIds(sections[i].cells);
    assert itemsBySection[sections[i].id] + items == items;
    FillNextSection(sections, itemsBySection, i);
  }

  /** Sections just appended, each holding no items, form the plan of no filled section. */
  lemma NewSectionsAreEmpty(sections: seq<SectionViewModel>, itemsBySection: map<UniqueIdentifier, seq<UniqueIdentifier>>)
    requires forall id :: id in SectionIds(sections) ==> id in itemsBySection && itemsBySection[id] == []
    ensures FilledUpTo(sections, itemsBySection, 0)
  {
    forall k | 0 <= k < |sections| ensures sections[k].id in SectionIds(sections) {
      assert SectionIds(sections)[k] == sections[k].id;
    }
  }

  /** The cells of the first `k` sections come first among the cells of all sections. */
  lemma {:induction false} AllCellsPrefix(sections: seq<SectionViewModel>, k: nat)
    requires k <= |sections|
    ensures AllCells(sections[..k]) <= AllCells(sections)
    decreases |sections|
  {
    if k < |sections| {
      var n := |sections| - 1;
      AllCellsPrefix(sections[..n], k);
      assert sections[..n][..k] == sections[..k];
    } else {
      assert sections[..k] == sections;
    }
  }

  /**
   * With all top-level cell identifiers distinct, the identifiers of section
   * `i`'s cells are distinct and none of them belongs to a cell of an earlier
   * section.
   */
  lemma NextSectionItemsAreNew(sections: seq<SectionViewModel>, i: nat)
    requires Distinct(CellIds(AllCells(sections))) && i < |sections|
    ensures CellIds(AllCells(sections[..i + 1])) == CellIds(AllCells(sections[..i])) + CellIds(sections[i].cells)
    ensures Distinct(CellIds(sections[i].cells))
    ensures forall id :: id in CellIds(sections[i].cells) ==> id !in CellIds(AllCells(sections[..i]))
  {
    var before, upTo := AllCells(sections[..i]), AllCells(sections[..i + 1]);
    AllCellsStep(sections, i);
    CellIdsAppend(before, sections[i].cells);
    AllCellsPrefix(sections, i + 1);
    CellIdsPrefix(upTo, AllCells(sections));
    DistinctParts(CellIds(AllCells(sections)), CellIds(before), CellIds(sections[i].cells));
  }

  lemma AllCellsStep(sections: seq<SectionViewModel>, i: nat)
    requires i < |sections|
    ensures AllCells(sections[..i + 1]) == AllCells(sections[..i]) + sections[i].cells
  {
    assert sections[..i + 1][..i] == sections[..i];
  }

  /** Distinct section identifiers: section `i` is the only one with its identifier. */
  lemma SectionIdsDistinct(sections: seq<SectionViewModel>, i: nat)
    requires Distinct(SectionIds(sections)) && i < |sections|
    ensures sections[i].id in SectionIds(sections)
    ensures forall k :: 0 <= k < |sections| && k != i ==> sections[k].id != sections[i].id
  {
    var ids := SectionIds(sections);
    assert ids[i] == sections[i].id;
    forall k | 0 <= k < |sections| && k != i ensures sections[k].id != sections[i].id {
      assert ids[k] == sections[k].id;
    }
  }

  /** Distinct cell identifiers: cell `i` is the only one with its identifier. */
  lemma CellIdsDistinct(cells: seq<AnyCellViewModel>, i: nat)
    requires Distinct(CellIds(cells)) && i < |cells|
    ensures cells[i].id in CellIds(cells)
    ensures forall k :: 0 <= k < |cells| && k != i ==> cells[k].id != cells[i].id
  {
    var ids := CellIds(cells);
    assert ids[i] == cells[i].id;
    forall k | 0 <= k < |cells| && k != i ensures cells[k].id != cells[i].id {
      assert ids[k] == cells[k].id;
    }
  }

  /** The children an edge map records under `parent`; none when it has no edge. */
  function ChildrenIn(edges: map<UniqueIdentifier, seq<UniqueIdentifier>>, parent: UniqueIdentifier): seq<UniqueIdentifier> {
    if parent in edges then edges[parent] else []
  }

  /**
   * The edges of the hierarchical builder after `done` cells: those cells
   * hold their children's identifiers, the rest hold none, and only cells are parents.
   */
  ghost predicate EdgesUpTo(cells: seq<AnyCellViewModel>, edges: map<UniqueIdentifier, seq<UniqueIdentifier>>, done: nat) {
    && (forall k :: 0 <= k < |cells| ==>
          ChildrenIn(edges, cells[k].id) == if k < done then CellIds(cells[k].children) else [])
    && (forall parent :: parent in edges ==> parent in CellIds(cells))
  }

  /** One step of the hierarchical builder: appending cell `i`'s children gives the edges after `i + 1` cells. */
  lemma EdgesStep(cells: seq<AnyCellViewModel>, edges: map<UniqueIdentifier, seq<UniqueIdentifier>>, i: nat)
    requires Distinct(CellIds(cells)) && i < |cells|
    requires EdgesUpTo(cells, edges, i)
    ensures cells[i].id in CellIds(cells)
    ensures var items := CellIds(cells[i].children);
      EdgesUpTo(cells, if items == [] then edges else edges[cells[i].id := ChildrenIn(edges, cells[i].id) + items], i + 1)
  {
    CellIdsDistinct(cells, i);
  }

  /** `NSDiffableDataSourceSnapshot`, reduced to its section and item identifiers. */
  class DiffableSnapshot {
    var sectionIdentifiers: seq<UniqueIdentifier>
    var itemIdentifiersBySection: map<UniqueIdentifier, seq<UniqueIdentifier>>

    /** Sections are listed once each, and exactly the listed sections hold items. */
    ghost predicate Valid()
      reads this
    {
      && Distinct(sectionIdentifiers)
      && forall id :: id in itemIdentifiersBySection <==> id in sectionIdentifiers
    }

    /** All item identifiers, section by section. */
    function ItemIdentifiers(): seq<UniqueIdentifier>
      reads this
      requires Valid()
    {
      ItemsInSectionOrder(sectionIdentifiers, itemIdentifiersBySection)
    }

    function NumberOfItems(): nat
      reads this
      requires Valid()
    {
      |ItemIdentifiers()|
    }

    /** `appendSections(_:)`: new, empty sections at the end; a repeated identifier traps. */
    method AppendSections(identifiers: seq<UniqueIdentifier>)
      requires Valid()
      requires Distinct(identifiers)
      requires forall id :: id in identifiers ==> id !in sectionIdentifiers
      modifies this
      ensures Valid()
      ensures sectionIdentifiers == old(sectionIdentifiers) + identifiers
      ensures forall id :: id in old(itemIdentifiersBySection) ==>
        itemIdentifiersBySection[id] == old(itemIdentifiersBySection)[id]
      ensures forall id :: id in identifiers ==> itemIdentifiersBySection[id] == []
    {
      var appended := sectionIdentifiers + identifiers;
      assert Distinct(appended) by {
        forall i, j | 0 <= i < j < |appended| ensures appended[i] != appended[j] {
          if j >= |sectionIdentifiers| && i < |sectionIdentifiers| {
            assert appended[j] in identifiers;
          }
        }
      }
      sectionIdentifiers := appended;
      itemIdentifiersBySection := itemIdentifiersBySection + map id | id in identifiers :: [];
    }

    /**
     * `appendItems(_:toSection:)`: items at the end of an existing section; an
     * item identifier that is repeated or already in the snapshot traps.
     */
    method AppendItems(identifiers: seq<UniqueIdentifier>, toSection: UniqueIdentifier)
      requires Valid()
      requires toSection in sectionIdentifiers
      requires Distinct(identifiers)
      requires forall id :: id in identifiers ==> id !in ItemIdentifiers()
      modifies this
      ensures Valid()
      ensures sectionIdentifiers == old(sectionIdentifiers)
      ensures itemIdentifiersBySection ==
        old(itemIdentifiersBySection)[toSection := old(itemIdentifiersBySection)[toSection] + identifiers]
    {
      itemIdentifiersBySection := itemIdentifiersBySection[toSection := itemIdentifiersBySection[toSection] + identifiers];
    }

    /** The `forEach` of `init(viewModel:)`: appends each section's cell identifiers to it, in order. */
    method AppendCellsOfSections(sections: seq<SectionViewModel>)
      requires Valid()
      requires Distinct(SectionIds(sections)) && Distinct(CellIds(AllCells(sections)))
      requires sectionIdentifiers == SectionIds(sections)
      requires FilledUpTo(sections, itemIdentifiersBySection, 0)
      modifies this
      ensures Valid()
      ensures sectionIdentifiers == SectionIds(sections)
      ensures FilledUpTo(sections, itemIdentifiersBySection, |sections|)
      ensures ItemIdentifiers() == CellIds(AllCells(sections))
    {
      FlatPlanItems(sections, itemIdentifiersBySection, 0);
      for i := 0 to |sections|
        invariant Valid()
        invariant sectionIdentifiers == SectionIds(sections)
        invariant FilledUpTo(sections, itemIdentifiersBySection, i)
        invariant ItemIdentifiers() == CellIds(AllCells(sections[..i]))
      {
        FlatStep(sections, itemIdentifiersBySection, i);
        AppendItems(CellIds(sections[i].cells), sections[i].id);
      }
      assert sections[..|sections|] == sections;
    }

    /**
     * `init(viewModel:)`: appends every section identifier, then each
     * section's cell identifiers in order. Repeated section identifiers, and
     * top-level cells sharing an identifier, trap.
     */
    constructor FromViewModel(viewModel: CollectionViewModel)
      requires Distinct(SectionIds(viewModel.sections))
      requires Distinct(CellIds(AllCells(viewModel.sections)))
      ensures Valid()
      ensures sectionIdentifiers == SectionIds(viewModel.sections)
      ensures forall i :: 0 <= i < |viewModel.sections| ==>
        viewModel.sections[i].id in itemIdentifiersBySection &&
        itemIdentifiersBySection[viewModel.sections[i].id] == CellIds(viewModel.sections[i].cells)
      ensures ItemIdentifiers() == CellIds(AllCells(viewModel.sections))
      ensures Distinct(ItemIdentifiers())
      ensures NumberOfItems() == |AllCells(viewModel.sections)|
    {
      sectionIdentifiers := [];
      itemIdentifiersBySection := map[];
      new;
      AppendSections(SectionIds(viewModel.sections));
      NewSectionsAreEmpty(viewModel.sections, itemIdentifiersBySection);
      AppendCellsOfSections(viewModel.sections);
    }
  }

  /** `NSDiffableDataSourceSectionSnapshot`, reduced to its root items and parent-to-children edges. */
  class DiffableSectionSnapshot {
    var rootItems: seq<UniqueIdentifier>
    var childItems: map<UniqueIdentifier, seq<UniqueIdentifier>>

    /** Root items are listed once each, and a recorded parent has at least one child. */
    ghost predicate Valid()
      reads this
    {
      && Distinct(rootItems)
      && forall parent :: parent in childItems ==> childItems[parent] != []
    }

    /** The children recorded under `parent`; none when it has no edge. */
    function ChildrenOf(parent: UniqueIdentifier): seq<UniqueIdentifier>
      reads this
    {
      ChildrenIn(childItems, parent)
    }

    /** `append(_:)` with no parent: new root items at the end; a repeated root traps. */
    method Append(items: seq<UniqueIdentifier>)
      requires Valid()
      requires Distinct(items)
      requires forall id :: id in items ==> id !in rootItems
      modifies this
      ensures Valid()
      ensures rootItems == old(rootItems) + items
      ensures childItems == old(childItems)
    {
      var appended := rootItems + items;
      assert Distinct(appended) by {
        forall i, j | 0 <= i < j < |appended| ensures appended[i] != appended[j] {
          if j >= |rootItems| && i < |rootItems| {
            assert appended[j] in items;
          }
        }
      }
      rootItems := appended;
    }

    /** `append(_:to:)`: items appended as children of `parent`; no items, no edge. */
    method AppendChildren(items: seq<UniqueIdentifier>, parent: UniqueIdentifier)
      requires Valid()
      requires parent in rootItems
      modifies this
      ensures Valid()
      ensures rootItems == old(rootItems)
      ensures childItems == if items == [] then old(childItems)
                            else old(childItems)[parent := old(ChildrenOf(parent)) + items]
    {
      if items != [] {
        childItems := childItems[parent := ChildrenOf(parent) + items];
      }
    }

    /**
     * `init(viewModel:)`: the section's cells become the root items, and each
     * top-level cell's children are appended under it. Only that one level is
     * recorded: every parent is a root item, and a child's own children are
     * never appended. Repeated cell identifiers trap.
     */
    constructor FromSection(viewModel: SectionViewModel)
      requires Distinct(CellIds(viewModel.cells))
      ensures Valid()
      ensures rootItems == CellIds(viewModel.cells)
      ensures forall i :: 0 <= i < |viewModel.cells| ==>
        ChildrenOf(viewModel.cells[i].id) == CellIds(viewModel.cells[i].children)
      ensures forall parent :: parent in childItems ==> parent in rootItems
      ensures forall i, j :: 0 <= i < |viewModel.cells| && 0 <= j < |viewModel.cells[i].children| ==>
        (viewModel.cells[i].children[j].id !in rootItems ==> ChildrenOf(viewModel.cells[i].children[j].id) == [])
    {
      rootItems := [];
      childItems := map[];
      new;
      var cells := viewModel.cells;
      var ids := CellIds(cells);
      Append(ids);
      for i := 0 to |cells|
        invariant Valid()
        invariant rootItems == ids
        invariant EdgesUpTo(cells, childItems, i)
      {
        EdgesStep(cells, childItems, i);
        AppendChildren(CellIds(cells[i].children), cells[i].id);
      }
    }
  }
}
