/**
 * The root view model: an immutable, ordered list of sections with keyed and
 * positional lookup of sections, cells and supplementary views.
 */
module CollectionViewModels {
  import opened Options
  import opened Collections
  import opened ViewModels

  datatype CollectionViewModel = CollectionViewModel(id: UniqueIdentifier, sections: seq<SectionViewModel>)

  /**
   * `init(id:sections:)`: keeps the non-empty sections only, in their given
   * order, each as often as it was given.
   */
  function Create(id: UniqueIdentifier, sections: seq<SectionViewModel>): (m: CollectionViewModel)
    ensures m.id == id
    ensures forall s :: s in m.sections <==> s in sections && s.IsNotEmpty()
    ensures forall s :: multiset(m.sections)[s] == if s.IsNotEmpty() then multiset(sections)[s] else 0
    ensures IsSubsequence(m.sections, sections)
  {
    CollectionViewModel(id, Filter(sections, (s: SectionViewModel) => s.IsNotEmpty()))
  }

  // ---------------------------------------------------------------------------
  // Registrations

  /** `allRegistrations()`: the union of every section's registrations. */
  method AllRegistrations(m: CollectionViewModel) returns (all: set<ViewRegistration>)
    ensures forall i :: 0 <= i < |m.sections| ==> m.sections[i].AllRegistrations() <= all
    ensures forall r :: r in all ==> exists i :: 0 <= i < |m.sections| && r in m.sections[i].AllRegistrations()
  {
    all := {};
    for i := 0 to |m.sections|
      invariant forall k :: 0 <= k < i ==> m.sections[k].AllRegistrations() <= all
      invariant forall r :: r in all ==> exists k :: 0 <= k < i && r in m.sections[k].AllRegistrations()
    {
      all := all + m.sections[i].AllRegistrations();
    }
  }

  // ---------------------------------------------------------------------------
  // Sections

  /** The `(id, section)` pairs the section dictionary is built from. */
  function SectionPairs(sections: seq<SectionViewModel>): seq<(UniqueIdentifier, SectionViewModel)> {
    seq(|sections|, i requires 0 <= i < |sections| => (sections[i].id, sections[i]))
  }

  /**
   * `allSectionsByIdentifier()`. Building the dictionary traps when two
   * sections share an id.
   */
  function AllSectionsByIdentifier(m: CollectionViewModel): (d: map<UniqueIdentifier, SectionViewModel>)
    requires Distinct(SectionIds(m.sections))
    ensures d.Keys == set s | s in m.sections :: s.id
    ensures forall s :: s in m.sections ==> d[s.id] == s
    ensures |d| == |m.sections|
  {
    var pairs := SectionPairs(m.sections);
    assert UniqueKeys(pairs) by {
      forall i, j | 0 <= i < j < |pairs| ensures pairs[i].0 != pairs[j].0 {
        assert SectionIds(m.sections)[i] == pairs[i].0 && SectionIds(m.sections)[j] == pairs[j].0;
      }
    }
    var d := DictionaryOf(pairs);
    assert forall s :: s in m.sections ==> s.id in d && d[s.id] == s by {
      forall s | s in m.sections ensures s.id in d && d[s.id] == s {
        var i :| 0 <= i < |m.sections| && m.sections[i] == s;
        assert pairs[i] == (s.id, s);
      }
    }
    d
  }

  /** `sectionViewModel(for:)`: the section with identifier `id`, if there is one. */
  function SectionViewModelFor(m: CollectionViewModel, id: UniqueIdentifier): (r: Option<SectionViewModel>)
    requires Distinct(SectionIds(m.sections))
    ensures forall s :: s in m.sections && s.id == id ==> r == Some(s)
    ensures r.None? <==> forall s :: s in m.sections ==> s.id != id
    ensures r.Some? ==> r.value in m.sections && r.value.id == id
  {
    Get(AllSectionsByIdentifier(m), id)
  }

  // ---------------------------------------------------------------------------
  // Collection conformance

  /** `count` */
  function Count(m: CollectionViewModel): nat {
    |m.sections|
  }

  /** `isEmpty` */
  predicate IsEmpty(m: CollectionViewModel) {
    m.sections == []
  }

  /** `self[position]`; an out-of-range position traps. */
  function Subscript(m: CollectionViewModel, position: nat): SectionViewModel
    requires position < Count(m)
  {
    m.sections[position]
  }

  /**
   * The collection view of a model made by `init`: it is empty exactly when
   * every given section was empty, and every position holds a non-empty
   * section that was given.
   */
  lemma CollectionConformance(id: UniqueIdentifier, sections: seq<SectionViewModel>)
    ensures var m := Create(id, sections);
      && (IsEmpty(m) <==> Count(m) == 0)
      && (IsEmpty(m) <==> forall s :: s in sections ==> s.IsEmpty())
      && Count(m) <= |sections|
      && forall i :: 0 <= i < Count(m) ==> Subscript(m, i).IsNotEmpty() && Subscript(m, i) in sections
  {
  }

  // ---------------------------------------------------------------------------
  // Cells

  /** `flatMap { $0.cells }`: the top-level cells of all sections, section by section. */
  function AllCells(sections: seq<SectionViewModel>): seq<AnyCellViewModel>
    decreases |sections|
  {
    if sections == [] then []
    else AllCells(sections[..|sections| - 1]) + sections[|sections| - 1].cells
  }

  /** The cells of section `s` sit in `AllCells` right after the cells of the sections before it. */
  lemma {:induction false} AllCellsPosition(sections: seq<SectionViewModel>, s: nat, i: nat)
    requires s < |sections| && i < |sections[s].cells|
    ensures |AllCells(sections[..s])| + i < |AllCells(sections)|
    ensures AllCells(sections)[|AllCells(sections[..s])| + i] == sections[s].cells[i]
    decreases |sections|
  {
    var n := |sections| - 1;
    if s < n {
      AllCellsPosition(sections[..n], s, i);
      assert sections[..n][..s] == sections[..s];
    } else {
      assert sections[..s] == sections[..n];
    }
  }

  /** A cell is in `AllCells` exactly when it is a top-level cell of some section. */
  lemma {:induction false} AllCellsMembership(sections: seq<SectionViewModel>)
    ensures forall c :: c in AllCells(sections) <==> exists s :: s in sections && c in s.cells
    decreases |sections|
  {
    if sections != [] {
      var n := |sections| - 1;
      AllCellsMembership(sections[..n]);
      assert sections == sections[..n] + [sections[n]];
    }
  }

  function CellPairs(cells: seq<AnyCellViewModel>): seq<(UniqueIdentifier, AnyCellViewModel)> {
    seq(|cells|, i requires 0 <= i < |cells| => (cells[i].id, cells[i]))
  }

  /**
   * `allCellsByIdentifier()`: top-level cells only; nested children are not
   * entered. Building the dictionary traps when two of these cells share an id.
   */
  function AllCellsByIdentifier(m: CollectionViewModel): (d: map<UniqueIdentifier, AnyCellViewModel>)
    requires Distinct(CellIds(AllCells(m.sections)))
    ensures d.Keys == set c | c in AllCells(m.sections) :: c.id
    ensures forall s, c :: s in m.sections && c in s.cells ==> c.id in d && d[c.id] == c
    ensures |d| == |AllCells(m.sections)|
  {
    AllCellsMembership(m.sections);
    var cells := AllCells(m.sections);
    var pairs := CellPairs(cells);
    assert UniqueKeys(pairs) by {
      forall i, j | 0 <= i < j < |pairs| ensures pairs[i].0 != pairs[j].0 {
        assert CellIds(cells)[i] == pairs[i].0 && CellIds(cells)[j] == pairs[j].0;
      }
    }
    var d := DictionaryOf(pairs);
    assert forall c :: c in cells ==> c.id in d && d[c.id] == c by {
      forall c | c in cells ensures c.id in d && d[c.id] == c {
        var i :| 0 <= i < |cells| && cells[i] == c;
        assert pairs[i] == (c.id, c);
      }
    }
    d
  }

  /** `cellViewModel(for:)`: the top-level cell with identifier `id`, if there is one. */
  function CellViewModelFor(m: CollectionViewModel, id: UniqueIdentifier): (r: Option<AnyCellViewModel>)
    requires Distinct(CellIds(AllCells(m.sections)))
    ensures forall s, c :: s in m.sections && c in s.cells && c.id == id ==> r == Some(c)
    ensures r.None? <==> forall s, c :: s in m.sections && c in s.cells ==> c.id != id
    ensures r.Some? ==> r.value.id == id && exists s :: s in m.sections && r.value in s.cells
  {
    AllCellsMembership(m.sections);
    Get(AllCellsByIdentifier(m), id)
  }

  /**
   * `cellViewModel(at:)`: the cell at `indexPath`, which is the cell at the
   * matching flattened position; an invalid index path traps.
   */
  function CellViewModelAt(m: CollectionViewModel, indexPath: IndexPath): (r: AnyCellViewModel)
    requires indexPath.section < |m.sections|
    requires indexPath.item < |m.sections[indexPath.section].cells|
    ensures var offset := |AllCells(m.sections[..indexPath.section])| + indexPath.item;
      offset < |AllCells(m.sections)| && r == AllCells(m.sections)[offset]
  {
    AllCellsPosition(m.sections, indexPath.section, indexPath.item);
    m.sections[indexPath.section].cells[indexPath.item]
  }

  /** Looking up the id of the cell at a valid index path gives that cell back. */
  lemma CellLookupRoundTrip(m: CollectionViewModel, indexPath: IndexPath)
    requires Distinct(CellIds(AllCells(m.sections)))
    requires indexPath.section < |m.sections|
    requires indexPath.item < |m.sections[indexPath.section].cells|
    ensures var c := CellViewModelAt(m, indexPath);
      CellViewModelFor(m, c.id) == Some(c)
  {
  }

  // ---------------------------------------------------------------------------
  // Supplementary views

  /** Swift's `kind == view?._kind`: false when there is no view. */
  predicate KindMatches(view: Option<AnySupplementaryViewModel>, kind: string) {
    view.Some? && view.value.kind == kind
  }

  /** `supplementaryViews.filter { $0._kind == kind }` */
  function ViewsOfKind(views: seq<AnySupplementaryViewModel>, kind: string): seq<AnySupplementaryViewModel> {
    Filter(views, (v: AnySupplementaryViewModel) => v.kind == kind)
  }

  /**
   * `supplementaryViewModel(ofKind:at:)`: the header if its kind matches,
   * else the footer if its kind matches, else the `item`-th other view of
   * that kind; `None` when there is none. An invalid section traps.
   */
  function SupplementaryViewModel(m: CollectionViewModel, kind: string, indexPath: IndexPath): (r: Option<AnySupplementaryViewModel>)
    requires indexPath.section < |m.sections|
    ensures r.Some? ==> r.value.kind == kind
    ensures r.Some? ==> var s := m.sections[indexPath.section];
      Some(r.value) == s.header || Some(r.value) == s.footer || r.value in s.supplementaryViews
    ensures KindMatches(m.sections[indexPath.section].header, kind) ==> r == m.sections[indexPath.section].header
    ensures var s := m.sections[indexPath.section];
      !KindMatches(s.header, kind) && KindMatches(s.footer, kind) ==> r == s.footer
    ensures var s := m.sections[indexPath.section];
      !KindMatches(s.header, kind) && !KindMatches(s.footer, kind) ==>
        var others := ViewsOfKind(s.supplementaryViews, kind);
        (r.None? <==> indexPath.item >= |others|) && (r.Some? ==> r.value == others[indexPath.item])
  {
    var section := m.sections[indexPath.section];
    if KindMatches(section.header, kind) then
      section.header
    else if KindMatches(section.footer, kind) then
      section.footer
    else
      var views := ViewsOfKind(section.supplementaryViews, kind);
      if indexPath.item < |views| then
        assert views[indexPath.item] in views;
        Some(views[indexPath.item])
      else
        None
  }
}
