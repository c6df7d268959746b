/**
 * The example app's store: two lists, people and colors, that the app edits in
 * place and rebuilds its collection view model from.
 */
module ExampleModel {
  import opened Options
  import opened Collections
  import opened ViewModels

  /** A person or a color: the fields the store reads and writes. */
  datatype ListItem = ListItem(id: UniqueIdentifier, name: string, isFavorite: bool)

  type PersonModel = ListItem
  type ColorModel = ListItem

  /** Swift's `firstIndex(where: { $0.id == id })`. */
  function FirstIndexOf(items: seq<ListItem>, id: UniqueIdentifier): (r: Option<nat>)
    ensures r.Some? ==> r.value < |items| && items[r.value].id == id
    ensures r.Some? ==> forall k :: 0 <= k < r.value ==> items[k].id != id
    ensures r.None? <==> forall k :: 0 <= k < |items| ==> items[k].id != id
    decreases |items|
  {
    if items == [] then None
    else if items[0].id == id then Some(0)
    else
      match FirstIndexOf(items[1..], id)
      case None => None
      case Some(i) => Some(i + 1)
  }

  /** Swift's `remove(at:)`: the list without its `index`-th element, the rest in order. */
  function RemoveAt(items: seq<ListItem>, index: nat): (r: seq<ListItem>)
    requires index < |items|
    ensures |r| == |items| - 1
    ensures forall k :: 0 <= k < index ==> r[k] == items[k]
    ensures forall k :: index <= k < |r| ==> r[k] == items[k + 1]
    ensures multiset(r) + multiset{items[index]} == multiset(items)
    ensures IsSubsequence(r, items)
  {
    RemovalIsSubsequence(items, index);
    assert items == items[..index] + [items[index]] + items[index + 1..];
    items[..index] + items[index + 1..]
  }

  /**
   * The first element with identifier `id` removed; a list with no such
   * element is returned unchanged.
   */
  function RemoveFirst(items: seq<ListItem>, id: UniqueIdentifier): (r: seq<ListItem>)
    ensures IsSubsequence(r, items)
    ensures |items| - 1 <= |r| <= |items|
    ensures (forall k :: 0 <= k < |items| ==> items[k].id != id) ==> r == items
    ensures (exists k :: 0 <= k < |items| && items[k].id == id) ==>
      exists i :: 0 <= i < |items| && items[i].id == id && (forall k :: 0 <= k < i ==> items[k].id != id) &&
        r == items[..i] + items[i + 1..]
  {
    match FirstIndexOf(items, id)
    case None =>
      SubsequenceReflexive(items);
      items
    case Some(i) => RemoveAt(items, i)
  }

  /** `isFavorite.toggle()` on the `index`-th element. */
  function ToggleAt(items: seq<ListItem>, index: nat): (r: seq<ListItem>)
    requires index < |items|
    ensures |r| == |items|
    ensures r[index].id == items[index].id && r[index].name == items[index].name
    ensures r[index].isFavorite == !items[index].isFavorite
    ensures forall k :: 0 <= k < |items| && k != index ==> r[k] == items[k]
  {
    items[index := items[index].(isFavorite := !items[index].isFavorite)]
  }

  /** `isFavorite.toggle()` on the first element with identifier `id`, if any. */
  function ToggleFirst(items: seq<ListItem>, id: UniqueIdentifier): (r: seq<ListItem>)
    ensures |r| == |items|
    ensures forall k :: 0 <= k < |items| ==> r[k].id == items[k].id && r[k].name == items[k].name
    ensures forall k :: 0 <= k < |items| ==>
      (r[k].isFavorite != items[k].isFavorite <==> FirstIndexOf(items, id) == Some(k))
  {
    match FirstIndexOf(items, id)
    case None => items
    case Some(i) => ToggleAt(items, i)
  }

  /** Toggling the same identifier twice restores the list. */
  lemma ToggleFirstTwice(items: seq<ListItem>, id: UniqueIdentifier)
    ensures ToggleFirst(ToggleFirst(items, id), id) == items
  {
  }

  /** The example's `Model` store. */
  class Model {
    var people: seq<PersonModel>
    var colors: seq<ColorModel>

    constructor (people: seq<PersonModel>, colors: seq<ColorModel>)
      ensures this.people == people && this.colors == colors
    {
      this.people := people;
      this.colors := colors;
    }

    /**
     * `deleteModelAt(indexPath:)`: section 0 removes a person, section 1 a
     * color; any other section, or a row out of range, traps.
     */
    method DeleteModelAt(indexPath: IndexPath)
      requires indexPath.section == 0 || indexPath.section == 1
      requires indexPath.section == 0 ==> indexPath.item < |people|
      requires indexPath.section == 1 ==> indexPath.item < |colors|
      modifies this
      ensures indexPath.section == 0 ==> people == RemoveAt(old(people), indexPath.item) && colors == old(colors)
      ensures indexPath.section == 1 ==> colors == RemoveAt(old(colors), indexPath.item) && people == old(people)
    {
      if indexPath.section == 0 {
        people := RemoveAt(people, indexPath.item);
      } else {
        colors := RemoveAt(colors, indexPath.item);
      }
    }

    /** `delete(id:)`: removes the first person and the first color with identifier `id`. */
    method Delete(id: UniqueIdentifier)
      modifies this
      ensures people == RemoveFirst(old(people), id)
      ensures colors == RemoveFirst(old(colors), id)
    {
      var personIndex := FirstIndexOf(people, id);
      if personIndex.Some? {
        people := RemoveAt(people, personIndex.value);
      }
      var colorIndex := FirstIndexOf(colors, id);
      if colorIndex.Some? {
        colors := RemoveAt(colors, colorIndex.value);
      }
    }

    /**
     * `toggleFavoriteAt(indexPath:)`: flips the favorite flag of one person
     * (section 0) or one color (section 1); any other section, or a row out
     * of range, traps.
     */
    method ToggleFavoriteAt(indexPath: IndexPath)
      requires indexPath.section == 0 || indexPath.section == 1
      requires indexPath.section == 0 ==> indexPath.item < |people|
      requires indexPath.section == 1 ==> indexPath.item < |colors|
      modifies this
      ensures indexPath.section == 0 ==> people == ToggleAt(old(people), indexPath.item) && colors == old(colors)
      ensures indexPath.section == 1 ==> colors == ToggleAt(old(colors), indexPath.item) && people == old(people)
    {
      if indexPath.section == 0 {
        people := people[indexPath.item := people[indexPath.item].(isFavorite := !people[indexPath.item].isFavorite)];
      } else {
        colors := colors[indexPath.item := colors[indexPath.item].(isFavorite := !colors[indexPath.item].isFavorite)];
      }
    }

    /** `toggleFavorite(id:)`: flips the favorite flag of the first person and the first color with identifier `id`. */
    method ToggleFavorite(id: UniqueIdentifier)
      modifies this
      ensures people == ToggleFirst(old(people), id)
      ensures colors == ToggleFirst(old(colors), id)
    {
      var personIndex := FirstIndexOf(people, id);
      if personIndex.Some? {
        var i := personIndex.value;
        people := people[i := people[i].(isFavorite := !people[i].isFavorite)];
      }
      var colorIndex := FirstIndexOf(colors, id);
      if colorIndex.Some? {
        var i := colorIndex.value;
        colors := colors[i := colors[i].(isFavorite := !colors[i].isFavorite)];
      }
    }
  }
}
