/** Items and properties of the verification-plan database (vp_pack.py): how they are numbered,
    inserted and deleted, and what saving does to them. */
module VpPack {
  import opened VpNumbers
  import opened VpSorted
  import opened VpTags

  datatype Item = Item(
    name: string, tag: string,
    description: string, purpose: string, verifGoals: string, coverageLoc: string, comments: string,
    refMode: string, refPage: string, refSection: string, refViewer: string,
    pfc: int, testType: int, covMethod: int, cores: int,
    status: string, simuTargetList: seq<string>, lockStatus: string)   // "" stands for unlocked

  /** `Item.__init__`. */
  function NewItem(name: string, tag: string, description: string, purpose: string): Item {
    Item(name, tag, description, purpose, "", "", "", "page", "", "", "firefox", -1, -1, -1, -1, "", [], "")
  }

  /** `tag[:-3]`. */
  function DropLast3(s: string): string {
    if |s| >= 3 then s[..|s| - 3] else ""
  }

  /** An item under a new number. */
  function Renamed(i: Item, key: string): Item {
    i.(name := key, tag := DropLast3(i.tag) + key)
  }

  // ---------------------------------------------------------------- numbering

  /** Key, name and tag suffix of an item agree, and its index is below the counter. */
  predicate Numbered(tag: string, count: nat, key: string, i: Item) {
    Padded(key) && i.name == key && i.tag == tag + "_I" + key && IntOf(key) < count
  }

  predicate AllNumbered(tag: string, count: nat, items: map<string, Item>) {
    forall k :: k in items ==> Numbered(tag, count, k, items[k])
  }

  /** Keys as `add_item` makes them. */
  predicate AllPadded(items: map<string, Item>) {
    forall k :: k in items ==> Padded(k)
  }

  ghost predicate IsMax(key: string, keys: set<string>) {
    key in keys && forall k :: k in keys ==> k == key || Before(k, key)
  }

  /** Where insertion at `idx` puts the item that was at `key`. */
  function Slide(key: string, idx: nat): string {
    if IntOf(key) < idx then key else Zfill3(IntOf(key) + 1)
  }

  function Slid(i: Item, key: string, idx: nat): Item {
    if IntOf(key) < idx then i else Renamed(i, Slide(key, idx))
  }

  lemma SlideInjective(a: string, b: string, idx: nat)
    requires Padded(a) && Padded(b) && Slide(a, idx) == Slide(b, idx)
    ensures a == b
  {
    ZfillFacts(IntOf(a) + 1);
    ZfillFacts(IntOf(b) + 1);
  }

  lemma SlideLeavesGap(key: string, idx: nat)
    ensures Slide(key, idx) != Zfill3(idx)
  {
    ZfillFacts(IntOf(key) + 1);
    ZfillFacts(idx);
  }

  /** The last item moved to position `idx`, the items from there on moved up by one. */
  ghost predicate Inserted(before: map<string, Item>, after: map<string, Item>, last: string, idx: nat) {
    && last in before
    && Zfill3(idx) in after && after[Zfill3(idx)] == Renamed(before[last], Zfill3(idx))
    && (forall k :: k in before && k != last ==>
         Slide(k, idx) in after && after[Slide(k, idx)] == Slid(before[k], k, idx))
    && (forall j :: j in after && j != Zfill3(idx) ==> SlidFrom(before, last, idx, j))
  }

  ghost predicate SlidFrom(before: map<string, Item>, last: string, idx: nat, j: string) {
    exists k :: k in before && k != last && j == Slide(k, idx)
  }

  /** The keys dealt with so far. */
  ghost predicate SlidSoFar(before: map<string, Item>, after: map<string, Item>, last: string, idx: nat, todo: set<string>) {
    && (forall k :: k in before && k != last && k !in todo ==>
         Slide(k, idx) in after && after[Slide(k, idx)] == Slid(before[k], k, idx))
    && (forall j :: j in after ==> SlidFrom(before, last, idx, j))
  }

  lemma SlideOne(before: map<string, Item>, after: map<string, Item>, last: string, idx: nat, todo: set<string>, elt: string)
    requires SlidSoFar(before, after, last, idx, todo) && elt in todo && elt in before && elt != last
    requires AllPadded(before)
    ensures SlidSoFar(before, after[Slide(elt, idx) := Slid(before[elt], elt, idx)], last, idx, todo - {elt})
  {
    var next := after[Slide(elt, idx) := Slid(before[elt], elt, idx)];
    forall k | k in before && k != last && k !in todo - {elt}
      ensures Slide(k, idx) in next && next[Slide(k, idx)] == Slid(before[k], k, idx)
    {
      if Slide(k, idx) == Slide(elt, idx) {
        SlideInjective(k, elt, idx);
      }
    }
    forall j | j in next ensures SlidFrom(before, last, idx, j) {
      if j == Slide(elt, idx) {
        assert SlidFrom(before, last, idx, j);
      }
    }
  }

  lemma PutInGap(before: map<string, Item>, after: map<string, Item>, last: string, idx: nat)
    requires SlidSoFar(before, after, last, idx, {}) && last in before
    requires AllPadded(before)
    ensures Inserted(before, after[Zfill3(idx) := Renamed(before[last], Zfill3(idx))], last, idx)
  {
    forall k | k in before && k != last ensures Slide(k, idx) != Zfill3(idx) {
      SlideLeavesGap(k, idx);
    }
  }

  // ---------------------------------------------------------------- saving

  /** The default texts of the five free-form fields, from the configuration. */
  datatype Cues = Cues(description: string, purpose: string, verifGoals: string, coverageLoc: string, comments: string)

  function Uncued(text: string, cue: string): string {
    if text == cue then "" else text
  }

  /** `Item.prep_to_save`. */
  function Sanitized(project: string, cues: Cues, i: Item): Item {
    i.(description := Uncued(i.description, cues.description), purpose := Uncued(i.purpose, cues.purpose),
       verifGoals := Uncued(i.verifGoals, cues.verifGoals), coverageLoc := Uncued(i.coverageLoc, cues.coverageLoc),
       comments := Uncued(i.comments, cues.comments), tag := NormalizeTag(project, i.tag))
  }

  lemma SanitizedOnce(project: string, cues: Cues, i: Item)
    ensures Sanitized(project, cues, Sanitized(project, cues, i)) == Sanitized(project, cues, i)
  {
    NormalizeOnce(project, i.tag);
  }

  function SanitizedItems(project: string, cues: Cues, items: map<string, Item>): map<string, Item> {
    map k | k in items :: Sanitized(project, cues, items[k])
  }

  /** `Prop.prep_to_save`: the sanitized items as a sorted list, and no dictionary. */
  ghost predicate Prepared(project: string, cues: Cues, p: PropData, p': PropData) {
    && p' == p.(items := map[], rfuList := p'.rfuList)
    && SortedItems(SanitizedItems(project, cues, p.items), p'.rfuList)
  }

  /** `Prop.post_load`. */
  function PostLoaded(p: PropData): PropData {
    p.(items := Stored(p.items, p.rfuList), rfuList := [])
  }

  method SanitizeItems(project: string, cues: Cues, items: map<string, Item>) returns (sane: map<string, Item>)
    ensures sane == SanitizedItems(project, cues, items)
  {
    sane := items;
    var todo := items.Keys;
    while todo != {}
      invariant todo <= items.Keys == sane.Keys
      invariant forall k :: k in items ==> sane[k] == if k in todo then items[k] else Sanitized(project, cues, items[k])
      decreases todo
    {
      var k :| k in todo;
      sane := sane[k := Sanitized(project, cues, sane[k])];
      todo := todo - {k};
    }
  }

  /** The loop of `post_load`. */
  method StoreAll<V>(m: map<string, V>, list: seq<(string, V)>) returns (stored: map<string, V>)
    ensures stored == Stored(m, list)
  {
    stored := m;
    for i := 0 to |list|
      invariant stored == Stored(m, list[..i])
    {
      assert list[..i + 1][..i] == list[..i];
      stored := stored[list[i].0 := list[i].1];
    }
    assert list[..|list|] == list;
  }

  // ---------------------------------------------------------------- the class

  /** The contents of a property. */
  datatype PropData = PropData(
    name: string, tag: string, itemCount: nat, items: map<string, Item>, widOrder: int, rfuList: seq<(string, Item)>)

  function WithAdded(p: PropData, description: string, purpose: string): PropData {
    var key := Zfill3(p.itemCount);
    p.(items := p.items[key := NewItem(key, p.tag + "_I" + key, description, purpose)], itemCount := p.itemCount + 1)
  }

  ghost predicate Duplicated(p: PropData, item: string, last: string, after: map<string, Item>) {
    && item in p.items
    && var added := WithAdded(p, p.items[item].description, p.items[item].purpose).items;
       IsMax(last, added.Keys) && Inserted(added, after, last, IntOf(item) + 1)
  }

  /** `max(keys)`. */
  method MaxKey(keys: set<string>) returns (key: string)
    requires keys != {}
    ensures IsMax(key, keys)
  {
    key :| key in keys;
    var todo := keys - {key};
    while todo != {}
      invariant todo <= keys && key in keys
      invariant forall k :: k in keys - todo ==> k == key || Before(k, key)
      decreases todo
    {
      var k :| k in todo;
      OneIsBefore(key, k);
      if Before(key, k) {
        forall j | j in keys - todo ensures j == k || Before(j, k) {
          if j != key {
            BeforeTransitive(j, key, k);
          }
        }
        key := k;
      }
      todo := todo - {k};
    }
  }

  class Prop {
    var name: string
    var tag: string
    var itemCount: nat
    var itemList: map<string, Item>
    var widOrder: int
    var rfuList: seq<(string, Item)>

    constructor (name': string, tag': string, order: int)
      ensures Data() == PropData(name', tag', 0, map[], order, [])
    {
      name, tag, itemCount, itemList, widOrder, rfuList := name', tag', 0, map[], order, [];
    }

    function Data(): PropData
      reads this
    {
      PropData(name, tag, itemCount, itemList, widOrder, rfuList)
    }

    /** `add_item`. */
    method AddItem(tag': string, description: string, purpose: string) returns (item: Item)
      modifies `itemCount, `itemList
      ensures var key := Zfill3(old(itemCount));
        && item == NewItem(key, tag' + "_I" + key, description, purpose)
        && itemList == old(itemList)[key := item] && itemCount == old(itemCount) + 1
        && (tag' == tag ==> Data() == WithAdded(old(Data()), description, purpose))
    {
      item := NewItem(Zfill3(itemCount), tag' + "_I" + Zfill3(itemCount), description, purpose);
      itemList := itemList[Zfill3(itemCount) := item];
      itemCount := itemCount + 1;
    }

    /** `del_item`; a key error if the item does not exist. The counter never falls. */
    method DelItem(index: string) returns (ok: bool)
      modifies `itemList
      ensures ok <==> index in old(itemList)
      ensures itemList == old(itemList) - {index}
    {
      ok := index in itemList;
      itemList := itemList - {index};
    }

    /** `prep_to_save`. */
    method PrepToSave(project: string, cues: Cues)
      modifies `itemList, `rfuList
      ensures Prepared(project, cues, old(Data()), Data())
    {
      itemList := SanitizeItems(project, cues, itemList);
      rfuList := SortItems(itemList);
      itemList := map[];
    }

    /** `post_load`. */
    method PostLoad()
      modifies `itemList, `rfuList
      ensures Data() == PostLoaded(old(Data()))
    {
      itemList := StoreAll(itemList, rfuList);
      rfuList := [];
    }

    /** `insert_item`: the last item goes behind the named one. An error without items. */
    method InsertItem(itemName: string) returns (ok: bool, ghost last: string)
      requires Numeral(itemName) && AllPadded(itemList)
      modifies `itemList
      ensures ok <==> old(itemList) != map[]
      ensures ok ==> IsMax(last, old(itemList).Keys) && Inserted(old(itemList), itemList, last, IntOf(itemName) + 1)
    {
      ok, last := itemList != map[], "";
      if ok {
        var insertIndex := IntOf(itemName) + 1;
        var top := MaxKey(itemList.Keys);
        last := top;
        var updated := SlideAll(itemList, top, insertIndex);
        PutInGap(itemList, updated, top, insertIndex);
        itemList := updated[Zfill3(insertIndex) := Renamed(itemList[top], Zfill3(insertIndex))];
      }
    }
  }

  /** `duplicate_item` of vp.py with insertion: a copy of the selected item, behind it. */
  method DuplicateItem(prop: Prop, selected: string) returns (ghost last: string)
    requires selected in prop.itemList && AllPadded(prop.itemList)
    modifies prop
    ensures Duplicated(old(prop.Data()), selected, last, prop.itemList)
    ensures prop.Data() == old(prop.Data()).(items := prop.itemList, itemCount := old(prop.itemCount) + 1)
  {
    ZfillFacts(prop.itemCount);
    ZfillFacts(IntOf(selected));
    var current := prop.itemList[selected];
    var item := prop.AddItem(prop.tag, current.description, current.purpose);
    ghost var added := prop.itemList;
    assert selected in added && added.Keys == old(prop.itemList).Keys + {item.name};
    var ok;
    ok, last := prop.InsertItem(selected);
    assert ok && added == WithAdded(old(prop.Data()), current.description, current.purpose).items;
  }

  /** The loop of `insert_item` over the other items. */
  method SlideAll(items: map<string, Item>, top: string, insertIndex: nat) returns (updated: map<string, Item>)
    requires AllPadded(items)
    ensures SlidSoFar(items, updated, top, insertIndex, {})
  {
    updated := map[];
    var todo := items.Keys - {top};
    while todo != {}
      invariant todo <= items.Keys - {top}
      invariant SlidSoFar(items, updated, top, insertIndex, todo)
      decreases todo
    {
      var elt :| elt in todo;
      SlideOne(items, updated, top, insertIndex, todo, elt);
      if IntOf(elt) < insertIndex {
        updated := updated[elt := items[elt]];
      } else {
        var key := Zfill3(IntOf(elt) + 1);
        updated := updated[key := Renamed(items[elt], key)];
      }
      todo := todo - {elt};
    }
  }
}
