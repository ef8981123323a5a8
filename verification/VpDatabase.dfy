/** Editing sessions on one Ip of the verification-plan database (vp_pack.py, class Ip, and the
    editing commands of vp.py): what keeps the numbering, and which numbers come back. */
module VpDatabase {
  import opened VpNumbers
  import opened VpPack

  datatype IpData = IpData(ipNum: nat, propCount: nat, props: map<string, PropData>)

  // ---------------------------------------------------------------- numbering of one property

  /** Renaming replaces the last three characters of a tag, which is right for a key of three
      digits and for no other. */
  lemma RenamedTagIff(i: Item, tag: string, key: string, key': string)
    requires i.tag == tag + "_I" + key && |key| >= 3
    ensures Renamed(i, key').tag == tag + "_I" + key' <==> |key| == 3
  {
    var front := tag + "_I" + key[..|key| - 3];
    assert DropLast3(i.tag) == front;
    if |key| == 3 {
      assert front == tag + "_I";
    } else {
      assert |front + key'| != |tag + "_I" + key'|;
    }
  }

  /** So the renumbering of `insert_item` can be run on every numbered property. */
  lemma NumberedArePadded(tag: string, count: nat, items: map<string, Item>)
    requires AllNumbered(tag, count, items)
    ensures AllPadded(items)
  {
  }

  lemma AddKeepsNumbering(tag: string, count: nat, items: map<string, Item>, description: string, purpose: string)
    requires AllNumbered(tag, count, items)
    ensures var key := Zfill3(count);
      && key !in items
      && AllNumbered(tag, count + 1, items[key := NewItem(key, tag + "_I" + key, description, purpose)])
  {
    ZfillFacts(count);
  }

  /** Among three-digit keys the newest is the largest. */
  lemma NewestIsMax(tag: string, count: nat, items: map<string, Item>)
    requires AllNumbered(tag, count, items) && count < 1000
    ensures IsMax(Zfill3(count), items.Keys + {Zfill3(count)})
  {
    var key := Zfill3(count);
    ZfillFacts(count);
    forall k | k in items ensures Before(k, key) {
      assert Numbered(tag, count, k, items[k]);
      PaddedFacts(k);
      BeforeIffLess(k, key);
    }
    OneIsBefore(key, key);
  }

  lemma OneMax(a: string, b: string, keys: set<string>)
    requires IsMax(a, keys) && IsMax(b, keys)
    ensures a == b
  {
    OneIsBefore(a, b);
  }

  /** An item that is moved up keeps its tag right exactly if its key has three digits. */
  lemma SlidNumberedIff(tag: string, count: nat, items: map<string, Item>, key: string, idx: nat)
    requires AllNumbered(tag, count, items) && key in items && IntOf(key) >= idx
    ensures Numbered(tag, count + 1, Slide(key, idx), Slid(items[key], key, idx)) <==> IntOf(key) < 1000
    ensures IntOf(key) >= 1000 ==> Slid(items[key], key, idx).tag != tag + "_I" + Slide(key, idx)
  {
    assert Numbered(tag, count, key, items[key]);
    PaddedFacts(key);
    ZfillFacts(IntOf(key) + 1);
    RenamedTagIff(items[key], tag, key, Slide(key, idx));
  }

  ghost predicate SomeTagWrong(tag: string, items: map<string, Item>) {
    exists j :: j in items && items[j].tag != tag + "_I" + j
  }

  /** Adding an item and inserting it behind a live one keeps the numbering right exactly if
      the counter was below 1000. Beyond, some item's tag no longer ends in its key. */
  lemma DuplicateKeepsNumberingIff(tag: string, count: nat, items: map<string, Item>, selected: string, item: Item,
                                   after: map<string, Item>, last: string)
    requires AllNumbered(tag, count, items) && selected in items
    requires Numbered(tag, count + 1, Zfill3(count), item)
    requires var added := items[Zfill3(count) := item];
      IsMax(last, added.Keys) && Inserted(added, after, last, IntOf(selected) + 1)
    ensures AllNumbered(tag, count + 1, after) <==> count < 1000
    ensures SomeTagWrong(tag, after) <==> count >= 1000
    ensures count < 1000 ==> last == Zfill3(count)
  {
    if count < 1000 {
      DuplicateKeepsNumbering(tag, count, items, selected, item, after, last);
    } else {
      DuplicateBreaksTag(tag, count, items, selected, item, after, last);
    }
  }

  lemma DuplicateKeepsNumbering(tag: string, count: nat, items: map<string, Item>, selected: string, item: Item,
                                after: map<string, Item>, last: string)
    requires AllNumbered(tag, count, items) && count < 1000 && selected in items
    requires Numbered(tag, count + 1, Zfill3(count), item)
    requires var added := items[Zfill3(count) := item];
      IsMax(last, added.Keys) && Inserted(added, after, last, IntOf(selected) + 1)
    ensures last == Zfill3(count) && AllNumbered(tag, count + 1, after)
  {
    var added, idx := items[Zfill3(count) := item], IntOf(selected) + 1;
    NewestIsMax(tag, count, items);
    assert added.Keys == items.Keys + {Zfill3(count)};
    OneMax(last, Zfill3(count), added.Keys);
    assert Numbered(tag, count, selected, items[selected]);
    ZfillFacts(idx);
    ZfillFacts(count);
    RenamedTagIff(item, tag, last, Zfill3(idx));
    forall j | j in after ensures Numbered(tag, count + 1, j, after[j]) {
      if j != Zfill3(idx) {
        OtherNumbered(tag, count, items, item, after, idx, j);
      }
    }
  }

  lemma OtherNumbered(tag: string, count: nat, items: map<string, Item>, item: Item, after: map<string, Item>,
                      idx: nat, j: string)
    requires AllNumbered(tag, count, items) && count < 1000
    requires Inserted(items[Zfill3(count) := item], after, Zfill3(count), idx) && j in after && j != Zfill3(idx)
    ensures Numbered(tag, count + 1, j, after[j])
  {
    var added, last := items[Zfill3(count) := item], Zfill3(count);
    assert SlidFrom(added, last, idx, j);
    var k :| k in added && k != last && j == Slide(k, idx);
    assert Numbered(tag, count, k, items[k]);
    if IntOf(k) >= idx {
      SlidNumberedIff(tag, count, items, k, idx);
    }
  }

  /** Whichever item is moved, the added one gets a new number, and its key has four digits. */
  lemma DuplicateBreaksTag(tag: string, count: nat, items: map<string, Item>, selected: string, item: Item,
                           after: map<string, Item>, last: string)
    requires AllNumbered(tag, count, items) && count >= 1000 && selected in items
    requires Numbered(tag, count + 1, Zfill3(count), item)
    requires Inserted(items[Zfill3(count) := item], after, last, IntOf(selected) + 1)
    ensures SomeTagWrong(tag, after)
  {
    var key, idx := Zfill3(count), IntOf(selected) + 1;
    var added := items[key := item];
    ZfillFacts(count);
    assert Numbered(tag, count, selected, items[selected]);
    if last == key {
      RenamedTagIff(item, tag, key, Zfill3(idx));
      assert after[Zfill3(idx)].tag != tag + "_I" + Zfill3(idx);
    } else {
      assert AllNumbered(tag, count + 1, added);
      SlidNumberedIff(tag, count + 1, added, key, idx);
      assert after[Slide(key, idx)].tag != tag + "_I" + Slide(key, idx);
    }
  }

  lemma SlideNumber(key: string, idx: nat)
    ensures IntOf(Slide(key, idx)) == if IntOf(key) < idx then IntOf(key) else IntOf(key) + 1
  {
    ZfillFacts(IntOf(key) + 1);
  }

  /** Insertion keeps all other items (the moved ones under a new number) and their order, and
      puts the inserted one directly behind those numbered below it. */
  lemma InsertKeepsOrder(before: map<string, Item>, after: map<string, Item>, last: string, idx: nat, a: string, b: string)
    requires Inserted(before, after, last, idx)
    requires a in before && b in before && a != last && b != last && IntOf(a) < IntOf(b)
    ensures Slide(a, idx) in after && Slide(b, idx) in after
    ensures after[Slide(a, idx)] == Slid(before[a], a, idx) && after[Slide(b, idx)] == Slid(before[b], b, idx)
    ensures IntOf(Slide(a, idx)) < IntOf(Slide(b, idx))
    ensures IntOf(a) < idx <==> IntOf(Slide(a, idx)) < idx
    ensures IntOf(b) >= idx <==> idx < IntOf(Slide(b, idx))
    ensures Zfill3(idx) in after && after[Zfill3(idx)] == Renamed(before[last], Zfill3(idx))
  {
    SlideNumber(a, idx);
    SlideNumber(b, idx);
  }

  /** An item that has only what it was made with. */
  predicate JustMade(i: Item, name: string, tag: string, description: string, purpose: string) {
    && i.name == name && i.tag == tag && i.description == description && i.purpose == purpose
    && i.verifGoals == i.coverageLoc == i.comments == i.refPage == i.refSection == i.status == i.lockStatus == ""
    && i.refMode == "page" && i.refViewer == "firefox" && i.simuTargetList == []
    && i.pfc == i.testType == i.covMethod == i.cores == -1
  }

  /** But for name and tag. */
  predicate SameContent(i: Item, j: Item) {
    && j.description == i.description && j.purpose == i.purpose && j.verifGoals == i.verifGoals
    && j.coverageLoc == i.coverageLoc && j.comments == i.comments
    && j.refMode == i.refMode && j.refPage == i.refPage && j.refSection == i.refSection && j.refViewer == i.refViewer
    && j.pfc == i.pfc && j.testType == i.testType && j.covMethod == i.covMethod && j.cores == i.cores
    && j.status == i.status && j.simuTargetList == i.simuTargetList && j.lockStatus == i.lockStatus
  }

  /** Where the copy and an old item k come to stand. */
  lemma DuplicatePlaces(p: PropData, item: string, last: string, after: map<string, Item>, k: string)
    requires AllNumbered(p.tag, p.itemCount, p.items) && p.itemCount < 1000 && Duplicated(p, item, last, after)
    requires k in p.items
    ensures AllNumbered(p.tag, p.itemCount + 1, after)
    ensures var key, to := Zfill3(p.itemCount), Zfill3(IntOf(item) + 1);
      && to in after
      && after[to] == Renamed(NewItem(key, p.tag + "_I" + key, p.items[item].description, p.items[item].purpose), to)
    ensures Slide(k, IntOf(item) + 1) in after && after[Slide(k, IntOf(item) + 1)] == Slid(p.items[k], k, IntOf(item) + 1)
  {
    var newest := Zfill3(p.itemCount);
    var copy := NewItem(newest, p.tag + "_I" + newest, p.items[item].description, p.items[item].purpose);
    ZfillFacts(p.itemCount);
    DuplicateKeepsNumbering(p.tag, p.itemCount, p.items, item, copy, after, last);
    assert Numbered(p.tag, p.itemCount, k, p.items[k]);
  }

  /** Below 1000: the copy has description and purpose of the selected item and nothing else, and
      the number behind it; every old item keeps its contents under its own number or, behind
      the selected one, the next. */
  lemma DuplicateContents(p: PropData, item: string, last: string, after: map<string, Item>, k: string)
    requires AllNumbered(p.tag, p.itemCount, p.items) && p.itemCount < 1000 && Duplicated(p, item, last, after)
    requires k in p.items
    ensures var key := Zfill3(IntOf(item) + 1);
      key in after && JustMade(after[key], key, p.tag + "_I" + key, p.items[item].description, p.items[item].purpose)
    ensures var key := Zfill3(if IntOf(k) <= IntOf(item) then IntOf(k) else IntOf(k) + 1);
      key in after && after[key].name == key && after[key].tag == p.tag + "_I" + key && SameContent(p.items[k], after[key])
  {
    DuplicatePlaces(p, item, last, after, k);
    assert Numbered(p.tag, p.itemCount, k, p.items[k]);
    PaddedFacts(k);
    var key := Slide(k, IntOf(item) + 1);
    assert Numbered(p.tag, p.itemCount + 1, key, after[key]);
    assert Numbered(p.tag, p.itemCount + 1, Zfill3(IntOf(item) + 1), after[Zfill3(IntOf(item) + 1)]);
  }

  // ---------------------------------------------------------------- editing

  datatype Action =
    | AddProperty(propName: string, customNum: string)
    | DelProperty(key: string)
    | AddItem(key: string, description: string, purpose: string)
    | DelItem(key: string, item: string)
    | DuplicateInsert(key: string, item: string)

  function TagFront(project: string, ipNum: nat): string {
    "VP_" + project + "_F" + Zfill3(ipNum) + "_S"
  }

  function PropTag(project: string, ipNum: nat, number: string): string {
    TagFront(project, ipNum) + number
  }

  /** `remove_non_ascii`. */
  function Ascii(s: string): string {
    if s == [] then [] else (if s[0] as int < 128 then [s[0]] else []) + Ascii(s[1..])
  }

  /** Character by character: those below 128 stay, in order. */
  lemma {:induction false} AsciiAppend(a: string, c: char)
    ensures Ascii(a + [c]) == if c as int < 128 then Ascii(a) + [c] else Ascii(a)
  {
    if a != [] {
      assert (a + [c])[1..] == a[1..] + [c];
      AsciiAppend(a[1..], c);
    }
  }

  /** The key of a new property; a custom number may be put in front. */
  function PropKey(customNum: string, count: nat, name: string): string {
    customNum + Zfill3(count) + "_" + Ascii(name)
  }

  /** `tag[-3:]`. */
  function Last3(s: string): string {
    if |s| >= 3 then s[|s| - 3..] else s
  }

  /** `del_property` lowers the counter when the last three digits of the tag say so. */
  function CountAfterDelete(count: nat, tag: string): nat {
    if count == IntOf(Last3(tag)) + 1 then count - 1 else count
  }

  /** One editing command that succeeds. */
  ghost predicate Does(project: string, ip: IpData, action: Action, ip': IpData) {
    match action
    case AddProperty(name, customNum) =>
      && name !in ip.props
      && ip' == WithProp(project, ip, PropKey(customNum, ip.propCount, name))
    case DelProperty(key) =>
      && key in ip.props
      && ip' == ip.(propCount := CountAfterDelete(ip.propCount, ip.props[key].tag), props := ip.props - {key})
    case AddItem(key, description, purpose) =>
      && key in ip.props
      && ip' == ip.(props := ip.props[key := WithAdded(ip.props[key], description, purpose)])
    case DelItem(key, item) =>
      && key in ip.props && item in ip.props[key].items
      && ip' == ip.(props := ip.props[key := ip.props[key].(items := ip.props[key].items - {item})])
    case DuplicateInsert(key, item) =>
      && key in ip.props && item in ip.props[key].items
      && exists last, after :: Duplicated(ip.props[key], item, last, after)
                               && ip' == WithCounted(ip, key, ip.props[key].itemCount + 1, after)
  }

  function WithProp(project: string, ip: IpData, key: string): IpData {
    var p := PropData(key, PropTag(project, ip.ipNum, Zfill3(ip.propCount)), 0, map[], ip.propCount, []);
    ip.(propCount := ip.propCount + 1, props := ip.props[key := p])
  }

  function WithCounted(ip: IpData, key: string, count: nat, items: map<string, Item>): IpData
    requires key in ip.props
  {
    ip.(props := ip.props[key := ip.props[key].(items := items, itemCount := count)])
  }

  // ---------------------------------------------------------------- the invariant

  /** The number at the end of a property's tag. */
  function NumberOf(project: string, ipNum: nat, tag: string): string {
    var front := TagFront(project, ipNum);
    if |tag| >= |front| then tag[|front|..] else ""
  }

  /** The number of a property of this Ip. */
  function PropNumber(project: string, ip: IpData, key: string): string
    requires key in ip.props
  {
    NumberOf(project, ip.ipNum, ip.props[key].tag)
  }

  lemma TagHasNumber(project: string, ipNum: nat, number: string)
    ensures NumberOf(project, ipNum, PropTag(project, ipNum, number)) == number
  {
  }

  predicate PropOk(project: string, ip: IpData, key: string)
    requires key in ip.props
  {
    var p, number := ip.props[key], PropNumber(project, ip, key);
    && Padded(number) && IntOf(number) < ip.propCount
    && p.tag == PropTag(project, ip.ipNum, number)
    && AllNumbered(p.tag, p.itemCount, p.items)
  }

  ghost predicate DistinctNumbers(project: string, ip: IpData) {
    forall a, b :: a in ip.props && b in ip.props && PropNumber(project, ip, a) == PropNumber(project, ip, b) ==> a == b
  }

  ghost predicate IpOk(project: string, ip: IpData) {
    && DistinctNumbers(project, ip)
    && forall key :: key in ip.props ==> PropOk(project, ip, key)
  }

  lemma TagNumber(project: string, ipNum: nat, number: string)
    requires |number| >= 3
    ensures Last3(PropTag(project, ipNum, number)) == Last3(number)
  {
  }

  /** The counter falls exactly when the property with the last number goes and that number has
      three digits. */
  lemma CountFallsIff(count: nat, project: string, ipNum: nat, number: string)
    requires Padded(number) && IntOf(number) < count
    ensures CountAfterDelete(count, PropTag(project, ipNum, number))
            == if count == IntOf(number) + 1 <= 1000 then IntOf(number) else count
  {
    PaddedFacts(number);
    TagNumber(project, ipNum, number);
    IntOfThree(Last3(number));
    if IntOf(number) < 1000 {
      assert Last3(number) == number;
    }
  }

  lemma AddPropertyKeeps(project: string, ip: IpData, key: string)
    requires IpOk(project, ip)
    ensures IpOk(project, WithProp(project, ip, key))
  {
    var ip', number := WithProp(project, ip, key), Zfill3(ip.propCount);
    ZfillFacts(ip.propCount);
    TagHasNumber(project, ip.ipNum, number);
    forall k | k in ip'.props && k != key
      ensures PropOk(project, ip', k) && PropNumber(project, ip', k) != number
    {
      assert PropOk(project, ip, k);
    }
  }

  lemma OtherBelow(other: string, deleted: string, count: nat)
    requires Padded(other) && Padded(deleted) && other != deleted && IntOf(other) < count && IntOf(deleted) < count
    ensures IntOf(other) < if count == IntOf(deleted) + 1 <= 1000 then IntOf(deleted) else count
  {
  }

  lemma OtherPropStays(project: string, ip: IpData, key: string, ip': IpData, k: string)
    requires IpOk(project, ip) && Does(project, ip, DelProperty(key), ip') && k in ip'.props
    ensures PropOk(project, ip', k)
  {
    assert PropOk(project, ip, k) && PropOk(project, ip, key);
    assert PropNumber(project, ip, k) != PropNumber(project, ip, key);
    CountFallsIff(ip.propCount, project, ip.ipNum, PropNumber(project, ip, key));
    OtherBelow(PropNumber(project, ip, k), PropNumber(project, ip, key), ip.propCount);
  }

  lemma DelPropertyKeeps(project: string, ip: IpData, key: string, ip': IpData)
    requires IpOk(project, ip) && Does(project, ip, DelProperty(key), ip')
    ensures IpOk(project, ip')
  {
    forall k | k in ip'.props ensures PropOk(project, ip', k) {
      OtherPropStays(project, ip, key, ip', k);
    }
  }

  lemma PropOkAfter(project: string, ip: IpData, key: string, count: nat, items: map<string, Item>, k: string)
    requires key in ip.props && k in ip.props && PropOk(project, ip, k)
    ensures PropOk(project, WithCounted(ip, key, count, items), k)
       <==> (k == key ==> AllNumbered(ip.props[key].tag, count, items))
  {
  }

  lemma DistinctAfter(project: string, ip: IpData, key: string, count: nat, items: map<string, Item>)
    requires key in ip.props && DistinctNumbers(project, ip)
    ensures DistinctNumbers(project, WithCounted(ip, key, count, items))
  {
    var ip' := WithCounted(ip, key, count, items);
    forall a, b | a in ip'.props && b in ip'.props && PropNumber(project, ip', a) == PropNumber(project, ip', b) ensures a == b {
      assert PropNumber(project, ip, a) == PropNumber(project, ip, b);
    }
  }

  lemma ItemActionKeeps(project: string, ip: IpData, key: string, count: nat, items: map<string, Item>)
    requires IpOk(project, ip) && key in ip.props && AllNumbered(ip.props[key].tag, count, items)
    ensures IpOk(project, WithCounted(ip, key, count, items))
  {
    DistinctAfter(project, ip, key, count, items);
    forall k | k in ip.props ensures PropOk(project, WithCounted(ip, key, count, items), k) {
      PropOkAfter(project, ip, key, count, items, k);
    }
  }

  /** An action inside one property changes nothing but its items and their counter. */
  lemma ItemActionKeepsIff(project: string, ip: IpData, key: string, count: nat, items: map<string, Item>)
    requires IpOk(project, ip) && key in ip.props
    ensures IpOk(project, WithCounted(ip, key, count, items)) <==> AllNumbered(ip.props[key].tag, count, items)
  {
    if AllNumbered(ip.props[key].tag, count, items) {
      ItemActionKeeps(project, ip, key, count, items);
    } else {
      PropOkAfter(project, ip, key, count, items, key);
      assert key in WithCounted(ip, key, count, items).props;
    }
  }

  lemma AddItemKeeps(project: string, ip: IpData, key: string, description: string, purpose: string, ip': IpData)
    requires IpOk(project, ip) && Does(project, ip, AddItem(key, description, purpose), ip')
    ensures IpOk(project, ip')
  {
    var p := ip.props[key];
    assert PropOk(project, ip, key);
    AddKeepsNumbering(p.tag, p.itemCount, p.items, description, purpose);
    var added := WithAdded(p, description, purpose);
    ItemActionKeepsIff(project, ip, key, added.itemCount, added.items);
  }

  lemma DuplicateInsertKeepsIff(project: string, ip: IpData, key: string, item: string, ip': IpData)
    requires IpOk(project, ip) && Does(project, ip, DuplicateInsert(key, item), ip')
    ensures IpOk(project, ip') <==> ip.props[key].itemCount < 1000
  {
    var p := ip.props[key];
    assert PropOk(project, ip, key);
    var last, after :| Duplicated(p, item, last, after) && ip' == WithCounted(ip, key, ip.props[key].itemCount + 1, after);
    var k, current := Zfill3(p.itemCount), p.items[item];
    AddKeepsNumbering(p.tag, p.itemCount, p.items, current.description, current.purpose);
    var new' := NewItem(k, p.tag + "_I" + k, current.description, current.purpose);
    ZfillFacts(p.itemCount);
    DuplicateKeepsNumberingIff(p.tag, p.itemCount, p.items, item, new', after, last);
    ItemActionKeepsIff(project, ip, key, p.itemCount + 1, after);
  }

  lemma DelItemKeeps(project: string, ip: IpData, key: string, item: string, ip': IpData)
    requires IpOk(project, ip) && Does(project, ip, DelItem(key, item), ip')
    ensures IpOk(project, ip')
  {
    assert PropOk(project, ip, key);
    var p := ip.props[key];
    ItemActionKeepsIff(project, ip, key, p.itemCount, p.items - {item});
  }

  /** Duplicating with insertion in a property that has had a thousand items. */
  predicate Overflows(ip: IpData, action: Action) {
    action.DuplicateInsert? && action.key in ip.props && ip.props[action.key].itemCount >= 1000
  }

  /** That is the one command that breaks the numbering, and it always does. */
  lemma ActionKeepsIff(project: string, ip: IpData, action: Action, ip': IpData)
    requires IpOk(project, ip) && Does(project, ip, action, ip')
    ensures IpOk(project, ip') <==> !Overflows(ip, action)
  {
    match action
    case AddProperty(name, customNum) => AddPropertyKeeps(project, ip, PropKey(customNum, ip.propCount, name));
    case DelProperty(key) => DelPropertyKeeps(project, ip, key, ip');
    case AddItem(key, description, purpose) => AddItemKeeps(project, ip, key, description, purpose, ip');
    case DelItem(key, item) => DelItemKeeps(project, ip, key, item, ip');
    case DuplicateInsert(key, item) => DuplicateInsertKeepsIff(project, ip, key, item, ip');
  }

  // ---------------------------------------------------------------- sessions

  ghost predicate Session(project: string, states: seq<IpData>, actions: seq<Action>) {
    && |states| == |actions| + 1
    && forall n :: 0 <= n < |actions| ==> DoesAt(project, states, actions, n)
  }

  ghost predicate DoesAt(project: string, states: seq<IpData>, actions: seq<Action>, n: nat)
    requires |states| == |actions| + 1 && n < |actions|
  {
    Does(project, states[n], actions[n], states[n + 1])
  }

  ghost predicate NoOverflow(states: seq<IpData>, actions: seq<Action>)
    requires |states| == |actions| + 1
  {
    forall n :: 0 <= n < |actions| ==> !Overflows(states[n], actions[n])
  }

  lemma {:induction false} SessionKeepsNumbering(project: string, states: seq<IpData>, actions: seq<Action>, n: nat)
    requires Session(project, states, actions) && NoOverflow(states, actions) && n < |states|
    requires IpOk(project, states[0])
    ensures IpOk(project, states[n])
  {
    if n > 0 {
      SessionKeepsNumbering(project, states, actions, n - 1);
      assert DoesAt(project, states, actions, n - 1);
      ActionKeepsIff(project, states[n - 1], actions[n - 1], states[n]);
    }
  }

  /** The numbering holds all through a session that starts from a numbered Ip, an empty one
      for instance, exactly if it never duplicates beyond a thousand items. */
  lemma SessionKeepsNumberingIff(project: string, states: seq<IpData>, actions: seq<Action>)
    requires Session(project, states, actions) && IpOk(project, states[0])
    ensures (forall n :: 0 <= n < |states| ==> IpOk(project, states[n])) <==> NoOverflow(states, actions)
  {
    if NoOverflow(states, actions) {
      forall n | 0 <= n < |states| ensures IpOk(project, states[n]) {
        SessionKeepsNumbering(project, states, actions, n);
      }
    }
    if forall n :: 0 <= n < |states| ==> IpOk(project, states[n]) {
      forall n | 0 <= n < |actions| ensures !Overflows(states[n], actions[n]) {
        assert IpOk(project, states[n + 1]) && DoesAt(project, states, actions, n);
        ActionKeepsIff(project, states[n], actions[n], states[n + 1]);
      }
    }
  }

  lemma EmptyIpOk(project: string, ip: IpData)
    requires ip.props == map[]
    ensures IpOk(project, ip)
  {
  }

  /** In every session `insert_item` finds keys it can renumber. */
  lemma SessionCanInsert(project: string, states: seq<IpData>, actions: seq<Action>, n: nat, key: string)
    requires Session(project, states, actions) && NoOverflow(states, actions) && IpOk(project, states[0])
    requires n < |states| && key in states[n].props
    ensures AllPadded(states[n].props[key].items)
  {
    SessionKeepsNumbering(project, states, actions, n);
    assert PropOk(project, states[n], key);
    NumberedArePadded(states[n].props[key].tag, states[n].props[key].itemCount, states[n].props[key].items);
  }

  lemma SameFront(front: string, a: string, b: string)
    requires front + a == front + b
    ensures a == b
  {
    assert (front + a)[|front|..] == a && (front + b)[|front|..] == b;
  }

  /** What is in front of the first underscore. */
  function FirstPart(s: string): string {
    if s == "" || s[0] == '_' then "" else [s[0]] + FirstPart(s[1..])
  }

  lemma {:induction false} FirstPartIs(a: string, rest: string)
    requires '_' !in a
    ensures FirstPart(a + "_" + rest) == a
  {
    var s := a + "_" + rest;
    if a != "" {
      assert s[1..] == a[1..] + "_" + rest;
      FirstPartIs(a[1..], rest);
    }
  }

  lemma SameNumbers(a: string, b: string, i: string, j: string)
    requires Padded(a) && Padded(b) && a + ("_I" + i) == b + ("_I" + j)
    ensures a == b && i == j
  {
    PaddedFacts(a);
    PaddedFacts(b);
    FirstPartIs(a, "I" + i);
    FirstPartIs(b, "I" + j);
    assert a + ("_I" + i) == a + "_" + ("I" + i) && b + ("_I" + j) == b + "_" + ("I" + j);
    SameFront(a, "_I" + i, "_I" + j);
    SameFront("_I", i, j);
  }

  lemma ItemTag(project: string, ip: IpData, p: string, i: string)
    requires IpOk(project, ip) && p in ip.props && i in ip.props[p].items
    ensures Padded(PropNumber(project, ip, p))
    ensures ip.props[p].items[i].tag == TagFront(project, ip.ipNum) + (PropNumber(project, ip, p) + ("_I" + i))
  {
    assert PropOk(project, ip, p);
    assert Numbered(ip.props[p].tag, ip.props[p].itemCount, i, ip.props[p].items[i]);
    Regroup(TagFront(project, ip.ipNum), PropNumber(project, ip, p), "_I", i);
  }

  lemma Regroup(a: string, b: string, c: string, d: string)
    ensures a + b + c + d == a + (b + (c + d))
  {
  }

  /** All live item tags of a numbered Ip are distinct. */
  lemma TagsDistinct(project: string, ip: IpData, p: string, i: string, q: string, j: string)
    requires IpOk(project, ip) && p in ip.props && q in ip.props && i in ip.props[p].items && j in ip.props[q].items
    requires ip.props[p].items[i].tag == ip.props[q].items[j].tag
    ensures p == q && i == j
  {
    ItemTag(project, ip, p, i);
    ItemTag(project, ip, q, j);
    SameFront(TagFront(project, ip.ipNum), PropNumber(project, ip, p) + ("_I" + i), PropNumber(project, ip, q) + ("_I" + j));
    SameNumbers(PropNumber(project, ip, p), PropNumber(project, ip, q), i, j);
  }

  lemma FrontRegrouped(project: string, n: nat, rest: string)
    ensures TagFront(project, n) + rest == ("VP_" + project + "_F") + (Zfill3(n) + "_" + ("S" + rest))
  {
    var front := "VP_" + project + "_F";
    assert Zfill3(n) + "_" + ("S" + rest) == Zfill3(n) + "_S" + rest;
    assert front + Zfill3(n) + "_S" + rest == front + (Zfill3(n) + "_S" + rest);
  }

  /** Tags of Ips with different numbers differ. */
  lemma IpNumbersApart(project: string, a: IpData, p: string, i: string, b: IpData, q: string, j: string)
    requires IpOk(project, a) && p in a.props && i in a.props[p].items
    requires IpOk(project, b) && q in b.props && j in b.props[q].items
    requires a.props[p].items[i].tag == b.props[q].items[j].tag
    ensures a.ipNum == b.ipNum
  {
    ItemTag(project, a, p, i);
    ItemTag(project, b, q, j);
    var x, y := PropNumber(project, a, p) + ("_I" + i), PropNumber(project, b, q) + ("_I" + j);
    FrontRegrouped(project, a.ipNum, x);
    FrontRegrouped(project, b.ipNum, y);
    SameFront("VP_" + project + "_F", Zfill3(a.ipNum) + "_" + ("S" + x), Zfill3(b.ipNum) + "_" + ("S" + y));
    ZfillFacts(a.ipNum);
    ZfillFacts(b.ipNum);
    FirstPartIs(Zfill3(a.ipNum), "S" + x);
    FirstPartIs(Zfill3(b.ipNum), "S" + y);
  }

  // ---------------------------------------------------------------- numbers that come back

  /** The next property gets this number. */
  predicate GivesOut(ip: IpData, action: Action, number: string) {
    action.AddProperty? && Zfill3(ip.propCount) == number
  }

  /** Some session that goes on from here gives the number out. */
  ghost predicate ComesBack(project: string, ip: IpData, number: string) {
    exists states, actions ::
      && Session(project, states, actions) && NoOverflow(states, actions) && states[0] == ip
      && GivenOut(states, actions, number)
  }

  ghost predicate GivenOut(states: seq<IpData>, actions: seq<Action>, number: string)
    requires |states| == |actions| + 1
  {
    exists n :: 0 <= n < |actions| && GivesOut(states[n], actions[n], number)
  }

  /** A number below the counter that no live property bears. */
  ghost predicate Dead(project: string, ip: IpData, number: string) {
    IntOf(number) < ip.propCount && forall key :: key in ip.props ==> PropNumber(project, ip, key) != number
  }

  lemma DeadSurvivesAdding(project: string, ip: IpData, key: string, number: string)
    requires Dead(project, ip, number)
    ensures Dead(project, WithProp(project, ip, key), number) && Zfill3(ip.propCount) != number
  {
    var ip' := WithProp(project, ip, key);
    ZfillFacts(ip.propCount);
    TagHasNumber(project, ip.ipNum, Zfill3(ip.propCount));
    forall k | k in ip'.props && k != key ensures PropNumber(project, ip', k) != number {
      assert k in ip.props;
    }
  }

  lemma DeadSurvivesDeleting(project: string, ip: IpData, key: string, ip': IpData, number: string)
    requires IpOk(project, ip) && Does(project, ip, DelProperty(key), ip') && Padded(number) && Dead(project, ip, number)
    ensures Dead(project, ip', number)
  {
    assert PropOk(project, ip, key);
    CountFallsIff(ip.propCount, project, ip.ipNum, PropNumber(project, ip, key));
    OtherBelow(number, PropNumber(project, ip, key), ip.propCount);
  }

  lemma ItemActionsKeepProps(project: string, ip: IpData, action: Action, ip': IpData)
    requires Does(project, ip, action, ip') && !action.AddProperty? && !action.DelProperty?
    ensures ip'.propCount == ip.propCount && ip'.props.Keys == ip.props.Keys
  {
    if action.DuplicateInsert? {
      var key := action.key;
      var last, after :| Duplicated(ip.props[key], action.item, last, after)
        && ip' == WithCounted(ip, key, ip.props[key].itemCount + 1, after);
    }
  }

  lemma DeadStays(project: string, ip: IpData, action: Action, ip': IpData, number: string)
    requires IpOk(project, ip) && Does(project, ip, action, ip') && Padded(number) && Dead(project, ip, number)
    ensures Dead(project, ip', number) && !GivesOut(ip, action, number)
  {
    if action.AddProperty? {
      DeadSurvivesAdding(project, ip, PropKey(action.customNum, ip.propCount, action.propName), number);
    } else if action.DelProperty? {
      DeadSurvivesDeleting(project, ip, action.key, ip', number);
    } else {
      ItemActionsKeepProps(project, ip, action, ip');
    }
  }

  lemma {:induction false} DeadStaysDead(project: string, states: seq<IpData>, actions: seq<Action>, n: nat, number: string)
    requires Session(project, states, actions) && NoOverflow(states, actions) && IpOk(project, states[0])
    requires Padded(number) && Dead(project, states[0], number) && n < |states|
    ensures Dead(project, states[n], number)
  {
    if n > 0 {
      var m := n - 1;
      DeadStaysDead(project, states, actions, m, number);
      SessionKeepsNumbering(project, states, actions, m);
      assert DoesAt(project, states, actions, m);
      DeadStays(project, states[m], actions[m], states[n], number);
    }
  }

  lemma DeadIsNotGivenOut(project: string, states: seq<IpData>, actions: seq<Action>, n: nat, number: string)
    requires Session(project, states, actions) && NoOverflow(states, actions) && IpOk(project, states[0])
    requires Padded(number) && Dead(project, states[0], number) && n < |actions|
    ensures !GivesOut(states[n], actions[n], number)
  {
    DeadStaysDead(project, states, actions, n, number);
    SessionKeepsNumbering(project, states, actions, n);
    assert DoesAt(project, states, actions, n);
    DeadStays(project, states[n], actions[n], states[n + 1], number);
  }

  lemma FreshName(keys: set<string>) returns (name: string)
    ensures name !in keys
  {
    var todo, longest: nat := keys, 0;
    while todo != {}
      invariant todo <= keys && forall k :: k in keys && k !in todo ==> |k| <= longest
      decreases todo
    {
      var k :| k in todo;
      longest := if |k| > longest then |k| else longest;
      todo := todo - {k};
    }
    name := seq(longest + 1, _ => 'x');
  }

  lemma OneStep(project: string, ip: IpData, action: Action, ip': IpData, number: string)
    requires Does(project, ip, action, ip') && GivesOut(ip, action, number)
    ensures ComesBack(project, ip, number)
  {
    var states, actions := [ip, ip'], [action];
    assert DoesAt(project, states, actions, 0);
    assert GivesOut(states[0], actions[0], number) && GivenOut(states, actions, number);
    assert !Overflows(states[0], actions[0]);
  }

  lemma NextComesBack(project: string, ip: IpData)
    ensures ComesBack(project, ip, Zfill3(ip.propCount))
  {
    var name := FreshName(ip.props.Keys);
    OneStep(project, ip, AddProperty(name, ""), WithProp(project, ip, PropKey("", ip.propCount, name)), Zfill3(ip.propCount));
  }

  /** The number of a deleted property, and with it its tag and the tags of its items, can be
      given out again in some later session exactly when it was the last one and has three
      digits. (A comment in the source asks that the tag of an item never be used again.) */
  lemma TagFreedIff(project: string, ip: IpData, key: string, ip': IpData)
    requires IpOk(project, ip) && Does(project, ip, DelProperty(key), ip')
    ensures ComesBack(project, ip', PropNumber(project, ip, key)) <==> ip.propCount == IntOf(PropNumber(project, ip, key)) + 1 <= 1000
  {
    var number := PropNumber(project, ip, key);
    assert PropOk(project, ip, key);
    DelPropertyKeeps(project, ip, key, ip');
    CountFallsIff(ip.propCount, project, ip.ipNum, number);
    if ip.propCount == IntOf(number) + 1 <= 1000 {
      NextComesBack(project, ip');
    } else {
      assert Dead(project, ip', number);
      if ComesBack(project, ip', number) {
        var states, actions :| Session(project, states, actions) && NoOverflow(states, actions) && states[0] == ip'
          && GivenOut(states, actions, number);
        var n :| 0 <= n < |actions| && GivesOut(states[n], actions[n], number);
        DeadIsNotGivenOut(project, states, actions, n, number);
      }
    }
  }
}
