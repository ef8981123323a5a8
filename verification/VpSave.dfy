/** The class Ip of the verification-plan tool, and what saving and loading do to one Ip
    (vp_pack.py, the conversions between old and new representation; vp.py, the bodies of the
    loops of prep_db_export and prep_db_import). */
module VpSave {
  import opened VpNumbers
  import opened VpSorted
  import opened VpTags
  import opened VpPack
  import opened VpDatabase

  // ---------------------------------------------------------------- the new representation

  datatype VerifItem = VerifItem(
    name: string, tag: string,
    description: string, reqtDoc: string, refMode: string, refPage: string, refSection: string, refViewer: string,
    verifGoals: string, pfc: int, testType: int, covMethod: int, cores: int, coverageLoc: string, comments: string)

  datatype Subfeature = Subfeature(name: string, tag: string, nextEltId: nat, displayOrder: int, items: seq<(string, VerifItem)>)

  datatype Feature = Feature(
    name: string, id: nat, nextEltId: nat, displayOrder: int, subfeatures: seq<(string, Subfeature)>, revisions: seq<string>)

  datatype IpRecord = IpRecord(
    name: string, ipNum: nat, propCount: nat, props: map<string, PropData>, widOrder: int,
    rfuList: seq<(string, PropData)>, revisions: seq<string>)

  // ---------------------------------------------------------------- the conversions

  /** `Item.to_VerifItem`. */
  function ToVerifItem(i: Item): VerifItem {
    VerifItem(i.name, i.tag, i.description, i.purpose, i.refMode, i.refPage, i.refSection, i.refViewer,
              i.verifGoals, i.pfc, i.testType, i.covMethod, i.cores, i.coverageLoc, i.comments)
  }

  /** `VerifItem.to_Item`: a fresh Item with the attributes copied. */
  function ToItem(v: VerifItem): Item {
    NewItem(v.name, v.tag, v.description, v.reqtDoc).(
      refMode := v.refMode, refPage := v.refPage, refSection := v.refSection, refViewer := v.refViewer,
      verifGoals := v.verifGoals, pfc := v.pfc, testType := v.testType, covMethod := v.covMethod, cores := v.cores,
      coverageLoc := v.coverageLoc, comments := v.comments)
  }

  /** What an item loses on the way: status, simulation targets and lock. */
  function Unstatused(i: Item): Item {
    i.(status := "", simuTargetList := [], lockStatus := "")
  }

  lemma ItemRoundTrip(i: Item)
    ensures ToItem(ToVerifItem(i)) == Unstatused(i)
  {
  }

  /** `Prop.to_Subfeature` on a prepared property, whose items are in the list. */
  function ToSubfeature(p: PropData): Subfeature {
    Subfeature(p.name, p.tag, p.itemCount, p.widOrder,
               ConvertedList(p.rfuList, ToVerifItem))
  }

  /** `Subfeature.to_Prop`: the items both as a list and as a dictionary. */
  function ToProp(f: Subfeature): PropData {
    var list := ConvertedList(f.items, ToItem);
    PropData(f.name, f.tag, f.nextEltId, Stored(map[], list), f.displayOrder, list)
  }

  /** `Ip.to_Feature` on a prepared Ip. */
  function ToFeature(ip: IpRecord): Feature {
    Feature(ip.name, ip.ipNum, ip.propCount, ip.widOrder, ConvertedList(ip.rfuList, ToSubfeature), ip.revisions)
  }

  /** `Feature.to_Ip`. */
  function ToIp(f: Feature): IpRecord {
    var list := ConvertedList(f.subfeatures, ToProp);
    IpRecord(f.name, f.id, f.nextEltId, Stored(map[], list), f.displayOrder, list, f.revisions)
  }

  // ---------------------------------------------------------------- one Ip out and in

  /** Every property prepared, and the properties as a sorted list. */
  ghost predicate Exported(project: string, cues: Cues, ip: IpRecord, ip': IpRecord) {
    && ip' == ip.(props := map[], rfuList := ip'.rfuList)
    && exists prepared :: AllPrepared(project, cues, ip.props, prepared) && SortedItems(prepared, ip'.rfuList)
  }

  ghost predicate AllPrepared(project: string, cues: Cues, props: map<string, PropData>, prepared: map<string, PropData>) {
    prepared.Keys == props.Keys && forall k :: k in props ==> Prepared(project, cues, props[k], prepared[k])
  }

  function LoadedList(list: seq<(string, PropData)>): seq<(string, PropData)> {
    ConvertedList(list, PostLoaded)
  }

  /** `prep_db_import` on one Ip. */
  function Imported(ip: IpRecord): IpRecord {
    ip.(props := Stored(ip.props, LoadedList(ip.rfuList)), rfuList := [])
  }

  class Ip {
    var name: string
    var ipNum: nat
    var propCount: nat
    var propList: map<string, PropData>
    var widOrder: int
    var rfuList: seq<(string, PropData)>
    var revisions: seq<string>

    constructor (name': string, index: nat)
      ensures Record() == IpRecord(name', index, 0, map[], index, [], ["", "", "", ""])
    {
      name, ipNum, propCount, propList := name', index, 0, map[];
      widOrder, rfuList, revisions := index, [], ["", "", "", ""];
    }

    function Record(): IpRecord
      reads this
    {
      IpRecord(name, ipNum, propCount, propList, widOrder, rfuList, revisions)
    }

    function Data(): IpData
      reads this
    {
      IpData(ipNum, propCount, propList)
    }

    /** `add_property`. If the name is taken the source prints a message and then fails on an
        unset variable; nothing changes. */
    method AddProperty(project: string, propName: string, customNum: string) returns (ok: bool)
      modifies `propCount, `propList
      ensures ok <==> propName !in old(propList)
      ensures if ok then Does(project, old(Data()), Action.AddProperty(propName, customNum), Data())
              else Data() == old(Data())
      ensures ok ==>
        var number := Zfill3(old(propCount));
        var key := customNum + number + "_" + Ascii(propName);
        && propCount == old(propCount) + 1 && key in propList
        && propList[key] == PropData(key, "VP_" + project + "_F" + Zfill3(ipNum) + "_S" + number, 0, map[], old(propCount), [])
        && forall k :: k in old(propList) && k != key ==> k in propList && propList[k] == old(propList)[k]
    {
      ok := propName !in propList;
      if ok {
        var number := Zfill3(propCount);
        var key := customNum + number + "_" + Ascii(propName);
        propList := propList[key := PropData(key, PropTag(project, ipNum, number), 0, map[], propCount, [])];
        propCount := propCount + 1;
      }
    }

    /** `del_property`; a key error if there is no such property. */
    method DelProperty(key: string) returns (ok: bool)
      modifies `propCount, `propList
      ensures ok <==> key in old(propList)
      ensures if ok then Does("", old(Data()), Action.DelProperty(key), Data()) else Data() == old(Data())
    {
      ok := key in propList;
      if ok {
        if propCount == IntOf(Last3(propList[key].tag)) + 1 {
          propCount := propCount - 1;
        }
        propList := propList - {key};
      }
    }

    /** What `prep_db_export` does to this Ip. */
    method PrepDbExport(project: string, cues: Cues)
      modifies `propList, `rfuList
      ensures Exported(project, cues, old(Record()), Record())
    {
      var exported := ExportIp(project, cues, Record());
      propList, rfuList := exported.props, exported.rfuList;
    }

    /** What `prep_db_import` does to this Ip. */
    method PrepDbImport()
      modifies `propList, `rfuList
      ensures Record() == Imported(old(Record()))
    {
      var imported := ImportIp(Record());
      propList, rfuList := imported.props, imported.rfuList;
    }
  }

  /** One round of `prep_db_export`: the properties, then the Ip itself. */
  method ExportIp(project: string, cues: Cues, ip: IpRecord) returns (exported: IpRecord)
    ensures Exported(project, cues, ip, exported)
  {
    var prepared := PrepareProps(project, cues, ip.props);
    var list := SortItems(prepared);
    exported := ip.(props := map[], rfuList := list);
    assert SortedItems(prepared, exported.rfuList);
  }

  /** One round of `prep_db_import`. */
  method ImportIp(ip: IpRecord) returns (imported: IpRecord)
    ensures imported == Imported(ip)
  {
    var loaded := [];
    for i := 0 to |ip.rfuList|
      invariant loaded == LoadedList(ip.rfuList)[..i]
    {
      loaded := loaded + [(ip.rfuList[i].0, PostLoaded(ip.rfuList[i].1))];
    }
    assert loaded == LoadedList(ip.rfuList);
    var props := StoreAll(ip.props, loaded);
    imported := ip.(props := props, rfuList := []);
  }

  /** The loop of `prep_db_export` over the properties. */
  method PrepareProps(project: string, cues: Cues, props: map<string, PropData>) returns (prepared: map<string, PropData>)
    ensures AllPrepared(project, cues, props, prepared)
  {
    prepared := props;
    var todo := props.Keys;
    while todo != {}
      invariant todo <= props.Keys == prepared.Keys
      invariant forall k :: k in props ==> if k in todo then prepared[k] == props[k] else Prepared(project, cues, props[k], prepared[k])
      decreases todo
    {
      var k :| k in todo;
      var items := SanitizeItems(project, cues, prepared[k].items);
      var list := SortItems(items);
      prepared := prepared[k := prepared[k].(items := map[], rfuList := list)];
      todo := todo - {k};
    }
  }

  // ---------------------------------------------------------------- what saving and loading keep

  function CleanedProp(project: string, cues: Cues, p: PropData): PropData {
    p.(items := SanitizedItems(project, cues, p.items), rfuList := [])
  }

  function CleanedProps(project: string, cues: Cues, props: map<string, PropData>): map<string, PropData> {
    map k | k in props :: CleanedProp(project, cues, props[k])
  }

  /** The same Ip with cue texts cleared and tags normalized. */
  function Cleaned(project: string, cues: Cues, ip: IpRecord): IpRecord {
    ip.(props := CleanedProps(project, cues, ip.props), rfuList := [])
  }

  function UnstatusedProp(p: PropData): PropData {
    p.(items := Converted(p.items, Unstatused))
  }

  /** ... and without status, targets and locks. */
  function UnstatusedIp(ip: IpRecord): IpRecord {
    ip.(props := Converted(ip.props, UnstatusedProp))
  }

  lemma PropRestored(project: string, cues: Cues, p: PropData, p': PropData)
    requires Prepared(project, cues, p, p')
    ensures PostLoaded(p') == CleanedProp(project, cues, p)
  {
    SortedGivesBack(SanitizedItems(project, cues, p.items), p'.rfuList);
  }

  lemma PropsRestored(project: string, cues: Cues, props: map<string, PropData>, prepared: map<string, PropData>,
                      list: seq<(string, PropData)>)
    requires AllPrepared(project, cues, props, prepared) && SortedItems(prepared, list)
    ensures Stored(map[], LoadedList(list)) == CleanedProps(project, cues, props)
  {
    ConvertedSorted(prepared, list, PostLoaded);
    SortedGivesBack(Converted(prepared, PostLoaded), LoadedList(list));
    CleanedIsLoaded(project, cues, props, prepared);
  }

  lemma CleanedIsLoaded(project: string, cues: Cues, props: map<string, PropData>, prepared: map<string, PropData>)
    requires AllPrepared(project, cues, props, prepared)
    ensures Converted(prepared, PostLoaded) == CleanedProps(project, cues, props)
  {
    var loaded := Converted(prepared, PostLoaded);
    assert loaded.Keys == props.Keys;
    forall k | k in props ensures loaded[k] == CleanedProp(project, cues, props[k]) {
      PropRestored(project, cues, props[k], prepared[k]);
    }
  }

  /** Going out and in again leaves an Ip as it was, but for cleared cue texts and normalized
      tags. */
  lemma SaveKeepsMemory(project: string, cues: Cues, ip: IpRecord, ip': IpRecord)
    requires Exported(project, cues, ip, ip')
    ensures Imported(ip') == Cleaned(project, cues, ip)
  {
    var prepared :| AllPrepared(project, cues, ip.props, prepared) && SortedItems(prepared, ip'.rfuList);
    PropsRestored(project, cues, ip.props, prepared, ip'.rfuList);
  }

  lemma ListsConverted(list: seq<(string, Item)>)
    ensures ConvertedList(ConvertedList(list, ToVerifItem), ToItem) == ConvertedList(list, Unstatused)
  {
    forall k | 0 <= k < |list| ensures ToItem(ToVerifItem(list[k].1)) == Unstatused(list[k].1) {
      ItemRoundTrip(list[k].1);
    }
  }

  function Reloaded(p: PropData): PropData {
    PostLoaded(ToProp(ToSubfeature(p)))
  }

  lemma PropReloaded(project: string, cues: Cues, p: PropData, p': PropData)
    requires Prepared(project, cues, p, p')
    ensures Reloaded(p') == UnstatusedProp(CleanedProp(project, cues, p))
  {
    var items := SanitizedItems(project, cues, p.items);
    var list := ConvertedList(p'.rfuList, Unstatused);
    ListsConverted(p'.rfuList);
    ConvertedSorted(items, p'.rfuList, Unstatused);
    SortedGivesBack(Converted(items, Unstatused), list);
    StoredAgain(Converted(items, Unstatused), list);
  }

  lemma IpListsConverted(list: seq<(string, PropData)>)
    ensures LoadedList(ConvertedList(ConvertedList(list, ToSubfeature), ToProp)) == ConvertedList(list, Reloaded)
  {
    var subfeatures := ConvertedList(list, ToSubfeature);
    var props := ConvertedList(subfeatures, ToProp);
    var loaded, direct := LoadedList(props), ConvertedList(list, Reloaded);
    forall k | 0 <= k < |list| ensures loaded[k] == direct[k] {
      assert subfeatures[k] == (list[k].0, ToSubfeature(list[k].1));
      assert props[k] == (list[k].0, ToProp(subfeatures[k].1));
      assert loaded[k] == (list[k].0, PostLoaded(props[k].1));
      assert direct[k] == (list[k].0, Reloaded(list[k].1));
    }
  }

  lemma PropsReloaded(project: string, cues: Cues, props: map<string, PropData>, prepared: map<string, PropData>,
                      list: seq<(string, PropData)>)
    requires AllPrepared(project, cues, props, prepared) && SortedItems(prepared, list)
    ensures Stored(map[], ConvertedList(list, Reloaded)) == Converted(CleanedProps(project, cues, props), UnstatusedProp)
  {
    ConvertedSorted(prepared, list, Reloaded);
    SortedGivesBack(Converted(prepared, Reloaded), ConvertedList(list, Reloaded));
    UnstatusedIsReloaded(project, cues, props, prepared);
  }

  lemma UnstatusedIsReloaded(project: string, cues: Cues, props: map<string, PropData>, prepared: map<string, PropData>)
    requires AllPrepared(project, cues, props, prepared)
    ensures Converted(prepared, Reloaded) == Converted(CleanedProps(project, cues, props), UnstatusedProp)
  {
    var loaded, meant := Converted(prepared, Reloaded), Converted(CleanedProps(project, cues, props), UnstatusedProp);
    assert loaded.Keys == meant.Keys;
    forall k | k in props ensures loaded[k] == meant[k] {
      PropReloaded(project, cues, props[k], prepared[k]);
      assert CleanedProps(project, cues, props)[k] == CleanedProp(project, cues, props[k]);
      assert loaded[k] == Reloaded(prepared[k]);
    }
  }

  lemma ListsLoaded(list: seq<(string, PropData)>)
    ensures var props := ConvertedList(ConvertedList(list, ToSubfeature), ToProp);
      Stored(Stored(map[], props), LoadedList(props)) == Stored(map[], ConvertedList(list, Reloaded))
  {
    var props := ConvertedList(ConvertedList(list, ToSubfeature), ToProp);
    StoredOver(props, LoadedList(props));
    IpListsConverted(list);
  }

  /** Through the new representation the same Ip comes back, up to the same cleaning: names,
      tags, keys, counters, orders, revisions and item attributes. Only an item's status,
      targets and lock are lost. */
  lemma LoadGivesBack(project: string, cues: Cues, ip: IpRecord, ip': IpRecord)
    requires Exported(project, cues, ip, ip')
    ensures Imported(ToIp(ToFeature(ip'))) == UnstatusedIp(Cleaned(project, cues, ip))
  {
    var prepared :| AllPrepared(project, cues, ip.props, prepared) && SortedItems(prepared, ip'.rfuList);
    PropsReloaded(project, cues, ip.props, prepared, ip'.rfuList);
    ListsLoaded(ip'.rfuList);
  }

  /** A second time the same Feature goes out. */
  lemma SavedTwiceIsSavedOnce(project: string, cues: Cues, ip: IpRecord, first: IpRecord, second: IpRecord)
    requires Exported(project, cues, ip, first) && Exported(project, cues, Imported(first), second)
    ensures ToFeature(second) == ToFeature(first)
  {
    SaveKeepsMemory(project, cues, ip, first);
    var a :| AllPrepared(project, cues, ip.props, a) && SortedItems(a, first.rfuList);
    var b :| AllPrepared(project, cues, Imported(first).props, b) && SortedItems(b, second.rfuList);
    AllPreparedTwice(project, cues, ip.props, a, b);
    SortedOnce(a, first.rfuList, second.rfuList);
  }

  lemma AllPreparedTwice(project: string, cues: Cues, props: map<string, PropData>, a: map<string, PropData>, b: map<string, PropData>)
    requires AllPrepared(project, cues, props, a) && AllPrepared(project, cues, CleanedProps(project, cues, props), b)
    ensures a == b
  {
    assert a.Keys == b.Keys;
    forall k | k in a ensures a[k] == b[k] {
      PreparedTwice(project, cues, props[k], a[k], b[k]);
    }
  }

  lemma PreparedTwice(project: string, cues: Cues, p: PropData, a: PropData, b: PropData)
    requires Prepared(project, cues, p, a) && Prepared(project, cues, CleanedProp(project, cues, p), b)
    ensures a == b
  {
    var items := SanitizedItems(project, cues, p.items);
    forall k | k in items ensures Sanitized(project, cues, items[k]) == items[k] {
      SanitizedOnce(project, cues, p.items[k]);
    }
    assert SanitizedItems(project, cues, items) == items;
    SortedOnce(items, a.rfuList, b.rfuList);
  }

  // ---------------------------------------------------------------- numbering survives

  function Editing(ip: IpRecord): IpData {
    IpData(ip.ipNum, ip.propCount, ip.props)
  }

  lemma OwnTagKept(project: string, ipNum: nat, number: string, key: string)
    ensures var tag := PropTag(project, ipNum, number) + "_I" + key; NormalizeTag(project, tag) == tag
  {
    var tag := PropTag(project, ipNum, number) + "_I" + key;
    assert tag[|"VP_" + project| + 1] == 'F';
    if OldStyle(tag).Some? {
      OldStyleHasNoF(tag);
    }
  }

  lemma ItemStaysNumbered(project: string, cues: Cues, ipNum: nat, number: string, count: nat, key: string, i: Item)
    requires Numbered(PropTag(project, ipNum, number), count, key, i)
    ensures Numbered(PropTag(project, ipNum, number), count, key, Unstatused(Sanitized(project, cues, i)))
  {
    OwnTagKept(project, ipNum, number, key);
  }

  /** What is loaded can be edited on: the numbering holds as it did when it was saved. */
  lemma LoadKeepsNumbering(project: string, cues: Cues, ip: IpRecord)
    requires IpOk(project, Editing(ip))
    ensures IpOk(project, Editing(UnstatusedIp(Cleaned(project, cues, ip))))
  {
    var loaded := UnstatusedIp(Cleaned(project, cues, ip));
    assert loaded.props.Keys == ip.props.Keys;
    forall key | key in loaded.props ensures PropOk(project, Editing(loaded), key) {
      assert PropOk(project, Editing(ip), key);
      PropStaysNumbered(project, cues, ip.ipNum, PropNumber(project, Editing(ip), key), ip.props[key]);
      assert loaded.props[key] == UnstatusedProp(CleanedProp(project, cues, ip.props[key]));
    }
  }

  lemma PropStaysNumbered(project: string, cues: Cues, ipNum: nat, number: string, p: PropData)
    requires p.tag == PropTag(project, ipNum, number) && AllNumbered(p.tag, p.itemCount, p.items)
    ensures AllNumbered(p.tag, p.itemCount, UnstatusedProp(CleanedProp(project, cues, p)).items)
  {
    forall k | k in p.items ensures Numbered(p.tag, p.itemCount, k, Unstatused(Sanitized(project, cues, p.items[k]))) {
      ItemStaysNumbered(project, cues, ipNum, number, p.itemCount, k, p.items[k]);
    }
  }
}
