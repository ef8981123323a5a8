/** The whole database and its directory of files (vp.py: create_ip, delete_ip, update_ip_name,
    prep_db_export, prep_db_import, save_db with one file for each Ip, load_db_quiet). Writing a
    Feature to its file and reading it back is taken to give the same Feature. */
module VpFiles {
  import opened VpNumbers
  import opened VpPack
  import opened VpDatabase
  import opened VpSave
  import opened VpKept

  type IpList = map<string, IpRecord>

  /** The files VP_IP<number>.yml, by the text of the number. */
  type Directory = map<string, Feature>

  function FileOf(number: nat): string {
    Zfill3(number)
  }

  /** The pattern VP_IP[0-9][0-9][0-9].yml, which loading looks for. */
  predicate Visible(dir: Directory, file: string) {
    file in dir && Name3(file)
  }

  function VisibleFiles(dir: Directory): set<string> {
    set f | f in dir && Name3(f)
  }

  // ---------------------------------------------------------------- all Ips out and in

  ghost predicate AllExported(project: string, cues: Cues, ips: IpList, exported: IpList) {
    exported.Keys == ips.Keys && forall k :: k in ips ==> Exported(project, cues, ips[k], exported[k])
  }

  function AllImported(ips: IpList): IpList {
    map k | k in ips :: Imported(ips[k])
  }

  /** Signed with the revisions of the tool. */
  function Stamped(ip: IpRecord, stamp: seq<string>): IpRecord {
    ip.(revisions := stamp)
  }

  function AllStamped(ips: IpList, stamp: seq<string>): IpList {
    map k | k in ips :: Stamped(ips[k], stamp)
  }

  /** Every key once, in the order of the Ips' numbers. */
  ghost predicate ByNumber(ips: IpList, order: seq<string>) {
    && AnyOrder(order, ips.Keys)
    && forall i, j :: 0 <= i < j < |order| && order[i] in ips && order[j] in ips ==> ips[order[i]].ipNum <= ips[order[j]].ipNum
  }

  /** Every element once. */
  ghost predicate AnyOrder(order: seq<string>, elements: set<string>) {
    && (forall i, j :: 0 <= i < j < |order| ==> order[i] != order[j])
    && (forall x :: x in order <==> x in elements)
  }

  function WriteFiles(dir: Directory, ips: IpList, order: seq<string>): Directory {
    if order == [] then dir
    else
      var k, before := order[|order| - 1], WriteFiles(dir, ips, order[..|order| - 1]);
      if k in ips then before[FileOf(ips[k].ipNum) := ToFeature(ips[k])] else before
  }

  function ReadFiles(dir: Directory, order: seq<string>): IpList {
    if order == [] then map[]
    else
      var f, before := order[|order| - 1], ReadFiles(dir, order[..|order| - 1]);
      if f in dir then before[dir[f].name := ToIp(dir[f])] else before
  }

  /** What saving does to memory and directory. */
  ghost predicate Saved(project: string, cues: Cues, stamp: seq<string>, ips: IpList, dir: Directory,
                        ips': IpList, dir': Directory) {
    exists exported, order ::
      && AllExported(project, cues, ips, exported) && ByNumber(exported, order)
      && Written(stamp, exported, order, dir, ips', dir')
  }

  /** The exported Ips signed and written in this order, then taken in again. */
  ghost predicate Written(stamp: seq<string>, exported: IpList, order: seq<string>, dir: Directory,
                          ips': IpList, dir': Directory) {
    && dir' == WriteFiles(dir, AllStamped(exported, stamp), order)
    && ips' == AllImported(AllStamped(exported, stamp))
  }

  /** What loading can make of a directory: the files are read in any order. */
  ghost predicate Loaded(dir: Directory, ips: IpList) {
    exists order :: AnyOrder(order, VisibleFiles(dir)) && ips == AllImported(ReadFiles(dir, order))
  }

  // ---------------------------------------------------------------- the class

  /** Keys are names, and numbers are distinct and below the counter. */
  ghost predicate Consistent(ips: IpList, count: nat) {
    && (forall k :: k in ips ==> ips[k].name == k && ips[k].ipNum < count)
    && (forall a, b :: a in ips && b in ips && ips[a].ipNum == ips[b].ipNum ==> a == b)
  }

  /** Every file bears the number of the Ip in it. */
  ghost predicate FiledByNumber(dir: Directory) {
    forall f :: f in dir ==> f == FileOf(dir[f].id)
  }

  /** One more than the largest number in these files, and 0 without files. */
  ghost predicate NextNumber(dir: Directory, files: set<string>, count: nat) {
    && (forall f :: f in files && f in dir ==> dir[f].id < count)
    && (count == 0 || exists f :: f in files && f in dir && dir[f].id + 1 == count)
  }

  class Database {
    var ipList: IpList
    var ipCount: nat
    var dir: Directory

    constructor (files: Directory)
      ensures ipList == map[] && ipCount == 0 && dir == files
    {
      ipList, ipCount, dir := map[], 0, files;
    }

    /** `create_ip`: a new name gets the next number. */
    method CreateIp(name: string) returns (ok: bool)
      modifies `ipList, `ipCount
      ensures ok <==> name !in old(ipList) && name != ""
      ensures ok ==> ipList == old(ipList)[name := NewIp(name, old(ipCount))] && ipCount == old(ipCount) + 1
      ensures !ok ==> ipList == old(ipList) && ipCount == old(ipCount)
      ensures old(Consistent(ipList, ipCount)) ==> Consistent(ipList, ipCount)
    {
      ok := name !in ipList && name != "";
      if ok {
        ipList := ipList[name := NewIp(name, ipCount)];
        ipCount := ipCount + 1;
      }
    }

    /** `delete_ip`: the Ip's file stays. */
    method DeleteIp(name: string) returns (ok: bool)
      modifies `ipList
      ensures ok <==> name in old(ipList)
      ensures ipList == old(ipList) - {name}
      ensures old(Consistent(ipList, ipCount)) ==> Consistent(ipList, ipCount)
    {
      ok := name in ipList;
      ipList := ipList - {name};
    }

    /** `update_ip_name`: an Ip that has the new name already is lost. */
    method UpdateIpName(oldName: string, newName: string) returns (ok: bool)
      modifies `ipList
      ensures ok <==> oldName in old(ipList)
      ensures ok ==> ipList == Renaming(old(ipList), oldName, newName)
      ensures !ok ==> ipList == old(ipList)
      ensures ok ==> (|ipList| == |old(ipList)| <==> newName !in old(ipList) || newName == oldName)
      ensures old(Consistent(ipList, ipCount)) ==> Consistent(ipList, ipCount)
    {
      ok := oldName in ipList;
      if ok {
        RenamingDropsIff(ipList, oldName, newName);
        RenamingKeeps(ipList, ipCount, oldName, newName);
        ipList := Renaming(ipList, oldName, newName);
      }
    }

    /** `prep_db_export`. */
    method PrepDbExport(project: string, cues: Cues)
      modifies `ipList
      ensures AllExported(project, cues, old(ipList), ipList)
    {
      var todo := ipList.Keys;
      while todo != {}
        invariant todo <= old(ipList).Keys == ipList.Keys
        invariant forall k :: k in old(ipList) ==>
                    if k in todo then ipList[k] == old(ipList)[k] else Exported(project, cues, old(ipList)[k], ipList[k])
        decreases todo
      {
        var k :| k in todo;
        var exported := ExportIp(project, cues, ipList[k]);
        ipList := ipList[k := exported];
        todo := todo - {k};
      }
    }

    /** `prep_db_import`. */
    method PrepDbImport()
      modifies `ipList
      ensures ipList == AllImported(old(ipList))
    {
      var todo := ipList.Keys;
      while todo != {}
        invariant todo <= old(ipList).Keys == ipList.Keys
        invariant forall k :: k in old(ipList) ==> ipList[k] == if k in todo then old(ipList)[k] else Imported(old(ipList)[k])
        decreases todo
      {
        var k :| k in todo;
        var imported := ImportIp(ipList[k]);
        ipList := ipList[k := imported];
        todo := todo - {k};
      }
    }

    /** The loop of `save_db`: every Ip is signed and written to the file of its number. */
    method WriteAll(order: seq<string>, stamp: seq<string>)
      requires AnyOrder(order, ipList.Keys)
      modifies `ipList, `dir
      ensures ipList == AllStamped(old(ipList), stamp)
      ensures dir == WriteFiles(old(dir), AllStamped(old(ipList), stamp), order)
    {
      for n := 0 to |order|
        invariant ipList == StampedUpTo(old(ipList), order[..n], stamp)
        invariant dir == WriteFiles(old(dir), AllStamped(old(ipList), stamp), order[..n])
      {
        var k := order[n];
        assert k in order && order[..n + 1][..n] == order[..n];
        StampedOnce(old(ipList), order[..n], stamp, k);
        ipList := ipList[k := Stamped(ipList[k], stamp)];
        dir := dir[FileOf(ipList[k].ipNum) := ToFeature(ipList[k])];
      }
      assert order[..|order|] == order;
      EveryOneStamped(old(ipList), order, stamp);
    }

    /** `save_db`, once it is confirmed. */
    method SaveDb(project: string, cues: Cues, stamp: seq<string>)
      modifies this
      ensures Saved(project, cues, stamp, old(ipList), old(dir), ipList, dir) && ipCount == old(ipCount)
      ensures DatabaseKept(project, cues, stamp, old(ipList), ipList, false)
      ensures OwnNumbers(old(ipList)) ==> DirectoryHolds(project, cues, stamp, old(ipList), old(dir), dir)
    {
      OutAndIn(project, cues, stamp);
      SavingDone(project, cues, stamp, old(ipList), old(dir), ipList, dir);
    }

    /** Its steps. */
    method OutAndIn(project: string, cues: Cues, stamp: seq<string>)
      modifies this
      ensures Saved(project, cues, stamp, old(ipList), old(dir), ipList, dir) && ipCount == old(ipCount)
    {
      PrepDbExport(project, cues);
      ghost var exported := ipList;
      var order := SortByNumber(ipList);
      WriteAll(order, stamp);
      PrepDbImport();
      assert AllExported(project, cues, old(ipList), exported) && ByNumber(exported, order);
    }

    /** `close_db_quiet` and `load_db_quiet`. */
    method LoadDb()
      modifies `ipList, `ipCount
      ensures Loaded(dir, ipList)
      ensures FiledByNumber(dir) ==> Consistent(ipList, ipCount)
      ensures NextNumber(dir, VisibleFiles(dir), ipCount)
    {
      ipList, ipCount := map[], 0;
      var todo := VisibleFiles(dir);
      ghost var order := [];
      while todo != {}
        invariant Reading(dir, order, todo, ipList, ipCount)
        decreases todo
      {
        var f :| f in todo;
        ReadingStep(dir, order, todo, ipList, ipCount, f);
        ipList := ipList[dir[f].name := ToIp(dir[f])];
        if dir[f].id >= ipCount {
          ipCount := dir[f].id + 1;
        }
        todo, order := todo - {f}, order + [f];
      }
      ReadingDone(dir, order, ipList, ipCount);
      PrepDbImport();
    }
  }

  /** The files that are not to do are read, in this order. */
  ghost predicate Reading(dir: Directory, order: seq<string>, todo: set<string>, ips: IpList, count: nat) {
    && todo <= VisibleFiles(dir) && AnyOrder(order, VisibleFiles(dir) - todo)
    && ips == ReadFiles(dir, order) && NextNumber(dir, VisibleFiles(dir) - todo, count)
  }

  lemma ReadingStep(dir: Directory, order: seq<string>, todo: set<string>, ips: IpList, count: nat, f: string)
    requires Reading(dir, order, todo, ips, count) && f in todo
    ensures f in dir
    ensures Reading(dir, order + [f], todo - {f}, ips[dir[f].name := ToIp(dir[f])], if dir[f].id >= count then dir[f].id + 1 else count)
  {
    var done, count' := VisibleFiles(dir) - todo, if dir[f].id >= count then dir[f].id + 1 else count;
    NextNumberStep(dir, done, f, count', count);
    OrderStep(order, done, f);
    ReadOne(dir, order, f);
    assert VisibleFiles(dir) - (todo - {f}) == done + {f};
  }

  lemma ReadOne(dir: Directory, order: seq<string>, f: string)
    requires f in dir
    ensures ReadFiles(dir, order + [f]) == ReadFiles(dir, order)[dir[f].name := ToIp(dir[f])]
  {
    assert (order + [f])[..|order|] == order;
  }

  lemma OrderStep(order: seq<string>, elements: set<string>, f: string)
    requires AnyOrder(order, elements) && f !in elements
    ensures AnyOrder(order + [f], elements + {f})
  {
  }

  lemma ReadingDone(dir: Directory, order: seq<string>, ips: IpList, count: nat)
    requires Reading(dir, order, {}, ips, count)
    ensures Loaded(dir, AllImported(ips)) && NextNumber(dir, VisibleFiles(dir), count)
    ensures FiledByNumber(dir) ==> Consistent(AllImported(ips), count)
  {
    assert VisibleFiles(dir) - {} == VisibleFiles(dir);
    if FiledByNumber(dir) {
      ReadIsConsistent(dir, order, count);
    }
  }

  lemma NextNumberStep(dir: Directory, files: set<string>, f: string, count': nat, count: nat)
    requires f in dir && NextNumber(dir, files, count) && count' == if dir[f].id >= count then dir[f].id + 1 else count
    ensures NextNumber(dir, files + {f}, count')
  {
    if count' != count {
      assert f in files + {f};
    } else if count != 0 {
      var g :| g in files && g in dir && dir[g].id + 1 == count;
      assert g in files + {f};
    }
  }

  function Renaming(ips: IpList, oldName: string, newName: string): IpList
    requires oldName in ips
  {
    (ips - {oldName})[newName := ips[oldName].(name := newName)]
  }

  /** Renaming keeps all Ips exactly if no other Ip has the new name; otherwise it drops that one
      and no other. */
  lemma RenamingDropsIff(ips: IpList, oldName: string, newName: string)
    requires oldName in ips
    ensures var after := Renaming(ips, oldName, newName);
      && (|after| == |ips| <==> newName !in ips || newName == oldName)
      && (newName in ips && newName != oldName ==> |after| == |ips| - 1)
      && (forall k :: k in ips && k != oldName && k != newName ==> k in after && after[k] == ips[k])
  {
    var rest := ips - {oldName};
    assert rest.Keys == ips.Keys - {oldName};
    assert Renaming(ips, oldName, newName).Keys == rest.Keys + {newName};
  }

  lemma RenamingKeeps(ips: IpList, count: nat, oldName: string, newName: string)
    requires oldName in ips
    ensures Consistent(ips, count) ==> Consistent(Renaming(ips, oldName, newName), count)
  {
  }

  function NewIp(name: string, number: nat): IpRecord {
    IpRecord(name, number, 0, map[], number, [], ["", "", "", ""])
  }

  /** The first of the listed Ips signed. */
  function StampedUpTo(ips: IpList, order: seq<string>, stamp: seq<string>): IpList {
    if order == [] then ips
    else
      var k, before := order[|order| - 1], StampedUpTo(ips, order[..|order| - 1], stamp);
      if k in ips then before[k := Stamped(ips[k], stamp)] else before
  }

  lemma {:induction false} StampedOnce(ips: IpList, order: seq<string>, stamp: seq<string>, k: string)
    ensures var some := StampedUpTo(ips, order, stamp);
      && (k in some <==> k in ips)
      && (k in ips ==> Stamped(some[k], stamp) == Stamped(ips[k], stamp))
      && (k in ips ==> some[k] == if k in order then Stamped(ips[k], stamp) else ips[k])
    decreases |order|
  {
    if order != [] {
      var n := |order| - 1;
      assert order == order[..n] + [order[n]];
      StampedOnce(ips, order[..n], stamp, k);
    }
  }

  lemma EveryOneStamped(ips: IpList, order: seq<string>, stamp: seq<string>)
    requires AnyOrder(order, ips.Keys)
    ensures StampedUpTo(ips, order, stamp) == AllStamped(ips, stamp)
  {
    forall k ensures k in StampedUpTo(ips, order, stamp) <==> k in ips {
      StampedOnce(ips, order, stamp, k);
    }
    forall k | k in ips ensures StampedUpTo(ips, order, stamp)[k] == Stamped(ips[k], stamp) {
      StampedOnce(ips, order, stamp, k);
    }
  }

  ghost predicate FirstByNumber(ips: IpList, key: string, todo: set<string>) {
    key in todo && forall k :: k in todo && key in ips && k in ips ==> ips[key].ipNum <= ips[k].ipNum
  }

  method MinByNumber(ips: IpList, todo: set<string>) returns (key: string)
    requires todo != {} && todo <= ips.Keys
    ensures FirstByNumber(ips, key, todo)
  {
    key :| key in todo;
    var rest := todo - {key};
    while rest != {}
      invariant rest <= todo && key in todo
      invariant forall k :: k in todo - rest ==> ips[key].ipNum <= ips[k].ipNum
      decreases rest
    {
      var k :| k in rest;
      if ips[k].ipNum < ips[key].ipNum {
        key := k;
      }
      rest := rest - {k};
    }
  }

  method SortByNumber(ips: IpList) returns (order: seq<string>)
    ensures ByNumber(ips, order)
  {
    order := [];
    var todo := ips.Keys;
    while todo != {}
      invariant todo <= ips.Keys && AnyOrder(order, ips.Keys - todo) && ByNumber(ips - todo, order)
      invariant forall i, k :: 0 <= i < |order| && order[i] in ips && k in todo ==> ips[order[i]].ipNum <= ips[k].ipNum
      decreases todo
    {
      var k := MinByNumber(ips, todo);
      order, todo := order + [k], todo - {k};
    }
    assert ips - {} == ips;
  }

  // ---------------------------------------------------------------- what reading gives

  /** Whatever the order: every Ip read is the content of the file of its number, under the name
      in that file. */
  lemma {:induction false} ReadFrom(dir: Directory, order: seq<string>, k: string)
    requires FiledByNumber(dir) && k in ReadFiles(dir, order)
    ensures var f := FileOf(ReadFiles(dir, order)[k].ipNum);
      f in order && f in dir && dir[f].name == k && ReadFiles(dir, order)[k] == ToIp(dir[f])
    decreases |order|
  {
    var n := |order| - 1;
    assert order == order[..n] + [order[n]];
    if !(order[n] in dir && dir[order[n]].name == k) {
      ReadFrom(dir, order[..n], k);
    }
  }

  lemma ReadIsConsistent(dir: Directory, order: seq<string>, count: nat)
    requires FiledByNumber(dir) && forall f :: f in order && f in dir ==> dir[f].id < count
    ensures Consistent(AllImported(ReadFiles(dir, order)), count)
  {
    var ips := ReadFiles(dir, order);
    forall k | k in ips
      ensures Imported(ips[k]).name == k && Imported(ips[k]).ipNum == ips[k].ipNum < count
      ensures FileOf(ips[k].ipNum) in dir && dir[FileOf(ips[k].ipNum)].name == k
    {
      ReadFrom(dir, order, k);
    }
  }

  /** If no two files hold the same name, nothing read is lost. */
  lemma {:induction false} ReadAll(dir: Directory, order: seq<string>, f: string)
    requires f in order && f in dir
    requires forall a, b :: a in order && b in order && a in dir && b in dir && dir[a].name == dir[b].name ==> a == b
    ensures dir[f].name in ReadFiles(dir, order) && ReadFiles(dir, order)[dir[f].name] == ToIp(dir[f])
    decreases |order|
  {
    var n := |order| - 1;
    assert order == order[..n] + [order[n]];
    if f != order[n] {
      ReadAll(dir, order[..n], f);
    }
  }

  lemma SomeOrder(elements: set<string>) returns (order: seq<string>)
    ensures AnyOrder(order, elements)
  {
    order := [];
    var todo := elements;
    while todo != {}
      invariant todo <= elements && AnyOrder(order, elements - todo)
      decreases todo
    {
      var x :| x in todo;
      order, todo := order + [x], todo - {x};
    }
  }

  // ---------------------------------------------------------------- what writing gives

  lemma {:induction false} WrittenFile(dir: Directory, ips: IpList, order: seq<string>, f: string)
    ensures var dir' := WriteFiles(dir, ips, order);
      && (f in dir' <==> f in dir || exists k :: k in order && k in ips && FileOf(ips[k].ipNum) == f)
      && ((forall k :: k in order && k in ips ==> FileOf(ips[k].ipNum) != f) && f in dir ==> dir'[f] == dir[f])
    decreases |order|
  {
    if order != [] {
      var n := |order| - 1;
      assert order == order[..n] + [order[n]];
      WrittenFile(dir, ips, order[..n], f);
    }
  }

  lemma {:induction false} WrittenIp(dir: Directory, ips: IpList, order: seq<string>, k: string)
    requires k in order && k in ips
    requires forall j :: j in order && j in ips && ips[j].ipNum == ips[k].ipNum ==> j == k
    ensures var f, dir' := FileOf(ips[k].ipNum), WriteFiles(dir, ips, order); f in dir' && dir'[f] == ToFeature(ips[k])
    decreases |order|
  {
    var n := |order| - 1;
    assert order == order[..n] + [order[n]];
    if order[n] in ips {
      ZfillFacts(ips[order[n]].ipNum);
    }
    ZfillFacts(ips[k].ipNum);
    if order[n] != k {
      WrittenIp(dir, ips, order[..n], k);
    }
  }

  lemma {:induction false} WritingKeepsFiling(dir: Directory, ips: IpList, order: seq<string>)
    requires FiledByNumber(dir)
    ensures FiledByNumber(WriteFiles(dir, ips, order))
    decreases |order|
  {
    if order != [] {
      WritingKeepsFiling(dir, ips, order[..|order| - 1]);
    }
  }

  /** Saving keeps every file under the number of its content. */
  lemma SavingKeepsFiling(project: string, cues: Cues, stamp: seq<string>, ips: IpList, dir: Directory,
                          ips': IpList, dir': Directory)
    requires Saved(project, cues, stamp, ips, dir, ips', dir') && FiledByNumber(dir)
    ensures FiledByNumber(dir')
  {
    var exported, order :| AllExported(project, cues, ips, exported) && ByNumber(exported, order)
      && Written(stamp, exported, order, dir, ips', dir');
    WritingKeepsFiling(dir, AllStamped(exported, stamp), order);
  }

  // ---------------------------------------------------------------- memory

  function CleanedIps(project: string, cues: Cues, stamp: seq<string>, ips: IpList): IpList {
    map k | k in ips :: Stamped(Cleaned(project, cues, ips[k]), stamp)
  }

  lemma StampedExport(project: string, cues: Cues, stamp: seq<string>, ip: IpRecord, exported: IpRecord)
    requires Exported(project, cues, ip, exported)
    ensures Exported(project, cues, Stamped(ip, stamp), Stamped(exported, stamp))
  {
  }

  lemma OneKept(project: string, cues: Cues, stamp: seq<string>, ips: IpList, exported: IpList, k: string)
    requires AllExported(project, cues, ips, exported) && k in ips
    ensures Imported(Stamped(exported[k], stamp)) == Stamped(Cleaned(project, cues, ips[k]), stamp)
  {
    assert Exported(project, cues, ips[k], exported[k]);
    SaveKeepsMemory(project, cues, ips[k], exported[k]);
  }

  lemma AllKept(project: string, cues: Cues, stamp: seq<string>, ips: IpList, exported: IpList)
    requires AllExported(project, cues, ips, exported)
    ensures AllImported(AllStamped(exported, stamp)) == CleanedIps(project, cues, stamp, ips)
  {
    forall k | k in ips ensures OneBackAs(project, cues, stamp, ips[k], exported[k]) {
      OneKept(project, cues, stamp, ips, exported, k);
    }
    AllBack(project, cues, stamp, ips, exported);
  }

  predicate OneBackAs(project: string, cues: Cues, stamp: seq<string>, ip: IpRecord, exported: IpRecord) {
    Imported(Stamped(exported, stamp)) == Stamped(Cleaned(project, cues, ip), stamp)
  }

  lemma AllBack(project: string, cues: Cues, stamp: seq<string>, ips: IpList, exported: IpList)
    requires exported.Keys == ips.Keys && forall k :: k in ips ==> OneBackAs(project, cues, stamp, ips[k], exported[k])
    ensures AllImported(AllStamped(exported, stamp)) == CleanedIps(project, cues, stamp, ips)
  {
  }

  /** Saving leaves the database in memory as it was, but for cleared cue texts, normalized tags
      and the revisions of the tool. */
  lemma SavingKeepsMemory(project: string, cues: Cues, stamp: seq<string>, ips: IpList, dir: Directory,
                          ips': IpList, dir': Directory)
    requires Saved(project, cues, stamp, ips, dir, ips', dir')
    ensures ips' == CleanedIps(project, cues, stamp, ips)
  {
    var exported, order :| AllExported(project, cues, ips, exported) && ByNumber(exported, order)
      && Written(stamp, exported, order, dir, ips', dir');
    AllKept(project, cues, stamp, ips, exported);
  }

  /** Told of texts, tags and numbers. */
  lemma SavingKeepsTexts(project: string, cues: Cues, stamp: seq<string>, ips: IpList, dir: Directory,
                         ips': IpList, dir': Directory)
    requires Saved(project, cues, stamp, ips, dir, ips', dir')
    ensures DatabaseKept(project, cues, stamp, ips, ips', false)
  {
    SavingKeepsMemory(project, cues, stamp, ips, dir, ips', dir');
    CleanedTexts(project, cues, stamp, ips);
  }

  lemma CleanedTexts(project: string, cues: Cues, stamp: seq<string>, ips: IpList)
    ensures DatabaseKept(project, cues, stamp, ips, CleanedIps(project, cues, stamp, ips), false)
  {
    forall k | k in ips ensures KeptWithStamp(project, cues, stamp, ips[k], CleanedIps(project, cues, stamp, ips)[k], false) {
      OneCleaned(project, cues, stamp, ips[k]);
    }
  }

  lemma OneCleaned(project: string, cues: Cues, stamp: seq<string>, ip: IpRecord)
    ensures KeptWithStamp(project, cues, stamp, ip, Stamped(Cleaned(project, cues, ip), stamp), false)
    ensures KeptWithStamp(project, cues, stamp, ip, Stamped(UnstatusedIp(Cleaned(project, cues, ip)), stamp), true)
  {
    CleanedIsKept(project, cues, ip);
  }

  ghost predicate KeptWithStamp(project: string, cues: Cues, stamp: seq<string>, ip: IpRecord, ip': IpRecord, loaded: bool) {
    IpKept(project, cues, ip, ip', loaded) && ip'.revisions == stamp
  }

  /** The same Ips, each as described in VpKept, with the revisions of the tool. */
  ghost predicate DatabaseKept(project: string, cues: Cues, stamp: seq<string>, ips: IpList, ips': IpList, loaded: bool) {
    && ips'.Keys == ips.Keys
    && forall k :: k in ips ==> KeptWithStamp(project, cues, stamp, ips[k], ips'[k], loaded)
  }

  // ---------------------------------------------------------------- files

  /** The file of each Ip holds it, and no file of another number has changed. */
  ghost predicate DirectoryHolds(project: string, cues: Cues, stamp: seq<string>, ips: IpList, dir: Directory, dir': Directory) {
    && (forall k :: k in ips ==> FileHolds(project, cues, stamp, ips[k], dir', FileOf(ips[k].ipNum)))
    && (forall f :: !HasFile(ips, f) ==> SameInBoth(dir, dir', f))
  }

  ghost predicate FileHolds(project: string, cues: Cues, stamp: seq<string>, ip: IpRecord, dir: Directory, file: string) {
    file in dir && IpFiled(project, cues, ip, dir[file]) && dir[file].revisions == stamp
  }

  predicate SameInBoth(dir: Directory, dir': Directory, f: string) {
    (f in dir' <==> f in dir) && (f in dir ==> dir'[f] == dir[f])
  }

  /** The directory after saving. */
  lemma SavingFillsFiles(project: string, cues: Cues, stamp: seq<string>, ips: IpList, dir: Directory,
                         ips': IpList, dir': Directory)
    requires Saved(project, cues, stamp, ips, dir, ips', dir') && OwnNumbers(ips)
    ensures DirectoryHolds(project, cues, stamp, ips, dir, dir')
  {
    var exported, order :| AllExported(project, cues, ips, exported) && ByNumber(exported, order)
      && Written(stamp, exported, order, dir, ips', dir');
    var written := AllStamped(exported, stamp);
    WrittenNumbers(project, cues, stamp, ips, exported);
    forall k | k in ips ensures FileHolds(project, cues, stamp, ips[k], dir', FileOf(ips[k].ipNum)) {
      WrittenIp(dir, written, order, k);
      assert Exported(project, cues, ips[k], exported[k]);
      OneFiled(project, cues, stamp, ips[k], exported[k]);
    }
    forall f | !HasFile(ips, f) ensures SameInBoth(dir, dir', f) {
      WrittenFile(dir, written, order, f);
    }
  }

  lemma SavingDone(project: string, cues: Cues, stamp: seq<string>, ips: IpList, dir: Directory, ips': IpList, dir': Directory)
    requires Saved(project, cues, stamp, ips, dir, ips', dir')
    ensures DatabaseKept(project, cues, stamp, ips, ips', false)
    ensures OwnNumbers(ips) ==> DirectoryHolds(project, cues, stamp, ips, dir, dir')
  {
    SavingKeepsTexts(project, cues, stamp, ips, dir, ips', dir');
    if OwnNumbers(ips) {
      SavingFillsFiles(project, cues, stamp, ips, dir, ips', dir');
    }
  }

  lemma OneFiled(project: string, cues: Cues, stamp: seq<string>, ip: IpRecord, exported: IpRecord)
    requires Exported(project, cues, ip, exported)
    ensures IpFiled(project, cues, ip, ToFeature(Stamped(exported, stamp))) && ToFeature(Stamped(exported, stamp)).revisions == stamp
  {
    IpGoesOut(project, cues, ip, exported);
    assert ToFeature(Stamped(exported, stamp)).subfeatures == ToFeature(exported).subfeatures;
  }

  // ---------------------------------------------------------------- saving, then loading

  /** What should come back. */
  function Kept(project: string, cues: Cues, stamp: seq<string>, ips: IpList): IpList {
    map k | k in ips :: Stamped(UnstatusedIp(Cleaned(project, cues, ips[k])), stamp)
  }

  /** Every Ip under its own name, with a number of its own below 1000. */
  ghost predicate Storable(ips: IpList) {
    && (forall k :: k in ips ==> ips[k].name == k && ips[k].ipNum < 1000)
    && (forall a, b :: a in ips && b in ips && ips[a].ipNum == ips[b].ipNum ==> a == b)
  }

  /** The directory holds no visible file of another Ip. */
  ghost predicate NoOtherFile(ips: IpList, dir: Directory) {
    forall f :: Visible(dir, f) ==> HasFile(ips, f)
  }

  ghost predicate HasFile(ips: IpList, f: string) {
    exists k :: k in ips && FileOf(ips[k].ipNum) == f
  }

  lemma KeptIsKept(project: string, cues: Cues, stamp: seq<string>, ips: IpList)
    ensures DatabaseKept(project, cues, stamp, ips, Kept(project, cues, stamp, ips), true)
  {
    forall k | k in ips ensures KeptWithStamp(project, cues, stamp, ips[k], Kept(project, cues, stamp, ips)[k], true) {
      OneCleaned(project, cues, stamp, ips[k]);
    }
  }

  lemma ExportedBack(project: string, cues: Cues, stamp: seq<string>, ip: IpRecord, exported: IpRecord)
    requires Exported(project, cues, ip, exported)
    ensures Imported(ToIp(ToFeature(Stamped(exported, stamp)))) == Stamped(UnstatusedIp(Cleaned(project, cues, ip)), stamp)
  {
    StampedExport(project, cues, stamp, ip, exported);
    LoadGivesBack(project, cues, Stamped(ip, stamp), Stamped(exported, stamp));
  }

  /** One Ip's file after saving. */
  lemma SavedFile(project: string, cues: Cues, stamp: seq<string>, ips: IpList, exported: IpList, dir: Directory,
                  order: seq<string>, k: string)
    requires AllExported(project, cues, ips, exported) && ByNumber(exported, order) && Storable(ips) && k in ips
    ensures var f, dir' := FileOf(ips[k].ipNum), WriteFiles(dir, AllStamped(exported, stamp), order);
      && Visible(dir', f) && dir'[f] == ToFeature(Stamped(exported[k], stamp)) && dir'[f].name == k
  {
    var written := AllStamped(exported, stamp);
    forall j | j in written ensures written[j].ipNum == ips[j].ipNum && written[j].name == j {
      assert Exported(project, cues, ips[j], exported[j]);
    }
    WrittenIp(dir, written, order, k);
    ZfillFacts(ips[k].ipNum);
  }

  /** After saving, the visible files are those of the database. */
  lemma OnlySavedFiles(project: string, cues: Cues, stamp: seq<string>, ips: IpList, exported: IpList, dir: Directory,
                       order: seq<string>, f: string)
    requires AllExported(project, cues, ips, exported) && ByNumber(exported, order) && NoOtherFile(ips, dir)
    requires Visible(WriteFiles(dir, AllStamped(exported, stamp), order), f)
    ensures HasFile(ips, f)
  {
    var written := AllStamped(exported, stamp);
    WrittenFile(dir, written, order, f);
    if f !in dir {
      var k :| k in order && k in written && FileOf(written[k].ipNum) == f;
      assert Exported(project, cues, ips[k], exported[k]);
      assert FileOf(ips[k].ipNum) == f;
    } else {
      assert Visible(dir, f);
    }
  }

  /** A storable database has been saved where no other Ip has a file. */
  ghost predicate WellSaved(project: string, cues: Cues, stamp: seq<string>, ips: IpList, exported: IpList, dir: Directory,
                            order: seq<string>, dir': Directory)
  {
    && AllExported(project, cues, ips, exported) && ByNumber(exported, order)
    && Storable(ips) && NoOtherFile(ips, dir)
    && dir' == WriteFiles(dir, AllStamped(exported, stamp), order)
  }

  /** A file that is read then holds the Ip of its number. */
  lemma ReadsOwn(project: string, cues: Cues, stamp: seq<string>, ips: IpList, exported: IpList, dir: Directory,
                 order: seq<string>, dir': Directory, f: string) returns (k: string)
    requires WellSaved(project, cues, stamp, ips, exported, dir, order, dir') && Visible(dir', f)
    ensures k in ips && f == FileOf(ips[k].ipNum) && dir'[f].name == k
  {
    OnlySavedFiles(project, cues, stamp, ips, exported, dir, order, f);
    k :| k in ips && FileOf(ips[k].ipNum) == f;
    SavedFile(project, cues, stamp, ips, exported, dir, order, k);
  }

  lemma NamesApart(project: string, cues: Cues, stamp: seq<string>, ips: IpList, exported: IpList, dir: Directory,
                   order: seq<string>, dir': Directory, a: string, b: string)
    requires WellSaved(project, cues, stamp, ips, exported, dir, order, dir')
    requires Visible(dir', a) && Visible(dir', b) && dir'[a].name == dir'[b].name
    ensures a == b
  {
    var k := ReadsOwn(project, cues, stamp, ips, exported, dir, order, dir', a);
    var j := ReadsOwn(project, cues, stamp, ips, exported, dir, order, dir', b);
  }

  lemma OneBack(project: string, cues: Cues, stamp: seq<string>, ips: IpList, exported: IpList, dir: Directory,
                order: seq<string>, dir': Directory, reading: seq<string>, k: string)
    requires WellSaved(project, cues, stamp, ips, exported, dir, order, dir')
    requires AnyOrder(reading, VisibleFiles(dir')) && k in ips
    ensures k in ReadFiles(dir', reading)
    ensures Imported(ReadFiles(dir', reading)[k]) == Stamped(UnstatusedIp(Cleaned(project, cues, ips[k])), stamp)
  {
    var f := FileOf(ips[k].ipNum);
    SavedFile(project, cues, stamp, ips, exported, dir, order, k);
    assert f in VisibleFiles(dir');
    forall a, b | a in reading && b in reading && a in dir' && b in dir' && dir'[a].name == dir'[b].name ensures a == b {
      assert a in VisibleFiles(dir') && b in VisibleFiles(dir');
      NamesApart(project, cues, stamp, ips, exported, dir, order, dir', a, b);
    }
    ReadAll(dir', reading, f);
    assert Exported(project, cues, ips[k], exported[k]);
    ExportedBack(project, cues, stamp, ips[k], exported[k]);
  }

  lemma NothingElseBack(project: string, cues: Cues, stamp: seq<string>, ips: IpList, exported: IpList, dir: Directory,
                        order: seq<string>, dir': Directory, reading: seq<string>, k: string)
    requires WellSaved(project, cues, stamp, ips, exported, dir, order, dir')
    requires AnyOrder(reading, VisibleFiles(dir')) && k in ReadFiles(dir', reading)
    ensures k in ips
  {
    forall f | f in reading && f in dir' ensures dir'[f].name in ips {
      assert f in VisibleFiles(dir');
      var j := ReadsOwn(project, cues, stamp, ips, exported, dir, order, dir', f);
    }
    NameRead(dir', reading, ips, k);
  }

  lemma LoadsBack(project: string, cues: Cues, stamp: seq<string>, ips: IpList, exported: IpList, dir: Directory,
                  order: seq<string>, dir': Directory, reading: seq<string>)
    requires WellSaved(project, cues, stamp, ips, exported, dir, order, dir') && AnyOrder(reading, VisibleFiles(dir'))
    ensures AllImported(ReadFiles(dir', reading)) == Kept(project, cues, stamp, ips)
  {
    var read, meant := ReadFiles(dir', reading), Kept(project, cues, stamp, ips);
    forall k | k in read ensures k in ips {
      NothingElseBack(project, cues, stamp, ips, exported, dir, order, dir', reading, k);
    }
    forall k | k in ips ensures k in read && Imported(read[k]) == meant[k] {
      OneBack(project, cues, stamp, ips, exported, dir, order, dir', reading, k);
    }
    SameIps(read, ips, meant);
  }

  lemma SameIps(read: IpList, ips: IpList, meant: IpList)
    requires meant.Keys == ips.Keys
    requires (forall k :: k in read ==> k in ips) && forall k :: k in ips ==> k in read && Imported(read[k]) == meant[k]
    ensures AllImported(read) == meant
  {
    assert AllImported(read).Keys == meant.Keys;
  }

  lemma {:induction false} NameRead(dir: Directory, order: seq<string>, ips: IpList, k: string)
    requires k in ReadFiles(dir, order)
    requires forall f :: f in order && f in dir ==> dir[f].name in ips
    ensures k in ips
    decreases |order|
  {
    var n := |order| - 1;
    assert order == order[..n] + [order[n]];
    if !(order[n] in dir && dir[order[n]].name == k) {
      NameRead(dir, order[..n], ips, k);
    }
  }

  /** What comes back can only be right if the database is storable. */
  lemma MustBeStorable(project: string, cues: Cues, stamp: seq<string>, ips: IpList, dir': Directory, reading: seq<string>)
    requires FiledByNumber(dir') && AnyOrder(reading, VisibleFiles(dir'))
    requires AllImported(ReadFiles(dir', reading)) == Kept(project, cues, stamp, ips)
    ensures Storable(ips)
  {
    var read := ReadFiles(dir', reading);
    forall k | k in ips
      ensures ips[k].name == k && ips[k].ipNum < 1000
      ensures FileOf(ips[k].ipNum) in dir' && dir'[FileOf(ips[k].ipNum)].name == k
    {
      assert k in Kept(project, cues, stamp, ips);
      assert k in AllImported(read) && AllImported(read)[k] == Kept(project, cues, stamp, ips)[k];
      ReadFrom(dir', reading, k);
      ZfillFacts(ips[k].ipNum);
    }
  }

  /** A file of another Ip, read last, is in what comes back. */
  lemma OtherFileComesBack(project: string, cues: Cues, stamp: seq<string>, ips: IpList, dir': Directory, f: string)
    returns (loaded: IpList)
    requires FiledByNumber(dir') && Visible(dir', f) && !HasFile(ips, f)
    ensures Loaded(dir', loaded) && loaded != Kept(project, cues, stamp, ips)
  {
    var front := SomeOrder(VisibleFiles(dir') - {f});
    var reading := front + [f];
    assert reading[..|front|] == front;
    assert AnyOrder(reading, VisibleFiles(dir'));
    loaded := AllImported(ReadFiles(dir', reading));
    var k := dir'[f].name;
    assert k in loaded && FileOf(loaded[k].ipNum) == f;
    assert k in ips ==> FileOf(Kept(project, cues, stamp, ips)[k].ipNum) != f;
  }

  lemma StaleFileStays(project: string, cues: Cues, stamp: seq<string>, ips: IpList, exported: IpList, dir: Directory,
                       order: seq<string>, f: string)
    requires AllExported(project, cues, ips, exported) && Visible(dir, f)
    ensures Visible(WriteFiles(dir, AllStamped(exported, stamp), order), f)
  {
    WrittenFile(dir, AllStamped(exported, stamp), order, f);
  }

  ghost predicate AlwaysBack(dir: Directory, ips: IpList) {
    forall loaded :: Loaded(dir, loaded) ==> loaded == ips
  }

  /** Saving, and loading what is then in the directory, always gives the database back (up to
      cleaned texts and tags, lost status, targets and locks, and the tool's revisions) exactly
      if every Ip is stored under its name, with a number of its own below 1000, and there is
      no file of another Ip, such as one deleted since it was saved. */
  lemma SaveThenLoadIff(project: string, cues: Cues, stamp: seq<string>, ips: IpList, dir: Directory,
                        ips': IpList, dir': Directory)
    requires Saved(project, cues, stamp, ips, dir, ips', dir') && FiledByNumber(dir)
    ensures AlwaysBack(dir', Kept(project, cues, stamp, ips)) <==> Storable(ips) && NoOtherFile(ips, dir)
  {
    SavingKeepsFiling(project, cues, stamp, ips, dir, ips', dir');
    var exported, order :| AllExported(project, cues, ips, exported) && ByNumber(exported, order)
      && Written(stamp, exported, order, dir, ips', dir');
    if Storable(ips) && NoOtherFile(ips, dir) {
      forall loaded | Loaded(dir', loaded) ensures loaded == Kept(project, cues, stamp, ips) {
        var reading :| AnyOrder(reading, VisibleFiles(dir')) && loaded == AllImported(ReadFiles(dir', reading));
        LoadsBack(project, cues, stamp, ips, exported, dir, order, dir', reading);
      }
    }
    if AlwaysBack(dir', Kept(project, cues, stamp, ips)) {
      var reading := SomeOrder(VisibleFiles(dir'));
      assert Loaded(dir', AllImported(ReadFiles(dir', reading)));
      MustBeStorable(project, cues, stamp, ips, dir', reading);
      forall f | Visible(dir, f) ensures HasFile(ips, f) {
        if !HasFile(ips, f) {
          StaleFileStays(project, cues, stamp, ips, exported, dir, order, f);
          var loaded := OtherFileComesBack(project, cues, stamp, ips, dir', f);
        }
      }
    }
  }

  /** Under that condition, whatever the order of reading: every Ip is loaded with all its texts,
      tags and numbers as described in VpKept. */
  lemma LoadedTexts(project: string, cues: Cues, stamp: seq<string>, ips: IpList, dir: Directory,
                    ips': IpList, dir': Directory, loaded: IpList)
    requires Saved(project, cues, stamp, ips, dir, ips', dir') && FiledByNumber(dir) && Loaded(dir', loaded)
    requires Storable(ips) && NoOtherFile(ips, dir)
    ensures DatabaseKept(project, cues, stamp, ips, loaded, true)
  {
    SaveThenLoadIff(project, cues, stamp, ips, dir, ips', dir');
    assert loaded == Kept(project, cues, stamp, ips);
    KeptIsKept(project, cues, stamp, ips);
  }

  /** All live item tags of a database in order are distinct, across its Ips. */
  lemma DatabaseTagsDistinct(project: string, ips: IpList, count: nat, a: string, p: string, i: string,
                             b: string, q: string, j: string)
    requires Consistent(ips, count) && a in ips && b in ips
    requires IpOk(project, Editing(ips[a])) && IpOk(project, Editing(ips[b]))
    requires p in ips[a].props && i in ips[a].props[p].items && q in ips[b].props && j in ips[b].props[q].items
    requires ips[a].props[p].items[i].tag == ips[b].props[q].items[j].tag
    ensures a == b && p == q && i == j
  {
    IpNumbersApart(project, Editing(ips[a]), p, i, Editing(ips[b]), q, j);
    TagsDistinct(project, Editing(ips[a]), p, i, q, j);
  }

  /** For a database as the editor keeps it, only large numbers and files of other Ips matter. */
  lemma ConsistentIsStorableIff(ips: IpList, count: nat)
    requires Consistent(ips, count)
    ensures Storable(ips) <==> forall k :: k in ips ==> ips[k].ipNum < 1000
    ensures count <= 1000 ==> Storable(ips)
  {
  }

  // ---------------------------------------------------------------- saving twice

  lemma SameFile(project: string, cues: Cues, stamp: seq<string>, ip: IpRecord, first: IpRecord, second: IpRecord)
    requires Exported(project, cues, ip, first) && Exported(project, cues, Imported(Stamped(first, stamp)), second)
    ensures ToFeature(Stamped(second, stamp)) == ToFeature(Stamped(first, stamp))
  {
    StampedExport(project, cues, stamp, ip, first);
    StampedExport(project, cues, stamp, Imported(Stamped(first, stamp)), second);
    assert Stamped(Imported(Stamped(first, stamp)), stamp) == Imported(Stamped(first, stamp));
    SavedTwiceIsSavedOnce(project, cues, Stamped(ip, stamp), Stamped(first, stamp), Stamped(second, stamp));
  }

  lemma WrittenNumbers(project: string, cues: Cues, stamp: seq<string>, ips: IpList, exported: IpList)
    requires AllExported(project, cues, ips, exported)
    ensures AllStamped(exported, stamp).Keys == ips.Keys
    ensures forall k :: k in ips ==> AllStamped(exported, stamp)[k].ipNum == ips[k].ipNum
  {
    forall k | k in ips ensures exported[k].ipNum == ips[k].ipNum {
      assert Exported(project, cues, ips[k], exported[k]);
    }
  }

  ghost predicate OwnNumbers(ips: IpList) {
    forall a, b :: a in ips && b in ips && ips[a].ipNum == ips[b].ipNum ==> a == b
  }

  lemma FileAgain(project: string, cues: Cues, stamp: seq<string>, ips: IpList, dir: Directory, first: IpList, order1: seq<string>,
                  second: IpList, order2: seq<string>, f: string)
    requires OwnNumbers(ips) && AllExported(project, cues, ips, first) && ByNumber(first, order1)
    requires AllExported(project, cues, AllImported(AllStamped(first, stamp)), second) && ByNumber(second, order2)
    ensures var dir1 := WriteFiles(dir, AllStamped(first, stamp), order1);
      var dir2 := WriteFiles(dir1, AllStamped(second, stamp), order2);
      SameInBoth(dir1, dir2, f)
  {
    var ips1 := AllImported(AllStamped(first, stamp));
    WrittenNumbers(project, cues, stamp, ips, first);
    WrittenNumbers(project, cues, stamp, ips1, second);
    var written1, written2 := AllStamped(first, stamp), AllStamped(second, stamp);
    var dir1 := WriteFiles(dir, written1, order1);
    WrittenFile(dir1, written2, order2, f);
    if k :| k in order2 && k in written2 && FileOf(written2[k].ipNum) == f {
      WrittenIp(dir, written1, order1, k);
      WrittenIp(dir1, written2, order2, k);
      assert Exported(project, cues, ips[k], first[k]) && Exported(project, cues, ips1[k], second[k]);
      SameFile(project, cues, stamp, ips[k], first[k], second[k]);
    }
  }

  /** Saving again at once changes no file. */
  lemma SavedAgain(project: string, cues: Cues, stamp: seq<string>, ips: IpList, dir: Directory,
                   ips1: IpList, dir1: Directory, ips2: IpList, dir2: Directory)
    requires Saved(project, cues, stamp, ips, dir, ips1, dir1) && Saved(project, cues, stamp, ips1, dir1, ips2, dir2)
    requires OwnNumbers(ips)
    ensures dir2 == dir1
  {
    var first, order1 :| AllExported(project, cues, ips, first) && ByNumber(first, order1)
      && Written(stamp, first, order1, dir, ips1, dir1);
    var second, order2 :| AllExported(project, cues, ips1, second) && ByNumber(second, order2)
      && Written(stamp, second, order2, dir1, ips2, dir2);
    FilesAgain(project, cues, stamp, ips, dir, first, order1, second, order2);
  }

  lemma FilesAgain(project: string, cues: Cues, stamp: seq<string>, ips: IpList, dir: Directory, first: IpList, order1: seq<string>,
                   second: IpList, order2: seq<string>)
    requires OwnNumbers(ips) && AllExported(project, cues, ips, first) && ByNumber(first, order1)
    requires AllExported(project, cues, AllImported(AllStamped(first, stamp)), second) && ByNumber(second, order2)
    ensures var dir1 := WriteFiles(dir, AllStamped(first, stamp), order1);
      WriteFiles(dir1, AllStamped(second, stamp), order2) == dir1
  {
    var dir1 := WriteFiles(dir, AllStamped(first, stamp), order1);
    var dir2 := WriteFiles(dir1, AllStamped(second, stamp), order2);
    forall f ensures SameInBoth(dir1, dir2, f) {
      FileAgain(project, cues, stamp, ips, dir, first, order1, second, order2, f);
    }
    SameFiles(dir1, dir2);
  }

  lemma SameFiles(dir: Directory, dir': Directory)
    requires forall f :: SameInBoth(dir, dir', f)
    ensures dir' == dir
  {
    assert forall f :: f in dir' <==> f in dir by {
      forall f ensures f in dir' <==> f in dir {
        assert SameInBoth(dir, dir', f);
      }
    }
    forall f | f in dir ensures dir'[f] == dir[f] {
      assert SameInBoth(dir, dir', f);
    }
  }
}
