/** What saving and loading leave of an Ip, field by field (vp_pack.py, prep_to_save and the
    conversions): told of the texts and tags themselves, apart from the functions that make them. */
module VpKept {
  import opened VpNumbers
  import opened VpSorted
  import opened VpTags
  import opened VpPack
  import opened VpSave

  // ---------------------------------------------------------------- texts and tags

  /** A text is cleared if it is its own cue, and stays otherwise. */
  predicate TextKept(before: string, after: string, cue: string) {
    (before == cue ==> after == "") && (before != cue ==> after == before)
  }

  function OldForm(a: string, b: string, c: string): string {
    "VP_IP" + a + "_P" + b + "_I" + c
  }

  function NewForm(project: string, a: string, b: string, c: string): string {
    "VP_" + project + "_F" + a + "_S" + b + "_I" + c
  }

  ghost predicate HasOldForm(tag: string) {
    exists a, b, c :: Numeral(a) && Numeral(b) && Numeral(c) && tag == OldForm(a, b, c)
  }

  /** A tag of the old form is rewritten with the same three numbers; any other stays. */
  ghost predicate TagKept(project: string, before: string, after: string) {
    && (forall a, b, c :: Numeral(a) && Numeral(b) && Numeral(c) && before == OldForm(a, b, c) ==>
          after == NewForm(project, a, b, c))
    && (!HasOldForm(before) ==> after == before)
  }

  lemma TagIsKept(project: string, tag: string)
    ensures TagKept(project, tag, NormalizeTag(project, tag))
  {
    forall a, b, c | Numeral(a) && Numeral(b) && Numeral(c) && tag == OldForm(a, b, c)
      ensures NormalizeTag(project, tag) == NewForm(project, a, b, c)
    {
      OldStyleIs(a, b, c);
    }
    if OldStyle(tag).Some? {
      OldStyleSplits(tag);
      var (a, b, c) := OldStyle(tag).value;
      Regrouped("VP_IP" + a, "_P", b, "_I", c);
      assert tag == OldForm(a, b, c);
    }
  }

  lemma Regrouped(p: string, q: string, b: string, r: string, c: string)
    ensures p + (q + b) + (r + c) == p + q + b + r + c
  {
  }

  // ---------------------------------------------------------------- items

  /** Status, simulation targets and lock are in memory only. */
  ghost predicate ItemKept(project: string, cues: Cues, i: Item, j: Item, loaded: bool) {
    && j.name == i.name && TagKept(project, i.tag, j.tag)
    && TextKept(i.description, j.description, cues.description) && TextKept(i.purpose, j.purpose, cues.purpose)
    && TextKept(i.verifGoals, j.verifGoals, cues.verifGoals)
    && TextKept(i.coverageLoc, j.coverageLoc, cues.coverageLoc) && TextKept(i.comments, j.comments, cues.comments)
    && j.refMode == i.refMode && j.refPage == i.refPage && j.refSection == i.refSection && j.refViewer == i.refViewer
    && j.pfc == i.pfc && j.testType == i.testType && j.covMethod == i.covMethod && j.cores == i.cores
    && if loaded then j.status == "" && j.simuTargetList == [] && j.lockStatus == ""
       else j.status == i.status && j.simuTargetList == i.simuTargetList && j.lockStatus == i.lockStatus
  }

  /** The item as it stands in the file. */
  ghost predicate ItemFiled(project: string, cues: Cues, i: Item, v: VerifItem) {
    && v.name == i.name && TagKept(project, i.tag, v.tag)
    && TextKept(i.description, v.description, cues.description) && TextKept(i.purpose, v.reqtDoc, cues.purpose)
    && TextKept(i.verifGoals, v.verifGoals, cues.verifGoals)
    && TextKept(i.coverageLoc, v.coverageLoc, cues.coverageLoc) && TextKept(i.comments, v.comments, cues.comments)
    && v.refMode == i.refMode && v.refPage == i.refPage && v.refSection == i.refSection && v.refViewer == i.refViewer
    && v.pfc == i.pfc && v.testType == i.testType && v.covMethod == i.covMethod && v.cores == i.cores
  }

  lemma ItemIsKept(project: string, cues: Cues, i: Item)
    ensures ItemKept(project, cues, i, Sanitized(project, cues, i), false)
    ensures ItemKept(project, cues, i, Unstatused(Sanitized(project, cues, i)), true)
    ensures ItemFiled(project, cues, i, ToVerifItem(Sanitized(project, cues, i)))
  {
    TagIsKept(project, i.tag);
  }

  // ---------------------------------------------------------------- properties and Ips

  ghost predicate PropKept(project: string, cues: Cues, p: PropData, q: PropData, loaded: bool) {
    && q.name == p.name && q.tag == p.tag && q.itemCount == p.itemCount && q.widOrder == p.widOrder && q.rfuList == []
    && q.items.Keys == p.items.Keys
    && forall k :: k in p.items ==> ItemKept(project, cues, p.items[k], q.items[k], loaded)
  }

  ghost predicate IpKept(project: string, cues: Cues, ip: IpRecord, ip': IpRecord, loaded: bool) {
    && ip'.name == ip.name && ip'.ipNum == ip.ipNum && ip'.propCount == ip.propCount && ip'.widOrder == ip.widOrder
    && ip'.rfuList == [] && ip'.props.Keys == ip.props.Keys
    && forall k :: k in ip.props ==> PropKept(project, cues, ip.props[k], ip'.props[k], loaded)
  }

  /** Each key of the dictionary once, in order. */
  ghost predicate KeysInOrder<V, W>(m: map<string, V>, list: seq<(string, W)>) {
    && (forall i, j :: 0 <= i < j < |list| ==> Before(list[i].0, list[j].0))
    && (forall k :: k in m <==> Listed(list, k))
  }

  ghost predicate Listed<W>(list: seq<(string, W)>, k: string) {
    exists i :: 0 <= i < |list| && list[i].0 == k
  }

  ghost predicate PropFiled(project: string, cues: Cues, p: PropData, f: Subfeature) {
    && f.name == p.name && f.tag == p.tag && f.nextEltId == p.itemCount && f.displayOrder == p.widOrder
    && KeysInOrder(p.items, f.items)
    && forall n :: 0 <= n < |f.items| ==> ItemFiledAt(project, cues, p, f.items[n].0, f.items[n].1)
  }

  ghost predicate ItemFiledAt(project: string, cues: Cues, p: PropData, k: string, v: VerifItem) {
    k in p.items && ItemFiled(project, cues, p.items[k], v)
  }

  ghost predicate IpFiled(project: string, cues: Cues, ip: IpRecord, f: Feature) {
    && f.name == ip.name && f.id == ip.ipNum && f.nextEltId == ip.propCount && f.displayOrder == ip.widOrder
    && KeysInOrder(ip.props, f.subfeatures)
    && forall n :: 0 <= n < |f.subfeatures| ==> PropFiledAt(project, cues, ip, f.subfeatures[n].0, f.subfeatures[n].1)
  }

  ghost predicate PropFiledAt(project: string, cues: Cues, ip: IpRecord, k: string, s: Subfeature) {
    k in ip.props && PropFiled(project, cues, ip.props[k], s)
  }

  lemma PropIsKept(project: string, cues: Cues, p: PropData)
    ensures PropKept(project, cues, p, CleanedProp(project, cues, p), false)
    ensures PropKept(project, cues, p, UnstatusedProp(CleanedProp(project, cues, p)), true)
  {
    forall k | k in p.items
      ensures ItemKept(project, cues, p.items[k], CleanedProp(project, cues, p).items[k], false)
      ensures ItemKept(project, cues, p.items[k], UnstatusedProp(CleanedProp(project, cues, p)).items[k], true)
    {
      ItemIsKept(project, cues, p.items[k]);
    }
  }

  lemma CleanedIsKept(project: string, cues: Cues, ip: IpRecord)
    ensures IpKept(project, cues, ip, Cleaned(project, cues, ip), false)
    ensures IpKept(project, cues, ip, UnstatusedIp(Cleaned(project, cues, ip)), true)
  {
    forall k | k in ip.props
      ensures PropKept(project, cues, ip.props[k], Cleaned(project, cues, ip).props[k], false)
      ensures PropKept(project, cues, ip.props[k], UnstatusedIp(Cleaned(project, cues, ip)).props[k], true)
    {
      PropIsKept(project, cues, ip.props[k]);
    }
  }

  /** After going out and in again, and after the way through the file, every text is empty if it
      was its own cue and else the old one, old-form tags are rewritten and others stay, and all
      else is the old one, but for status, targets and lock of what was loaded. */
  lemma IpComesBack(project: string, cues: Cues, ip: IpRecord, ip': IpRecord)
    requires Exported(project, cues, ip, ip')
    ensures IpKept(project, cues, ip, Imported(ip'), false)
    ensures IpKept(project, cues, ip, Imported(ToIp(ToFeature(ip'))), true)
  {
    SaveKeepsMemory(project, cues, ip, ip');
    LoadGivesBack(project, cues, ip, ip');
    CleanedIsKept(project, cues, ip);
  }

  lemma InOrder<U, V(!new), W(!new)>(m: map<string, U>, prepared: map<string, V>, list: seq<(string, V)>,
                                     converted: seq<(string, W)>)
    requires prepared.Keys == m.Keys && SortedItems(prepared, list) && |converted| == |list|
    requires forall n :: 0 <= n < |list| ==> converted[n].0 == list[n].0
    ensures KeysInOrder(m, converted)
  {
    forall k ensures k in m <==> Listed(converted, k) {
      if k in m {
        assert HasKey(list, k);
        var i :| 0 <= i < |list| && list[i].0 == k;
        assert converted[i].0 == k;
      }
      if Listed(converted, k) {
        var i :| 0 <= i < |converted| && converted[i].0 == k;
        assert list[i].0 == k;
      }
    }
  }

  lemma PropIsFiled(project: string, cues: Cues, p: PropData, p': PropData)
    requires Prepared(project, cues, p, p')
    ensures PropFiled(project, cues, p, ToSubfeature(p'))
  {
    var items, list := SanitizedItems(project, cues, p.items), p'.rfuList;
    assert items.Keys == p.items.Keys;
    InOrder(p.items, items, list, ToSubfeature(p').items);
    forall n | 0 <= n < |list| ensures ItemFiledAt(project, cues, p, list[n].0, ToVerifItem(list[n].1)) {
      assert list[n].0 in items;
      ItemIsKept(project, cues, p.items[list[n].0]);
    }
  }

  /** What goes into the file. */
  lemma IpGoesOut(project: string, cues: Cues, ip: IpRecord, ip': IpRecord)
    requires Exported(project, cues, ip, ip')
    ensures IpFiled(project, cues, ip, ToFeature(ip')) && ToFeature(ip').revisions == ip.revisions
  {
    var prepared :| AllPrepared(project, cues, ip.props, prepared) && SortedItems(prepared, ip'.rfuList);
    var list, filed := ip'.rfuList, ConvertedList(ip'.rfuList, ToSubfeature);
    InOrder(ip.props, prepared, list, filed);
    PropsAreFiled(project, cues, ip, prepared, list, filed);
    assert ToFeature(ip').subfeatures == filed;
  }

  lemma PropsAreFiled(project: string, cues: Cues, ip: IpRecord, prepared: map<string, PropData>,
                      list: seq<(string, PropData)>, filed: seq<(string, Subfeature)>)
    requires AllPrepared(project, cues, ip.props, prepared) && filed == ConvertedList(list, ToSubfeature)
    requires forall n :: 0 <= n < |list| ==> list[n].0 in prepared && prepared[list[n].0] == list[n].1
    ensures forall n :: 0 <= n < |filed| ==> PropFiledAt(project, cues, ip, filed[n].0, filed[n].1)
  {
    forall n | 0 <= n < |filed| ensures PropFiledAt(project, cues, ip, filed[n].0, filed[n].1) {
      assert filed[n] == (list[n].0, ToSubfeature(list[n].1));
      PropIsFiled(project, cues, ip.props[list[n].0], list[n].1);
    }
  }
}
