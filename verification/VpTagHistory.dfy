/** The tags of items over a whole editing session on one Ip (vp_pack.py asks in a comment that a
    tag never be used again): which commands hand out a tag that another item has borne. */
module VpTagHistory {
  import opened VpNumbers
  import opened VpPack
  import opened VpDatabase

  // ---------------------------------------------------------------- items and their tags

  predicate HasItem(ip: IpData, key: string, i: string) {
    key in ip.props && i in ip.props[key].items
  }

  function TagOf(ip: IpData, key: string, i: string): string
    requires HasItem(ip, key, i)
  {
    ip.props[key].items[i].tag
  }

  /** The step that created the item which is at (key, i) in state n. Insertion gives the number
      behind the selected item to the new item, and moves those from there on up by one. */
  function Born(states: seq<IpData>, actions: seq<Action>, n: nat, key: string, i: string): (b: int)
    requires |states| == |actions| + 1 && n < |states|
    ensures -1 <= b < n
  {
    if n == 0 then -1
    else
      var a, ip := actions[n - 1], states[n - 1];
      if a.AddItem? && a.key == key && key in ip.props && i == Zfill3(ip.props[key].itemCount) then n - 1
      else if a.DuplicateInsert? && a.key == key && IntOf(i) == IntOf(a.item) + 1 then n - 1
      else if a.DuplicateInsert? && a.key == key && IntOf(i) > IntOf(a.item) + 1 then
        Born(states, actions, n - 1, key, Zfill3(IntOf(i) - 1))
      else Born(states, actions, n - 1, key, i)
  }

  /** At some time (key, i) bears the tag that another item bears at (key', i') at some time. */
  ghost predicate Shared(states: seq<IpData>, actions: seq<Action>, m: nat, key: string, i: string, n: nat, key': string, i': string)
    requires |states| == |actions| + 1
  {
    && m < |states| && n < |states| && HasItem(states[m], key, i) && HasItem(states[n], key', i')
    && TagOf(states[m], key, i) == TagOf(states[n], key', i')
    && Born(states, actions, m, key, i) != Born(states, actions, n, key', i')
  }

  ghost predicate SomeTagTwice(states: seq<IpData>, actions: seq<Action>)
    requires |states| == |actions| + 1
  {
    exists m, key, i, n, key', i' :: Shared(states, actions, m, key, i, n, key', i')
  }

  // ---------------------------------------------------------------- commands that hand out a tag again

  predicate Creates(a: Action) {
    a.AddItem? || a.DuplicateInsert?
  }

  /** A property of this number, which had counted beyond c, is deleted in step m. */
  predicate FreedAt(project: string, states: seq<IpData>, actions: seq<Action>, m: nat, number: string, c: nat)
    requires |states| == |actions| + 1
  {
    && m < |actions| && actions[m].DelProperty? && actions[m].key in states[m].props
    && PropNumber(project, states[m], actions[m].key) == number && c < states[m].props[actions[m].key].itemCount
  }

  ghost predicate Freed(project: string, states: seq<IpData>, actions: seq<Action>, n: nat, number: string, c: nat)
    requires |states| == |actions| + 1
  {
    exists m :: 0 <= m < n && FreedAt(project, states, actions, m, number, c)
  }

  /** The command inserts an item in front of a number that has been counted, or it gives an item
      a number that a deleted property with the same number had counted. */
  ghost predicate HandsOutAgain(project: string, states: seq<IpData>, actions: seq<Action>, n: nat)
    requires |states| == |actions| + 1 && n < |actions|
  {
    var a, ip := actions[n], states[n];
    && Creates(a) && a.key in ip.props
    && ((a.DuplicateInsert? && IntOf(a.item) + 1 < ip.props[a.key].itemCount)
        || Freed(project, states, actions, n, PropNumber(project, ip, a.key), ip.props[a.key].itemCount))
  }

  ghost predicate NoneBefore(project: string, states: seq<IpData>, actions: seq<Action>, n: nat)
    requires |states| == |actions| + 1 && n <= |actions|
  {
    forall m :: 0 <= m < n ==> !HandsOutAgain(project, states, actions, m)
  }

  /** A session from an empty Ip that keeps the numbering. */
  ghost predicate FromEmpty(project: string, states: seq<IpData>, actions: seq<Action>) {
    Session(project, states, actions) && NoOverflow(states, actions) && states[0].props == map[]
  }

  lemma {:induction false} StateOk(project: string, states: seq<IpData>, actions: seq<Action>, n: nat)
    requires FromEmpty(project, states, actions) && n < |states|
    ensures IpOk(project, states[n]) && states[n].ipNum == states[0].ipNum
  {
    EmptyIpOk(project, states[0]);
    SessionKeepsNumbering(project, states, actions, n);
    if n > 0 {
      StateOk(project, states, actions, n - 1);
      assert DoesAt(project, states, actions, n - 1);
    }
  }

  /** Insertion gives the new item the number behind the selected one; if that is the next number
      to be counted, it moves nothing else. */
  lemma InsertedItems(p: PropData, item: string, last: string, after: map<string, Item>)
    requires AllNumbered(p.tag, p.itemCount, p.items) && p.itemCount < 1000 && Duplicated(p, item, last, after)
    ensures IntOf(item) < p.itemCount && Zfill3(IntOf(item) + 1) in after && last == Zfill3(p.itemCount)
    ensures AllNumbered(p.tag, p.itemCount + 1, after)
  {
    var c, current := Zfill3(p.itemCount), p.items[item];
    ZfillFacts(p.itemCount);
    assert Numbered(p.tag, p.itemCount, item, current);
    AddKeepsNumbering(p.tag, p.itemCount, p.items, current.description, current.purpose);
    DuplicateKeepsNumbering(p.tag, p.itemCount, p.items, item,
                            NewItem(c, p.tag + "_I" + c, current.description, current.purpose), after, last);
  }

  lemma NothingMoves(p: PropData, item: string, last: string, after: map<string, Item>, j: string)
    requires AllNumbered(p.tag, p.itemCount, p.items) && p.itemCount < 1000 && Duplicated(p, item, last, after)
    requires IntOf(item) + 1 == p.itemCount && j in after && j != Zfill3(p.itemCount)
    ensures j in p.items && after[j] == p.items[j] && IntOf(j) < p.itemCount
  {
    InsertedItems(p, item, last, after);
    var added := WithAdded(p, p.items[item].description, p.items[item].purpose).items;
    assert SlidFrom(added, last, p.itemCount, j);
    var k :| k in added && k != last && j == Slide(k, p.itemCount);
    assert Numbered(p.tag, p.itemCount, k, p.items[k]);
  }

  lemma InsertIs(project: string, ip: IpData, key: string, item: string, ip': IpData) returns (last: string, after: map<string, Item>)
    requires Does(project, ip, DuplicateInsert(key, item), ip')
    ensures Duplicated(ip.props[key], item, last, after) && ip' == WithCounted(ip, key, ip.props[key].itemCount + 1, after)
  {
    last, after :| Duplicated(ip.props[key], item, last, after) && ip' == WithCounted(ip, key, ip.props[key].itemCount + 1, after);
  }

  /** The tag of the item that a command creates. */
  function TagGiven(ip: IpData, a: Action): string {
    if Creates(a) && a.key in ip.props then ip.props[a.key].tag + "_I" + Zfill3(ip.props[a.key].itemCount) else ""
  }

  /** Unless a command hands out a tag again, items keep theirs. */
  lemma ItemKept(project: string, states: seq<IpData>, actions: seq<Action>, n: nat, key: string, i: string)
    requires FromEmpty(project, states, actions) && n < |actions| && !HandsOutAgain(project, states, actions, n)
    requires HasItem(states[n + 1], key, i)
    ensures var b := Born(states, actions, n + 1, key, i);
      if b == n then Creates(actions[n]) && TagOf(states[n + 1], key, i) == TagGiven(states[n], actions[n])
      else HasItem(states[n], key, i) && b == Born(states, actions, n, key, i)
           && TagOf(states[n + 1], key, i) == TagOf(states[n], key, i)
  {
    StateOk(project, states, actions, n);
    assert DoesAt(project, states, actions, n);
    if actions[n].DuplicateInsert? && actions[n].key == key {
      KeptByInsert(project, states, actions, n, i);
    }
  }

  lemma KeptByInsert(project: string, states: seq<IpData>, actions: seq<Action>, n: nat, i: string)
    requires FromEmpty(project, states, actions) && n < |actions| && !HandsOutAgain(project, states, actions, n)
    requires actions[n].DuplicateInsert? && HasItem(states[n + 1], actions[n].key, i)
    ensures var key := actions[n].key; var b := Born(states, actions, n + 1, key, i);
      if b == n then TagOf(states[n + 1], key, i) == TagGiven(states[n], actions[n])
      else HasItem(states[n], key, i) && b == Born(states, actions, n, key, i)
           && TagOf(states[n + 1], key, i) == TagOf(states[n], key, i)
  {
    var ip, key, item := states[n], actions[n].key, actions[n].item;
    StateOk(project, states, actions, n);
    assert DoesAt(project, states, actions, n) && !Overflows(ip, actions[n]);
    var last, after := InsertIs(project, ip, key, item, states[n + 1]);
    var p := ip.props[key];
    assert PropOk(project, ip, key);
    InsertedItems(p, item, last, after);
    ZfillFacts(p.itemCount);
    if i != Zfill3(p.itemCount) {
      NothingMoves(p, item, last, after, i);
    } else {
      assert Numbered(p.tag, p.itemCount + 1, i, after[i]);
    }
  }

  lemma {:induction false} TagFixed(project: string, states: seq<IpData>, actions: seq<Action>, n: nat, key: string, i: string)
    requires FromEmpty(project, states, actions) && n <= |actions| && NoneBefore(project, states, actions, n)
    requires HasItem(states[n], key, i)
    ensures var b := Born(states, actions, n, key, i);
      && 0 <= b < n && Creates(actions[b]) && actions[b].key in states[b].props
      && TagOf(states[n], key, i) == TagGiven(states[b], actions[b])
  {
    if n > 0 {
      var m := n - 1;
      ItemKept(project, states, actions, m, key, i);
      if Born(states, actions, n, key, i) == m {
        assert DoesAt(project, states, actions, m);
      } else {
        TagFixed(project, states, actions, m, key, i);
      }
    }
  }

  // ---------------------------------------------------------------- numbers of properties

  /** The number is borne by a property that has counted beyond c, was freed by one, or is dead. */
  ghost predicate Spent(project: string, states: seq<IpData>, actions: seq<Action>, n: nat, number: string, c: nat)
    requires |states| == |actions| + 1 && n < |states|
  {
    || (exists key :: CountedAt(project, states[n], key, number, c))
    || Freed(project, states, actions, n, number, c)
    || Dead(project, states[n], number)
  }

  predicate CountedAt(project: string, ip: IpData, key: string, number: string, c: nat) {
    key in ip.props && PropNumber(project, ip, key) == number && c < ip.props[key].itemCount
  }

  lemma FreedLater(project: string, states: seq<IpData>, actions: seq<Action>, n: nat, number: string, c: nat)
    requires |states| == |actions| + 1 && Freed(project, states, actions, n, number, c)
    ensures Freed(project, states, actions, n + 1, number, c)
  {
    var m :| 0 <= m < n && FreedAt(project, states, actions, m, number, c);
    assert FreedAt(project, states, actions, m, number, c);
  }

  lemma Overwritten(project: string, ip: IpData, key: string, number: string, c: nat)
    requires IpOk(project, ip) && CountedAt(project, ip, key, number, c)
    ensures Dead(project, WithProp(project, ip, key), number)
  {
    var ip', new' := WithProp(project, ip, key), Zfill3(ip.propCount);
    assert PropOk(project, ip, key);
    ZfillFacts(ip.propCount);
    TagHasNumber(project, ip.ipNum, new');
    forall k | k in ip'.props && k != key ensures PropNumber(project, ip', k) != number {
      assert k in ip.props && PropNumber(project, ip, k) != number;
    }
  }

  lemma CountedStaysAdding(project: string, ip: IpData, a: Action, ip': IpData, key: string, number: string, c: nat)
    requires a.AddProperty? && Does(project, ip, a, ip') && PropKey(a.customNum, ip.propCount, a.propName) != key
    requires CountedAt(project, ip, key, number, c)
    ensures CountedAt(project, ip', key, number, c)
  {
  }

  lemma CountedStaysInside(project: string, ip: IpData, a: Action, ip': IpData, key: string, number: string, c: nat)
    requires !a.AddProperty? && Does(project, ip, a, ip') && CountedAt(project, ip, key, number, c)
    requires !(a.DelProperty? && a.key == key)
    ensures CountedAt(project, ip', key, number, c)
  {
    if a.DuplicateInsert? {
      var last, after := InsertIs(project, ip, a.key, a.item, ip');
    }
  }

  /** A property that has counted beyond c goes on doing so, is deleted, or is overwritten by one
      with another number. */
  lemma CountedStays(project: string, ip: IpData, a: Action, ip': IpData, key: string, number: string, c: nat)
    requires IpOk(project, ip) && Does(project, ip, a, ip') && CountedAt(project, ip, key, number, c)
    requires !(a.DelProperty? && a.key == key)
    ensures CountedAt(project, ip', key, number, c) || Dead(project, ip', number)
  {
    if !a.AddProperty? {
      CountedStaysInside(project, ip, a, ip', key, number, c);
    } else if PropKey(a.customNum, ip.propCount, a.propName) == key {
      Overwritten(project, ip, key, number, c);
    } else {
      CountedStaysAdding(project, ip, a, ip', key, number, c);
    }
  }

  lemma SpentStep(project: string, states: seq<IpData>, actions: seq<Action>, n: nat, number: string, c: nat)
    requires FromEmpty(project, states, actions) && n < |actions| && Padded(number) && Spent(project, states, actions, n, number, c)
    ensures Spent(project, states, actions, n + 1, number, c)
  {
    StateOk(project, states, actions, n);
    assert DoesAt(project, states, actions, n);
    if Freed(project, states, actions, n, number, c) {
      FreedLater(project, states, actions, n, number, c);
    } else if Dead(project, states[n], number) {
      DeadStays(project, states[n], actions[n], states[n + 1], number);
    } else {
      var key :| CountedAt(project, states[n], key, number, c);
      if actions[n].DelProperty? && actions[n].key == key {
        assert FreedAt(project, states, actions, n, number, c);
      } else {
        CountedStays(project, states[n], actions[n], states[n + 1], key, number, c);
      }
    }
  }

  lemma {:induction false} SpentStays(project: string, states: seq<IpData>, actions: seq<Action>, b: nat, n: nat,
                                      number: string, c: nat)
    requires FromEmpty(project, states, actions) && b <= n < |states|
    requires Padded(number) && Spent(project, states, actions, b, number, c)
    ensures Spent(project, states, actions, n, number, c)
  {
    if b < n {
      SpentStays(project, states, actions, b, n - 1, number, c);
      SpentStep(project, states, actions, n - 1, number, c);
    }
  }

  /** The counter of the property is beyond the number that was given. */
  lemma GivingCounts(project: string, ip: IpData, a: Action, ip': IpData)
    requires IpOk(project, ip) && Does(project, ip, a, ip') && Creates(a)
    ensures a.key in ip.props && Padded(PropNumber(project, ip, a.key))
    ensures CountedAt(project, ip', a.key, PropNumber(project, ip, a.key), ip.props[a.key].itemCount)
  {
    assert PropOk(project, ip, a.key);
    if a.DuplicateInsert? {
      var last, after := InsertIs(project, ip, a.key, a.item, ip');
    }
  }

  /** Equal tags are equal numbers of the property and of the item. */
  lemma TagsEqual(project: string, a: IpData, p: string, c: nat, b: IpData, q: string, d: nat)
    requires IpOk(project, a) && IpOk(project, b) && a.ipNum == b.ipNum && p in a.props && q in b.props
    requires a.props[p].tag + "_I" + Zfill3(c) == b.props[q].tag + "_I" + Zfill3(d)
    ensures PropNumber(project, a, p) == PropNumber(project, b, q) && c == d
  {
    assert PropOk(project, a, p) && PropOk(project, b, q);
    var front, x, y := TagFront(project, a.ipNum), PropNumber(project, a, p), PropNumber(project, b, q);
    Regroup(front, x, "_I", Zfill3(c));
    Regroup(front, y, "_I", Zfill3(d));
    SameFront(front, x + ("_I" + Zfill3(c)), y + ("_I" + Zfill3(d)));
    SameNumbers(x, y, Zfill3(c), Zfill3(d));
    ZfillFacts(c);
    ZfillFacts(d);
  }

  /** Who is given the next number of a property with a spent number. */
  lemma SpentIsHandedOut(project: string, states: seq<IpData>, actions: seq<Action>, n: nat, number: string, c: nat)
    requires |states| == |actions| + 1 && n < |actions| && Creates(actions[n]) && IpOk(project, states[n])
    requires CountsTo(project, states[n], actions[n].key, number, c) && Spent(project, states, actions, n, number, c)
    ensures HandsOutAgain(project, states, actions, n)
  {
    forall key ensures !CountedAt(project, states[n], key, number, c) {
    }
  }

  predicate CountsTo(project: string, ip: IpData, key: string, number: string, c: nat) {
    key in ip.props && PropNumber(project, ip, key) == number && ip.props[key].itemCount == c
  }

  lemma GivenNowIsSpent(project: string, states: seq<IpData>, actions: seq<Action>, b: nat, number: string, c: nat)
    requires FromEmpty(project, states, actions) && b < |actions| && Creates(actions[b])
    requires CountsTo(project, states[b], actions[b].key, number, c)
    ensures Padded(number) && Spent(project, states, actions, b + 1, number, c)
  {
    StateOk(project, states, actions, b);
    assert DoesAt(project, states, actions, b);
    GivingCounts(project, states[b], actions[b], states[b + 1]);
  }

  /** Once given, the tag is spent. */
  lemma GivenIsSpent(project: string, states: seq<IpData>, actions: seq<Action>, b: nat, n: nat, number: string, c: nat)
    requires FromEmpty(project, states, actions) && b < n < |states| && Creates(actions[b])
    requires CountsTo(project, states[b], actions[b].key, number, c)
    ensures Spent(project, states, actions, n, number, c)
  {
    GivenNowIsSpent(project, states, actions, b, number, c);
    SpentStays(project, states, actions, b + 1, n, number, c);
  }

  /** A tag is given a second time only by a command that hands out a tag again. */
  lemma GivenOnce(project: string, states: seq<IpData>, actions: seq<Action>, b: nat, n: nat)
    requires FromEmpty(project, states, actions) && b < n < |actions| && Creates(actions[b]) && Creates(actions[n])
    requires actions[b].key in states[b].props && actions[n].key in states[n].props
    requires TagGiven(states[b], actions[b]) == TagGiven(states[n], actions[n])
    ensures HandsOutAgain(project, states, actions, n)
  {
    StateOk(project, states, actions, b);
    StateOk(project, states, actions, n);
    var p, q := actions[b].key, actions[n].key;
    var number, c := PropNumber(project, states[b], p), states[b].props[p].itemCount;
    TagsEqual(project, states[b], p, c, states[n], q, states[n].props[q].itemCount);
    GivenIsSpent(project, states, actions, b, n, number, c);
    SpentIsHandedOut(project, states, actions, n, number, c);
  }

  /** So in a session without such commands no tag is borne by two items. */
  lemma NoTagTwice(project: string, states: seq<IpData>, actions: seq<Action>, m: nat, key: string, i: string,
                   n: nat, key': string, i': string)
    requires FromEmpty(project, states, actions) && NoneBefore(project, states, actions, |actions|)
    ensures !Shared(states, actions, m, key, i, n, key', i')
  {
    if Shared(states, actions, m, key, i, n, key', i') {
      TagFixed(project, states, actions, m, key, i);
      TagFixed(project, states, actions, n, key', i');
      var b, d := Born(states, actions, m, key, i), Born(states, actions, n, key', i');
      if b < d {
        GivenOnce(project, states, actions, b, d);
      } else {
        GivenOnce(project, states, actions, d, b);
      }
    }
  }

  // ---------------------------------------------------------------- the other way round

  /** Some item has borne the tag. */
  ghost predicate Borne(states: seq<IpData>, n: nat, tag: string) {
    exists m, key, i :: BorneAt(states, n, m, key, i, tag)
  }

  predicate BorneAt(states: seq<IpData>, n: nat, m: nat, key: string, i: string, tag: string) {
    m <= n && m < |states| && HasItem(states[m], key, i) && TagOf(states[m], key, i) == tag
  }

  /** Every number a live property has counted has been a tag. */
  ghost predicate AllBorne(states: seq<IpData>, n: nat)
    requires n < |states|
  {
    forall key, c: nat :: key in states[n].props && c < states[n].props[key].itemCount ==>
      Borne(states, n, states[n].props[key].tag + "_I" + Zfill3(c))
  }

  lemma BorneLater(states: seq<IpData>, n: nat, tag: string)
    requires Borne(states, n, tag)
    ensures Borne(states, n + 1, tag)
  {
    var m, key, i :| BorneAt(states, n, m, key, i, tag);
    assert BorneAt(states, n + 1, m, key, i, tag);
  }

  /** The new item, when it comes last. */
  lemma InsertGivesItem(p: PropData, item: string, last: string, after: map<string, Item>)
    requires AllNumbered(p.tag, p.itemCount, p.items) && p.itemCount < 1000 && Duplicated(p, item, last, after)
    requires IntOf(item) + 1 >= p.itemCount
    ensures var c := Zfill3(p.itemCount); c in after && after[c].tag == p.tag + "_I" + c
  {
    InsertedItems(p, item, last, after);
    assert Numbered(p.tag, p.itemCount + 1, Zfill3(p.itemCount), after[Zfill3(p.itemCount)]);
  }

  lemma InsertGives(project: string, ip: IpData, key: string, item: string, ip': IpData)
    requires IpOk(project, ip) && Does(project, ip, DuplicateInsert(key, item), ip')
    requires IntOf(item) + 1 >= ip.props[key].itemCount && ip.props[key].itemCount < 1000
    ensures var c := Zfill3(ip.props[key].itemCount);
      HasItem(ip', key, c) && TagOf(ip', key, c) == ip.props[key].tag + "_I" + c
  {
    assert PropOk(project, ip, key);
    var last, after := InsertIs(project, ip, key, item, ip');
    InsertGivesItem(ip.props[key], item, last, after);
  }

  /** The new item's tag, where nothing is handed out again. */
  lemma NewIsBorne(project: string, states: seq<IpData>, actions: seq<Action>, n: nat)
    requires FromEmpty(project, states, actions) && n < |actions| && !HandsOutAgain(project, states, actions, n)
    requires Creates(actions[n])
    ensures Borne(states, n + 1, TagGiven(states[n], actions[n]))
  {
    var ip, a := states[n], actions[n];
    StateOk(project, states, actions, n);
    assert DoesAt(project, states, actions, n) && !Overflows(ip, a);
    if a.DuplicateInsert? {
      InsertGives(project, ip, a.key, a.item, states[n + 1]);
    }
    assert BorneAt(states, n + 1, n + 1, a.key, Zfill3(ip.props[a.key].itemCount), TagGiven(ip, a));
  }

  lemma CountsBefore(project: string, ip: IpData, a: Action, ip': IpData, key: string, c: nat)
    requires Does(project, ip, a, ip') && key in ip'.props && c < ip'.props[key].itemCount
    ensures key in ip.props && ip'.props[key].tag == ip.props[key].tag
    ensures c < ip.props[key].itemCount || (Creates(a) && a.key == key && c == ip.props[key].itemCount)
  {
    if a.DuplicateInsert? {
      var last, after := InsertIs(project, ip, a.key, a.item, ip');
    }
  }

  lemma {:induction false} CountedIsBorne(project: string, states: seq<IpData>, actions: seq<Action>, n: nat)
    requires FromEmpty(project, states, actions) && n <= |actions| && NoneBefore(project, states, actions, n)
    ensures AllBorne(states, n)
  {
    if n > 0 {
      var m := n - 1;
      CountedIsBorne(project, states, actions, m);
      assert DoesAt(project, states, actions, m);
      forall key, c: nat | key in states[n].props && c < states[n].props[key].itemCount
        ensures Borne(states, n, states[n].props[key].tag + "_I" + Zfill3(c))
      {
        CountsBefore(project, states[m], actions[m], states[n], key, c);
        if c < states[m].props[key].itemCount {
          BorneLater(states, m, states[m].props[key].tag + "_I" + Zfill3(c));
        } else {
          NewIsBorne(project, states, actions, m);
        }
      }
    }
  }

  /** The item created in step n, when its number has been counted before. */
  lemma InsertedTwice(project: string, states: seq<IpData>, actions: seq<Action>, n: nat) returns (c: nat)
    requires FromEmpty(project, states, actions) && n < |actions| && HandsOutAgain(project, states, actions, n)
    ensures var key := actions[n].key;
      && key in states[n].props && HasItem(states[n + 1], key, Zfill3(c))
      && TagOf(states[n + 1], key, Zfill3(c)) == states[n].props[key].tag + "_I" + Zfill3(c)
      && Born(states, actions, n + 1, key, Zfill3(c)) == n
      && (c < states[n].props[key].itemCount || Freed(project, states, actions, n, PropNumber(project, states[n], key), c))
  {
    var ip, a := states[n], actions[n];
    StateOk(project, states, actions, n);
    assert DoesAt(project, states, actions, n) && !Overflows(ip, a);
    var p := ip.props[a.key];
    assert PropOk(project, ip, a.key);
    if a.DuplicateInsert? {
      c := IntOf(a.item) + 1;
      var last, after := InsertIs(project, ip, a.key, a.item, states[n + 1]);
      InsertedItems(p, a.item, last, after);
      ZfillFacts(c);
      assert Numbered(p.tag, p.itemCount + 1, Zfill3(c), after[Zfill3(c)]);
    } else {
      c := p.itemCount;
    }
  }

  /** The tag given again has been borne. */
  lemma GivenAgainWasBorne(project: string, states: seq<IpData>, actions: seq<Action>, n: nat, key: string, c: nat)
    requires FromEmpty(project, states, actions) && n < |actions| && NoneBefore(project, states, actions, n)
    requires key in states[n].props
    requires c < states[n].props[key].itemCount || Freed(project, states, actions, n, PropNumber(project, states[n], key), c)
    ensures Borne(states, n, states[n].props[key].tag + "_I" + Zfill3(c))
  {
    CountedIsBorne(project, states, actions, n);
    if c >= states[n].props[key].itemCount {
      var m :| 0 <= m < n && FreedAt(project, states, actions, m, PropNumber(project, states[n], key), c);
      var old' := actions[m].key;
      CountedIsBorne(project, states, actions, m);
      StateOk(project, states, actions, m);
      StateOk(project, states, actions, n);
      assert PropOk(project, states[m], old') && PropOk(project, states[n], key);
      var tag := states[m].props[old'].tag + "_I" + Zfill3(c);
      assert Borne(states, m, tag);
      var m', k, i :| BorneAt(states, m, m', k, i, tag);
      assert BorneAt(states, n, m', k, i, tag);
    }
  }

  lemma FirstOne(project: string, states: seq<IpData>, actions: seq<Action>, n: nat) returns (m: nat)
    requires |states| == |actions| + 1 && n < |actions| && HandsOutAgain(project, states, actions, n)
    ensures m <= n && HandsOutAgain(project, states, actions, m) && NoneBefore(project, states, actions, m)
  {
    m := 0;
    while !HandsOutAgain(project, states, actions, m)
      invariant m <= n && NoneBefore(project, states, actions, m)
      decreases n - m
    {
      m := m + 1;
    }
  }

  /** The first such command gives the new item a tag that another item has borne. */
  lemma TagTwice(project: string, states: seq<IpData>, actions: seq<Action>, n: nat)
    requires FromEmpty(project, states, actions) && n < |actions| && HandsOutAgain(project, states, actions, n)
    requires NoneBefore(project, states, actions, n)
    ensures SomeTagTwice(states, actions)
  {
    var key := actions[n].key;
    var c := InsertedTwice(project, states, actions, n);
    GivenAgainWasBorne(project, states, actions, n, key, c);
    var m, k, i :| BorneAt(states, n, m, k, i, states[n].props[key].tag + "_I" + Zfill3(c));
    assert Shared(states, actions, m, k, i, n + 1, key, Zfill3(c));
  }

  /** In a session from an empty Ip, some tag is borne by two items if and only if some command
      inserts an item in front of a number that its property has counted, or gives an item a
      number that a deleted property with the same number had counted. */
  lemma TagTwiceIff(project: string, states: seq<IpData>, actions: seq<Action>)
    requires FromEmpty(project, states, actions)
    ensures SomeTagTwice(states, actions) <==> exists n :: 0 <= n < |actions| && HandsOutAgain(project, states, actions, n)
  {
    if n :| 0 <= n < |actions| && HandsOutAgain(project, states, actions, n) {
      var m := FirstOne(project, states, actions, n);
      TagTwice(project, states, actions, m);
    } else {
      forall m, key, i, n, key', i' ensures !Shared(states, actions, m, key, i, n, key', i') {
        if 0 <= m && 0 <= n {
          NoTagTwice(project, states, actions, m, key, i, n, key', i');
        }
      }
    }
  }

  /** For example: an item is deleted, and the item in front of it duplicated with insertion. The
      new item has the deleted one's number and tag, and no property was deleted. */
  lemma DeletedTagComesBack(project: string, ip: IpData, key: string, item: string, gone: string, ip1: IpData, ip2: IpData)
    requires IpOk(project, ip) && key in ip.props && ip.props[key].itemCount < 1000
    requires HasItem(ip, key, gone) && HasItem(ip, key, item) && IntOf(gone) == IntOf(item) + 1
    requires Does(project, ip, DelItem(key, gone), ip1) && Does(project, ip1, DuplicateInsert(key, item), ip2)
    ensures !HasItem(ip1, key, gone) && HasItem(ip2, key, gone) && TagOf(ip2, key, gone) == TagOf(ip, key, gone)
    ensures ip2.props.Keys == ip.props.Keys && !Overflows(ip1, DuplicateInsert(key, item))
  {
    DelItemKeeps(project, ip, key, gone, ip1);
    assert PropOk(project, ip, key) && PropOk(project, ip1, key);
    var p := ip1.props[key];
    var last, after := InsertIs(project, ip1, key, item, ip2);
    InsertedItems(p, item, last, after);
    assert Numbered(p.tag, ip.props[key].itemCount, gone, ip.props[key].items[gone]);
    assert Numbered(p.tag, p.itemCount + 1, gone, after[gone]);
  }
}
