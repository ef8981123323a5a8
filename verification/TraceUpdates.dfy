/** What one update list does to the registers (instr_trace_compare.py, check_update_gpr), told by
    the positions of its updates, and what a first write makes of a verdict. */
module TraceUpdates {
  import opened Wrappers
  import opened TraceCsv
  import opened HexValues
  import opened TraceCompare
  import opened TraceVerdict

  predicate Sets(update: string, rd: string, val: string) {
    update == rd + [':'] + val && ':' !in rd && ':' !in val
  }

  predicate SetsSome(update: string, rd: string) {
    |Split(update, ':')| == 2 && Split(update, ':')[0] == rd
  }

  /** In front of update k the register holds this text: the last update wrote it, or there was
      none and it had it before. */
  ghost predicate Holds(updates: seq<string>, regs: RegMap, k: nat, rd: string, text: string)
    requires k <= |updates|
  {
    || (exists j :: LastSet(updates, k, rd, text, j))
    || (NeverSet(updates, k, rd) && rd in regs && regs[rd] == text)
  }

  ghost predicate LastSet(updates: seq<string>, k: nat, rd: string, text: string, j: int)
    requires k <= |updates|
  {
    0 <= j < k && Sets(updates[j], rd, text) && forall i :: j < i < k ==> !SetsSome(updates[i], rd)
  }

  predicate NeverSet(updates: seq<string>, k: nat, rd: string)
    requires k <= |updates|
  {
    forall i :: 0 <= i < k ==> !SetsSome(updates[i], rd)
  }

  /** Update k writes another text than the register holds, or something other than zero to a
      register without one. */
  ghost predicate ChangesAt(updates: seq<string>, regs: RegMap, k: nat)
    requires k < |updates|
  {
    exists rd, val ::
      && Sets(updates[k], rd, val) && !Holds(updates, regs, k, rd, val)
      && ((exists text :: Holds(updates, regs, k, rd, text)) || HexValue(val) != Some(0))
  }

  lemma SetsSplits(update: string, rd: string, val: string)
    ensures Sets(update, rd, val) <==> Split(update, ':') == [rd, val]
  {
    if Sets(update, rd, val) {
      SplitOfPlain(val, ':');
      SplitAtSeparator(rd, val, ':');
    }
    if Split(update, ':') == [rd, val] {
      SplitIsSeparable(update, ':');
      JoinOfSplit(update, ':');
      assert Split(update, ':')[0] == rd && Split(update, ':')[1] == val;
      assert [rd, val][1..] == [val];
    }
  }

  lemma HoldsNext(updates: seq<string>, regs: RegMap, n: nat, all: nat, rd: string, val: string, q: string, text: string)
    requires all == n + 1 <= |updates| && Sets(updates[n], rd, val)
    ensures Holds(updates, regs, all, q, text) <==> if q == rd then text == val else Holds(updates, regs, n, q, text)
  {
    SetsSplits(updates[n], rd, val);
    SetsSplits(updates[n], q, text);
    if q == rd && text == val {
      assert LastSet(updates, all, q, text, n);
    }
    if q != rd {
      if j :| LastSet(updates, n, q, text, j) {
        assert LastSet(updates, all, q, text, j);
      }
      if j :| LastSet(updates, all, q, text, j) {
        assert LastSet(updates, n, q, text, j);
      }
    }
  }

  lemma HoldsPrefix(updates: seq<string>, regs: RegMap, some: seq<string>, k: nat, rd: string, text: string)
    requires k <= |some| && some <= updates
    ensures Holds(some, regs, k, rd, text) <==> Holds(updates, regs, k, rd, text)
  {
    if j :| LastSet(some, k, rd, text, j) {
      assert LastSet(updates, k, rd, text, j);
    }
    if j :| LastSet(updates, k, rd, text, j) {
      assert LastSet(some, k, rd, text, j);
    }
  }

  lemma ChangesPrefix(updates: seq<string>, regs: RegMap, some: seq<string>, k: nat)
    requires k < |some| && some <= updates
    ensures ChangesAt(some, regs, k) <==> ChangesAt(updates, regs, k)
  {
    forall rd, text ensures Holds(some, regs, k, rd, text) <==> Holds(updates, regs, k, rd, text) {
      HoldsPrefix(updates, regs, some, k, rd, text);
    }
    if ChangesAt(some, regs, k) {
      var rd, val :| Sets(some[k], rd, val) && !Holds(some, regs, k, rd, val)
                     && ((exists text :: Holds(some, regs, k, rd, text)) || HexValue(val) != Some(0));
      assert Sets(updates[k], rd, val);
    }
    if ChangesAt(updates, regs, k) {
      var rd, val :| Sets(updates[k], rd, val) && !Holds(updates, regs, k, rd, val)
                     && ((exists text :: Holds(updates, regs, k, rd, text)) || HexValue(val) != Some(0));
      assert Sets(some[k], rd, val);
    }
  }

  /** The registers are what they hold in front of update k. */
  ghost predicate RegistersAre(now: RegMap, updates: seq<string>, regs: RegMap, k: nat)
    requires k <= |updates|
  {
    forall rd, text :: Holds(updates, regs, k, rd, text) <==> rd in now && now[rd] == text
  }

  ghost predicate SomeChange(updates: seq<string>, regs: RegMap) {
    exists k :: 0 <= k < |updates| && ChangesAt(updates, regs, k)
  }

  /** For every list without empty strings that is read to its end: each register holds what was
      written to it last, and the flag is set if and only if some update changes its register. */
  lemma {:induction false} UpdateMeans(updates: seq<string>, regs: RegMap)
    requires "" !in updates && Update(updates, regs).Step?
    ensures RegistersAre(Update(updates, regs).regs, updates, regs, |updates|)
    ensures Update(updates, regs).changed <==> SomeChange(updates, regs)
  {
    if updates != [] {
      var n := |updates| - 1;
      assert updates[n] in updates;
      UpdateMeans(updates[..n], regs);
      var item := Split(updates[n], ':');
      assert item == [item[0], item[1]];
      SetsSplits(updates[n], item[0], item[1]);
      var held := Update(updates[..n], regs).regs;
      forall rd, text ensures Holds(updates, regs, n, rd, text) <==> rd in held && held[rd] == text {
        HoldsPrefix(updates, regs, updates[..n], n, rd, text);
      }
      LastRegisters(updates, regs, n, held, item[0], item[1]);
      LastChanges(updates, regs, n, held, item[0], item[1]);
      forall k | 0 <= k < n ensures ChangesAt(updates[..n], regs, k) <==> ChangesAt(updates, regs, k) {
        ChangesPrefix(updates, regs, updates[..n], k);
      }
    }
  }

  lemma LastRegisters(updates: seq<string>, regs: RegMap, n: nat, held: RegMap, rd: string, val: string)
    requires n + 1 == |updates| && Sets(updates[n], rd, val) && RegistersAre(held, updates, regs, n)
    ensures RegistersAre(held[rd := val], updates, regs, |updates|)
  {
    var now := held[rd := val];
    forall q, text ensures Holds(updates, regs, |updates|, q, text) <==> q in now && now[q] == text {
      HoldsNext(updates, regs, n, |updates|, rd, val, q, text);
      assert Holds(updates, regs, n, q, text) <==> q in held && held[q] == text;
    }
  }

  lemma LastChanges(updates: seq<string>, regs: RegMap, n: nat, held: RegMap, rd: string, val: string)
    requires n < |updates| && Sets(updates[n], rd, val) && RegistersAre(held, updates, regs, n)
    ensures ChangesAt(updates, regs, n) <==> if rd in held then val != held[rd] else HexValue(val) != Some(0)
  {
    forall q, v | Sets(updates[n], q, v) ensures q == rd && v == val {
      SetsSplits(updates[n], q, v);
      SetsSplits(updates[n], rd, val);
      assert [q, v][0] == [rd, val][0] && [q, v][1] == [rd, val][1];
    }
    if rd in held {
      assert Holds(updates, regs, n, rd, held[rd]);
    }
  }

  // ---------------------------------------------------------------- first writes

  lemma {:induction false} NoColon(s: string, digits: seq<nat>)
    requires Spells(s, digits)
    ensures ':' !in s
  {
    SpellsEnds(s, digits);
  }

  lemma NumeralHasNoColon(s: string, minus: bool, digits: seq<nat>)
    requires Numeral16(s, minus, digits)
    ensures ':' !in s
  {
    var front, sign, prefix, body, back :| Parts(s, front, sign, prefix, body, back, minus, digits);
    NoColon(body, digits);
  }

  /** The first write to a register is a change if and only if some digit of it is not zero. */
  lemma FirstWriteIff(rd: string, val: string, minus: bool, digits: seq<nat>, regs: RegMap)
    requires ':' !in rd && rd !in regs && Numeral16(val, minus, digits)
    ensures Update([rd + [':'] + val], regs)
            == Step(exists i :: 0 <= i < |digits| && digits[i] != 0, regs[rd := val])
  {
    NumeralHasNoColon(val, minus, digits);
    NumeralValue(val, minus, digits);
    ZeroValueIff(val, minus, digits);
    OneUpdate(rd, val, regs);
  }

  /** Against a trace without changes, a trace of one write passes if and only if all digits of
      what it writes are zero. */
  lemma FirstWritePassesIff(rd: string, val: string, minus: bool, digits: seq<nat>)
    requires ':' !in rd && Numeral16(val, minus, digits)
    ensures Passes([GprOnly([rd + [':'] + val])], [GprOnly([""])])
       <==> forall i :: 0 <= i < |digits| ==> digits[i] == 0
  {
    var one, none := [GprOnly([rd + [':'] + val])], [GprOnly([""])];
    FirstWriteIff(rd, val, minus, digits, map[]);
    LeadingEmpty([""], map[]);
    assert one[..0] == [] && none[..0] == [];
    PassesIff(one, none);
  }
}
