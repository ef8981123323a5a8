/** Load/store streams (riscv_load_store_instr_lib.py): a base register set up by `la`, loads
    and stores through it, and other instructions mixed in. */
module LoadStore {
  import opened IntRegisters
  import opened InstrBase
  import opened InstrStream
  import opened JumpStream
  import opened Machine
  import opened Segments
  import opened ClosedStreams

  // ---------------------------------------------------------------- the constraints

  datatype LoadStoreSolution = LoadStoreSolution(offset: seq<int>, addr: seq<int>, base: int, dataPageId: nat, rs1: Reg, mixed: nat)

  /** `problem_definition` (lines 59-106). */
  predicate Solves(sol: LoadStoreSolution) {
    && |sol.offset| == |sol.addr| < 32 && sol.mixed < 30 && sol.rs1 != ZERO && sol.dataPageId < 128
    && -32 <= sol.base < 32
    && forall i :: 0 <= i < |sol.addr| ==>
      && -32 <= sol.offset[i] < 32 && -32 <= sol.addr[i] < 32
      && sol.addr[i] == sol.base + sol.offset[i]
      && 0 <= sol.addr[i] < PAGE_SIZE && 0 <= sol.base < PAGE_SIZE && sol.dataPageId < PAGES
  }

  predicate IsAccess(i: Instr) {
    i.name.LB? || i.name.LH? || i.name.LW? || i.name.LBU? || i.name.LHU? || i.name.SB? || i.name.SH? || i.name.SW?
  }

  /** The names allowed for an address (lines 198-212), without those that are no RV32I
      instructions. */
  function Allowed(addr: int): set<Name> {
    {LB, LBU, SB}
    + (if addr % 2 == 0 then {LH, LHU, SH} else {})
    + (if addr % 4 == 0 then {LW, SW} else {})
  }

  /** Those are the loads and stores whose size the address is a multiple of. */
  lemma AllowedIff(addr: int, name: Name)
    ensures name in Allowed(addr) <==> name in {LB, LH, LW, LBU, LHU, SB, SH, SW} && addr % Size(name) == 0
  {
  }

  predicate NamedCategory(i: Instr) {
    if i.name in {SB, SH, SW} then i.category == STORE else i.category == LOAD
  }

  /** A load or store as `gen_load_store_instr` draws it. */
  predicate Drawn(i: Instr, addr: int, rs1: Reg) {
    && i.name in Allowed(addr) && NamedCategory(i) && i.src1 == rs1 && i.rd != rs1 && Unlabelled(i)
  }

  /** An instruction that `add_mixed_instr` draws. */
  predicate Other(i: Instr, reserved: set<Reg>) {
    RandomInstr(i, true) && Avoids(i, reserved)
  }

  // ---------------------------------------------------------------- making the stream

  /** The loads and stores of a list, in order. */
  function Accesses(list: seq<Instr>): seq<Instr> {
    if list == [] then []
    else Accesses(list[..|list| - 1]) + if IsAccess(list[|list| - 1]) then [list[|list| - 1]] else []
  }

  ghost predicate Generated(list: seq<Instr>, sol: LoadStoreSolution)
    requires |sol.offset| == |sol.addr|
  {
    && |list| == |sol.addr|
    && forall i :: 0 <= i < |list| ==> Drawn(list[i], sol.addr[i], sol.rs1) && list[i].imm == sol.offset[i]
  }

  /** `la rs1, data_page_<id>+<base>`. */
  function La(sol: LoadStoreSolution): Instr {
    Fresh(LA, LOAD, sol.rs1, ZERO, ZERO, 0).(target := DataPage(sol.dataPageId, sol.base))
  }

  /** riscv_directed_instr_stream.post_randomize: only the first instruction of a labelled
      stream keeps a label, and that label is empty. */
  function SealItem(list: seq<Instr>, k: nat, labelled: bool): Instr
    requires k < |list|
  {
    var i := list[k].(atomic := true, hasLabel := labelled && k == 0);
    if labelled && k == 0 then i.(tag := NoLabel) else i
  }

  function SealedStream(list: seq<Instr>, labelled: bool): seq<Instr> {
    seq(|list|, k requires 0 <= k < |list| => SealItem(list, k, labelled))
  }

  class LoadStoreStream {
    const stream: RandInstrStream
    var reservedDestinations: set<Reg>

    constructor ()
      ensures fresh(stream) && stream.instrList == [] && reservedDestinations == {}
    {
      stream := new RandInstrStream();
      reservedDestinations := {};
    }

    /** `gen_load_store_instr`. */
    method GenLoadStoreInstr(sol: LoadStoreSolution)
      requires Solves(sol) && stream.instrList == []
      modifies stream
      ensures Generated(stream.instrList, sol)
    {
      for i := 0 to |sol.addr|
        modifies stream
        invariant |stream.instrList| == i
        invariant forall k :: 0 <= k < i ==>
                    Drawn(stream.instrList[k], sol.addr[k], sol.rs1) && stream.instrList[k].imm == sol.offset[k]
      {
        var allowedInstr := {LB, LBU, SB};
        if sol.addr[i] % 2 == 0 {
          allowedInstr := {LH, LHU, SH} + allowedInstr;
        }
        if sol.addr[i] % 4 == 0 {
          allowedInstr := {LW, SW} + allowedInstr;
        }
        var randInstr := DrawAccess(allowedInstr, sol.addr[i], sol.rs1);
        stream.instrList := stream.instrList + [randInstr.(imm := sol.offset[i])];
      }
    }

    /** `add_mixed_instr`: each new instruction goes in front of a random one. With no load
        or store there is no place to choose, which is an error. */
    method AddMixedInstr(count: nat) returns (ok: bool)
      requires forall k :: 0 <= k < |stream.instrList| ==> !stream.instrList[k].atomic
      requires SomeRegister(reservedDestinations)
      modifies stream
      ensures ok <==> count == 0 || old(stream.instrList) != []
      ensures ok ==> |stream.instrList| == |old(stream.instrList)| + count
      ensures ok ==> Accesses(stream.instrList) == Accesses(old(stream.instrList))
      ensures ok ==> MixedIn(stream.instrList, old(stream.instrList), reservedDestinations)
    {
      for n := 0 to count
        modifies stream
        invariant |stream.instrList| == |old(stream.instrList)| + n && (n > 0 ==> old(stream.instrList) != [])
        invariant Accesses(stream.instrList) == Accesses(old(stream.instrList))
        invariant MixedIn(stream.instrList, old(stream.instrList), reservedDestinations)
      {
        if stream.instrList == [] {
          return false;
        }
        var randInstr := Randomize(true, reservedDestinations);
        var idx :| 0 <= idx < |stream.instrList|;
        AccessesInsert(stream.instrList, idx, randInstr);
        MixedInInsert(stream.instrList, old(stream.instrList), reservedDestinations, idx, randInstr);
        stream.InsertInstrAt(randInstr, idx);
      }
      ok := true;
    }

    /** `post_randomize` on a solution of the constraints. */
    method PostRandomize(sol: LoadStoreSolution, labelled: bool) returns (ok: bool, ghost accesses: seq<Instr>, ghost body: seq<Instr>)
      requires Solves(sol) && stream.instrList == [] && reservedDestinations == {}
      modifies this, stream
      ensures ok <==> sol.mixed == 0 || sol.addr != []
      ensures ok ==> Generated(accesses, sol) && BodyOf(body, accesses, sol)
      ensures ok ==> stream.instrList == SealedStream([La(sol)] + body, labelled)
    {
      GenLoadStoreInstr(sol);
      accesses := stream.instrList;
      if sol.rs1 !in reservedDestinations {
        reservedDestinations := reservedDestinations + {sol.rs1};
      }
      assert reservedDestinations == {sol.rs1};
      SomeFree(sol.rs1);
      GeneratedMixedIn(accesses, sol);
      ok := AddMixedInstr(sol.mixed);
      body := stream.instrList;
      if ok {
        AddRs1InitLaInstr(sol);
        SealAll(stream, labelled);
      }
    }

    /** `add_rs1_init_la_instr`. */
    method AddRs1InitLaInstr(sol: LoadStoreSolution)
      modifies stream
      ensures stream.instrList == [La(sol)] + old(stream.instrList)
    {
      stream.InsertInstrAt(La(sol), 0);
    }
  }

  method SealAll(stream: RandInstrStream, labelled: bool)
    modifies stream
    ensures stream.instrList == SealedStream(old(stream.instrList), labelled)
  {
    ghost var before := stream.instrList;
    for i := 0 to |stream.instrList|
      modifies stream
      invariant |stream.instrList| == |before|
      invariant forall k :: i <= k < |before| ==> stream.instrList[k] == before[k]
      invariant forall k :: 0 <= k < i ==> stream.instrList[k] == before[k].(atomic := true, hasLabel := false)
    {
      stream.instrList := stream.instrList[i := stream.instrList[i].(atomic := true, hasLabel := false)];
    }
    if labelled && stream.instrList != [] {
      stream.instrList := stream.instrList[0 := stream.instrList[0].(tag := NoLabel, hasLabel := true)];
    }
  }

  /** Any load or store that meets the constraints. */
  method DrawAccess(names: set<Name>, addr: int, rs1: Reg) returns (i: Instr)
    requires LB in names && names == Allowed(addr)
    ensures Drawn(i, addr, rs1)
  {
    var rd: Reg := if rs1 == ZERO then RA else ZERO;
    var example := Fresh(LB, LOAD, rd, rs1, ZERO, 0);
    assert Drawn(example, addr, rs1);
    i :| Drawn(i, addr, rs1);
  }

  // ---------------------------------------------------------------- lists with other instructions mixed in

  ghost predicate BodyOf(body: seq<Instr>, accesses: seq<Instr>, sol: LoadStoreSolution) {
    && Accesses(body) == accesses && |body| == |accesses| + sol.mixed
    && MixedIn(body, accesses, {sol.rs1})
  }

  /** Every element is one of the accesses or an instruction that leaves the reserved
      registers alone. */
  ghost predicate MixedIn(list: seq<Instr>, accesses: seq<Instr>, reserved: set<Reg>) {
    forall k :: 0 <= k < |list| ==> list[k] in accesses || Other(list[k], reserved)
  }

  lemma MixedInInsert(list: seq<Instr>, accesses: seq<Instr>, reserved: set<Reg>, idx: nat, x: Instr)
    requires MixedIn(list, accesses, reserved) && idx <= |list| && Other(x, reserved)
    ensures MixedIn(InsertAt(list, idx, x), accesses, reserved)
  {
    var r := InsertAt(list, idx, x);
    forall k | 0 <= k < |r| ensures r[k] in accesses || Other(r[k], reserved) {
      if k != idx {
        assert r[k] == list[if k < idx then k else k - 1];
      }
    }
  }

  lemma {:induction false} AccessesAppend(a: seq<Instr>, b: seq<Instr>)
    ensures Accesses(a + b) == Accesses(a) + Accesses(b)
  {
    if b == [] {
      assert a + b == a;
    } else {
      AccessesAppend(a, b[..|b| - 1]);
      assert (a + b)[..|a + b| - 1] == a + b[..|b| - 1];
    }
  }

  lemma NoAccess(x: Instr)
    requires !IsAccess(x)
    ensures Accesses([x]) == []
  {
    var one := [x];
    assert one[..|one| - 1] == [] && one[|one| - 1] == x;
  }

  lemma AccessesAround(a: seq<Instr>, x: Instr, b: seq<Instr>)
    requires !IsAccess(x)
    ensures Accesses(a + [x] + b) == Accesses(a + b)
  {
    NoAccess(x);
    AccessesAppend(a + [x], b);
    AccessesAppend(a, [x]);
    AccessesAppend(a, b);
  }

  lemma InsertAtSplits(list: seq<Instr>, idx: nat, x: Instr)
    requires idx <= |list|
    ensures InsertAt(list, idx, x) == list[..idx] + [x] + list[idx..]
    ensures list[..idx] + list[idx..] == list
  {
  }

  /** Inserting another instruction keeps the accesses and their order. */
  lemma AccessesInsert(list: seq<Instr>, idx: nat, x: Instr)
    requires idx <= |list| && !IsAccess(x)
    ensures Accesses(InsertAt(list, idx, x)) == Accesses(list)
  {
    var front, back := list[..idx], list[idx..];
    AccessesAround(front, x, back);
    InsertAtSplits(list, idx, x);
  }

  lemma GeneratedMixedIn(accesses: seq<Instr>, sol: LoadStoreSolution)
    requires |sol.offset| == |sol.addr| && Generated(accesses, sol)
    ensures forall k :: 0 <= k < |accesses| ==> !accesses[k].atomic
    ensures MixedIn(accesses, accesses, {sol.rs1}) && Accesses(accesses) == accesses
  {
    forall k | 0 <= k < |accesses| ensures !accesses[k].atomic && IsAccess(accesses[k]) && accesses[k] in accesses {
      assert Drawn(accesses[k], sol.addr[k], sol.rs1);
    }
    OnlyAccesses(accesses);
  }

  lemma {:induction false} OnlyAccesses(list: seq<Instr>)
    requires forall k :: 0 <= k < |list| ==> IsAccess(list[k])
    ensures Accesses(list) == list
  {
    if list != [] {
      OnlyAccesses(list[..|list| - 1]);
    }
  }

  // ---------------------------------------------------------------- what the stream does

  /** A finished stream. */
  ghost predicate MadeStream(list: seq<Instr>, accesses: seq<Instr>, body: seq<Instr>, sol: LoadStoreSolution, labelled: bool) {
    && Solves(sol) && Generated(accesses, sol) && BodyOf(body, accesses, sol)
    && list == SealedStream([La(sol)] + body, labelled)
  }

  /** What is behind the `la`: an access for one of the drawn addresses, or an instruction
      that leaves the base register alone. */
  predicate AccessAt(i: Instr, sol: LoadStoreSolution, j: nat) {
    && j < |sol.addr| == |sol.offset| && IsAccess(i) && NamedCategory(i) && i.name in Allowed(sol.addr[j])
    && i.src1 == sol.rs1 && i.rd != sol.rs1 && i.imm == sol.offset[j]
  }

  predicate OtherAt(i: Instr, sol: LoadStoreSolution) {
    i.name == OTHER && i.category !in {LOAD, STORE, BRANCH, JUMP} && i.rd != sol.rs1
  }

  lemma ItemAt(list: seq<Instr>, accesses: seq<Instr>, body: seq<Instr>, sol: LoadStoreSolution, labelled: bool, k: nat)
    returns (j: nat)
    requires MadeStream(list, accesses, body, sol, labelled) && 0 < k < |list|
    ensures OtherAt(list[k], sol) || AccessAt(list[k], sol, j)
    ensures Leaves(list[k], sol.rs1)
    ensures list[k].atomic && !list[k].hasLabel && list[k].tag == NoLabel && !list[k].isLocalNumericLabel
    ensures list[k].target == NoLabel
  {
    var i := ([La(sol)] + body)[k];
    assert i == body[k - 1];
    j := 0;
    if i in accesses {
      j :| j < |accesses| && accesses[j] == i;
      assert Drawn(accesses[j], sol.addr[j], sol.rs1);
    }
  }

  /** From the second instruction on, the base register holds the page's address plus the
      base, whatever the others write. */
  lemma BaseHolds(list: seq<Instr>, accesses: seq<Instr>, body: seq<Instr>, sol: LoadStoreSolution, labelled: bool,
                  vals: seq<Word>, s: State, k: nat)
    requires MadeStream(list, accesses, body, sol, labelled) && |vals| == |list| && 0 < k <= |list|
    ensures Get(Run(list[..k], vals[..k], s), sol.rs1) == vals[0]
  {
    forall m | 0 < m < k ensures Leaves(list[..k][m], sol.rs1) {
      var j := ItemAt(list, accesses, body, sol, labelled, m);
    }
    LastWrite(list[..k], vals[..k], s, 0, sol.rs1);
  }

  lemma LowBits(q: nat, addr: nat)
    ensures (8 * q + addr) % 4 == addr % 4 && (8 * q + addr) % 2 == addr % 2
  {
    Remainder4(2 * q + addr / 4, addr % 4);
    Remainder2(4 * q + addr / 2, addr % 2);
  }

  lemma Remainder4(m: nat, r: nat)
    requires r < 4
    ensures (4 * m + r) % 4 == r
  {
  }

  lemma Remainder2(m: nat, r: nat)
    requires r < 2
    ensures (2 * m + r) % 2 == r
  {
  }

  lemma Aligned(page: nat, addr: nat, name: Name)
    requires page % 8 == 0 && name in Allowed(addr)
    ensures (page + addr) % Size(name) == 0 && addr % Size(name) == 0
  {
    LowBits(page / 8, addr);
    if Size(name) == 4 {
      assert addr % 4 == 0;
    } else if Size(name) == 2 {
      assert addr % 2 == 0;
    }
  }

  /** Adding the offset to the base register's value gives the drawn address in the page. */
  lemma InPage(page: nat, base: int, offset: int, addr: int, name: Name)
    requires page % 8 == 0 && page + PAGE_SIZE <= WORD
    requires addr == base + offset && 0 <= base < PAGE_SIZE && 0 <= addr < PAGE_SIZE && name in Allowed(addr)
    ensures Wrap(Wrap(page + base) + offset) == page + addr
    ensures (page + addr) % Size(name) == 0 && addr + Size(name) <= PAGE_SIZE
  {
    NoWrap(page + base);
    NoWrap(page + addr);
    Aligned(page, addr, name);
    Fits(addr, Size(name));
  }

  lemma NoWrap(x: nat)
    requires x < WORD
    ensures Wrap(x) == x
  {
  }

  lemma Fits(addr: nat, size: nat)
    requires addr < PAGE_SIZE && size in {1, 2, 4} && addr % size == 0
    ensures addr + size <= PAGE_SIZE
  {
    if size == 4 {
      assert addr % 4 == 0;
    } else if size == 2 {
      assert addr % 2 == 0;
    }
  }

  lemma AddressUsed(list: seq<Instr>, accesses: seq<Instr>, body: seq<Instr>, sol: LoadStoreSolution, labelled: bool,
                    vals: seq<Word>, s: State, k: nat) returns (j: nat)
    requires MadeStream(list, accesses, body, sol, labelled) && |vals| == |list| && k < |list| && IsAccess(list[k])
    ensures k > 0 && AccessAt(list[k], sol, j)
    ensures Address(list[k], Run(list[..k], vals[..k], s)) == Wrap(vals[0] + sol.offset[j])
  {
    j := ItemAt(list, accesses, body, sol, labelled, k);
    BaseHolds(list, accesses, body, sol, labelled, vals, s, k);
  }

  predicate InsidePage(address: nat, size: nat, page: nat) {
    page <= address && address + size <= page + PAGE_SIZE
  }

  lemma AccessFits(i: Instr, sol: LoadStoreSolution, j: nat, page: nat)
    requires Solves(sol) && AccessAt(i, sol, j) && page % 8 == 0 && page + PAGE_SIZE <= WORD
    ensures sol.dataPageId < PAGES
    ensures var address := Wrap(Wrap(page + sol.base) + sol.offset[j]);
      InsidePage(address, Size(i.name), page) && address % Size(i.name) == 0
  {
    InPage(page, sol.base, sol.offset[j], sol.addr[j], i.name);
  }

  /** Every access, wherever it ended up in the stream and whatever the instructions around
      it wrote, is naturally aligned and lies wholly inside the data page. */
  lemma AccessesStayInPage(list: seq<Instr>, accesses: seq<Instr>, body: seq<Instr>, sol: LoadStoreSolution, labelled: bool,
                           vals: seq<Word>, s: State, page: nat, k: nat)
    requires MadeStream(list, accesses, body, sol, labelled) && |vals| == |list| && k < |list| && IsAccess(list[k])
    requires page % 8 == 0 && page + PAGE_SIZE <= WORD && vals[0] == Wrap(page + sol.base)
    ensures k > 0 && sol.dataPageId < PAGES
    ensures var address := Address(list[k], Run(list[..k], vals[..k], s));
      InsidePage(address, Size(list[k].name), page) && address % Size(list[k].name) == 0
  {
    var j := AddressUsed(list, accesses, body, sol, labelled, vals, s, k);
    AccessFits(list[k], sol, j, page);
  }

  /** Where `.align 12` behind its label puts the contents of a page. */
  function PageStart(at: nat): nat {
    if at % PAGE_SIZE == 0 then at else at - at % PAGE_SIZE + PAGE_SIZE
  }

  /** An access hits the contents of the page exactly if it is not in front of them: it lies in the
      4096 bytes from the label, and the label is in front of the alignment. */
  lemma HitsContentsIff(list: seq<Instr>, accesses: seq<Instr>, body: seq<Instr>, sol: LoadStoreSolution, labelled: bool,
                        vals: seq<Word>, s: State, at: nat, k: nat)
    requires MadeStream(list, accesses, body, sol, labelled) && |vals| == |list| && k < |list| && IsAccess(list[k])
    requires at % 8 == 0 && at + PAGE_SIZE <= WORD && vals[0] == Wrap(at + sol.base)
    ensures var address := Address(list[k], Run(list[..k], vals[..k], s));
      && (InsidePage(address, Size(list[k].name), PageStart(at)) <==> PageStart(at) <= address)
      && address < at + 32
  {
    AccessesStayInPage(list, accesses, body, sol, labelled, vals, s, at, k);
    var j := AddressUsed(list, accesses, body, sol, labelled, vals, s, k);
    NearLabel(list[k], sol, j, at);
  }

  lemma NearLabel(i: Instr, sol: LoadStoreSolution, j: nat, at: nat)
    requires Solves(sol) && AccessAt(i, sol, j) && at % 8 == 0 && at + PAGE_SIZE <= WORD
    ensures Wrap(Wrap(at + sol.base) + sol.offset[j]) < at + 32
  {
    InPage(at, sol.base, sol.offset[j], sol.addr[j], i.name);
  }

  /** The addresses drawn are the first 32, so all of them hit if and only if the label itself is
      aligned. */
  lemma AllHitIff(at: nat)
    ensures (forall a :: at <= a < at + 32 ==> InsidePage(a, 1, PageStart(at))) <==> at % PAGE_SIZE == 0
  {
    if at % PAGE_SIZE != 0 {
      assert !InsidePage(at, 1, PageStart(at));
    }
  }

  /** So the stream writes memory nowhere else. */
  lemma {:induction false} OnlyThePageIsWritten(list: seq<Instr>, accesses: seq<Instr>, body: seq<Instr>, sol: LoadStoreSolution,
                                                labelled: bool, vals: seq<Word>, s: State, page: nat, k: nat, a: nat)
    requires MadeStream(list, accesses, body, sol, labelled) && |vals| == |list| && k <= |list|
    requires page % 8 == 0 && page + PAGE_SIZE <= WORD && vals[0] == Wrap(page + sol.base)
    requires a < page || a >= page + PAGE_SIZE
    ensures Load(Run(list[..k], vals[..k], s), a) == Load(s, a)
    decreases k
  {
    if k > 0 {
      OnlyThePageIsWritten(list, accesses, body, sol, labelled, vals, s, page, k - 1, a);
      RunSnoc(list, vals, s, k - 1);
      var before := Run(list[..k - 1], vals[..k - 1], s);
      if IsAccess(list[k - 1]) {
        AccessesStayInPage(list, accesses, body, sol, labelled, vals, s, page, k - 1);
        AccessWrites(list[k - 1], vals[k - 1], before, page, a);
      } else {
        OtherWritesNothing(list[k - 1], vals[k - 1], before);
      }
    }
  }

  lemma OtherWritesNothing(i: Instr, v: Word, s: State)
    requires !IsAccess(i)
    ensures Exec(i, v, s).mem == s.mem
  {
  }

  lemma AccessWrites(i: Instr, v: Word, s: State, page: nat, a: nat)
    requires InsidePage(Address(i, s), Size(i.name), page) && !InsidePage(a, 1, page)
    ensures Load(Exec(i, v, s), a) == Load(s, a)
  {
  }

  lemma RunSnoc(list: seq<Instr>, vals: seq<Word>, s: State, k: nat)
    requires |vals| == |list| && k < |list|
    ensures Run(list[..k + 1], vals[..k + 1], s) == Exec(list[k], vals[k], Run(list[..k], vals[..k], s))
  {
    var l, v := list[..k + 1], vals[..k + 1];
    RunSplit(l, v, s, k);
    assert l[..k] == list[..k] && v[..k] == vals[..k];
    assert l[k..] == [list[k]] && v[k..] == [vals[k]];
    assert l[k..][1..] == [] && v[k..][1..] == [];
  }

  /** The store at k gets its base from the `la` in front. */
  lemma StoreIsMade(list: seq<Instr>, accesses: seq<Instr>, body: seq<Instr>, sol: LoadStoreSolution, labelled: bool, k: nat)
    requires MadeStream(list, accesses, body, sol, labelled) && k < |list| && IsStore(list[k].name)
    ensures StoreMade(list, k)
  {
    var j := ItemAt(list, accesses, body, sol, labelled, k);
    forall m | 0 < m <= k
      ensures list[m].atomic && !list[m].hasLabel && Leaves(list[m], sol.rs1) && list[m].category != JUMP
    {
      var j' := ItemAt(list, accesses, body, sol, labelled, m);
    }
    Fits(sol.addr[j], Size(list[k].name));
    assert Segment(list, 0, k, sol.rs1);
    assert PageMade(list, 0, k);
  }

  /** The stream is a finished directed stream. */
  lemma StreamIsDirected(list: seq<Instr>, accesses: seq<Instr>, body: seq<Instr>, sol: LoadStoreSolution, labelled: bool)
    requires MadeStream(list, accesses, body, sol, labelled)
    ensures Directed(list)
  {
    forall k | 0 <= k < |list|
      ensures list[k].atomic && list[k].tag == NoLabel && !list[k].isLocalNumericLabel
      ensures list[k].category !in {BRANCH, JUMP} && !list[k].target.Program?
      ensures IsStore(list[k].name) ==> StoreMade(list, k)
    {
      if k > 0 {
        var j := ItemAt(list, accesses, body, sol, labelled, k);
      }
      if IsStore(list[k].name) {
        StoreIsMade(list, accesses, body, sol, labelled, k);
      }
    }
  }
}
