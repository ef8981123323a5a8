/** The disassembler's instruction table (lib/dpi_dasm/spike/disasm.cc): entries hashed by
    the low part of their match value, with one extra chain for the rest. The number of
    buckets is a parameter; the table agrees with a plain ordered scan exactly when it is a
    power of two. */
module DisasmIndex {
  import opened Wrappers
  import opened Sequences

  type U32 = x: int | 0 <= x < 0x1_0000_0000
  type U64 = x: int | 0 <= x < 0x1_0000_0000_0000_0000

  /** Bitwise and. */
  function And(a: nat, b: nat): nat {
    if a == 0 || b == 0 then 0
    else 2 * And(a / 2, b / 2) + (a % 2) * (b % 2)
  }

  /** The remainder by repeated subtraction, as the proofs use it; C's % on unsigned operands
      is the same (ModIsRemainder). */
  function Mod(x: nat, n: nat): (r: nat)
    requires n > 0
    ensures r < n
  {
    if x < n then x else Mod(x - n, n)
  }

  lemma {:induction false} ModIsRemainder(x: nat, n: nat)
    requires n > 0
    ensures Mod(x, n) == x % n
  {
    if x >= n {
      ModIsRemainder(x - n, n);
      DivModUnique(x, n, (x - n) / n + 1, (x - n) % n);
    } else {
      DivModUnique(x, n, 0, x);
    }
  }

  datatype DisasmInsn = DisasmInsn(name: string, bits: U32, mask: U32)

  predicate Matches(d: DisasmInsn, insn: U64) {
    And(insn, d.mask) == d.bits
  }

  /** The mask fixes everything the bucket number depends on. */
  predicate Indexed(d: DisasmInsn, size: nat)
    requires size > 0
  {
    Mod(d.mask, size) == size - 1
  }

  function Bucket(d: DisasmInsn, size: nat): nat
    requires size > 0
  {
    if Indexed(d, size) then Mod(d.bits, size) else size
  }

  /** What a chain holds after a history of insertions. */
  function Chain(history: seq<DisasmInsn>, idx: nat, size: nat): seq<DisasmInsn>
    requires size > 0
  {
    if history == [] then []
    else
      var n := |history| - 1;
      Chain(history[..n], idx, size) + if Bucket(history[n], size) == idx then [history[n]] else []
  }

  function FirstMatch(chain: seq<DisasmInsn>, insn: U64): Option<DisasmInsn> {
    if chain == [] then None
    else if Matches(chain[0], insn) then Some(chain[0])
    else FirstMatch(chain[1..], insn)
  }

  function OrElse<T>(a: Option<T>, b: Option<T>): Option<T> {
    if a.Some? then a else b
  }

  /** The two probes of `lookup`. */
  function HashedLookup(history: seq<DisasmInsn>, insn: U64, size: nat): Option<DisasmInsn>
    requires size > 0
  {
    OrElse(FirstMatch(Chain(history, Mod(insn, size), size), insn), FirstMatch(Chain(history, size, size), insn))
  }

  class Disassembler {
    const size: nat
    const chain: array<seq<DisasmInsn>>
    ghost var history: seq<DisasmInsn>

    ghost predicate Valid()
      reads this, chain
    {
      && 0 < size && chain.Length == size + 1
      && forall i :: 0 <= i <= size ==> chain[i] == Chain(history, i, size)
    }

    constructor (hashSize: nat)
      requires hashSize > 0
      ensures Valid() && fresh(chain) && history == [] && size == hashSize
    {
      size := hashSize;
      chain := new seq<DisasmInsn>[hashSize + 1](i => []);
      history := [];
    }

    method AddInsn(insn: DisasmInsn)
      requires Valid()
      modifies this`history, chain
      ensures Valid() && history == old(history) + [insn]
    {
      var idx := size;
      ModIsRemainder(insn.mask, size);
      ModIsRemainder(insn.bits, size);
      if insn.mask % size == size - 1 {
        idx := insn.bits % size;
      }
      chain[idx] := chain[idx] + [insn];
      history := history + [insn];
      assert history[..|history| - 1] == old(history);
    }

    method Lookup(insn: U64) returns (result: Option<DisasmInsn>)
      requires Valid()
      ensures result == HashedLookup(history, insn, size)
    {
      ModIsRemainder(insn, size);
      var idx := insn % size;
      for j := 0 to |chain[idx]|
        invariant FirstMatch(chain[idx], insn) == FirstMatch(chain[idx][j..], insn)
      {
        if And(insn, chain[idx][j].mask) == chain[idx][j].bits {
          return Some(chain[idx][j]);
        }
      }
      for j := 0 to |chain[size]|
        invariant FirstMatch(chain[size], insn) == FirstMatch(chain[size][j..], insn)
      {
        if And(insn, chain[size][j].mask) == chain[size][j].bits {
          return Some(chain[size][j]);
        }
      }
      return None;
    }

    /** The destructor: every inserted entry is deleted once, none twice. */
    method Destroy() returns (deleted: seq<DisasmInsn>)
      requires Valid()
      ensures multiset(deleted) == multiset(history)
    {
      deleted := [];
      for i := 0 to chain.Length
        invariant deleted == Flatten(chain[..i])
      {
        ghost var before := deleted;
        for j := 0 to |chain[i]|
          invariant deleted == before + chain[i][..j]
        {
          deleted := deleted + [chain[i][j]];
        }
        assert chain[..i + 1][..i] == chain[..i];
      }
      assert chain[..] == chain[..chain.Length];
      ChainsHoldHistory(chain[..], history, size);
    }
  }

  lemma ChainsHoldHistory(chains: seq<seq<DisasmInsn>>, history: seq<DisasmInsn>, size: nat)
    requires 0 < size && |chains| == size + 1
    requires forall i :: 0 <= i <= size ==> chains[i] == Chain(history, i, size)
    ensures multiset(Flatten(chains)) == multiset(history)
  {
    FlattenIsBelow(chains, history, size);
    AllBelow(history, size);
  }

  lemma {:induction false} FlattenIsBelow(chains: seq<seq<DisasmInsn>>, history: seq<DisasmInsn>, size: nat)
    requires 0 < size && forall i :: 0 <= i < |chains| ==> chains[i] == Chain(history, i, size)
    ensures multiset(Flatten(chains)) == multiset(Below(history, |chains|, size))
  {
    if chains == [] {
      NoneBelow(history, size);
    } else {
      FlattenIsBelow(chains[..|chains| - 1], history, size);
      NextChain(history, |chains| - 1, size);
    }
  }

  /** The entries of the chains below idx, in insertion order. */
  function Below(history: seq<DisasmInsn>, idx: nat, size: nat): seq<DisasmInsn>
    requires size > 0
  {
    if history == [] then []
    else
      var n := |history| - 1;
      Below(history[..n], idx, size) + if Bucket(history[n], size) < idx then [history[n]] else []
  }

  lemma {:induction false} NextChain(history: seq<DisasmInsn>, idx: nat, size: nat)
    requires size > 0
    ensures multiset(Below(history, idx + 1, size)) == multiset(Below(history, idx, size)) + multiset(Chain(history, idx, size))
  {
    if history != [] {
      NextChain(history[..|history| - 1], idx, size);
    }
  }

  lemma {:induction false} NoneBelow(history: seq<DisasmInsn>, size: nat)
    requires size > 0
    ensures Below(history, 0, size) == []
  {
    if history != [] {
      NoneBelow(history[..|history| - 1], size);
    }
  }

  lemma {:induction false} AllBelow(history: seq<DisasmInsn>, size: nat)
    requires size > 0
    ensures Below(history, size + 1, size) == history
  {
    if history != [] {
      AllBelow(history[..|history| - 1], size);
    }
  }

  // ---------------------------------------------------------------- the ordered scan

  /** The inserted entries of one kind, in insertion order. */
  function Kind(history: seq<DisasmInsn>, indexed: bool, size: nat): seq<DisasmInsn>
    requires size > 0
  {
    if history == [] then []
    else
      var n := |history| - 1;
      Kind(history[..n], indexed, size) + if Indexed(history[n], size) == indexed then [history[n]] else []
  }

  /** First the entries whose mask has all index bits set, then the others. */
  function OrderedScan(history: seq<DisasmInsn>, insn: U64, size: nat): Option<DisasmInsn>
    requires size > 0
  {
    OrElse(FirstMatch(Kind(history, true, size), insn), FirstMatch(Kind(history, false, size), insn))
  }

  predicate IsPow2(n: nat) { n == 1 || (n > 1 && n % 2 == 0 && IsPow2(n / 2)) }

  lemma {:induction false} MaskedLowBits(insn: nat, mask: nat, size: nat)
    requires IsPow2(size) && Mod(mask, size) == size - 1
    ensures Mod(And(insn, mask), size) == Mod(insn, size)
  {
    if size > 1 {
      var half := size / 2;
      Halve(mask, half);
      Halve(insn, half);
      Halve(And(insn, mask), half);
      MaskedLowBits(insn / 2, mask / 2, half);
      if insn != 0 && mask != 0 {
        assert And(insn, mask) / 2 == And(insn / 2, mask / 2);
      }
    }
  }

  lemma {:induction false} Halve(x: nat, half: nat)
    requires half > 0
    ensures Mod(x, 2 * half) == 2 * Mod(x / 2, half) + x % 2
  {
    if x >= 2 * half {
      Halve(x - 2 * half, half);
    }
  }

  lemma DivModUnique(x: nat, d: nat, q: nat, r: nat)
    requires r < d && x == d * q + r
    ensures x % d == r
  {
    var q' := x / d;
    assert x == d * q' + x % d;
    if q' > q {
      Gap(d, q, q');
    } else if q' < q {
      Gap(d, q', q);
    }
  }

  lemma {:induction false} Gap(d: nat, a: nat, b: nat)
    requires a < b
    ensures d * a + d <= d * b
  {
    if a + 1 < b {
      Gap(d, a, b - 1);
    }
    assert d * b == d * (b - 1) + d;
  }

  lemma {:induction false} FirstMatchAppend(chain: seq<DisasmInsn>, more: seq<DisasmInsn>, insn: U64)
    ensures FirstMatch(chain + more, insn) == OrElse(FirstMatch(chain, insn), FirstMatch(more, insn))
  {
    if chain == [] {
      assert chain + more == more;
    } else {
      assert (chain + more)[1..] == chain[1..] + more;
      FirstMatchAppend(chain[1..], more, insn);
    }
  }

  /** With a power of two the probed bucket loses no match of its kind. */
  lemma {:induction false} BucketIsComplete(history: seq<DisasmInsn>, insn: U64, size: nat)
    requires IsPow2(size)
    ensures FirstMatch(Chain(history, Mod(insn, size), size), insn) == FirstMatch(Kind(history, true, size), insn)
    ensures Chain(history, size, size) == Kind(history, false, size)
  {
    if history != [] {
      var n := |history| - 1;
      var d := history[n];
      BucketIsComplete(history[..n], insn, size);
      FirstMatchAppend(Chain(history[..n], Mod(insn, size), size), if Bucket(d, size) == Mod(insn, size) then [d] else [], insn);
      FirstMatchAppend(Kind(history[..n], true, size), if Indexed(d, size) then [d] else [], insn);
      if Indexed(d, size) && Matches(d, insn) {
        MaskedLowBits(insn, d.mask, size);
      }
    }
  }

  lemma {:induction false} ZeroBit(m: nat) returns (p: nat)
    requires !IsPow2(m + 1)
    ensures 0 < p <= m && And(p, m) == 0
  {
    if m % 2 == 0 {
      p := 1;
    } else {
      assert (m + 1) / 2 == m / 2 + 1;
      var p' := ZeroBit(m / 2);
      p := 2 * p';
    }
  }

  /** With any other number of buckets there is an entry that its own word does not find. */
  lemma LostEntry(size: nat) returns (d: DisasmInsn, insn: U64)
    requires 0 < size < 0x1_0000_0000 && !IsPow2(size)
    ensures OrderedScan([d], insn, size) == Some(d) && HashedLookup([d], insn, size) == None
  {
    var p := ZeroBit(size - 1);
    d := DisasmInsn("", 0, size - 1);
    insn := p;
    SingleEntry(d, p, size);
    SingleEntry(d, size, size);
  }

  lemma SingleEntry(d: DisasmInsn, idx: nat, size: nat)
    requires size > 0
    ensures Chain([d], idx, size) == if Bucket(d, size) == idx then [d] else []
    ensures Kind([d], true, size) == if Indexed(d, size) then [d] else []
  {
    assert [d][..0] == [];
  }

  /** For every history of insertions and every instruction word, the hashed lookup equals
      the ordered scan: exactly when the number of buckets is a power of two. */
  lemma LookupIsOrderedScanIff(size: nat)
    requires 0 < size < 0x1_0000_0000
    ensures IsPow2(size) <==>
            forall history: seq<DisasmInsn>, insn: U64 ::
              HashedLookup(history, insn, size) == OrderedScan(history, insn, size)
  {
    if IsPow2(size) {
      forall history: seq<DisasmInsn>, insn: U64
        ensures HashedLookup(history, insn, size) == OrderedScan(history, insn, size)
      {
        BucketIsComplete(history, insn, size);
      }
    } else {
      var d, insn := LostEntry(size);
    }
  }

  // ---------------------------------------------------------------- consequences

  lemma {:induction false} NoneIffNoMatch(chain: seq<DisasmInsn>, insn: U64)
    ensures FirstMatch(chain, insn).Some? ==> FirstMatch(chain, insn).value in chain && Matches(FirstMatch(chain, insn).value, insn)
    ensures FirstMatch(chain, insn).None? <==> forall d :: d in chain ==> !Matches(d, insn)
  {
    if chain != [] {
      NoneIffNoMatch(chain[1..], insn);
    }
  }

  lemma {:induction false} KindsCover(history: seq<DisasmInsn>, size: nat, d: DisasmInsn)
    requires size > 0
    ensures d in history <==> d in Kind(history, true, size) || d in Kind(history, false, size)
  {
    if history != [] {
      KindsCover(history[..|history| - 1], size, d);
      assert history == history[..|history| - 1] + [history[|history| - 1]];
    }
  }

  /** NULL exactly when no inserted entry matches; otherwise a matching inserted entry. */
  lemma NullIffNoMatch(history: seq<DisasmInsn>, insn: U64, size: nat)
    requires IsPow2(size)
    ensures HashedLookup(history, insn, size).None? <==> forall d :: d in history ==> !Matches(d, insn)
    ensures HashedLookup(history, insn, size).Some? ==>
              HashedLookup(history, insn, size).value in history && Matches(HashedLookup(history, insn, size).value, insn)
  {
    BucketIsComplete(history, insn, size);
    NoneIffNoMatch(Kind(history, true, size), insn);
    NoneIffNoMatch(Kind(history, false, size), insn);
    forall d ensures d in history <==> d in Kind(history, true, size) || d in Kind(history, false, size) {
      KindsCover(history, size, d);
    }
  }

  lemma {:induction false} ChainAppend(history: seq<DisasmInsn>, more: seq<DisasmInsn>, idx: nat, size: nat)
    requires size > 0
    ensures Chain(history + more, idx, size) == Chain(history, idx, size) + Chain(more, idx, size)
  {
    if more == [] {
      assert history + more == history;
    } else {
      var n := |more| - 1;
      assert (history + more)[..|history| + n] == history + more[..n];
      ChainAppend(history, more[..n], idx, size);
    }
  }

  /** A hit in a hash bucket is never changed by later insertions. A hit in the last chain
      is changed exactly when a later entry lands in the bucket and matches. */
  lemma LaterInsertions(history: seq<DisasmInsn>, more: seq<DisasmInsn>, insn: U64, size: nat)
    requires size > 0 && HashedLookup(history, insn, size).Some?
    ensures FirstMatch(Chain(history, Mod(insn, size), size), insn).Some? ==>
              HashedLookup(history + more, insn, size) == HashedLookup(history, insn, size)
    ensures FirstMatch(Chain(history, Mod(insn, size), size), insn).None? ==>
              HashedLookup(history + more, insn, size)
              == OrElse(FirstMatch(Chain(more, Mod(insn, size), size), insn), HashedLookup(history, insn, size))
  {
    ChainAppend(history, more, Mod(insn, size), size);
    ChainAppend(history, more, size, size);
    FirstMatchAppend(Chain(history, Mod(insn, size), size), Chain(more, Mod(insn, size), size), insn);
    FirstMatchAppend(Chain(history, size, size), Chain(more, size, size), insn);
  }
}
