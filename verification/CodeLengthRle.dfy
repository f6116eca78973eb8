/** Run-length packing of code lengths: section 3.2.7 of RFC 1951 and the packing loop of
    tdefl_start_dynamic_block. */
module CodeLengthRle {
  import opened Bits

  const MAX_CODE_LENGTHS := 320
  const RLE_SYMBOLS := 19

  /** A code length as such, or a repeat instruction (16, 17 or 18) with its extra value. */
  datatype Op = Length(len: nat) | Repeat(code: nat, extra: nat) {
    predicate Valid() {
      match this
      case Length(l) => l <= 15
      case Repeat(c, e) => 16 <= c <= 18 && e < Pow2(ExtraBits(c))
    }

    function Symbol(): nat {
      if Length? then len else code
    }
  }

  function ExtraBits(code: nat): nat {
    if code == 16 then 2 else if code == 17 then 3 else 7
  }

  function Fill(v: nat, n: nat): (r: seq<nat>)
    ensures |r| == n && forall i :: 0 <= i < n ==> r[i] == v
  {
    seq(n, _ => v)
  }

  /** What the decoder does with one instruction; a repeat of nothing is refused. */
  predicate CanApply(lens: seq<nat>, op: Op) {
    op.Valid() && (op.Symbol() == 16 ==> |lens| > 0)
  }

  function Apply(lens: seq<nat>, op: Op): seq<nat>
    requires CanApply(lens, op)
  {
    if op.Length? then lens + [op.len]
    else if op.code == 16 then lens + Fill(lens[|lens| - 1], op.extra + 3)
    else if op.code == 17 then lens + Fill(0, op.extra + 3)
    else lens + Fill(0, op.extra + 11)
  }

  ghost predicate CanApplyAll(ops: seq<Op>)
    decreases |ops|, 0
  {
    |ops| == 0 || (CanApplyAll(ops[..|ops| - 1]) && CanApply(ApplyAll(ops[..|ops| - 1]), ops[|ops| - 1]))
  }

  ghost function ApplyAll(ops: seq<Op>): seq<nat>
    requires CanApplyAll(ops)
    decreases |ops|, 1
  {
    if |ops| == 0 then [] else Apply(ApplyAll(ops[..|ops| - 1]), ops[|ops| - 1])
  }

  lemma ApplySnoc(ops: seq<Op>, op: Op)
    requires CanApplyAll(ops) && CanApply(ApplyAll(ops), op)
    ensures CanApplyAll(ops + [op]) && ApplyAll(ops + [op]) == Apply(ApplyAll(ops), op)
  {
    assert (ops + [op])[..|ops|] == ops;
  }

  /** The bytes an instruction is packed into: repeats carry their extra value behind them. */
  function OpBytes(op: Op): seq<nat> {
    if op.Length? then [op.len] else [op.code, op.extra]
  }

  function Packed(ops: seq<Op>): seq<nat>
  {
    if |ops| == 0 then [] else Packed(ops[..|ops| - 1]) + OpBytes(ops[|ops| - 1])
  }

  function SymbolCount(ops: seq<Op>, s: nat): nat
  {
    if |ops| == 0 then 0 else SymbolCount(ops[..|ops| - 1], s) + if ops[|ops| - 1].Symbol() == s then 1 else 0
  }

  lemma Snoc(ops: seq<Op>, op: Op)
    ensures Packed(ops + [op]) == Packed(ops) + OpBytes(op)
    ensures forall s: nat :: SymbolCount(ops + [op], s) == SymbolCount(ops, s) + if op.Symbol() == s then 1 else 0
  {
    assert (ops + [op])[..|ops|] == ops;
  }

  lemma {:induction false} SymbolUsed(ops: seq<Op>, i: nat)
    requires i < |ops|
    ensures SymbolCount(ops, ops[i].Symbol()) > 0
  {
    if i < |ops| - 1 {
      SymbolUsed(ops[..|ops| - 1], i);
    }
  }

  /** Every instruction yields at least as many lengths as it takes bytes. */
  lemma {:induction false} PackedNoLonger(ops: seq<Op>)
    requires CanApplyAll(ops)
    ensures |ops| <= |Packed(ops)| <= |ApplyAll(ops)|
  {
    if |ops| == 0 {
    } else {
      PackedNoLonger(ops[..|ops| - 1]);
    }
  }

  lemma {:induction false} CountAtMost(ops: seq<Op>, s: nat)
    ensures SymbolCount(ops, s) <= |ops|
  {
    if |ops| == 0 {
    } else {
      CountAtMost(ops[..|ops| - 1], s);
    }
  }

  /** The run not yet turned into instructions: zeros, or repeats of the previous length. */
  function Pending(zeros: nat, prev: nat, repeats: nat): seq<nat> {
    if zeros > 0 then Fill(0, zeros) else Fill(prev, repeats)
  }

  lemma TakeOne(all: seq<nat>, v: nat, n: nat)
    requires n > 0
    ensures (all + [v]) + Fill(v, n - 1) == all + Fill(v, n)
  {
  }

  lemma ZerosRepeated(all: seq<nat>, zeros: nat)
    requires 3 <= zeros <= 138
    ensures var op := if zeros <= 10 then Repeat(17, zeros - 3) else Repeat(18, zeros - 11);
            CanApply(all, op) && Apply(all, op) == all + Fill(0, zeros)
  {
    PowThree();
    PowSeven();
    hide Pow2;
  }

  /** The packer's array, its fill level and the symbol histogram, all describing the same instructions. */
  class Packer {
    const packed: array<nat>
    const count: array<u16>
    var num: nat
    var zeros: nat
    var repeats: nat
    var prev: nat
    ghost var ops: seq<Op>

    ghost predicate Valid()
      reads this`num, this`ops, packed, count
    {
      && packed.Length == MAX_CODE_LENGTHS && count.Length >= RLE_SYMBOLS && packed as object != count
      && CanApplyAll(ops) && num == |Packed(ops)| <= packed.Length && packed[..num] == Packed(ops)
      && (forall s :: 0 <= s < RLE_SYMBOLS ==> count[s] == SymbolCount(ops, s))
      && (forall s :: RLE_SYMBOLS <= s < count.Length ==> count[s] == 0)
    }

    /** The lengths consumed so far are those the instructions give, followed by one pending run. */
    ghost predicate Consumed(lens: seq<nat>)
      requires Valid()
      reads this, packed, count
    {
      && zeros <= 138 && repeats <= 6 && (zeros == 0 || repeats == 0)
      && (repeats > 0 ==> 1 <= prev <= 15 && |ApplyAll(ops)| > 0 && ApplyAll(ops)[|ApplyAll(ops)| - 1] == prev)
      && lens == ApplyAll(ops) + Pending(zeros, prev, repeats)
      && (if |lens| == 0 then prev == 0xFF else prev == lens[|lens| - 1])
    }

    constructor (tableSize: nat)
      requires tableSize >= RLE_SYMBOLS
      ensures Valid() && Consumed([]) && ops == [] && fresh(packed) && fresh(count) && count.Length == tableSize
    {
      packed := new nat[MAX_CODE_LENGTHS];
      count := new u16[tableSize](_ => 0);
      num, zeros, repeats, prev := 0, 0, 0, 0xFF;
      ops := [];
    }

    /** Appends one instruction that stands for lengths still within `total`. */
    method Emit(op: Op, ghost total: nat)
      requires Valid() && CanApply(ApplyAll(ops), op) && |Apply(ApplyAll(ops), op)| <= total <= MAX_CODE_LENGTHS
      modifies this`num, this`ops, packed, count
      ensures Valid() && ops == old(ops) + [op] && ApplyAll(ops) == Apply(old(ApplyAll(ops)), op)
    {
      ApplySnoc(ops, op);
      Snoc(ops, op);
      PackedNoLonger(ops + [op]);
      CountAtMost(ops, op.Symbol());
      if op.Length? {
        packed[num] := op.len;
        num := num + 1;
      } else {
        packed[num], packed[num + 1] := op.code, op.extra;
        num := num + 2;
      }
      count[op.Symbol()] := count[op.Symbol()] + 1;
      ops := ops + [op];
    }

    lemma ZerosPending(lens: seq<nat>)
      requires Valid() && Consumed(lens) && zeros > 0
      ensures CanApplyAll(ops) && zeros <= 138 && repeats == 0 && |lens| > 0
              && lens == ApplyAll(ops) + Fill(0, zeros) && prev == lens[|lens| - 1]
    {
      hide ApplyAll, Packed, SymbolCount;
      assert lens == ApplyAll(ops) + Fill(0, zeros);
    }

    lemma RepeatsPending(lens: seq<nat>)
      requires Valid() && Consumed(lens) && repeats >= 3
      ensures CanApplyAll(ops) && zeros == 0 && |lens| > 0 && prev == lens[|lens| - 1]
      ensures CanApply(ApplyAll(ops), Repeat(16, repeats - 3)) && Apply(ApplyAll(ops), Repeat(16, repeats - 3)) == lens
    {
      hide ApplyAll, Packed, SymbolCount;
      PowTwo();
      hide Pow2;
    }

    lemma NothingPending(lens: seq<nat>)
      requires Valid() && zeros == 0 == repeats && CanApplyAll(ops) && lens == ApplyAll(ops) && |lens| > 0
               && prev == lens[|lens| - 1]
      ensures Consumed(lens)
    {
      hide ApplyAll, Packed, SymbolCount;
      assert lens == ApplyAll(ops) + [];
    }

    /** TDEFL_RLE_PREV_CODE_SIZE */
    method FlushRepeats(ghost lens: seq<nat>)
      requires Valid() && Consumed(lens) && |lens| <= MAX_CODE_LENGTHS
      modifies this`num, this`ops, this`repeats, packed, count
      ensures Valid() && Consumed(lens) && repeats == 0
    {
      if repeats >= 3 {
        FlushManyRepeats(lens);
      } else {
        while repeats > 0
          invariant Valid() && Consumed(lens) && repeats <= 2
        {
          FlushOneRepeat(lens);
        }
      }
    }

    method FlushManyRepeats(ghost lens: seq<nat>)
      requires Valid() && Consumed(lens) && |lens| <= MAX_CODE_LENGTHS && repeats >= 3
      modifies this`num, this`ops, this`repeats, packed, count
      ensures Valid() && Consumed(lens) && repeats == 0
    {
      hide *;
      RepeatsPending(lens);
      Emit(Repeat(16, repeats - 3), |lens|);
      repeats := 0;
      NothingPending(lens);
    }

    method FlushOneRepeat(ghost lens: seq<nat>)
      requires Valid() && Consumed(lens) && |lens| <= MAX_CODE_LENGTHS && repeats > 0
      modifies this`num, this`ops, this`repeats, packed, count
      ensures Valid() && Consumed(lens) && repeats == old(repeats) - 1
    {
      TakeOne(ApplyAll(ops), prev, repeats);
      Emit(Length(prev), |lens|);
      repeats := repeats - 1;
    }

    /** TDEFL_RLE_ZERO_CODE_SIZE */
    method FlushZeros(ghost lens: seq<nat>)
      requires Valid() && Consumed(lens) && |lens| <= MAX_CODE_LENGTHS
      modifies this`num, this`ops, this`zeros, packed, count
      ensures Valid() && Consumed(lens) && zeros == 0
    {
      if zeros >= 3 {
        FlushManyZeros(lens);
      } else {
        while zeros > 0
          invariant Valid() && Consumed(lens) && zeros <= 2
        {
          TakeOne(ApplyAll(ops), 0, zeros);
          Emit(Length(0), |lens|);
          zeros := zeros - 1;
        }
      }
    }

    method FlushManyZeros(ghost lens: seq<nat>)
      requires Valid() && Consumed(lens) && |lens| <= MAX_CODE_LENGTHS && zeros >= 3
      modifies this`num, this`ops, this`zeros, packed, count
      ensures Valid() && Consumed(lens) && zeros == 0
    {
      hide *;
      ZerosPending(lens);
      ZerosRepeated(ApplyAll(ops), zeros);
      Emit(if zeros <= 10 then Repeat(17, zeros - 3) else Repeat(18, zeros - 11), |lens|);
      zeros := 0;
      NothingPending(lens);
    }

    /** One round of the packing loop. */
    method Take(l: nat, ghost lens: seq<nat>)
      requires Valid() && Consumed(lens) && zeros < 138 && repeats < 6 && l <= 15 && |lens| < MAX_CODE_LENGTHS
      modifies this`num, this`ops, this`zeros, this`repeats, this`prev, packed, count
      ensures Valid() && Consumed(lens + [l]) && zeros < 138 && repeats < 6
    {
      if l == 0 {
        TakeZero(lens);
      } else {
        TakeNonzero(l, lens);
      }
    }

    method TakeZero(ghost lens: seq<nat>)
      requires Valid() && Consumed(lens) && zeros < 138 && repeats < 6 && |lens| < MAX_CODE_LENGTHS
      modifies this`num, this`ops, this`zeros, this`repeats, this`prev, packed, count
      ensures Valid() && Consumed(lens + [0]) && zeros < 138 && repeats < 6
    {
      FlushRepeats(lens);
      OneMoreZero(ApplyAll(ops), zeros, prev);
      zeros, prev := zeros + 1, 0;
      if zeros == 138 {
        FlushZeros(lens + [0]);
      }
    }

    method TakeNonzero(l: nat, ghost lens: seq<nat>)
      requires Valid() && Consumed(lens) && zeros < 138 && repeats < 6 && 1 <= l <= 15 && |lens| < MAX_CODE_LENGTHS
      modifies this`num, this`ops, this`zeros, this`repeats, this`prev, packed, count
      ensures Valid() && Consumed(lens + [l]) && zeros < 138 && repeats < 6
    {
      FlushZeros(lens);
      if l != prev {
        TakeNew(l, lens);
      } else {
        TakeRepeat(l, lens);
      }
    }

    method TakeNew(l: nat, ghost lens: seq<nat>)
      requires Valid() && Consumed(lens) && zeros == 0 && repeats < 6 && 1 <= l <= 15 && |lens| < MAX_CODE_LENGTHS
      modifies this`num, this`ops, this`repeats, this`prev, packed, count
      ensures Valid() && Consumed(lens + [l]) && repeats == 0
    {
      FlushRepeats(lens);
      Emit(Length(l), |lens| + 1);
      prev := l;
    }

    method TakeRepeat(l: nat, ghost lens: seq<nat>)
      requires Valid() && Consumed(lens) && zeros == 0 && repeats < 6 && 1 <= l == prev <= 15
               && |lens| < MAX_CODE_LENGTHS
      modifies this`num, this`ops, this`repeats, packed, count
      ensures Valid() && Consumed(lens + [l]) && repeats < 6
    {
      OneMoreRepeat(ApplyAll(ops), prev, repeats);
      repeats := repeats + 1;
      if repeats == 6 {
        FlushRepeats(lens + [l]);
      }
    }

    /** Packs all code lengths: decoding the packed form gives exactly them back. */
    method PackAll(lens: seq<nat>)
      requires Valid() && Consumed([]) && zeros == 0 && repeats == 0
      requires |lens| <= MAX_CODE_LENGTHS && forall i :: 0 <= i < |lens| ==> lens[i] <= 15
      modifies this`num, this`ops, this`zeros, this`repeats, this`prev, packed, count
      ensures Valid() && ApplyAll(ops) == lens
    {
      var i := 0;
      while i < |lens|
        invariant 0 <= i <= |lens|
        invariant Valid() && Consumed(lens[..i]) && zeros < 138 && repeats < 6
      {
        Take(lens[i], lens[..i]);
        TakePrefix(lens, i);
        i := i + 1;
      }
      Finish(lens[..i]);
      WholePrefix(lens);
    }

    /** The run still pending after the loop. */
    method Finish(ghost lens: seq<nat>)
      requires Valid() && Consumed(lens) && |lens| <= MAX_CODE_LENGTHS
      modifies this`num, this`ops, this`zeros, this`repeats, packed, count
      ensures Valid() && ApplyAll(ops) == lens
    {
      if repeats > 0 {
        FlushRepeats(lens);
      } else {
        FlushZeros(lens);
      }
      assert Pending(zeros, prev, repeats) == [];
    }
  }

  lemma TakePrefix(s: seq<nat>, i: nat)
    requires i < |s|
    ensures s[..i] + [s[i]] == s[..i + 1]
  {
  }

  lemma WholePrefix(s: seq<nat>)
    ensures s[..|s|] == s
  {
  }

  lemma PowTwo()
    ensures Pow2(2) == 4
  {
  }

  lemma PowThree()
    ensures Pow2(3) == 8
  {
  }

  lemma PowSeven()
    ensures Pow2(7) == 128
  {
    assert Pow2(4) == 16;
  }

  lemma OneMoreZero(all: seq<nat>, zeros: nat, prev: nat)
    ensures all + Pending(zeros + 1, 0, 0) == (all + Pending(zeros, prev, 0)) + [0]
  {
  }

  lemma OneMoreRepeat(all: seq<nat>, prev: nat, repeats: nat)
    ensures all + Pending(0, prev, repeats + 1) == (all + Pending(0, prev, repeats)) + [prev]
  {
  }

  /** The bytes of instruction k follow those of the ones before it. */
  lemma {:induction false} PackedAt(ops: seq<Op>, k: nat)
    requires k < |ops|
    ensures Packed(ops[..k]) + OpBytes(ops[k]) <= Packed(ops)
  {
    if k == |ops| - 1 {
    } else {
      PackedAt(ops[..|ops| - 1], k);
      assert ops[..|ops| - 1][..k] == ops[..k];
    }
  }

  function CountUpTo(ops: seq<Op>, n: nat): nat
  {
    if n == 0 then 0 else CountUpTo(ops, n - 1) + SymbolCount(ops, n - 1)
  }

  lemma {:induction false} CountUpToSnoc(ops: seq<Op>, n: nat)
    ensures |ops| == 0 ==> CountUpTo(ops, n) == 0
    ensures |ops| > 0 ==>
              CountUpTo(ops, n) == CountUpTo(ops[..|ops| - 1], n) + if ops[|ops| - 1].Symbol() < n then 1 else 0
  {
    if n == 0 {
    } else {
      CountUpToSnoc(ops, n - 1);
    }
  }

  lemma {:induction false} CountUpToAtMost(ops: seq<Op>, n: nat)
    ensures CountUpTo(ops, n) <= |ops|
  {
    CountUpToSnoc(ops, n);
    if |ops| == 0 {
    } else {
      CountUpToAtMost(ops[..|ops| - 1], n);
    }
  }
}
