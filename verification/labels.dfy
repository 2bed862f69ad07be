/** The labels the code writer declares, and why they never clash.

    The assembler rejects a label declared twice, so every label a run
    emits must be fresh.  Comparison labels carry the counter shared by
    all writers of a run; return labels carry a call counter.  This module
    shows that the comparison labels of any run are pairwise distinct, that
    the return labels are distinct while one call counter is threaded
    through the run, and that a counter owned by each writer, as the
    writer keeps it, repeats a return label in the second file. */
module Labels {

  import opened Base
  import opened Strings
  import opened Hack
  import opened CodeWriter

  /** The names `code` declares, in order. */
  function DeclaredLabels(code: seq<Instr>): seq<string> {
    if |code| == 0 then []
    else (if code[0].LabelDecl? then [code[0].name] else []) + DeclaredLabels(code[1..])
  }

  predicate NoDuplicates(names: seq<string>) {
    forall i, j :: 0 <= i < j < |names| ==> names[i] != names[j]
  }

  /** Declarations of two pieces in a row are those of the first, then those of the second. */
  lemma {:induction false} DeclaredLabelsAppend(a: seq<Instr>, b: seq<Instr>)
    ensures DeclaredLabels(a + b) == DeclaredLabels(a) + DeclaredLabels(b)
    decreases |a|
  {
    if |a| == 0 {
      assert a + b == b;
    } else {
      assert (a + b)[0] == a[0];
      assert (a + b)[1..] == a[1..] + b;
      DeclaredLabelsAppend(a[1..], b);
    }
  }

  /** Code without label declarations declares nothing. */
  lemma {:induction false} NoLabelsDeclared(code: seq<Instr>)
    requires forall k :: 0 <= k < |code| ==> !code[k].LabelDecl?
    ensures DeclaredLabels(code) == []
    decreases |code|
  {
    if |code| > 0 {
      NoLabelsDeclared(code[1..]);
    }
  }

  /** Decimal texts of distinct naturals differ. */
  lemma NatToStringInjective(m: nat, n: nat)
    ensures NatToString(m) == NatToString(n) <==> m == n
  {
    IntToStringInjective(m, n);
  }

  /** Text after a fixed prefix determines the whole. */
  lemma PrefixCancel(p: string, x: string, y: string)
    ensures p + x == p + y <==> x == y
  {
    if p + x == p + y {
      assert x == (p + x)[|p|..];
      assert y == (p + y)[|p|..];
    }
  }

  // ---------------------------------------------------------------------------
  // Comparison labels

  /** A TRUE label never equals a FINISHCOMP label, and each kind is
      determined by its counter value. */
  lemma ComparisonLabelNames(c: nat, d: nat)
    ensures TrueLabel(c) != FinishLabel(d)
    ensures TrueLabel(c) == TrueLabel(d) <==> c == d
    ensures FinishLabel(c) == FinishLabel(d) <==> c == d
  {
    assert TrueLabel(c)[0] == 'T' && FinishLabel(d)[0] == 'F';
    PrefixCancel("TRUE", NatToString(c), NatToString(d));
    PrefixCancel("FINISHCOMP", NatToString(c), NatToString(d));
    NatToStringInjective(c, d);
  }

  /** The labels of the comparisons numbered `lo` .. `hi - 1`, in emission order. */
  function ComparisonLabels(lo: nat, hi: nat): seq<string>
    decreases hi
  {
    if hi <= lo then [] else ComparisonLabels(lo, hi - 1) + [TrueLabel(hi - 1), FinishLabel(hi - 1)]
  }

  /** A name is among the comparison labels of `lo .. hi - 1` exactly when it
      is the TRUE or FINISHCOMP label of a counter value in that range. */
  lemma {:induction false} ComparisonLabelsMembers(lo: nat, hi: nat, name: string)
    ensures name in ComparisonLabels(lo, hi)
        <==> exists j :: lo <= j < hi && (name == TrueLabel(j) || name == FinishLabel(j))
    decreases hi
  {
    if hi > lo {
      var prev := ComparisonLabels(lo, hi - 1);
      var last := hi - 1;
      ComparisonLabelsMembers(lo, last, name);
      assert name in ComparisonLabels(lo, hi) <==> name in prev || name == TrueLabel(last) || name == FinishLabel(last);
      if name in prev {
        var j :| lo <= j < last && (name == TrueLabel(j) || name == FinishLabel(j));
        assert lo <= j < hi;
      } else if name == TrueLabel(last) || name == FinishLabel(last) {
        assert lo <= last < hi;
      } else {
        forall j | lo <= j < hi
          ensures name != TrueLabel(j) && name != FinishLabel(j)
        {
          if j < last {
            assert !(lo <= j < last && (name == TrueLabel(j) || name == FinishLabel(j)));
          }
        }
      }
    }
  }

  /** No two comparisons of a range of counter values share a label. */
  lemma {:induction false} ComparisonLabelsDistinct(lo: nat, hi: nat)
    ensures NoDuplicates(ComparisonLabels(lo, hi))
    decreases hi
  {
    if hi > lo {
      var prev := ComparisonLabels(lo, hi - 1);
      var t := TrueLabel(hi - 1);
      var f := FinishLabel(hi - 1);
      ComparisonLabelsDistinct(lo, hi - 1);
      ComparisonLabelNames(hi - 1, hi - 1);
      forall name | name == t || name == f
        ensures name !in prev
      {
        ComparisonLabelsMembers(lo, hi - 1, name);
        if name in prev {
          var j :| lo <= j < hi - 1 && (name == TrueLabel(j) || name == FinishLabel(j));
          ComparisonLabelNames(j, hi - 1);
          ComparisonLabelNames(hi - 1, j);
        }
      }
      var all := prev + [t, f];
      forall i, j | 0 <= i < j < |all|
        ensures all[i] != all[j]
      {
        if j >= |prev| && i < |prev| {
          assert all[i] in prev;
        }
      }
    }
  }

  /** Consecutive ranges of counter values make up the whole range. */
  lemma {:induction false} ComparisonLabelsSplit(lo: nat, mid: nat, hi: nat)
    requires lo <= mid <= hi
    ensures ComparisonLabels(lo, mid) + ComparisonLabels(mid, hi) == ComparisonLabels(lo, hi)
    decreases hi
  {
    if hi > mid {
      ComparisonLabelsSplit(lo, mid, hi - 1);
    } else {
      assert ComparisonLabels(mid, hi) == [];
    }
  }

  /** A comparison block declares its TRUE label, then its FINISHCOMP label. */
  lemma ComparisonDeclares(g: Shared, op: string)
    requires IsComparison(op)
    ensures DeclaredLabels(ComparisonOp(g, op).0) == [TrueLabel(g.compIndex), FinishLabel(g.compIndex)]
  {
    var code := ComparisonOp(g, op).0;
    var c := g.compIndex;
    var a := [AtSP, MeqMMinus1, AeqM, DeqM, AtSP, MeqMMinus1, AeqM, CInstr(DestD, MMinusD, NoJump),
              At(TrueLabel(c)), CInstr(NoDest, CompD, ComparisonJump(op)), CInstr(DestD, Zero, NoJump),
              At(FinishLabel(c)), CInstr(NoDest, Zero, JMP)];
    var t := [LabelDecl(TrueLabel(c))];
    var m := [CInstr(DestD, MinusOne, NoJump)];
    var f := [LabelDecl(FinishLabel(c))];
    var b := [AtSP, AeqM, MeqD, AtSP, MeqMPlus1];
    assert code == a + t + m + f + b;
    NoLabelsDeclared(a);
    NoLabelsDeclared(m);
    NoLabelsDeclared(b);
    DeclaredLabelsAppend(a, t);
    DeclaredLabelsAppend(a + t, m);
    DeclaredLabelsAppend(a + t + m, f);
    DeclaredLabelsAppend(a + t + m + f, b);
  }

  /** The labels a block declares for each operator: the TRUE and FINISHCOMP
      pair of the current counter for a comparison, none otherwise. */
  lemma ArithmeticLabels(g: Shared, op: string)
    requires op in OpTable
    ensures WriteArithmetic(g, op).Ok?
    ensures DeclaredLabels(WriteArithmetic(g, op).value.0)
         == (if IsComparison(op) then [TrueLabel(g.compIndex), FinishLabel(g.compIndex)] else [])
  {
    var code := WriteArithmetic(g, op).value.0;
    if IsComparison(op) {
      ComparisonDeclares(g, op);
    } else if IsUnary(op) {
      NoLabelsDeclared(code);
    } else {
      assert forall k :: 0 <= k < |code| ==> !code[k].LabelDecl?;
      NoLabelsDeclared(code);
    }
  }

  /** How many of `ops` are comparisons. */
  function Comparisons(ops: seq<string>): nat {
    if |ops| == 0 then 0
    else Comparisons(ops[..|ops| - 1]) + (if IsComparison(ops[|ops| - 1]) then 1 else 0)
  }

  /** Translates a run of arithmetic commands with one shared comparison
      counter, as every writer of a run shares `comp_index`.  It fails on
      the first unknown operator; otherwise the counter has advanced once
      per comparison and the labels declared are exactly those of the
      counter values consumed, all distinct. */
  method TranslateArithmetic(g: Shared, ops: seq<string>) returns (r: Result<(seq<Instr>, Shared), Error>)
    ensures r.Err? <==> exists i :: 0 <= i < |ops| && ops[i] !in OpTable
    ensures r.Err? ==> exists i :: 0 <= i < |ops| && ops[i] !in OpTable
                                 && (forall j :: 0 <= j < i ==> ops[j] in OpTable)
                                 && r.error == UnknownOperator(ops[i])
    ensures r.Ok? ==> r.value.1.compIndex == g.compIndex + Comparisons(ops)
    ensures r.Ok? ==> DeclaredLabels(r.value.0) == ComparisonLabels(g.compIndex, r.value.1.compIndex)
    ensures r.Ok? ==> NoDuplicates(DeclaredLabels(r.value.0))
  {
    var code: seq<Instr> := [];
    var cur := g;
    var i := 0;
    while i < |ops|
      invariant 0 <= i <= |ops|
      invariant forall j :: 0 <= j < i ==> ops[j] in OpTable
      invariant cur.compIndex == g.compIndex + Comparisons(ops[..i])
      invariant DeclaredLabels(code) == ComparisonLabels(g.compIndex, cur.compIndex)
    {
      var step := WriteArithmetic(cur, ops[i]);
      if step.Err? {
        assert ops[i] !in OpTable && step.error == UnknownOperator(ops[i]);
        assert forall j :: 0 <= j < i ==> ops[j] in OpTable;
        r := Err(step.error);
        return;
      }
      ArithmeticLabels(cur, ops[i]);
      DeclaredLabelsAppend(code, step.value.0);
      code := code + step.value.0;
      cur := step.value.1;
      assert ops[..i + 1][..i] == ops[..i];
      i := i + 1;
    }
    assert ops[..i] == ops;
    ComparisonLabelsDistinct(g.compIndex, cur.compIndex);
    return Ok((code, cur));
  }

  /** Two files translated one after the other, the second starting from
      the counter the first left, declare no comparison label twice. */
  lemma ComparisonLabelsAcrossFiles(lo: nat, mid: nat, hi: nat)
    requires lo <= mid <= hi
    ensures NoDuplicates(ComparisonLabels(lo, mid) + ComparisonLabels(mid, hi))
  {
    ComparisonLabelsSplit(lo, mid, hi);
    ComparisonLabelsDistinct(lo, hi);
  }

  // ---------------------------------------------------------------------------
  // Return labels

  /** `"$ret"` followed by digits ends a return label, so the digits after
      the last `$` cannot be fewer in one spelling than in another. */
  lemma ReturnSuffixLength(f1: string, n1: string, f2: string, n2: string)
    requires f1 + "$ret" + n1 == f2 + "$ret" + n2
    requires forall k :: 0 <= k < |n2| ==> IsDigit(n2[k])
    ensures |n1| >= |n2|
  {
    var s := f1 + "$ret" + n1;
    assert s[|f1|] == '$';
  }

  /** A return label determines both the function and the call counter. */
  lemma ReturnLabelInjective(f1: string, k1: nat, f2: string, k2: nat)
    ensures ReturnLabel(f1, k1) == ReturnLabel(f2, k2) <==> f1 == f2 && k1 == k2
  {
    if ReturnLabel(f1, k1) == ReturnLabel(f2, k2) {
      var n1 := NatToString(k1);
      var n2 := NatToString(k2);
      ReturnSuffixLength(f1, n1, f2, n2);
      ReturnSuffixLength(f2, n2, f1, n1);
      var s := ReturnLabel(f1, k1);
      assert n1 == s[|s| - |n1|..];
      assert n2 == s[|s| - |n2|..];
      NatToStringInjective(k1, k2);
      assert f1 == s[..|f1|];
      assert f2 == s[..|f2|];
    }
  }

  /** A call block declares only its return label. */
  lemma CallLabels(f: string, nArgs: int, k: nat)
    ensures DeclaredLabels(CallBlock(f, nArgs, k)) == [ReturnLabel(f, k)]
  {
    var block := CallBlock(f, nArgs, k);
    assert |block| == 48;
    var body := block[..47];
    assert block == body + [LabelDecl(ReturnLabel(f, k))];
    assert forall j :: 0 <= j < 47 ==> !body[j].LabelDecl?;
    NoLabelsDeclared(body);
    DeclaredLabelsAppend(body, [LabelDecl(ReturnLabel(f, k))]);
  }

  /** As written: each file is meant to get a writer of its own whose call
      counter starts at 0, so the first call of the same function from two files
      declares the same return label twice. */
  lemma PerWriterReturnLabelsCollide(fileA: string, fileB: string, f: string, nA: int, nB: int)
    ensures var blockA := WriteCall(NewWriter(fileA), f, nA).0;
      var blockB := WriteCall(NewWriter(fileB), f, nB).0;
      DeclaredLabels(blockA + blockB) == [ReturnLabel(f, 0), ReturnLabel(f, 0)]
      && !NoDuplicates(DeclaredLabels(blockA + blockB))
  {
    var blockA := WriteCall(NewWriter(fileA), f, nA).0;
    var blockB := WriteCall(NewWriter(fileB), f, nB).0;
    CallLabels(f, nA, 0);
    CallLabels(f, nB, 0);
    DeclaredLabelsAppend(blockA, blockB);
    var names := DeclaredLabels(blockA + blockB);
    assert names[0] == names[1];
  }

  /** The return labels of the calls numbered from `k`, in emission order. */
  function ReturnLabels(calls: seq<(string, int)>, k: nat): seq<string>
    decreases |calls|
  {
    if |calls| == 0 then []
    else ReturnLabels(calls[..|calls| - 1], k) + [ReturnLabel(calls[|calls| - 1].0, k + |calls| - 1)]
  }

  /** A name is among the return labels of calls numbered from `k` exactly
      when it is the label of one of those calls with its own number. */
  lemma {:induction false} ReturnLabelsMembers(calls: seq<(string, int)>, k: nat, name: string)
    ensures name in ReturnLabels(calls, k)
        <==> exists i :: 0 <= i < |calls| && name == ReturnLabel(calls[i].0, k + i)
    decreases |calls|
  {
    if |calls| > 0 {
      var init := calls[..|calls| - 1];
      ReturnLabelsMembers(init, k, name);
      if exists i :: 0 <= i < |init| && name == ReturnLabel(init[i].0, k + i) {
        var i :| 0 <= i < |init| && name == ReturnLabel(init[i].0, k + i);
        assert calls[i] == init[i];
      }
      if exists i :: 0 <= i < |calls| && name == ReturnLabel(calls[i].0, k + i) {
        var i :| 0 <= i < |calls| && name == ReturnLabel(calls[i].0, k + i);
        if i < |init| {
          assert init[i] == calls[i];
        }
      }
    }
  }

  /** Calls with distinct numbers never share a return label, whatever the
      functions called. */
  lemma {:induction false} ReturnLabelsDistinct(calls: seq<(string, int)>, k: nat)
    ensures NoDuplicates(ReturnLabels(calls, k))
    decreases |calls|
  {
    if |calls| > 0 {
      var n := |calls| - 1;
      var init := calls[..n];
      var prev := ReturnLabels(init, k);
      var last := ReturnLabel(calls[n].0, k + n);
      ReturnLabelsDistinct(init, k);
      ReturnLabelsMembers(init, k, last);
      if last in prev {
        var i :| 0 <= i < |init| && last == ReturnLabel(init[i].0, k + i);
        ReturnLabelInjective(calls[n].0, k + n, init[i].0, k + i);
      }
      var all := prev + [last];
      forall i, j | 0 <= i < j < |all|
        ensures all[i] != all[j]
      {
        if j == |prev| {
          assert all[i] in prev;
        }
      }
    }
  }

  /** Corrected: translates a run of calls with one call counter threaded
      through every file of the run.  The counter advances once per call
      and every return label declared is distinct. */
  method TranslateCalls(g: SharedCalls, calls: seq<(string, int)>) returns (code: seq<Instr>, g': SharedCalls)
    ensures g'.callIndex == g.callIndex + |calls|
    ensures DeclaredLabels(code) == ReturnLabels(calls, g.callIndex)
    ensures NoDuplicates(DeclaredLabels(code))
  {
    code := [];
    g' := g;
    var i := 0;
    while i < |calls|
      invariant 0 <= i <= |calls|
      invariant g'.callIndex == g.callIndex + i
      invariant DeclaredLabels(code) == ReturnLabels(calls[..i], g.callIndex)
    {
      var (block, next) := WriteCallShared(g', calls[i].0, calls[i].1);
      CallLabels(calls[i].0, calls[i].1, g'.callIndex);
      DeclaredLabelsAppend(code, block);
      code := code + block;
      g' := next;
      assert calls[..i + 1][..i] == calls[..i];
      i := i + 1;
    }
    assert calls[..i] == calls;
    ReturnLabelsDistinct(calls, g.callIndex);
  }

  /** Corrected, across files: the first call of the same function from two
      files, with the counter threaded from one to the next, declares two
      different return labels. */
  lemma SharedReturnLabelsDistinct(g: SharedCalls, f: string, nA: int, nB: int)
    ensures var (blockA, g1) := WriteCallShared(g, f, nA);
      var blockB := WriteCallShared(g1, f, nB).0;
      NoDuplicates(DeclaredLabels(blockA + blockB))
  {
    var (blockA, g1) := WriteCallShared(g, f, nA);
    var blockB := WriteCallShared(g1, f, nB).0;
    CallLabels(f, nA, g.callIndex);
    CallLabels(f, nB, g1.callIndex);
    DeclaredLabelsAppend(blockA, blockB);
    ReturnLabelInjective(f, g.callIndex, f, g1.callIndex);
  }

  // ---------------------------------------------------------------------------
  // Static symbols

  /** Distinct indices of one file name distinct static variables. */
  lemma StaticSymbolsDistinct(fileName: string, i: int, j: int)
    ensures StaticSymbol(fileName, i) == StaticSymbol(fileName, j) <==> i == j
  {
    var stem := Split(fileName, '.')[0] + ".";
    PrefixCancel(stem, IntToString(i), IntToString(j));
    IntToStringInjective(i, j);
  }
}
