/** The bids of an auction and the investors it is allocated to, with the 32-bit
    arithmetic of the Java code. */
module Auctions {
  import opened Basics

  const TWO_TO_THE_32 := 0x1_0000_0000

  type Nome = string

  // A rate is a float in the source; only its order matters here.
  datatype Licitacao = Licitacao(investidor: string, taxa: real, quantia: Int32)

  type Bids = seq<Licitacao>

  // --- Sums ---

  // Addition of two ints in Java.
  function Plus(a: Int32, b: Int32): (c: Int32)
    ensures (c - (a + b)) % TWO_TO_THE_32 == 0
    ensures -TWO_TO_THE_31 <= a + b < TWO_TO_THE_31 ==> c == a + b
  {
    if a + b >= TWO_TO_THE_31 then a + b - TWO_TO_THE_32
    else if a + b < -TWO_TO_THE_31 then a + b + TWO_TO_THE_32
    else a + b
  }

  // The reduction of getInvestimentoTotal.
  function Total(bids: Bids): Int32 {
    if bids == [] then 0 else Plus(Total(bids[..|bids| - 1]), bids[|bids| - 1].quantia)
  }

  function Amount(b: Licitacao): int { b.quantia }

  // The amount actually bid.
  function Sum(bids: Bids): int {
    if bids == [] then 0 else Sum(bids[..|bids| - 1]) + Amount(bids[|bids| - 1])
  }

  predicate InRange(n: int) { -TWO_TO_THE_31 <= n < TWO_TO_THE_31 }

  // The total is the amount bid exactly when that fits an int, whatever overflows
  // on the way, and else off by a multiple of two to the 32.
  lemma TotalIsSum(bids: Bids)
    ensures Total(bids) == Sum(bids) <==> InRange(Sum(bids))
    ensures (Total(bids) - Sum(bids)) % TWO_TO_THE_32 == 0
  {
    TotalWraps(bids);
  }

  lemma {:induction false} TotalWraps(bids: Bids)
    ensures (Total(bids) - Sum(bids)) % TWO_TO_THE_32 == 0
  {
    if bids != [] {
      var n := |bids| - 1;
      TotalWraps(bids[..n]);
      var q: int := bids[n].quantia;
      AddsUp(Total(bids[..n]) - Sum(bids[..n]), Plus(Total(bids[..n]), bids[n].quantia) - (Total(bids[..n]) + q));
    }
  }

  predicate WrapsTo(n: int, w: Int32) { (w - n) % TWO_TO_THE_32 == 0 }

  // There is only one int that the amount bid wraps around to.
  lemma TotalIsTheWrap(bids: Bids, w: Int32)
    requires WrapsTo(Sum(bids), w)
    ensures Total(bids) == w
  {
    TotalWraps(bids);
    Congruent(Total(bids), w, Sum(bids));
  }

  lemma Congruent(a: Int32, b: Int32, n: int)
    requires (a - n) % TWO_TO_THE_32 == 0 && (b - n) % TWO_TO_THE_32 == 0
    ensures a == b
  {
  }

  lemma AddsUp(a: int, b: int)
    requires a % TWO_TO_THE_32 == 0 && b % TWO_TO_THE_32 == 0
    ensures (a + b) % TWO_TO_THE_32 == 0
  {
  }

  // Whether the total is as good as the amount bid for deciding that m is covered.
  predicate VerdictRight(bids: Bids, m: Int32) {
    (m <= Total(bids)) == (m <= Sum(bids))
  }

  // It is for every m exactly when the amount bid fits an int, or is so far above
  // that it wraps around to the greatest int.
  lemma VerdictAlwaysRight(bids: Bids)
    ensures (forall m: Int32 :: VerdictRight(bids, m))
       <==> InRange(Sum(bids)) || (Sum(bids) > 0 && Sum(bids) % TWO_TO_THE_32 == TWO_TO_THE_31 - 1)
  {
    TotalIsSum(bids);
    var top: Int32 := TWO_TO_THE_31 - 1;
    assert Sum(bids) % TWO_TO_THE_32 == TWO_TO_THE_31 - 1 <==> Total(bids) == top;
    if !InRange(Sum(bids)) && Sum(bids) < 0 {
      assert !VerdictRight(bids, Total(bids));
    } else if !InRange(Sum(bids)) {
      assert VerdictRight(bids, top) <==> Total(bids) == top;
    }
  }

  // --- The stable sort by rate ---

  ghost predicate Ascending(bids: Bids) {
    forall i, j | 0 <= i < j < |bids| :: bids[i].taxa <= bids[j].taxa
  }

  // Behind all that are not dearer.
  function Insert(sorted: Bids, b: Licitacao): (r: Bids)
    ensures |r| == |sorted| + 1
  {
    if sorted == [] || sorted[|sorted| - 1].taxa <= b.taxa then sorted + [b]
    else Insert(sorted[..|sorted| - 1], b) + [sorted[|sorted| - 1]]
  }

  function Sorted(bids: Bids): (r: Bids)
    ensures |r| == |bids|
  {
    if bids == [] then [] else Insert(Sorted(bids[..|bids| - 1]), bids[|bids| - 1])
  }

  // The bids at one rate, in order.
  function AtRate(bids: Bids, taxa: real): Bids {
    if bids == [] then []
    else AtRate(bids[..|bids| - 1], taxa) + if bids[|bids| - 1].taxa == taxa then [bids[|bids| - 1]] else []
  }

  lemma {:induction false} InsertKeeps(sorted: Bids, b: Licitacao)
    ensures var r := Insert(sorted, b);
      && multiset(r) == multiset(sorted) + multiset{b}
      && Sum(r) == Sum(sorted) + Amount(b)
  {
    if sorted != [] && sorted[|sorted| - 1].taxa > b.taxa {
      var n := |sorted| - 1;
      assert sorted == sorted[..n] + [sorted[n]];
      InsertKeeps(sorted[..n], b);
      var r := Insert(sorted[..n], b);
      assert (r + [sorted[n]])[..|r|] == r;
    } else {
      assert (sorted + [b])[..|sorted|] == sorted;
    }
  }

  lemma InsertHolds(sorted: Bids, b: Licitacao, x: Licitacao)
    requires x in Insert(sorted, b)
    ensures x in sorted || x == b
  {
    hide Insert;
    InsertKeeps(sorted, b);
    assert x in multiset(Insert(sorted, b));
  }

  lemma AscendingAppend(r: Bids, b: Licitacao)
    requires Ascending(r) && forall x | x in r :: x.taxa <= b.taxa
    ensures Ascending(r + [b])
  {
  }

  lemma {:induction false} InsertSorts(sorted: Bids, b: Licitacao)
    requires Ascending(sorted)
    ensures Ascending(Insert(sorted, b))
  {
    if sorted != [] && sorted[|sorted| - 1].taxa > b.taxa {
      var n := |sorted| - 1;
      InsertSorts(sorted[..n], b);
      var r := Insert(sorted[..n], b);
      hide Insert;
      forall x | x in r ensures x.taxa <= sorted[n].taxa {
        InsertHolds(sorted[..n], b, x);
      }
      hide Ascending;
      AscendingAppend(r, sorted[n]);
    } else {
      assert forall x | x in sorted :: x.taxa <= b.taxa;
      hide Ascending;
      AscendingAppend(sorted, b);
    }
  }

  lemma {:induction false} SortedSorts(bids: Bids)
    ensures Ascending(Sorted(bids)) && multiset(Sorted(bids)) == multiset(bids)
    ensures Sum(Sorted(bids)) == Sum(bids)
  {
    if bids != [] {
      var n := |bids| - 1;
      assert bids == bids[..n] + [bids[n]];
      SortedSorts(bids[..n]);
      InsertSorts(Sorted(bids[..n]), bids[n]);
      InsertKeeps(Sorted(bids[..n]), bids[n]);
    }
  }

  // Bids at the same rate keep the order in which they were made.
  lemma {:induction false} InsertStable(sorted: Bids, b: Licitacao, taxa: real)
    requires Ascending(sorted)
    ensures AtRate(Insert(sorted, b), taxa) == AtRate(sorted, taxa) + if b.taxa == taxa then [b] else []
  {
    if sorted != [] && sorted[|sorted| - 1].taxa > b.taxa {
      var n := |sorted| - 1;
      InsertStable(sorted[..n], b, taxa);
      var r := Insert(sorted[..n], b);
      assert (r + [sorted[n]])[..|r|] == r;
      if sorted[n].taxa == taxa { assert b.taxa != taxa; }
    } else {
      assert (sorted + [b])[..|sorted|] == sorted;
    }
  }

  lemma {:induction false} SortedStable(bids: Bids, taxa: real)
    ensures AtRate(Sorted(bids), taxa) == AtRate(bids, taxa)
  {
    if bids != [] {
      var n := |bids| - 1;
      SortedSorts(bids[..n]);
      SortedStable(bids[..n], taxa);
      InsertStable(Sorted(bids[..n]), bids[n], taxa);
    }
  }

  // --- The allocation ---

  // How many bids the loop takes: up to the one that reaches the amount wanted.
  function Needed(sorted: Bids, montante: Int32, k: nat): (n: nat)
    requires k <= |sorted|
    ensures k <= n <= |sorted|
    decreases |sorted| - k
  {
    if k == |sorted| then k
    else if Total(sorted[..k + 1]) >= montante then k + 1
    else Needed(sorted, montante, k + 1)
  }

  // The bids that are kept, and whether any have been dropped.
  function Allocation(bids: Bids, montante: Int32): (r: (Bids, bool)) {
    var sorted := Sorted(bids);
    var n := Needed(sorted, montante, 0);
    if n == |bids| then (bids, false) else (sorted[..n], true)
  }

  lemma {:induction false} NeededIsLeast(sorted: Bids, montante: Int32, k: nat)
    requires k <= |sorted|
    ensures var n := Needed(sorted, montante, k);
      && (n < |sorted| ==> n > k && Total(sorted[..n]) >= montante)
      && forall j | k < j < n :: Total(sorted[..j]) < montante
    decreases |sorted| - k
  {
    if k < |sorted| && Total(sorted[..k + 1]) < montante { NeededIsLeast(sorted, montante, k + 1); }
  }

  // Adding up in the order of the loop never overflows.
  ghost predicate NoOverflow(sorted: Bids) {
    forall n | 0 <= n <= |sorted| :: InRange(Sum(sorted[..n]))
  }

  ghost predicate NoCheaperDropped(kept: Bids, dropped: multiset<Licitacao>) {
    forall k, d | k in kept && d in dropped :: k.taxa <= d.taxa
  }

  lemma NothingDropped(bids: Bids)
    ensures NoCheaperDropped(bids, multiset(bids) - multiset(bids))
  {
  }

  // What taking the first n of sorted bids leaves behind is not cheaper.
  lemma SplitSorted(s: Bids, n: nat)
    requires Ascending(s) && n <= |s|
    ensures multiset(s[..n]) <= multiset(s)
    ensures NoCheaperDropped(s[..n], multiset(s) - multiset(s[..n]))
  {
    assert s == s[..n] + s[n..];
    assert multiset(s) - multiset(s[..n]) == multiset(s[n..]);
    forall k, d | k in s[..n] && d in multiset(s[n..]) ensures k.taxa <= d.taxa {
      var i :| 0 <= i < n && s[i] == k;
      var j :| n <= j < |s| && s[j] == d;
    }
  }

  // With or without overflow: the bids kept are some of those made, all of them if none
  // is dropped, and their total reaches the amount wanted if that of all does.
  lemma AllocationKeeps(bids: Bids, montante: Int32)
    ensures var (kept, dropped) := Allocation(bids, montante);
      && multiset(kept) <= multiset(bids) && (dropped <==> |kept| < |bids|) && (!dropped ==> kept == bids)
      && (Total(bids) >= montante ==> Total(kept) >= montante)
  {
    hide Needed, Total, Sorted, Ascending;
    var s := Sorted(bids);
    var n := Needed(s, montante, 0);
    SortedSorts(bids);
    NeededIsLeast(s, montante, 0);
    if n < |bids| { SplitSorted(s, n); }
  }

  lemma NeededCovers(s: Bids, montante: Int32)
    requires NoOverflow(s) && Sum(s) >= montante
    ensures var n := Needed(s, montante, 0);
      && Sum(s[..n]) >= montante && (n < |s| ==> n > 0)
      && (n > 1 || (n == 1 && montante > 0) ==> Sum(s[..n - 1]) < montante)
  {
    var n := Needed(s, montante, 0);
    NeededIsLeast(s, montante, 0);
    assert s[..|s|] == s && Sum(s[..0]) == 0;
    TotalIsSum(s[..n]);
    if n > 0 { TotalIsSum(s[..n - 1]); }
  }

  // Those kept are some of the bids and cover the amount wanted, none dropped is
  // cheaper than one kept, and without the last one kept they would fall short if
  // any have been dropped.
  ghost predicate Fair(bids: Bids, montante: Int32, kept: Bids, dropped: bool) {
    && multiset(kept) <= multiset(bids) && Sum(kept) >= montante
    && (dropped <==> |kept| < |bids|) && (!dropped ==> kept == bids)
    && NoCheaperDropped(kept, multiset(bids) - multiset(kept))
    && (dropped ==> kept != [] && (montante > 0 || |kept| > 1 ==> Sum(kept[..|kept| - 1]) < montante))
  }

  lemma AllFair(bids: Bids, montante: Int32)
    requires Sum(bids) >= montante
    ensures Fair(bids, montante, bids, false)
  {
    hide Sum, NoCheaperDropped;
    NothingDropped(bids);
  }

  lemma TakenFair(bids: Bids, s: Bids, n: nat, montante: Int32)
    requires Ascending(s) && multiset(s) == multiset(bids) && |s| == |bids| && 0 < n < |s|
    requires Sum(s[..n]) >= montante && (montante > 0 || n > 1 ==> Sum(s[..n - 1]) < montante)
    ensures Fair(bids, montante, s[..n], true)
  {
    hide Sum, Ascending, NoCheaperDropped;
    SplitSorted(s, n);
    assert s[..n][..n - 1] == s[..n - 1];
  }

  // When the bids cover the amount wanted, the allocation is fair.
  lemma AllocationFair(bids: Bids, montante: Int32)
    requires NoOverflow(Sorted(bids)) && Sum(bids) >= montante
    ensures var (kept, dropped) := Allocation(bids, montante); Fair(bids, montante, kept, dropped)
  {
    hide Ascending, Sum, Needed, Sorted, Fair, NoOverflow;
    SortedSorts(bids);
    NeededCovers(Sorted(bids), montante);
    var n := Needed(Sorted(bids), montante, 0);
    if n == |bids| { AllFair(bids, montante); } else { TakenFair(bids, Sorted(bids), n, montante); }
  }

  // --- The highest rate ---

  // Java's Float.MIN_VALUE, the least positive float, with which the reduction starts.
  const FLOAT_MIN_VALUE := 1.0 / 713623846352979940529142984724747568191373312.0

  function Max(a: real, b: real): real { if a >= b then a else b }

  function TaxaMaxima(bids: Bids): real {
    if bids == [] then FLOAT_MIN_VALUE else Max(TaxaMaxima(bids[..|bids| - 1]), bids[|bids| - 1].taxa)
  }

  lemma {:induction false} TaxaMaximaBounds(bids: Bids)
    ensures TaxaMaxima(bids) >= FLOAT_MIN_VALUE && forall b | b in bids :: b.taxa <= TaxaMaxima(bids)
    ensures TaxaMaxima(bids) == FLOAT_MIN_VALUE || exists b :: b in bids && b.taxa == TaxaMaxima(bids)
  {
    if bids != [] {
      var n := |bids| - 1;
      TaxaMaximaBounds(bids[..n]);
      assert bids == bids[..n] + [bids[n]];
    }
  }

  // The value is the highest rate bid exactly when some rate bid is not below
  // Float.MIN_VALUE; without bids, or with rates of zero and less only, it is none.
  lemma TaxaMaximaIsHighest(bids: Bids)
    ensures (exists b :: b in bids && b.taxa == TaxaMaxima(bids)) <==> exists b :: b in bids && b.taxa >= FLOAT_MIN_VALUE
    ensures forall b | b in bids :: b.taxa <= TaxaMaxima(bids)
  {
    TaxaMaximaBounds(bids);
    if b :| b in bids && b.taxa >= FLOAT_MIN_VALUE {
      if TaxaMaxima(bids) == FLOAT_MIN_VALUE { assert b.taxa == TaxaMaxima(bids); }
    }
  }

  // Without bids, and with one at rate zero, it is a rate nobody has bid.
  lemma TaxaMaximaCounterexample()
    ensures TaxaMaxima([]) == FLOAT_MIN_VALUE
    ensures var b := Licitacao("a", 0.0, 1000); TaxaMaxima([b]) == FLOAT_MIN_VALUE > b.taxa
  {
    var b := Licitacao("a", 0.0, 1000);
    assert [b][..0] == [];
  }

  // Exchange/Leilao.java.
  class Leilao {
    const taxaMaxima: real
    const montanteTotal: Int32
    const empresa: Nome
    var sucesso: bool
    var licitacoes: Bids

    constructor (taxaMaxima_: real, montanteTotal_: Int32, empresa_: Nome)
      ensures taxaMaxima == taxaMaxima_ && montanteTotal == montanteTotal_ && empresa == empresa_
      ensures !sucesso && licitacoes == []
    {
      taxaMaxima, montanteTotal, empresa, sucesso, licitacoes := taxaMaxima_, montanteTotal_, empresa_, false, [];
    }

    method AlocaInvestidores() returns (dropped: bool)
      modifies `licitacoes
      ensures (licitacoes, dropped) == Allocation(old(licitacoes), montanteTotal)
    {
      var alocados: Bids := [];
      var sorted := Sorted(licitacoes);
      var sum: Int32 := 0;
      for i := 0 to |sorted|
        invariant alocados == sorted[..i] && sum == Total(sorted[..i])
        invariant Needed(sorted, montanteTotal, i) == Needed(sorted, montanteTotal, 0)
        invariant licitacoes == old(licitacoes)
      {
        assert sorted[..i + 1][..i] == sorted[..i];
        sum := Plus(sum, sorted[i].quantia);
        alocados := alocados + [sorted[i]];
        if sum >= montanteTotal {
          break;
        }
      }
      assert |alocados| == Needed(sorted, montanteTotal, 0) && alocados == sorted[..|alocados|];
      if |licitacoes| == |alocados| {
        return false;
      }
      licitacoes := alocados;
      return true;
    }

    method GetInvestimentoTotal() returns (total: Int32)
      ensures total == Total(licitacoes)
    {
      total := 0;
      for i := 0 to |licitacoes|
        invariant total == Total(licitacoes[..i])
      {
        assert licitacoes[..i + 1][..i] == licitacoes[..i];
        total := Plus(total, licitacoes[i].quantia);
      }
      assert licitacoes[..|licitacoes|] == licitacoes;
    }

    method GetTaxaLicitacaoMaxima() returns (taxa: real)
      ensures taxa == TaxaMaxima(licitacoes)
    {
      taxa := FLOAT_MIN_VALUE;
      for i := 0 to |licitacoes|
        invariant taxa == TaxaMaxima(licitacoes[..i])
      {
        assert licitacoes[..i + 1][..i] == licitacoes[..i];
        taxa := Max(taxa, licitacoes[i].taxa);
      }
      assert licitacoes[..|licitacoes|] == licitacoes;
    }
  }
}
