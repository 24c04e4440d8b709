/** The exchange's auctions and the directory's copy of them, request by request. */
module BooksAndCopies {
  import opened Basics
  import opened Auctions

  // The moment an auction starts, which comes from the clock, is left out.
  datatype Auction = Auction(taxaMaxima: real, montanteTotal: Int32, empresa: Nome, sucesso: bool, licitacoes: Bids)

  // id: the index the closing thread has been given.
  datatype OpenAuction = OpenAuction(auction: Auction, id: nat)

  datatype Company = Company(history: seq<Auction>, open: Option<OpenAuction>)

  type Books = map<Nome, Company>

  datatype BidCopy = BidCopy(id: int, bid: Licitacao)

  datatype AuctionCopy = AuctionCopy(
    id: int, taxaMaxima: real, montanteTotal: Int32, empresa: Nome, sucesso: bool, ativo: bool, licitacoes: seq<BidCopy>)

  type Copies = map<Nome, seq<AuctionCopy>>

  // What the exchange asks of the directory, with the fields of RestRequest each
  // request sets; those it leaves alone are zero.
  datatype Request =
    | PostLeilao(nome: Nome, id: int, taxaMaxima: real, montanteTotal: Int32)
    | PostLicitacao(nome: Nome, id: int, idL: int, bid: Licitacao)
    | PutLeilao(nome: Nome, id: int, ativo: bool, sucesso: bool, licitacoes: Option<Bids>)

  // --- The exchange ---

  datatype Outcome = Outcome(books: Books, ok: bool, requests: seq<Request>)

  function Leilao(b: Books, nome: Nome, quantia: Int32, juro: real): Outcome
    requires nome in b
  {
    var c := b[nome];
    if c.open.None? && quantia % 1000 == 0 then
      var n := |c.history|;
      Outcome(b[nome := c.(open := Some(OpenAuction(Auction(juro, quantia, nome, false, []), n)))], true,
              [PostLeilao(nome, n, juro, quantia)])
    else Outcome(b, false, [])
  }

  function Licitar(b: Books, nome: Nome, investidor: string, quantia: Int32, juro: real): Outcome
    requires nome in b
  {
    var c := b[nome];
    if c.open.Some? && juro < c.open.value.auction.taxaMaxima && quantia % 100 == 0 then
      var a, bid := c.open.value.auction, Licitacao(investidor, juro, quantia);
      Outcome(b[nome := c.(open := Some(c.open.value.(auction := a.(licitacoes := a.licitacoes + [bid]))))], true,
              [PostLicitacao(nome, |c.history|, |a.licitacoes|, bid)])
    else Outcome(b, false, [])
  }

  // The auction as it goes into the history, and the list to be sent along.
  function Closed(a: Auction): (Auction, Option<Bids>) {
    if a.montanteTotal > Total(a.licitacoes) then (a, None)
    else
      var (kept, dropped) := Allocation(a.licitacoes, a.montanteTotal);
      (a.(sucesso := true, licitacoes := kept), if dropped then Some(kept) else None)
  }

  // The verdict on an auction is right exactly when the total is as good as the
  // amount bid, and so for every amount wanted exactly when the amount bid fits an
  // int or wraps around to the greatest one.
  lemma VerdictExactly(bids: Bids)
    ensures forall a: Auction | a.licitacoes == bids && !a.sucesso ::
      (Closed(a).0.sucesso <==> a.montanteTotal <= Sum(bids)) <==> VerdictRight(bids, a.montanteTotal)
    ensures (forall a: Auction | a.licitacoes == bids && !a.sucesso ::
               Closed(a).0.sucesso <==> a.montanteTotal <= Sum(bids))
       <==> InRange(Sum(bids)) || (Sum(bids) > 0 && Sum(bids) % TWO_TO_THE_32 == TWO_TO_THE_31 - 1)
  {
    hide Total, Sum, Allocation, InRange;
    VerdictAlwaysRight(bids);
    if forall a: Auction | a.licitacoes == bids && !a.sucesso :: Closed(a).0.sucesso <==> a.montanteTotal <= Sum(bids) {
      forall m: Int32 ensures VerdictRight(bids, m) {
        var a := Auction(0.0, m, "", false, bids);
        assert Closed(a).0.sucesso <==> m <= Sum(bids);
      }
    }
  }

  // With the wrap-around of int an auction can miss its own success: two bids of
  // two thousand million each against one thousand million wanted.
  lemma MissedSuccess()
    ensures var b := Licitacao("a", 0.1, 2_000_000_000); var a := Auction(0.2, 1_000_000_000, "x", false, [b, b]);
      Sum(a.licitacoes) >= a.montanteTotal && !Closed(a).0.sucesso
  {
    var b := Licitacao("a", 0.1, 2_000_000_000);
    assert [b, b][..1] == [b] && [b][..0] == [];
    assert Sum([b]) == 2_000_000_000 && Total([b]) == 2_000_000_000;
  }

  // When the amount bid fits an int, an auction closes with success exactly when
  // the bids cover the amount wanted; without success it goes into the history as
  // it was.  With success, and no overflow in the loop, it keeps enough of the
  // cheapest bids, which are sent along if others were dropped.
  lemma ClosedFairly(a: Auction)
    requires !a.sucesso && InRange(Sum(a.licitacoes))
    ensures var (c, list) := Closed(a); var bids := a.licitacoes;
      && (c.sucesso <==> Sum(bids) >= a.montanteTotal) && c == a.(sucesso := c.sucesso, licitacoes := c.licitacoes)
      && (!c.sucesso ==> c == a && list == None)
      && (c.sucesso && NoOverflow(Sorted(bids)) ==>
            && Fair(bids, a.montanteTotal, c.licitacoes, |c.licitacoes| < |bids|)
            && list == if |c.licitacoes| < |bids| then Some(c.licitacoes) else None)
  {
    hide Sum, Total, Allocation, NoOverflow, InRange, Sorted;
    TotalIsSum(a.licitacoes);
    if NoOverflow(Sorted(a.licitacoes)) && Sum(a.licitacoes) >= a.montanteTotal {
      AllocationFair(a.licitacoes, a.montanteTotal);
    }
  }

  // TerminaLeilao.run, a minute after the auction has opened.
  function Termina(b: Books, nome: Nome): Outcome
    requires nome in b && b[nome].open.Some?
  {
    var c := b[nome];
    var (a, list) := Closed(c.open.value.auction);
    Outcome(b[nome := Company(c.history + [a], None)], true,
            [PutLeilao(nome, c.open.value.id, false, a.sucesso, list)])
  }

  // --- What a request comes to ---

  ghost predicate OnlyAt(b: Books, b': Books, nome: Nome) {
    b'.Keys == b.Keys && forall n | n in b && n != nome :: b'[n] == b[n]
  }

  // An auction is opened exactly if none is open and the amount is a multiple of 1000;
  // it starts without bids under the number of those before it.
  lemma LeilaoMeans(b: Books, nome: Nome, quantia: Int32, juro: real)
    requires nome in b
    ensures var o := Leilao(b, nome, quantia, juro); var c := b[nome];
      && (o.ok <==> c.open.None? && quantia % 1000 == 0)
      && (!o.ok ==> o.books == b && o.requests == [])
      && (o.ok ==>
            && OnlyAt(b, o.books, nome) && o.books[nome].history == c.history && o.books[nome].open.Some?
            && var x := o.books[nome].open.value;
            && x.id == |c.history| && x.auction.taxaMaxima == juro && x.auction.montanteTotal == quantia
            && x.auction.empresa == nome && !x.auction.sucesso && x.auction.licitacoes == []
            && o.requests == [PostLeilao(nome, x.id, juro, quantia)])
  {
  }

  // A bid is taken exactly if an auction is open, its rate is below the highest one and
  // its amount a multiple of 100; it becomes the last bid and nothing else changes.
  lemma LicitarMeans(b: Books, nome: Nome, investidor: string, quantia: Int32, juro: real)
    requires nome in b
    ensures var o := Licitar(b, nome, investidor, quantia, juro); var c := b[nome];
      && (o.ok <==> c.open.Some? && juro < c.open.value.auction.taxaMaxima && quantia % 100 == 0)
      && (!o.ok ==> o.books == b && o.requests == [])
      && (o.ok ==>
            && OnlyAt(b, o.books, nome) && o.books[nome].history == c.history && o.books[nome].open.Some?
            && var x, a := o.books[nome].open.value, c.open.value.auction;
            && x.id == c.open.value.id && x.auction == a.(licitacoes := x.auction.licitacoes)
            && |x.auction.licitacoes| == |a.licitacoes| + 1
            && x.auction.licitacoes[..|a.licitacoes|] == a.licitacoes
            && var bid := x.auction.licitacoes[|a.licitacoes|];
            && bid.investidor == investidor && bid.taxa == juro && bid.quantia == quantia
            && o.requests == [PostLicitacao(nome, |c.history|, |a.licitacoes|, bid)])
  {
  }

  // A closing moves the open auction to the end of the history.  Its flag says whether
  // the amount wanted is reached by the bids, added up as an int; the bids kept are some
  // of those made, and fair if nothing overflows; flag and, exactly if bids were
  // dropped, those kept are sent along.
  lemma TerminaMeans(b: Books, nome: Nome)
    requires nome in b && b[nome].open.Some? && !b[nome].open.value.auction.sucesso
    ensures var o, c, x := Termina(b, nome), b[nome], b[nome].open.value; var n, old_ := |c.history|, x.auction;
      var bids := old_.licitacoes;
      && o.ok && OnlyAt(b, o.books, nome) && o.books[nome].open == None
      && |o.books[nome].history| == n + 1 && o.books[nome].history[..n] == c.history
      && var a := o.books[nome].history[n];
      && a.taxaMaxima == old_.taxaMaxima && a.montanteTotal == old_.montanteTotal && a.empresa == old_.empresa
      && (forall w: Int32 | WrapsTo(Sum(bids), w) :: a.sucesso <==> a.montanteTotal <= w)
      && (InRange(Sum(bids)) ==> (a.sucesso <==> a.montanteTotal <= Sum(bids)))
      && multiset(a.licitacoes) <= multiset(bids) && (!a.sucesso || |a.licitacoes| == |bids| ==> a.licitacoes == bids)
      && (a.sucesso && InRange(Sum(bids)) && NoOverflow(Sorted(bids)) ==>
            Fair(bids, a.montanteTotal, a.licitacoes, |a.licitacoes| < |bids|))
      && o.requests == [PutLeilao(nome, x.id, false, a.sucesso,
                                  if |a.licitacoes| < |bids| then Some(a.licitacoes) else None)]
  {
    hide Total, Sum, Allocation, InRange, NoOverflow, Sorted, Fair;
    var a := b[nome].open.value.auction;
    AllocationKeeps(a.licitacoes, a.montanteTotal);
    TotalIsSum(a.licitacoes);
    forall w: Int32 | WrapsTo(Sum(a.licitacoes), w) ensures w == Total(a.licitacoes) {
      TotalIsTheWrap(a.licitacoes, w);
    }
    if InRange(Sum(a.licitacoes)) { ClosedFairly(a); }
  }

  // --- The directory ---

  // The ids of a list that comes from the exchange are not set.
  function Copied(bids: Bids): (r: seq<BidCopy>)
    ensures |r| == |bids|
  {
    seq(|bids|, i requires 0 <= i < |bids| => BidCopy(0, bids[i]))
  }

  // What postLeilaoLicitacao and putLeilaoSucesso make of an auction.
  function Replaced(x: AuctionCopy, r: Request): AuctionCopy
    requires !r.PostLeilao?
  {
    match r
    case PostLicitacao(_, _, idL, bid) => x.(licitacoes := x.licitacoes + [BidCopy(idL, bid)])
    case PutLeilao(_, _, ativo, sucesso, bids) =>
      var y := x.(sucesso := sucesso, ativo := ativo);
      if bids.Some? then y.(licitacoes := Copied(bids.value)) else y
  }

  // None is an index out of bounds.  postLeilao stores the rate found in juro,
  // which a new auction leaves at zero.
  function Apply(d: Copies, r: Request): Option<Copies>
    requires r.nome in d
  {
    var list := d[r.nome];
    match r
    case PostLeilao(nome, id, _, montanteTotal) =>
      Some(d[nome := list + [AuctionCopy(id, 0.0, montanteTotal, nome, false, true, [])]])
    case _ =>
      if 0 <= r.id < |list| then Some(d[r.nome := list[r.id := Replaced(list[r.id], r)]]) else None
  }

  // --- The copy is a copy ---

  ghost predicate SameBids(bids: Bids, copies: seq<BidCopy>) {
    |copies| == |bids| && forall i | 0 <= i < |bids| :: copies[i].bid == bids[i]
  }

  // Up to the ids of bids and the highest rate.
  ghost predicate SameAuction(a: Auction, x: AuctionCopy, i: nat) {
    && x.id == i && x.montanteTotal == a.montanteTotal && x.empresa == a.empresa && x.sucesso == a.sucesso
    && SameBids(a.licitacoes, x.licitacoes)
  }

  // While an auction is open its bids are numbered.
  ghost predicate Numbered(copies: seq<BidCopy>) {
    forall i | 0 <= i < |copies| :: copies[i].id == i
  }

  // The auctions of a company are its history and then the open one.
  ghost predicate Mirrors(c: Company, copies: seq<AuctionCopy>) {
    var n := |c.history|;
    && |copies| == n + (if c.open.Some? then 1 else 0)
    && (forall i | 0 <= i < n :: SameAuction(c.history[i], copies[i], i) && !copies[i].ativo)
    && (c.open.Some? ==>
          && c.open.value.id == n && SameAuction(c.open.value.auction, copies[n], n)
          && copies[n].ativo && !copies[n].sucesso && Numbered(copies[n].licitacoes))
    && (forall x | x in copies :: x.taxaMaxima == 0.0)
  }

  ghost predicate Mirror(b: Books, d: Copies) {
    b.Keys == d.Keys && forall n | n in b :: Mirrors(b[n], d[n])
  }

  lemma LeilaoMirrors(c: Company, copies: seq<AuctionCopy>, a: Auction)
    requires Mirrors(c, copies) && c.open.None? && !a.sucesso && a.licitacoes == []
    ensures var n := |c.history|;
      Mirrors(c.(open := Some(OpenAuction(a, n))),
              copies + [AuctionCopy(n, 0.0, a.montanteTotal, a.empresa, false, true, [])])
  {
  }

  lemma LicitarMirrors(c: Company, copies: seq<AuctionCopy>, bid: Licitacao)
    requires Mirrors(c, copies) && c.open.Some?
    ensures var n, o := |c.history|, c.open.value; var x := copies[n];
      Mirrors(c.(open := Some(o.(auction := o.auction.(licitacoes := o.auction.licitacoes + [bid])))),
              copies[n := x.(licitacoes := x.licitacoes + [BidCopy(|o.auction.licitacoes|, bid)])])
  {
  }

  lemma TerminaMirrors(c: Company, copies: seq<AuctionCopy>)
    requires Mirrors(c, copies) && c.open.Some?
    ensures var n := |c.history|; var (a, list) := Closed(c.open.value.auction);
      var x := copies[n].(sucesso := a.sucesso, ativo := false);
      Mirrors(Company(c.history + [a], None),
              copies[n := if list.Some? then x.(licitacoes := Copied(list.value)) else x])
  {
    var a0 := c.open.value.auction;
    hide Allocation, Total;
    UndroppedSame(a0.licitacoes, a0.montanteTotal);
  }

  lemma UndroppedSame(bids: Bids, montante: Int32)
    ensures !Allocation(bids, montante).1 ==> Allocation(bids, montante).0 == bids
  {
  }

  // --- Runs: each request to the exchange, and each closing, is one step ---

  datatype Step =
    | OpenStep(nome: Nome, quantia: Int32, juro: real)
    | BidStep(nome: Nome, investidor: string, quantia: Int32, juro: real)
    | CloseStep(nome: Nome)

  predicate Enabled(b: Books, s: Step) {
    s.nome in b && (s.CloseStep? ==> b[s.nome].open.Some?)
  }

  function Exchanged(b: Books, s: Step): Outcome
    requires Enabled(b, s)
  {
    match s
    case OpenStep(nome, quantia, juro) => Leilao(b, nome, quantia, juro)
    case BidStep(nome, investidor, quantia, juro) => Licitar(b, nome, investidor, quantia, juro)
    case CloseStep(nome) => Termina(b, nome)
  }

  // The directory carries the requests out one after the other.
  function ApplyAll(d: Copies, rs: seq<Request>): Option<Copies> {
    if rs == [] then Some(d)
    else if rs[0].nome !in d then None
    else match Apply(d, rs[0]) case None => None case Some(e) => ApplyAll(e, rs[1..])
  }

  function Run(b: Books, d: Copies, steps: seq<Step>): Option<(Books, Copies)>
    decreases |steps|
  {
    if steps == [] then Some((b, d))
    else if !Enabled(b, steps[0]) then Run(b, d, steps[1..])
    else
      var o := Exchanged(b, steps[0]);
      match ApplyAll(d, o.requests) case None => None case Some(e) => Run(o.books, e, steps[1..])
  }

  lemma StepMirrors(b: Books, d: Copies, s: Step)
    requires Mirror(b, d) && Enabled(b, s)
    ensures var o := Exchanged(b, s); var e := ApplyAll(d, o.requests); e.Some? && Mirror(o.books, e.value)
  {
    var c, copies := b[s.nome], d[s.nome];
    assert Mirrors(c, copies);
    var o := Exchanged(b, s);
    if o.requests != [] {
      assert o.requests[1..] == [];
      var r := o.requests[0];
      match s {
        case OpenStep(nome, quantia, juro) => LeilaoMirrors(c, copies, Auction(juro, quantia, nome, false, []));
        case BidStep(nome, investidor, quantia, juro) => LicitarMirrors(c, copies, Licitacao(investidor, juro, quantia));
        case CloseStep(nome) => TerminaMirrors(c, copies);
      }
      var e := Apply(d, r).value;
      hide Mirrors, Closed;
      forall n | n in o.books ensures Mirrors(o.books[n], e[n]) {
        if n != s.nome { assert Mirrors(b[n], d[n]); }
      }
    }
  }

  lemma {:induction false} RunMirrors(b: Books, d: Copies, steps: seq<Step>)
    requires Mirror(b, d)
    ensures var r := Run(b, d, steps); r.Some? && Mirror(r.value.0, r.value.1)
    decreases |steps|
  {
    hide Mirror, Exchanged, ApplyAll;
    if steps != [] {
      if Enabled(b, steps[0]) {
        StepMirrors(b, d, steps[0]);
        var o := Exchanged(b, steps[0]);
        RunMirrors(o.books, ApplyAll(d, o.requests).value, steps[1..]);
      } else {
        RunMirrors(b, d, steps[1..]);
      }
    }
  }

  // --- What every auction on the books is like ---

  predicate Sold(a: Auction) {
    a.montanteTotal % 1000 == 0 && forall x | x in a.licitacoes :: x.taxa < a.taxaMaxima && x.quantia % 100 == 0
  }

  ghost predicate Sound(c: Company) {
    && (c.open.Some? ==> Sold(c.open.value.auction) && !c.open.value.auction.sucesso)
    && forall a | a in c.history :: Sold(a) && (a.sucesso <==> a.montanteTotal <= Total(a.licitacoes))
  }

  ghost predicate AllSound(b: Books) { forall n | n in b :: Sound(b[n]) }

  lemma ClosedSound(a: Auction)
    requires Sold(a) && !a.sucesso
    ensures var c := Closed(a).0; Sold(c) && (c.sucesso <==> c.montanteTotal <= Total(c.licitacoes))
  {
    hide Total, Allocation;
    AllocationKeeps(a.licitacoes, a.montanteTotal);
    var c := Closed(a).0;
    forall x | x in c.licitacoes ensures x in a.licitacoes {
      assert x in multiset(c.licitacoes);
      assert x in multiset(a.licitacoes);
    }
  }

  lemma StepSound(b: Books, s: Step)
    requires AllSound(b) && Enabled(b, s)
    ensures AllSound(Exchanged(b, s).books)
  {
    hide Total, Closed;
    var c := b[s.nome];
    assert Sound(c);
    if s.CloseStep? { ClosedSound(c.open.value.auction); }
    forall n | n in Exchanged(b, s).books ensures Sound(Exchanged(b, s).books[n]) {
      if n != s.nome { assert Sound(b[n]); }
    }
  }

  lemma {:induction false} RunSound(b: Books, d: Copies, steps: seq<Step>)
    requires AllSound(b) && Run(b, d, steps).Some?
    ensures AllSound(Run(b, d, steps).value.0)
    decreases |steps|
  {
    hide AllSound, Exchanged, ApplyAll;
    if steps != [] {
      if Enabled(b, steps[0]) {
        StepSound(b, steps[0]);
        var o := Exchanged(b, steps[0]);
        RunSound(o.books, ApplyAll(d, o.requests).value, steps[1..]);
      } else {
        RunSound(b, d, steps[1..]);
      }
    }
  }

  // Whatever is in a history: amounts are multiples of 1000 and 100, every bid kept is
  // below the highest rate, and unless the bids kept add up beyond an int the flag says
  // whether they cover the amount wanted.
  lemma HistoryMeans(companies: set<Nome>, steps: seq<Step>, n: Nome, i: nat)
    requires n in companies
    ensures var b := map n | n in companies :: Company([], None);
      var d := map n | n in companies :: [];
      var r := Run(b, d, steps);
      && r.Some? && n in r.value.0
      && (i < |r.value.0[n].history| ==>
            var a := r.value.0[n].history[i];
            && a.montanteTotal % 1000 == 0 && (forall x | x in a.licitacoes :: x.taxa < a.taxaMaxima && x.quantia % 100 == 0)
            && (InRange(Sum(a.licitacoes)) ==> (a.sucesso <==> a.montanteTotal <= Sum(a.licitacoes))))
  {
    var b, d := map n | n in companies :: Company([], None), map n | n in companies :: [];
    EveryRun(companies, steps);
    RunKeys(b, d, steps);
    RunSound(b, d, steps);
    var e := Run(b, d, steps).value.0;
    assert Sound(e[n]);
    if i < |e[n].history| {
      assert e[n].history[i] in e[n].history;
      TotalIsSum(e[n].history[i].licitacoes);
    }
  }

  lemma {:induction false} RunKeys(b: Books, d: Copies, steps: seq<Step>)
    ensures Run(b, d, steps).Some? ==> Run(b, d, steps).value.0.Keys == b.Keys
    decreases |steps|
  {
    hide ApplyAll, Closed;
    if steps != [] {
      if Enabled(b, steps[0]) {
        var o := Exchanged(b, steps[0]);
        assert o.books.Keys == b.Keys;
        var e := ApplyAll(d, o.requests);
        if e.Some? { RunKeys(o.books, e.value, steps[1..]); }
      } else {
        RunKeys(b, d, steps[1..]);
      }
    }
  }

  // From companies without auctions on, the directory is at every moment the
  // history of each company and then its open auction, id and index agreeing, and
  // no request it is sent ever misses.
  lemma EveryRun(companies: set<Nome>, steps: seq<Step>)
    ensures var b := map n | n in companies :: Company([], None);
      var d := map n | n in companies :: [];
      var r := Run(b, d, steps);
      r.Some? && Mirror(r.value.0, r.value.1)
  {
    RunMirrors(map n | n in companies :: Company([], None), map n | n in companies :: [], steps);
  }
}
