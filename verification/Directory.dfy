/** The POST and PUT handlers of the directory, on lists of auction objects. */
module Directories {
  import opened Basics
  import opened Auctions
  import B = BooksAndCopies

  // Directory/Representations/Leilao.java.
  class Leilao {
    const id: int
    const taxaMaxima: real
    const montanteTotal: Int32
    const empresa: Nome
    var sucesso: bool
    var ativo: bool
    var licitacoes: seq<B.BidCopy>

    constructor (id_: int, taxaMaxima_: real, montanteTotal_: Int32, empresa_: Nome, sucesso_: bool, ativo_: bool)
      ensures Value() == B.AuctionCopy(id_, taxaMaxima_, montanteTotal_, empresa_, sucesso_, ativo_, [])
    {
      id, taxaMaxima, montanteTotal, empresa := id_, taxaMaxima_, montanteTotal_, empresa_;
      sucesso, ativo, licitacoes := sucesso_, ativo_, [];
    }

    method Bid(r: B.Request)
      requires r.PostLicitacao?
      modifies this
      ensures Value() == B.Replaced(old(Value()), r)
    {
      licitacoes := licitacoes + [B.BidCopy(r.idL, r.bid)];
    }

    method Close(r: B.Request)
      requires r.PutLeilao?
      modifies this
      ensures Value() == B.Replaced(old(Value()), r)
    {
      sucesso := r.sucesso;
      ativo := r.ativo;
      if r.licitacoes.Some? {
        licitacoes := B.Copied(r.licitacoes.value);
      }
    }

    ghost function Value(): B.AuctionCopy
      reads this
    {
      B.AuctionCopy(id, taxaMaxima, montanteTotal, empresa, sucesso, ativo, licitacoes)
    }
  }

  ghost function Values(ls: seq<Leilao>): (r: seq<B.AuctionCopy>)
    reads ls
    ensures |r| == |ls| && forall i | 0 <= i < |ls| :: r[i] == ls[i].Value()
  {
    if ls == [] then [] else Values(ls[..|ls| - 1]) + [ls[|ls| - 1].Value()]
  }

  ghost predicate NoneShared(a: seq<Leilao>, b: seq<Leilao>) {
    forall l | l in a :: l !in b
  }

  // All auctions of all companies are different objects.
  ghost predicate Apart(lists: map<Nome, seq<Leilao>>) {
    && (forall n | n in lists :: Distinct(lists[n]))
    && (forall m, n | m in lists && n in lists && m != n :: NoneShared(lists[m], lists[n]))
  }

  twostate lemma ValuesSame(ls: seq<Leilao>)
    requires forall l | l in ls :: unchanged(l)
    ensures Values(ls) == old(Values(ls))
  {
    forall i | 0 <= i < |ls| ensures Values(ls)[i] == old(Values(ls))[i] {
      assert ls[i] in ls;
    }
  }

  twostate lemma OneTouched(ls: seq<Leilao>, new i: nat)
    requires i < |ls| && Distinct(ls)
    requires forall l | l in ls && l != ls[i] :: unchanged(l)
    ensures Values(ls) == old(Values(ls))[i := ls[i].Value()]
  {
    forall k | 0 <= k < |ls| && k != i ensures Values(ls)[k] == old(Values(ls))[k] {
      assert ls[k] in ls;
    }
  }

  class Directory {
    var empresas: map<Nome, seq<Leilao>>  // historicoLeiloes of each company

    ghost function Objects(): set<Leilao>
      reads this
    {
      set n, l | n in empresas && l in empresas[n] :: l
    }

    ghost predicate Valid()
      reads this
    {
      Apart(empresas)
    }

    ghost function Auctions(n: Nome): seq<B.AuctionCopy>
      requires n in empresas
      reads this, Objects()
    {
      assert forall l | l in empresas[n] :: l in Objects();
      Values(empresas[n])
    }

    ghost function View(): B.Copies
      reads this, Objects()
    {
      map n | n in empresas :: Auctions(n)
    }

    constructor (nomes: set<Nome>)
      ensures Valid() && View() == map n | n in nomes :: []
    {
      empresas := map n | n in nomes :: [];
    }

    // The lists of other companies, and what is in them, are as before.
    twostate predicate OthersUntouched(nome: Nome)
      reads this, Objects()
    {
      && old(empresas).Keys == empresas.Keys
      && forall n | n in empresas && n != nome ::
           && empresas[n] == old(empresas)[n]
           && forall l | l in old(empresas)[n] :: unchanged(l)
    }

    twostate lemma AuctionsSame(n: Nome)
      requires n in old(empresas) && n in empresas && empresas[n] == old(empresas)[n]
      requires forall l | l in old(empresas)[n] :: unchanged(l)
      ensures Auctions(n) == old(Auctions(n))
    {
      ValuesSame(empresas[n]);
    }

    twostate lemma OthersSame(nome: Nome)
      requires nome in empresas && OthersUntouched(nome)
      ensures View() == old(View())[nome := Auctions(nome)]
    {
      hide Directory.Auctions, Values;
      forall n | n in empresas && n != nome ensures Auctions(n) == old(Auctions(n)) {
        AuctionsSame(n);
      }
    }

    lemma InView(n: Nome)
      requires n in empresas
      ensures n in View() && View()[n] == Auctions(n)
    {
    }

    // The auction at i of nome has changed.
    twostate lemma TouchedOnly(nome: Nome, new i: nat)
      requires old(Valid()) && empresas == old(empresas) && nome in empresas && i < |empresas[nome]|
      requires forall l | l in old(Objects()) && l != empresas[nome][i] :: unchanged(l)
      ensures OthersUntouched(nome)
    {
      forall n, l | n in empresas && n != nome && l in empresas[n] ensures unchanged(l) {
        assert l in old(Objects()) && NoneShared(empresas[n], empresas[nome]);
      }
    }

    lemma ValidAt(n: Nome)
      requires Valid() && n in empresas
      ensures Distinct(empresas[n]) && forall l | l in empresas[n] :: l in Objects()
    {
    }

    method PostLeilao(r: B.Request)
      requires Valid() && r.PostLeilao? && r.nome in empresas
      modifies this
      ensures Valid() && r.nome in old(View()) && B.Apply(old(View()), r) == Some(View())
    {
      hide Directory.View;
      InView(r.nome);
      var juro := 0.0;
      var leilao := new Leilao(r.id, juro, r.montanteTotal, r.nome, false, true);
      ghost var before := empresas[r.nome];
      ValuesSame(before);
      Appended(before, leilao);
      empresas := empresas[r.nome := empresas[r.nome] + [leilao]];
      OthersSame(r.nome);
    }

    // false is an index out of bounds.
    method PostLeilaoLicitacao(r: B.Request) returns (ok: bool)
      requires Valid() && r.PostLicitacao? && r.nome in empresas
      modifies Objects()
      ensures Valid() && r.nome in old(View()) && B.Apply(old(View()), r) == if ok then Some(View()) else None
    {
      hide B.Replaced, Directory.View, OthersUntouched, Apart, Distinct, Values;
      InView(r.nome);
      ValidAt(r.nome);
      var list := empresas[r.nome];
      if !(0 <= r.id < |list|) {
        return false;
      }
      var leilao := list[r.id];
      leilao.Bid(r);
      OneTouched(list, r.id);
      TouchedOnly(r.nome, r.id);
      OthersSame(r.nome);
      return true;
    }

    method PutLeilaoSucesso(r: B.Request) returns (ok: bool)
      requires Valid() && r.PutLeilao? && r.nome in empresas
      modifies Objects()
      ensures Valid() && r.nome in old(View()) && B.Apply(old(View()), r) == if ok then Some(View()) else None
    {
      hide B.Replaced, Directory.View, OthersUntouched, Apart, Distinct, Values;
      InView(r.nome);
      ValidAt(r.nome);
      var list := empresas[r.nome];
      if !(0 <= r.id < |list|) {
        return false;
      }
      var leilao := list[r.id];
      leilao.Close(r);
      OneTouched(list, r.id);
      TouchedOnly(r.nome, r.id);
      OthersSame(r.nome);
      return true;
    }
  }

  lemma Appended(ls: seq<Leilao>, l: Leilao)
    ensures Values(ls + [l]) == Values(ls) + [l.Value()]
  {
    assert (ls + [l])[..|ls|] == ls;
  }
}
