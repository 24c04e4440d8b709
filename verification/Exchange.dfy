/** Exchange and TerminaLeilao as objects that share auctions through two maps. */
module Exchanges {
  import opened Basics
  import opened Auctions
  import B = BooksAndCopies

  function Value(l: Leilao): B.Auction
    reads l
  {
    B.Auction(l.taxaMaxima, l.montanteTotal, l.empresa, l.sucesso, l.licitacoes)
  }

  function Values(ls: seq<Leilao>): (r: seq<B.Auction>)
    reads ls
    ensures |r| == |ls| && forall i | 0 <= i < |ls| :: r[i] == Value(ls[i])
  {
    if ls == [] then [] else Values(ls[..|ls| - 1]) + [Value(ls[|ls| - 1])]
  }

  twostate lemma ValuesSame(ls: seq<Leilao>)
    requires forall l | l in ls :: unchanged(l)
    ensures Values(ls) == old(Values(ls))
  {
    forall i | 0 <= i < |ls| ensures Values(ls)[i] == old(Values(ls))[i] {
      assert ls[i] in ls;
    }
  }

  class Exchange {
    var leiloes: map<Nome, Leilao>         // the open auctions
    var historico: map<Nome, seq<Leilao>>  // historicoLeiloes of each company
    var timers: map<Nome, nat>             // the idL of each waiting TerminaLeilao

    ghost function Past(): set<Leilao>
      reads this
    {
      set n, l | n in historico && l in historico[n] :: l
    }

    ghost function Objects(): set<Leilao>
      reads this
    {
      Past() + leiloes.Values
    }

    // No auction is open for two companies, or open and closed.
    ghost predicate Valid()
      reads this
    {
      && leiloes.Keys == timers.Keys && leiloes.Keys <= historico.Keys
      && (forall n | n in leiloes :: leiloes[n] !in Past())
      && (forall m, n | m in leiloes && n in leiloes && m != n :: leiloes[m] != leiloes[n])
    }

    ghost function Company(n: Nome): B.Company
      requires Valid() && n in historico
      reads this, Objects()
    {
      assert forall l | l in historico[n] :: l in Past();
      assert n in leiloes ==> leiloes[n] in leiloes.Values;
      B.Company(Values(historico[n]),
                if n in leiloes then Some(B.OpenAuction(Value(leiloes[n]), timers[n])) else None)
    }

    lemma InPast(n: Nome)
      requires n in historico
      ensures forall l | l in historico[n] :: l in Past()
    {
    }

    // A company none of whose auctions has changed, in whatever map they are.
    twostate lemma CompanySame(n: Nome)
      requires old(Valid()) && Valid() && n in old(historico) && n in historico && historico[n] == old(historico)[n]
      requires n in leiloes <==> n in old(leiloes)
      requires n in leiloes ==> leiloes[n] == old(leiloes)[n] && timers[n] == old(timers)[n] && unchanged(leiloes[n])
      requires forall l | l in old(historico)[n] :: unchanged(l)
      ensures Company(n) == old(Company(n))
    {
      ValuesSame(historico[n]);
    }

    ghost function View(): B.Books
      requires Valid()
      reads this, Objects()
    {
      map n | n in historico :: Company(n)
    }

    // Only what belongs to nome has changed.
    twostate predicate OthersUntouched(nome: Nome)
      reads this, leiloes.Values, Past()
    {
      && old(historico).Keys == historico.Keys
      && forall n | n in historico && n != nome ::
           && historico[n] == old(historico)[n]
           && (n in leiloes <==> n in old(leiloes))
           && (n in leiloes ==>
                 && n in timers && n in old(timers) && leiloes[n] == old(leiloes)[n]
                 && timers[n] == old(timers)[n] && unchanged(leiloes[n]))
           && forall l | l in old(historico)[n] :: unchanged(l)
    }

    twostate lemma OthersSame(nome: Nome)
      requires old(Valid()) && Valid() && nome in historico && OthersUntouched(nome)
      ensures View() == old(View())[nome := Company(nome)]
    {
      forall n | n in historico && n != nome ensures Company(n) == old(Company(n)) {
        CompanySame(n);
      }
    }

    // The one open auction of nome has changed, and the maps at nome.
    twostate lemma TouchedOnly(nome: Nome)
      requires old(Valid()) && nome in old(leiloes)
      requires historico.Keys == old(historico).Keys
      requires forall n | n in historico && n != nome :: historico[n] == old(historico)[n]
      requires forall n | n != nome :: n in leiloes <==> n in old(leiloes)
      requires forall n | n in leiloes && n != nome :: leiloes[n] == old(leiloes)[n]
      requires forall n | n in leiloes && n != nome :: n in timers && timers[n] == old(timers)[n]
      requires forall l | l in old(Objects()) && l != old(leiloes)[nome] :: unchanged(l)
      ensures OthersUntouched(nome)
    {
      forall n, l | n in old(historico) && n != nome && l in old(historico)[n] ensures unchanged(l) {
        assert l in old(Past()) && l in old(Objects());
      }
      forall n | n in leiloes && n != nome ensures unchanged(leiloes[n]) {
        assert leiloes[n] in old(leiloes.Values) && leiloes[n] in old(Objects());
      }
    }

    lemma InView(n: Nome)
      requires Valid() && n in historico
      ensures n in View() && View()[n] == Company(n)
    {
    }

    constructor (nomes: set<Nome>)
      ensures Valid() && View() == map n | n in nomes :: B.Company([], None)
    {
      leiloes, timers := map[], map[];
      historico := map n | n in nomes :: [];
    }

    method Licitar(nome: Nome, investidor: string, quantia: Int32, juro: real)
        returns (ok: bool, requests: seq<B.Request>)
      requires Valid() && nome in historico
      modifies leiloes.Values
      ensures Valid() && B.Outcome(View(), ok, requests) == B.Licitar(old(View()), nome, investidor, quantia, juro)
    {
      hide Exchange.View, OthersUntouched;
      InView(nome);
      if nome in leiloes {
        var leilaoAtual := leiloes[nome];
        assert leilaoAtual in leiloes.Values;
        if juro < leilaoAtual.taxaMaxima && quantia % 100 == 0 {
          var licitacao := Licitacao(investidor, juro, quantia);
          leilaoAtual.licitacoes := leilaoAtual.licitacoes + [licitacao];
          requests := [B.PostLicitacao(nome, |historico[nome]|, |leilaoAtual.licitacoes| - 1, licitacao)];
          InPast(nome);
          ValuesSame(historico[nome]);
          TouchedOnly(nome);
          OthersSame(nome);
          return true, requests;
        }
      }
      return false, [];
    }

    // The closing thread is started with the number of closed auctions.
    method Leilao(nome: Nome, quantia: Int32, juro: real) returns (ok: bool, requests: seq<B.Request>)
      requires Valid() && nome in historico
      modifies this
      ensures Valid() && B.Outcome(View(), ok, requests) == B.Leilao(old(View()), nome, quantia, juro)
    {
      if nome !in leiloes && quantia % 1000 == 0 {
        var leilao := new Leilao(juro, quantia, nome);
        leiloes := leiloes[nome := leilao];
        var idL := |historico[nome]|;
        timers := timers[nome := idL];
        requests := [B.PostLeilao(nome, idL, juro, quantia)];
        ValuesSame(historico[nome]);
        OthersSame(nome);
        return true, requests;
      }
      return false, [];
    }

    // The open auction of nome, changed or not, has gone into the history.
    twostate lemma Recorded(nome: Nome)
      requires old(Valid()) && Valid() && nome in old(leiloes)
      requires leiloes == old(leiloes) - {nome} && timers == old(timers) - {nome}
      requires historico == old(historico)[nome := old(historico)[nome] + [old(leiloes)[nome]]]
      requires forall l | l in old(Objects()) && l != old(leiloes)[nome] :: unchanged(l)
      ensures View() == old(View())[nome := B.Company(old(Company(nome)).history + [Value(old(leiloes)[nome])], None)]
    {
      hide Exchange.View, OthersUntouched;
      forall l | l in old(historico)[nome] ensures unchanged(l) {
        assert l in old(Past()) && l in old(Objects());
      }
      ValuesSame(old(historico)[nome]);
      Appended(old(historico)[nome], old(leiloes)[nome]);
      TouchedOnly(nome);
      OthersSame(nome);
    }

    // TerminaLeilao.run after its sleep: the auction is taken out of the map first,
    // changed, and added to the history.
    method Termina(nome: Nome) returns (requests: seq<B.Request>)
      requires Valid() && nome in leiloes
      modifies this, leiloes.Values
      ensures Valid() && nome in old(View()) && old(View())[nome].open.Some?
      ensures B.Outcome(View(), true, requests) == B.Termina(old(View()), nome)
    {
      hide Total, Allocation, B.Closed, Exchange.View, OthersUntouched;
      InView(nome);
      var leilao := leiloes[nome];
      assert leilao in leiloes.Values;
      leiloes := leiloes - {nome};
      var list := Close(leilao);
      historico := historico[nome := historico[nome] + [leilao]];
      requests := [B.PutLeilao(nome, timers[nome], false, leilao.sucesso, list)];
      timers := timers - {nome};
      Recorded(nome);
    }
  }

  lemma Appended(ls: seq<Leilao>, l: Leilao)
    ensures Values(ls + [l]) == Values(ls) + [Value(l)]
  {
    assert (ls + [l])[..|ls|] == ls;
  }

  method Close(leilao: Leilao) returns (list: Option<Bids>)
    modifies leilao
    ensures (Value(leilao), list) == B.Closed(old(Value(leilao)))
  {
    hide Total, Allocation;
    list := None;
    var investimento := leilao.GetInvestimentoTotal();
    if leilao.montanteTotal <= investimento {
      leilao.sucesso := true;
      var dropped := leilao.AlocaInvestidores();
      if dropped {
        list := Some(leilao.licitacoes);
      }
    }
  }
}
