/** The keyword knowledge base of the heuristic strategy (KEYWORDS in
    app/resources.py): five categories, each with its list of trigger terms,
    in the order the table is written. */
module Keywords {
  import opened Text
  import opened Schemas

  datatype Entry = Entry(category: Category, terms: seq<string>)

  // Each row holds the terms written on one source line of the table.

  const FinanceiroRow1: seq<string> := ["boleto", "pagar", "pagamento", "valor", "honorários"]
  const FinanceiroRow2: seq<string> := ["custas", "fatura", "dinheiro", "reembolso", "nota fiscal"]
  const FinanceiroRow3: seq<string> := ["cobrança", "débito", "crédito", "transferência", "depósito"]
  const FinanceiroRow4: seq<string> := ["juros", "multa", "taxa", "investimento", "orçamento"]
  const FinanceiroRow5: seq<string> := ["custo", "despesa", "receita", "lucro", "prejuízo"]
  const FinanceiroEntry: Entry := Entry(Financeiro,
    FinanceiroRow1 + FinanceiroRow2 + FinanceiroRow3 + FinanceiroRow4 + FinanceiroRow5)

  const ProcessualRow1: seq<string> := ["prazo", "juiz", "audiência", "processo", "liminar"]
  const ProcessualRow2: seq<string> := ["sentença", "recurso", "intimação", "vara", "autos", "dje"]
  const ProcessualRow3: seq<string> := ["apelação", "agravado", "agravante", "juizado", "tribunal"]
  const ProcessualRow4: seq<string> := ["petição", "defesa", "réu", "autor", "sentenciado"]
  const ProcessualRow5: seq<string> := ["moção", "mandado", "citação", "contestação", "execução"]
  const ProcessualEntry: Entry := Entry(Processual,
    ProcessualRow1 + ProcessualRow2 + ProcessualRow3 + ProcessualRow4 + ProcessualRow5)

  const SuporteRow1: seq<string> := ["senha", "login", "acesso", "sistema", "erro", "bug"]
  const SuporteRow2: seq<string> := ["entrar", "site", "nexus", "indisponível", "offline"]
  const SuporteRow3: seq<string> := ["problema técnico", "não funciona", "travado", "lento"]
  const SuporteRow4: seq<string> := ["recuperar senha", "resetar", "autenticação", "permissão"]
  const SuporteRow5: seq<string> := ["crash", "falha", "conexão", "servidor down", "manutenção"]
  const SuporteEntry: Entry := Entry(Suporte,
    SuporteRow1 + SuporteRow2 + SuporteRow3 + SuporteRow4 + SuporteRow5)

  const ComercialRow1: seq<string> := ["proposta", "orçamento", "contratar", "nova causa"]
  const ComercialRow2: seq<string> := ["parceria", "apresentação", "reunião comercial", "cliente novo"]
  const ComercialRow3: seq<string> := ["negócio", "venda", "contrato", "acordo", "oportunidade"]
  const ComercialRow4: seq<string> := ["consultoria", "projeto", "licitação", "fornecedor", "cliente"]
  const ComercialRow5: seq<string> := ["prospecção", "oferta", "desconto", "cancelamento", "contratação"]
  const ComercialEntry: Entry := Entry(Comercial,
    ComercialRow1 + ComercialRow2 + ComercialRow3 + ComercialRow4 + ComercialRow5)

  const AdministrativoRow1: seq<string> := ["agendar", "sala", "reunião", "cópia", "digitalizar"]
  const AdministrativoRow2: seq<string> := ["documento", "certidão", "cartório", "motoboy", "correio"]
  const AdministrativoRow3: seq<string> := ["agendamento", "recurso", "material", "logística", "secretária"]
  const AdministrativoRow4: seq<string> := ["arquivos", "impressão", "scaneamento", "protocolo", "pasta"]
  const AdministrativoRow5: seq<string> := ["solicitação", "administrativo", "gerencial", "coordenação", "organização"]
  const AdministrativoEntry: Entry := Entry(Administrativo,
    AdministrativoRow1 + AdministrativoRow2 + AdministrativoRow3 + AdministrativoRow4 + AdministrativoRow5)

  /** The table in its iteration order, which is also the heuristic's
      tie-break order. */
  const Table: seq<Entry> :=
    [FinanceiroEntry, ProcessualEntry, SuporteEntry, ComercialEntry, AdministrativoEntry]

  /** Position of a category in the table; `Outros`, which has no entry, is
      placed after all of them. */
  function Position(c: Category): (i: nat)
    ensures i <= |Table|
    ensures i < |Table| <==> c != Outros
    ensures i < |Table| ==> Table[i].category == c
  {
    match c
    case Financeiro => 0
    case Processual => 1
    case Suporte => 2
    case Comercial => 3
    case Administrativo => 4
    case Outros => 5
  }

  /** Five categories, in the order Financeiro, Processual, Suporte Técnico,
      Comercial, Administrativo; `Outros` has no entry, and no category has
      two. */
  lemma TableShape()
    ensures |Table| == 5
    ensures Table[0].category == Financeiro
    ensures Table[1].category == Processual
    ensures Table[2].category == Suporte
    ensures Table[3].category == Comercial
    ensures Table[4].category == Administrativo
    ensures forall i :: 0 <= i < |Table| ==> Table[i].category != Outros
    ensures forall i, j :: 0 <= i < j < |Table| ==> Table[i].category != Table[j].category
  {
  }

  /** The number of terms per category. */
  lemma TermCounts()
    ensures |FinanceiroEntry.terms| == 25
    ensures |ProcessualEntry.terms| == 26
    ensures |SuporteEntry.terms| == 24
    ensures |ComercialEntry.terms| == 23
    ensures |AdministrativoEntry.terms| == 25
  {
  }

  // ---------------------------------------------------------------------
  // Every term is stored lower-case and is not empty. The literal check is
  // done one row (one source line of the table) at a time, and naming each
  // term of the row keeps the verifier's search short.

  predicate WellFormedTerms(ts: seq<string>) {
    forall j :: 0 <= j < |ts| ==> |ts[j]| > 0 && IsLowerCase(ts[j])
  }

  lemma WellFormedAppend(a: seq<string>, b: seq<string>)
    requires WellFormedTerms(a) && WellFormedTerms(b)
    ensures WellFormedTerms(a + b)
  {
    forall m | 0 <= m < |a + b|
      ensures |(a + b)[m]| > 0 && IsLowerCase((a + b)[m])
    {
      if m < |a| {
        assert (a + b)[m] == a[m];
      } else {
        assert (a + b)[m] == b[m - |a|];
      }
    }
  }

  lemma FinanceiroRow1WellFormed() ensures WellFormedTerms(FinanceiroRow1) {
    assert IsLowerCase("boleto");
    assert IsLowerCase("pagar");
    assert IsLowerCase("pagamento");
    assert IsLowerCase("valor");
    assert IsLowerCase("honorários");
  }

  lemma FinanceiroRow2WellFormed() ensures WellFormedTerms(FinanceiroRow2) {
    assert IsLowerCase("custas");
    assert IsLowerCase("fatura");
    assert IsLowerCase("dinheiro");
    assert IsLowerCase("reembolso");
    assert IsLowerCase("nota fiscal");
  }

  lemma FinanceiroRow3WellFormed() ensures WellFormedTerms(FinanceiroRow3) {
    assert IsLowerCase("cobrança");
    assert IsLowerCase("débito");
    assert IsLowerCase("crédito");
    assert IsLowerCase("transferência");
    assert IsLowerCase("depósito");
  }

  lemma FinanceiroRow4WellFormed() ensures WellFormedTerms(FinanceiroRow4) {
    assert IsLowerCase("juros");
    assert IsLowerCase("multa");
    assert IsLowerCase("taxa");
    assert IsLowerCase("investimento");
    assert IsLowerCase("orçamento");
  }

  lemma FinanceiroRow5WellFormed() ensures WellFormedTerms(FinanceiroRow5) {
    assert IsLowerCase("custo");
    assert IsLowerCase("despesa");
    assert IsLowerCase("receita");
    assert IsLowerCase("lucro");
    assert IsLowerCase("prejuízo");
  }

  lemma FinanceiroTermsWellFormed()
    ensures WellFormedTerms(FinanceiroEntry.terms)
  {
    FinanceiroRow1WellFormed();
    FinanceiroRow2WellFormed();
    FinanceiroRow3WellFormed();
    FinanceiroRow4WellFormed();
    FinanceiroRow5WellFormed();
    WellFormedAppend(FinanceiroRow1, FinanceiroRow2);
    WellFormedAppend(FinanceiroRow1 + FinanceiroRow2, FinanceiroRow3);
    WellFormedAppend(FinanceiroRow1 + FinanceiroRow2 + FinanceiroRow3, FinanceiroRow4);
    WellFormedAppend(FinanceiroRow1 + FinanceiroRow2 + FinanceiroRow3 + FinanceiroRow4, FinanceiroRow5);
  }

  lemma ProcessualRow1WellFormed() ensures WellFormedTerms(ProcessualRow1) {
    assert IsLowerCase("prazo");
    assert IsLowerCase("juiz");
    assert IsLowerCase("audiência");
    assert IsLowerCase("processo");
    assert IsLowerCase("liminar");
  }

  lemma ProcessualRow2WellFormed() ensures WellFormedTerms(ProcessualRow2) {
    assert IsLowerCase("sentença");
    assert IsLowerCase("recurso");
    assert IsLowerCase("intimação");
    assert IsLowerCase("vara");
    assert IsLowerCase("autos");
    assert IsLowerCase("dje");
  }

  lemma ProcessualRow3WellFormed() ensures WellFormedTerms(ProcessualRow3) {
    assert IsLowerCase("apelação");
    assert IsLowerCase("agravado");
    assert IsLowerCase("agravante");
    assert IsLowerCase("juizado");
    assert IsLowerCase("tribunal");
  }

  lemma ProcessualRow4WellFormed() ensures WellFormedTerms(ProcessualRow4) {
    assert IsLowerCase("petição");
    assert IsLowerCase("defesa");
    assert IsLowerCase("réu");
    assert IsLowerCase("autor");
    assert IsLowerCase("sentenciado");
  }

  lemma ProcessualRow5WellFormed() ensures WellFormedTerms(ProcessualRow5) {
    assert IsLowerCase("moção");
    assert IsLowerCase("mandado");
    assert IsLowerCase("citação");
    assert IsLowerCase("contestação");
    assert IsLowerCase("execução");
  }

  lemma ProcessualTermsWellFormed()
    ensures WellFormedTerms(ProcessualEntry.terms)
  {
    ProcessualRow1WellFormed();
    ProcessualRow2WellFormed();
    ProcessualRow3WellFormed();
    ProcessualRow4WellFormed();
    ProcessualRow5WellFormed();
    WellFormedAppend(ProcessualRow1, ProcessualRow2);
    WellFormedAppend(ProcessualRow1 + ProcessualRow2, ProcessualRow3);
    WellFormedAppend(ProcessualRow1 + ProcessualRow2 + ProcessualRow3, ProcessualRow4);
    WellFormedAppend(ProcessualRow1 + ProcessualRow2 + ProcessualRow3 + ProcessualRow4, ProcessualRow5);
  }

  lemma SuporteRow1WellFormed() ensures WellFormedTerms(SuporteRow1) {
    assert IsLowerCase("senha");
    assert IsLowerCase("login");
    assert IsLowerCase("acesso");
    assert IsLowerCase("sistema");
    assert IsLowerCase("erro");
    assert IsLowerCase("bug");
  }

  lemma SuporteRow2WellFormed() ensures WellFormedTerms(SuporteRow2) {
    assert IsLowerCase("entrar");
    assert IsLowerCase("site");
    assert IsLowerCase("nexus");
    assert IsLowerCase("indisponível");
    assert IsLowerCase("offline");
  }

  lemma SuporteRow3WellFormed() ensures WellFormedTerms(SuporteRow3) {
    assert IsLowerCase("problema técnico");
    assert IsLowerCase("não funciona");
    assert IsLowerCase("travado");
    assert IsLowerCase("lento");
  }

  lemma SuporteRow4WellFormed() ensures WellFormedTerms(SuporteRow4) {
    assert IsLowerCase("recuperar senha");
    assert IsLowerCase("resetar");
    assert IsLowerCase("autenticação");
    assert IsLowerCase("permissão");
  }

  lemma SuporteRow5WellFormed() ensures WellFormedTerms(SuporteRow5) {
    assert IsLowerCase("crash");
    assert IsLowerCase("falha");
    assert IsLowerCase("conexão");
    assert IsLowerCase("servidor down");
    assert IsLowerCase("manutenção");
  }

  lemma SuporteTermsWellFormed()
    ensures WellFormedTerms(SuporteEntry.terms)
  {
    SuporteRow1WellFormed();
    SuporteRow2WellFormed();
    SuporteRow3WellFormed();
    SuporteRow4WellFormed();
    SuporteRow5WellFormed();
    WellFormedAppend(SuporteRow1, SuporteRow2);
    WellFormedAppend(SuporteRow1 + SuporteRow2, SuporteRow3);
    WellFormedAppend(SuporteRow1 + SuporteRow2 + SuporteRow3, SuporteRow4);
    WellFormedAppend(SuporteRow1 + SuporteRow2 + SuporteRow3 + SuporteRow4, SuporteRow5);
  }

  lemma ComercialRow1WellFormed() ensures WellFormedTerms(ComercialRow1) {
    assert IsLowerCase("proposta");
    assert IsLowerCase("orçamento");
    assert IsLowerCase("contratar");
    assert IsLowerCase("nova causa");
  }

  lemma ComercialRow2WellFormed() ensures WellFormedTerms(ComercialRow2) {
    assert IsLowerCase("parceria");
    assert IsLowerCase("apresentação");
    assert IsLowerCase("reunião comercial");
    assert IsLowerCase("cliente novo");
  }

  lemma ComercialRow3WellFormed() ensures WellFormedTerms(ComercialRow3) {
    assert IsLowerCase("negócio");
    assert IsLowerCase("venda");
    assert IsLowerCase("contrato");
    assert IsLowerCase("acordo");
    assert IsLowerCase("oportunidade");
  }

  lemma ComercialRow4WellFormed() ensures WellFormedTerms(ComercialRow4) {
    assert IsLowerCase("consultoria");
    assert IsLowerCase("projeto");
    assert IsLowerCase("licitação");
    assert IsLowerCase("fornecedor");
    assert IsLowerCase("cliente");
  }

  lemma ComercialRow5WellFormed() ensures WellFormedTerms(ComercialRow5) {
    assert IsLowerCase("prospecção");
    assert IsLowerCase("oferta");
    assert IsLowerCase("desconto");
    assert IsLowerCase("cancelamento");
    assert IsLowerCase("contratação");
  }

  lemma ComercialTermsWellFormed()
    ensures WellFormedTerms(ComercialEntry.terms)
  {
    ComercialRow1WellFormed();
    ComercialRow2WellFormed();
    ComercialRow3WellFormed();
    ComercialRow4WellFormed();
    ComercialRow5WellFormed();
    WellFormedAppend(ComercialRow1, ComercialRow2);
    WellFormedAppend(ComercialRow1 + ComercialRow2, ComercialRow3);
    WellFormedAppend(ComercialRow1 + ComercialRow2 + ComercialRow3, ComercialRow4);
    WellFormedAppend(ComercialRow1 + ComercialRow2 + ComercialRow3 + ComercialRow4, ComercialRow5);
  }

  lemma AdministrativoRow1WellFormed() ensures WellFormedTerms(AdministrativoRow1) {
    assert IsLowerCase("agendar");
    assert IsLowerCase("sala");
    assert IsLowerCase("reunião");
    assert IsLowerCase("cópia");
    assert IsLowerCase("digitalizar");
  }

  lemma AdministrativoRow2WellFormed() ensures WellFormedTerms(AdministrativoRow2) {
    assert IsLowerCase("documento");
    assert IsLowerCase("certidão");
    assert IsLowerCase("cartório");
    assert IsLowerCase("motoboy");
    assert IsLowerCase("correio");
  }

  lemma AdministrativoRow3WellFormed() ensures WellFormedTerms(AdministrativoRow3) {
    assert IsLowerCase("agendamento");
    assert IsLowerCase("recurso");
    assert IsLowerCase("material");
    assert IsLowerCase("logística");
    assert IsLowerCase("secretária");
  }

  lemma AdministrativoRow4WellFormed() ensures WellFormedTerms(AdministrativoRow4) {
    assert IsLowerCase("arquivos");
    assert IsLowerCase("impressão");
    assert IsLowerCase("scaneamento");
    assert IsLowerCase("protocolo");
    assert IsLowerCase("pasta");
  }

  lemma AdministrativoRow5WellFormed() ensures WellFormedTerms(AdministrativoRow5) {
    assert IsLowerCase("solicitação");
    assert IsLowerCase("administrativo");
    assert IsLowerCase("gerencial");
    assert IsLowerCase("coordenação");
    assert IsLowerCase("organização");
  }

  lemma AdministrativoTermsWellFormed()
    ensures WellFormedTerms(AdministrativoEntry.terms)
  {
    AdministrativoRow1WellFormed();
    AdministrativoRow2WellFormed();
    AdministrativoRow3WellFormed();
    AdministrativoRow4WellFormed();
    AdministrativoRow5WellFormed();
    WellFormedAppend(AdministrativoRow1, AdministrativoRow2);
    WellFormedAppend(AdministrativoRow1 + AdministrativoRow2, AdministrativoRow3);
    WellFormedAppend(AdministrativoRow1 + AdministrativoRow2 + AdministrativoRow3, AdministrativoRow4);
    WellFormedAppend(AdministrativoRow1 + AdministrativoRow2 + AdministrativoRow3 + AdministrativoRow4, AdministrativoRow5);
  }

  lemma TermsAreLowerCase()
    ensures forall i :: 0 <= i < |Table| ==> WellFormedTerms(Table[i].terms)
  {
    FinanceiroTermsWellFormed();
    ProcessualTermsWellFormed();
    SuporteTermsWellFormed();
    ComercialTermsWellFormed();
    AdministrativoTermsWellFormed();
  }

  /** Two terms are listed under two categories each: "orçamento" under
      Financeiro and Comercial, "recurso" under Processual and
      Administrativo. */
  lemma SharedTerms()
    ensures FinanceiroEntry.terms[19] == "orçamento" == ComercialEntry.terms[1]
    ensures ProcessualEntry.terms[6] == "recurso" == AdministrativoEntry.terms[11]
  {
  }

  /** Terms of one category can sit inside terms of another: Processual's
      "citação" occurs in Comercial's "licitação" and in Administrativo's
      "solicitação", which also contains "licitação". */
  lemma NestedTerms()
    ensures ProcessualEntry.terms[23] == "citação"
    ensures ComercialEntry.terms[15] == "licitação"
    ensures AdministrativoEntry.terms[20] == "solicitação"
    ensures Contains("licitação", "citação")
    ensures Contains("solicitação", "licitação")
    ensures Contains("solicitação", "citação")
  {
    assert OccursAt("licitação", "citação", 2);
    ContainsIffOccurs("licitação", "citação");
    assert OccursAt("solicitação", "licitação", 2);
    ContainsIffOccurs("solicitação", "licitação");
    assert OccursAt("solicitação", "citação", 4);
    ContainsIffOccurs("solicitação", "citação");
  }
}
