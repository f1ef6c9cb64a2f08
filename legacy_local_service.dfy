/** The older owner-side service of `services/LocalService.ts`. Creation first validates
    the CNPJ against the federal registry (whose answer is an input here) and checks that
    neither the e-mail nor the CNPJ is already registered; the requests find the listing by
    CNPJ rather than by id. The queries it shares with `src/services/LocalService.ts` are
    the same code and are modelled in `LocalService`. */
module LegacyLocalService {
  import opened Common
  import opened Json
  import opened LocalEntity
  import opened Persistence
  import LocalService

  const CnpjRequired := "O campo CNPJ é obrigatório."
  const EmailInUse := "E-mail já cadastrado no sistema."
  const CnpjInUse := "CNPJ já cadastrado no sistema."

  /** What the registry lookup answers: the registration status, already passed through
      `String(...)`, and the municipality, when it gives one. */
  datatype Registry = Registry(situacao: string, municipio: Option<string>)

  /** `mapaStatus`: the readable label of each inactive registry code. */
  const MapaStatus: map<string, string> := map[
    "1" := "NULA", "01" := "NULA",
    "3" := "SUSPENSA", "03" := "SUSPENSA",
    "4" := "INAPTA", "04" := "INAPTA",
    "8" := "BAIXADA", "08" := "BAIXADA"]

  /** `mapaStatus[situacao] || situacao`. */
  function StatusLabel(situacao: string): (name: string)
    ensures situacao in MapaStatus ==> name in {"NULA", "SUSPENSA", "INAPTA", "BAIXADA"}
    ensures situacao !in MapaStatus ==> name == situacao
  {
    if situacao in MapaStatus then MapaStatus[situacao] else situacao
  }

  /** The registry codes creation accepts. */
  predicate ActiveSituacao(situacao: string)
  {
    situacao == "ATIVA" || situacao == "2"
  }

  predicate InSaquarema(municipio: Option<string>)
  {
    municipio.Some? && Upper(municipio.value) == "SAQUAREMA"
  }

  function SituacaoMessage(legivel: string): string
  {
    "O CNPJ está com a situação \"" + legivel + "\". Apenas CNPJs com situação \"ATIVA\" são permitidos. Em caso de dúvidas, entre em contato com a Sala do Empreendedor."
  }

  /** `municipio || "desconhecida"` names the city in the message. */
  function CidadeMessage(municipio: Option<string>): string
  {
    var nome := if municipio.Some? && municipio.value != "" then municipio.value else "desconhecida";
    "Este CNPJ pertence à cidade de " + nome + ". Apenas CNPJs de Saquarema são permitidos. Em caso de dúvidas, entre em contato com a Sala do Empreendedor."
  }

  /** The checks before the transaction: a CNPJ must be given, the lookup must succeed, the
      registration must be active and the city must be Saquarema. Every error raised inside
      is rethrown as a plain `Error` with the same message. */
  function RegistryCheck(dados: Payload, lookup: Result<Registry>): (e: Option<Failure>)
    ensures e.None? <==>
      Truthy(Get(dados, "cnpj")) && lookup.Done? && ActiveSituacao(lookup.value.situacao) && InSaquarema(lookup.value.municipio)
    ensures !Truthy(Get(dados, "cnpj")) ==> e == Some(Error(CnpjRequired))
    ensures Truthy(Get(dados, "cnpj")) && lookup.Thrown? ==> e == Some(Error(lookup.failure.message))
    ensures Truthy(Get(dados, "cnpj")) && lookup.Done? && !ActiveSituacao(lookup.value.situacao) ==>
      e == Some(Error(SituacaoMessage(StatusLabel(lookup.value.situacao))))
  {
    if !Truthy(Get(dados, "cnpj")) then Some(Error(CnpjRequired))
    else if lookup.Thrown? then Some(Error(lookup.failure.message))
    else if !ActiveSituacao(lookup.value.situacao) then Some(Error(SituacaoMessage(StatusLabel(lookup.value.situacao))))
    else if !InSaquarema(lookup.value.municipio) then Some(Error(CidadeMessage(lookup.value.municipio)))
    else None
  }

  /** `findOne({ where: { attr: v } })` finds a row (`null` matches the rows where it is NULL). */
  predicate Found(t: map<int, LocalRec>, attr: string, v: Value)
  {
    exists id :: id in t && Get(t[id].cols, attr) == v
  }

  /** Sequelize refuses a `where` whose value is `undefined`. */
  function WhereUndefined(attr: string): (f: Failure)
    ensures f.name == "Error"
  {
    Error("WHERE parameter \"" + attr + "\" has invalid \"undefined\" value")
  }

  /** The row `Local.create` is asked to insert. Only `escala` is left out when the input
      does not give it, so that the column default applies. */
  function CreationCols(dados: Payload): Payload
  {
    var cols := map[
      "nomeFantasia" := Get(dados, "nomeFantasia"),
      "cnpj" := Get(dados, "cnpj"),
      "categoria" := Get(dados, "categoria"),
      "nomeResponsavel" := Get(dados, "nome_responsavel"),
      "cpfResponsavel" := Get(dados, "cpf_responsavel"),
      "cnae" := Get(dados, "cnae"),
      "emailLocal" := Get(dados, "emailLocal"),
      "contatoLocal" := Get(dados, "contatoLocal"),
      "endereco" := Get(dados, "endereco"),
      "descricao" := Get(dados, "descricao"),
      "descricaoDiferencial" := Get(dados, "descricaoDiferencial"),
      "areasAtuacao" := Get(dados, "areasAtuacao"),
      "tagsInvisiveis" := Get(dados, "tagsInvisiveis"),
      "website" := Get(dados, "website"),
      "instagram" := Get(dados, "instagram"),
      "logoUrl" := Get(dados, "logo"),
      "ccmeiUrl" := Get(dados, "ccmei"),
      "venda" := Get(dados, "venda")];
    Assign(cols, "escala", Lookup(dados, "escala"))
  }

  /** The new row: the entity defaults give it pending approval, inactive, nothing staged. */
  function CreationRow(dados: Payload): (r: LocalRec)
    ensures !r.ativo && r.status == PendenteAprovacao && r.pending.None?
  {
    NewRow(CreationCols(dados))
  }

  /** The uploaded logo and CCMEI certificate land in `logoUrl` and `ccmeiUrl`; the
      responsible person is read from the snake_case fields only. */
  lemma CreationRenames(dados: Payload)
    ensures var cols := CreationRow(dados).cols;
      Get(cols, "logoUrl") == Get(dados, "logo") && Get(cols, "ccmeiUrl") == Get(dados, "ccmei")
      && Get(cols, "nomeResponsavel") == Get(dados, "nome_responsavel")
      && Get(cols, "cpfResponsavel") == Get(dados, "cpf_responsavel")
  {
    CreationFileColumns(dados);
    CreationResponsibleName(dados);
    CreationResponsibleCpf(dados);
  }

  /** The uploaded logo and CCMEI certificate columns. */
  lemma CreationFileColumns(dados: Payload)
    ensures Get(CreationCols(dados), "logoUrl") == Get(dados, "logo")
    ensures Get(CreationCols(dados), "ccmeiUrl") == Get(dados, "ccmei")
  {
  }

  /** The name of the responsible person, from the snake_case field. */
  lemma CreationResponsibleName(dados: Payload)
    ensures Get(CreationCols(dados), "nomeResponsavel") == Get(dados, "nome_responsavel")
  {
  }

  /** The CPF of the responsible person, from the snake_case field. */
  lemma CreationResponsibleCpf(dados: Payload)
    ensures Get(CreationCols(dados), "cpfResponsavel") == Get(dados, "cpf_responsavel")
  {
  }

  /** The CNPJ is stored as given. */
  lemma CreationKeepsCnpj(dados: Payload)
    ensures Get(CreationRow(dados).cols, "cnpj") == Get(dados, "cnpj")
  {
  }

  /** The e-mail is stored as given. */
  lemma CreationKeepsEmail(dados: Payload)
    ensures Get(CreationRow(dados).cols, "emailLocal") == Get(dados, "emailLocal")
  {
  }

  /** `escala` is the input's when given, and the column default 0 when absent. */
  lemma CreationEscala(dados: Payload)
    ensures Get(CreationRow(dados).cols, "escala") == (if "escala" in dados then dados["escala"] else Num(0.0))
  {
  }

  /** Why creation fails, in the order the source checks: the registry checks, the e-mail
      and CNPJ queries inside the transaction, the insert, and the gallery rows. */
  function CreationFailure(t: map<int, LocalRec>, dados: Payload, lookup: Result<Registry>): (e: Option<Failure>)
  {
    var row := CreationRow(dados);
    if RegistryCheck(dados, lookup).Some? then RegistryCheck(dados, lookup)
    else if "emailLocal" !in dados then Some(WhereUndefined("emailLocal"))
    else if Found(t, "emailLocal", dados["emailLocal"]) then Some(Error(EmailInUse))
    else if Found(t, "cnpj", dados["cnpj"]) then Some(Error(CnpjInUse))
    else if RowError(OnLegacyCreate, t, row).Some? then Some(DbFailure(RowError(OnLegacyCreate, t, row).value))
    else if LocalService.MapsString(LocalService.SrcCreation, dados) then
      Some(Failure("TypeError", "dados.produtos.map is not a function"))
    else None
  }

  /** `cadastrarLocalComImagens(dados)` with the registry's answer `lookup`. */
  method CadastrarLocalComImagens(db: Store, dados: Payload, lookup: Result<Registry>) returns (r: Result<int>)
    requires db.Valid()
    modifies db`locals, db`gallery, db`nextId
    ensures db.Valid()
    ensures var e := CreationFailure(old(db.locals), dados, lookup);
      if e.Some? then
        r == Thrown(e.value) && db.locals == old(db.locals) && db.gallery == old(db.gallery) && db.nextId == old(db.nextId)
      else
        r == Done(old(db.nextId)) && r.value !in old(db.locals)
        && db.locals == old(db.locals)[r.value := CreationRow(dados)]
        && db.gallery == old(db.gallery)[r.value := LocalService.CreationImages(LocalService.SrcCreation, dados)]
        && db.nextId == old(db.nextId) + 1
  {
    var check := RegistryCheck(dados, lookup);
    if check.Some? {
      return Thrown(check.value);
    }
    if "emailLocal" !in dados {
      return Thrown(WhereUndefined("emailLocal"));
    }
    if Found(db.locals, "emailLocal", dados["emailLocal"]) {
      return Thrown(Error(EmailInUse));
    }
    if Found(db.locals, "cnpj", dados["cnpj"]) {
      return Thrown(Error(CnpjInUse));
    }
    var row := CreationRow(dados);
    var err := RowError(OnLegacyCreate, db.locals, row);
    if err.Some? {
      return Thrown(DbFailure(err.value));
    }
    if LocalService.MapsString(LocalService.SrcCreation, dados) {
      return Thrown(Failure("TypeError", "dados.produtos.map is not a function"));
    }
    var id, _ := db.Insert(OnLegacyCreate, row, LocalService.CreationImages(LocalService.SrcCreation, dados));
    r := Done(id);
  }

  /** A missing CNPJ is refused before the registry is consulted or the table is read. */
  lemma MissingCnpjFirst(t: map<int, LocalRec>, dados: Payload, lookup: Result<Registry>)
    requires !Truthy(Get(dados, "cnpj"))
    ensures CreationFailure(t, dados, lookup) == Some(Error(CnpjRequired))
  {
  }

  /** A listing is created only for an active registration in Saquarema whose e-mail and
      CNPJ are both new, and then its CNPJ never trips the unique index. */
  lemma {:induction false} CreatedOnlyIfAdmitted(t: map<int, LocalRec>, dados: Payload, lookup: Result<Registry>)
    requires CreationFailure(t, dados, lookup).None?
    ensures lookup.Done? && ActiveSituacao(lookup.value.situacao) && InSaquarema(lookup.value.municipio)
    ensures "emailLocal" in dados && !Found(t, "emailLocal", dados["emailLocal"])
    ensures "cnpj" in dados && !Found(t, "cnpj", dados["cnpj"])
    ensures RowFits(OnLegacyCreate, CreationRow(dados))
  {
    CreationKeepsCnpj(dados);
    assert RowError(OnLegacyCreate, t, CreationRow(dados)).None?;
  }

  /** Conversely, an active Saquarema registration with a new e-mail and CNPJ, whose row
      passes the older entity's checks and whose `produtos` is not a string, is created. */
  lemma {:induction false} AdmittedIsCreated(t: map<int, LocalRec>, dados: Payload, lookup: Result<Registry>)
    requires Truthy(Get(dados, "cnpj")) && lookup.Done?
    requires ActiveSituacao(lookup.value.situacao) && InSaquarema(lookup.value.municipio)
    requires "emailLocal" in dados && !Found(t, "emailLocal", dados["emailLocal"])
    requires !Found(t, "cnpj", dados["cnpj"])
    requires RowFits(OnLegacyCreate, CreationRow(dados))
    requires !LocalService.MapsString(LocalService.SrcCreation, dados)
    ensures CreationFailure(t, dados, lookup).None?
  {
    CnpjQueryPreemptsIndex(t, dados);
  }

  /** Once the CNPJ query finds nothing, the database can refuse the row only for its
      columns, never for a duplicate CNPJ. */
  lemma {:induction false} CnpjQueryPreemptsIndex(t: map<int, LocalRec>, dados: Payload)
    requires Truthy(Get(dados, "cnpj")) && !Found(t, "cnpj", dados["cnpj"])
    ensures !CnpjTaken(t, CnpjOf(CreationRow(dados)))
  {
    CreationKeepsCnpj(dados);
  }

  /** Two listings never share a non-NULL CNPJ, so a request by CNPJ has one target. */
  lemma CnpjSelectsOne(t: map<int, LocalRec>, v: Value, i: int, j: int)
    requires TableOk(t) && v != Null
    requires i in t && Get(t[i].cols, "cnpj") == v
    requires j in t && Get(t[j].cols, "cnpj") == v
    ensures i == j
  {
    assert CnpjOf(t[i]) == Some(v) == CnpjOf(t[j]);
  }

  /** `findOne({ where: { cnpj } })`, then the request staged on the listing found. */
  method StageByCnpj(db: Store, cnpj: Option<Value>, s: Status, p: Payload) returns (r: Result<LocalRec>)
    requires db.Valid()
    modifies db`locals, db`gallery
    ensures db.Valid() && db.gallery == old(db.gallery)
    ensures cnpj.None? ==> r == Thrown(WhereUndefined("cnpj")) && db.locals == old(db.locals)
    ensures cnpj.Some? && !Found(old(db.locals), "cnpj", cnpj.value) ==>
      r == Thrown(Error(LocalService.NotFoundMessage)) && db.locals == old(db.locals)
    ensures cnpj.Some? && Found(old(db.locals), "cnpj", cnpj.value) ==>
      exists id :: id in old(db.locals) && Get(old(db.locals)[id].cols, "cnpj") == cnpj.value
        && r == Done(LocalService.Requested(old(db.locals)[id], s, p)) && db.locals == old(db.locals)[id := r.value]
  {
    if cnpj.None? {
      return Thrown(WhereUndefined("cnpj"));
    }
    if !Found(db.locals, "cnpj", cnpj.value) {
      return Thrown(Error(LocalService.NotFoundMessage));
    }
    var id :| id in db.locals && Get(db.locals[id].cols, "cnpj") == cnpj.value;
    r := LocalService.Stage(db, id, s, LocalService.JsonPayload(p));
  }

  /** `solicitarAtualizacaoPorCnpj(cnpj, dadosAtualizacao)`. */
  method SolicitarAtualizacaoPorCnpj(db: Store, cnpj: Option<Value>, dadosAtualizacao: Payload) returns (r: Result<LocalRec>)
    requires db.Valid()
    modifies db`locals, db`gallery
    ensures db.Valid() && db.gallery == old(db.gallery)
    ensures cnpj.None? ==> r == Thrown(WhereUndefined("cnpj")) && db.locals == old(db.locals)
    ensures cnpj.Some? && !Found(old(db.locals), "cnpj", cnpj.value) ==>
      r == Thrown(Error(LocalService.NotFoundMessage)) && db.locals == old(db.locals)
    ensures cnpj.Some? && Found(old(db.locals), "cnpj", cnpj.value) ==>
      exists id :: id in old(db.locals) && Get(old(db.locals)[id].cols, "cnpj") == cnpj.value
        && r == Done(LocalService.Requested(old(db.locals)[id], PendenteAtualizacao, dadosAtualizacao))
        && db.locals == old(db.locals)[id := r.value]
  {
    r := StageByCnpj(db, cnpj, PendenteAtualizacao, dadosAtualizacao);
  }

  /** `solicitarExclusaoPorCnpj(dadosExclusao)`: the CNPJ is read from the request itself,
      which is then stored whole. */
  method SolicitarExclusaoPorCnpj(db: Store, dadosExclusao: Payload) returns (r: Result<()>)
    requires db.Valid()
    modifies db`locals, db`gallery
    ensures db.Valid() && db.gallery == old(db.gallery)
    ensures "cnpj" !in dadosExclusao ==> r == Thrown(WhereUndefined("cnpj")) && db.locals == old(db.locals)
    ensures "cnpj" in dadosExclusao && !Found(old(db.locals), "cnpj", dadosExclusao["cnpj"]) ==>
      r == Thrown(Error(LocalService.NotFoundMessage)) && db.locals == old(db.locals)
    ensures "cnpj" in dadosExclusao && Found(old(db.locals), "cnpj", dadosExclusao["cnpj"]) ==>
      r == Done(()) &&
      exists id :: id in old(db.locals) && Get(old(db.locals)[id].cols, "cnpj") == dadosExclusao["cnpj"]
        && db.locals == old(db.locals)[id := LocalService.Requested(old(db.locals)[id], PendenteExclusao, dadosExclusao)]
  {
    var staged := StageByCnpj(db, Lookup(dadosExclusao, "cnpj"), PendenteExclusao, dadosExclusao);
    r := if staged.Thrown? then Thrown(staged.failure) else Done(());
  }

  /** `alterarStatusAtivo(id, ativo)`: the same code as in the newer service. */
  method AlterarStatusAtivo(db: Store, id: int, ativo: bool) returns (r: Result<LocalRec>)
    requires db.Valid()
    modifies db`locals, db`gallery
    ensures db.Valid() && db.gallery == old(db.gallery)
    ensures id !in old(db.locals) ==> r == Thrown(Error(LocalService.NotFoundMessage)) && db.locals == old(db.locals)
    ensures id in old(db.locals) ==>
      r == Done(LocalService.Toggled(old(db.locals[id]), ativo)) && db.locals == old(db.locals)[id := r.value]
  {
    r := LocalService.AlterarStatusAtivo(db, id, ativo);
  }

  /** `buscarPorNome(nome)`: this service searches the trade name. */
  function BuscarPorNome(t: map<int, LocalRec>, g: map<int, seq<string>>, nome: string): (r: map<int, LocalService.Listing>)
    ensures forall id :: id in r <==> id in t && t[id].status == Ativo && LocalService.Like(t[id], "nomeFantasia", nome)
    ensures forall id :: id in r ==> id in LocalService.ListarTodos(t, g)
  {
    LocalService.WithStatus(t, g, Ativo, rec => LocalService.Like(rec, "nomeFantasia", nome))
  }

  /** The older copy's search is the corrected `buscarPorNome`. */
  lemma LegacyNameQueryIsCorrected(t: map<int, LocalRec>, g: map<int, seq<string>>, nome: string)
    ensures BuscarPorNome(t, g, nome) == LocalService.BuscarPorNome(t, g, LocalService.NameColumn, nome)
  {
  }
}
