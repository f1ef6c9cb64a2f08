/** The owner side of `src/services/LocalService.ts`: creating a listing in pending
    approval, staging an update or a deletion request, the active toggle, and the
    status-filtered queries the public pages and the moderation queue read. */
module LocalService {
  import opened Common
  import opened Json
  import opened LocalEntity
  import opened Persistence
  import AdminService

  const NotFoundMessage := "Local não encontrado."

  /** How creation reads its input: the key the gallery URLs are taken from, and whether
      the required columns `certificadoCnpj` and `venda` are copied into the new row. */
  datatype Creation = Creation(imagesKey: string, copiesRequired: bool)

  /** `cadastrarLocalComImagens` as written: gallery URLs from `produtos`, and neither
      `certificadoCnpj` nor `venda` in the row it creates. */
  const SrcCreation := Creation("produtos", false)

  /** Gallery URLs from `imagens`, the key the upload controller fills, and the two
      required columns copied from the input. */
  const CorrectedCreation := Creation("imagens", true)

  /** The input fields creation copies under their own name. */
  const CopiedKeys: set<string> :=
    {"nomeLocal", "categoria", "contatoLocal", "endereco", "descricao", "tagsInvisiveis", "instagram", "areasAtuacao"}

  /** The column values of the new row, as the object literal lists them. `latitude` and
      `longitude` are what `parseFloat` makes of the inputs, used only when the input value
      is truthy. */
  function CreationCols(c: Creation, dados: Payload, latitude: Value, longitude: Value): Payload
  {
    var cols := map[
      "nomeLocal" := Get(dados, "nomeLocal"),
      "categoria" := Get(dados, "categoria"),
      "nomeResponsavel" := Or(Get(dados, "nome_responsavel"), Get(dados, "nomeResponsavel")),
      "cpfResponsavel" := Or(Get(dados, "cpf_responsavel"), Get(dados, "cpfResponsavel")),
      "contatoLocal" := Get(dados, "contatoLocal"),
      "endereco" := Get(dados, "endereco"),
      "descricao" := Get(dados, "descricao"),
      "tagsInvisiveis" := Get(dados, "tagsInvisiveis"),
      "instagram" := Get(dados, "instagram"),
      "areasAtuacao" := Get(dados, "areasAtuacao"),
      "latitude" := if Truthy(Get(dados, "latitude")) then latitude else Null,
      "longitude" := if Truthy(Get(dados, "longitude")) then longitude else Null];
    if c.copiesRequired then cols["certificadoCnpj" := Get(dados, "certificadoCnpj")]["venda" := Get(dados, "venda")]
    else cols
  }

  /** The row `Local.create` is asked to insert: inactive, pending approval, nothing staged. */
  function CreationRow(c: Creation, dados: Payload, latitude: Value, longitude: Value): (r: LocalRec)
    ensures !r.ativo && r.status == PendenteAprovacao && r.pending.None?
  {
    NewRow(CreationCols(c, dados, latitude, longitude))
  }

  /** The responsible person's name and CPF take the snake_case spelling first. */
  lemma CreationResponsible(c: Creation, dados: Payload, latitude: Value, longitude: Value)
    ensures var cols := CreationRow(c, dados, latitude, longitude).cols;
      Get(cols, "nomeResponsavel") == Or(Get(dados, "nome_responsavel"), Get(dados, "nomeResponsavel"))
      && Get(cols, "cpfResponsavel") == Or(Get(dados, "cpf_responsavel"), Get(dados, "cpfResponsavel"))
  {
    ResponsibleNameColumn(c, dados, latitude, longitude);
    ResponsibleCpfColumn(c, dados, latitude, longitude);
  }

  /** The name of the responsible person, snake_case spelling first. */
  lemma ResponsibleNameColumn(c: Creation, dados: Payload, latitude: Value, longitude: Value)
    ensures Get(CreationCols(c, dados, latitude, longitude), "nomeResponsavel") == Or(Get(dados, "nome_responsavel"), Get(dados, "nomeResponsavel"))
  {
  }

  /** The CPF of the responsible person, snake_case spelling first. */
  lemma ResponsibleCpfColumn(c: Creation, dados: Payload, latitude: Value, longitude: Value)
    ensures Get(CreationCols(c, dados, latitude, longitude), "cpfResponsavel") == Or(Get(dados, "cpf_responsavel"), Get(dados, "cpfResponsavel"))
  {
  }

  /** The gallery rows `bulkCreate` adds, in input order: only for a non-empty array. */
  function CreationImages(c: Creation, dados: Payload): (urls: seq<string>)
    ensures NonEmptyArr(Get(dados, c.imagesKey)) ==> urls == Get(dados, c.imagesKey).items
    ensures !NonEmptyArr(Get(dados, c.imagesKey)) ==> urls == []
  {
    var v := Get(dados, c.imagesKey);
    if NonEmptyArr(v) then v.items else []
  }

  /** A non-empty string passes the `length > 0` guard but has no `map`. */
  predicate MapsString(c: Creation, dados: Payload)
  {
    Get(dados, c.imagesKey).Str? && Get(dados, c.imagesKey).s != ""
  }

  /** Why creation fails, if it does: the database refuses the row, or the gallery input is
      a non-empty string, which passes the `length > 0` guard but has no `map`. */
  function CreationError(c: Creation, t: map<int, LocalRec>, dados: Payload, latitude: Value, longitude: Value): (e: Option<Failure>)
    ensures e.None? <==> RowError(OnCreate, t, CreationRow(c, dados, latitude, longitude)).None? && !MapsString(c, dados)
  {
    var err := RowError(OnCreate, t, CreationRow(c, dados, latitude, longitude));
    if err.Some? then Some(DbFailure(err.value))
    else if MapsString(c, dados) then Some(Failure("TypeError", "dados." + c.imagesKey + ".map is not a function"))
    else None
  }

  /** `Local.create` then `ImagemLocal.bulkCreate` in one transaction; any error rolls both
      back and is rethrown. The result is the id of the new listing. */
  method CadastrarLocalComImagens(db: Store, c: Creation, dados: Payload, latitude: Value, longitude: Value)
    returns (r: Result<int>)
    requires db.Valid()
    modifies db`locals, db`gallery, db`nextId
    ensures db.Valid()
    ensures var e := CreationError(c, old(db.locals), dados, latitude, longitude);
      if e.Some? then
        r == Thrown(e.value) && db.locals == old(db.locals) && db.gallery == old(db.gallery) && db.nextId == old(db.nextId)
      else
        r == Done(old(db.nextId)) && r.value !in old(db.locals)
        && db.locals == old(db.locals)[r.value := CreationRow(c, dados, latitude, longitude)]
        && db.gallery == old(db.gallery)[r.value := CreationImages(c, dados)]
        && db.nextId == old(db.nextId) + 1
  {
    var row := CreationRow(c, dados, latitude, longitude);
    var err := RowError(OnCreate, db.locals, row);
    if err.Some? {
      return Thrown(DbFailure(err.value));
    }
    if MapsString(c, dados) {
      return Thrown(Failure("TypeError", "dados." + c.imagesKey + ".map is not a function"));
    }
    var id, _ := db.Insert(OnCreate, row, CreationImages(c, dados));
    r := Done(id);
  }

  /** What may be handed to a request operation as its payload: a JSON value, or an object
      `JSON.stringify` refuses because it refers back to itself (an HTTP request does). */
  datatype StagedArg = JsonPayload(p: Payload) | SelfReferencing

  /** The error `JSON.stringify` throws when serialising the JSON column. */
  const CircularJson := Failure("TypeError", "Converting circular structure to JSON")

  /** The listing with a request staged: only the status and the payload change. */
  function Requested(rec: LocalRec, s: Status, p: Payload): (r: LocalRec)
    ensures r.status == s && r.pending == Some(p)
    ensures r.cols == rec.cols && r.ativo == rec.ativo
  {
    rec.(status := s, pending := Some(p))
  }

  /** `findByPk`, then `status` and `dados_atualizacao` assigned and saved. */
  method Stage(db: Store, id: int, s: Status, arg: StagedArg) returns (r: Result<LocalRec>)
    requires db.Valid()
    modifies db`locals, db`gallery
    ensures db.Valid() && db.gallery == old(db.gallery)
    ensures id !in old(db.locals) ==> r == Thrown(Error(NotFoundMessage)) && db.locals == old(db.locals)
    ensures id in old(db.locals) && arg.SelfReferencing? ==> r == Thrown(CircularJson) && db.locals == old(db.locals)
    ensures id in old(db.locals) && arg.JsonPayload? ==>
      r == Done(Requested(old(db.locals[id]), s, arg.p)) && db.locals == old(db.locals)[id := r.value]
  {
    if id !in db.locals {
      return Thrown(Error(NotFoundMessage));
    }
    var local := db.locals[id];
    if arg.SelfReferencing? {
      return Thrown(CircularJson);
    }
    local := local.(status := s);
    local := local.(pending := Some(arg.p));
    SameColumnsAccepted(db.locals, id, local);
    var _ := db.Commit(id, Put(local), None, None);
    r := Done(local);
  }

  /** `solicitarAtualizacao(id, dadosAtualizacao)`: the payload is stored verbatim. */
  method SolicitarAtualizacao(db: Store, id: int, dadosAtualizacao: StagedArg) returns (r: Result<LocalRec>)
    requires db.Valid()
    modifies db`locals, db`gallery
    ensures db.Valid() && db.gallery == old(db.gallery)
    ensures id !in old(db.locals) ==> r == Thrown(Error(NotFoundMessage)) && db.locals == old(db.locals)
    ensures id in old(db.locals) && dadosAtualizacao.SelfReferencing? ==> r == Thrown(CircularJson) && db.locals == old(db.locals)
    ensures id in old(db.locals) && dadosAtualizacao.JsonPayload? ==>
      r == Done(Requested(old(db.locals[id]), PendenteAtualizacao, dadosAtualizacao.p)) && db.locals == old(db.locals)[id := r.value]
  {
    r := Stage(db, id, PendenteAtualizacao, dadosAtualizacao);
  }

  /** `solicitarExclusao(id, dadosExclusao)`: nothing is returned but the error. */
  method SolicitarExclusao(db: Store, id: int, dadosExclusao: StagedArg) returns (r: Result<()>)
    requires db.Valid()
    modifies db`locals, db`gallery
    ensures db.Valid() && db.gallery == old(db.gallery)
    ensures id !in old(db.locals) ==> r == Thrown(Error(NotFoundMessage)) && db.locals == old(db.locals)
    ensures id in old(db.locals) && dadosExclusao.SelfReferencing? ==> r == Thrown(CircularJson) && db.locals == old(db.locals)
    ensures id in old(db.locals) && dadosExclusao.JsonPayload? ==>
      r == Done(()) && db.locals == old(db.locals)[id := Requested(old(db.locals[id]), PendenteExclusao, dadosExclusao.p)]
  {
    var staged := Stage(db, id, PendenteExclusao, dadosExclusao);
    r := if staged.Thrown? then Thrown(staged.failure) else Done(());
  }

  /** The listing after `alterarStatusAtivo`: active and visible, or inactive and rejected. */
  function Toggled(rec: LocalRec, ativo: bool): (r: LocalRec)
    ensures r.ativo == ativo && r.cols == rec.cols && r.pending == rec.pending
    ensures r.status == (if ativo then Ativo else Rejeitado)
  {
    rec.(ativo := ativo, status := if ativo then Ativo else Rejeitado)
  }

  /** `alterarStatusAtivo(id, ativo)`. */
  method AlterarStatusAtivo(db: Store, id: int, ativo: bool) returns (r: Result<LocalRec>)
    requires db.Valid()
    modifies db`locals, db`gallery
    ensures db.Valid() && db.gallery == old(db.gallery)
    ensures id !in old(db.locals) ==> r == Thrown(Error(NotFoundMessage)) && db.locals == old(db.locals)
    ensures id in old(db.locals) ==> r == Done(Toggled(old(db.locals[id]), ativo)) && db.locals == old(db.locals)[id := r.value]
  {
    if id !in db.locals {
      return Thrown(Error(NotFoundMessage));
    }
    var local := db.locals[id];
    local := local.(ativo := ativo);
    if !ativo {
      local := local.(status := Rejeitado);
    } else {
      local := local.(status := Ativo);
    }
    SameColumnsAccepted(db.locals, id, local);
    var _ := db.Commit(id, Put(local), None, None);
    r := Done(local);
  }

  /** A listing as the queries return it, with the URLs of its gallery (`produtosImg`). */
  datatype Listing = Listing(rec: LocalRec, images: seq<string>)

  function ImagesOf(g: map<int, seq<string>>, id: int): (urls: seq<string>)
    ensures id !in g ==> urls == []
  {
    if id in g then g[id] else []
  }

  /** The listings in status `s` satisfying `matches`, each with its gallery. */
  function WithStatus(t: map<int, LocalRec>, g: map<int, seq<string>>, s: Status, matches: LocalRec -> bool): (r: map<int, Listing>)
    ensures forall id :: id in r <==> id in t && t[id].status == s && matches(t[id])
    ensures forall id :: id in r ==> r[id] == Listing(t[id], ImagesOf(g, id))
  {
    map id | id in t && t[id].status == s && matches(t[id]) :: Listing(t[id], ImagesOf(g, id))
  }

  /** `column LIKE %needle%`, with the collation's case folding left out. */
  predicate Like(rec: LocalRec, column: string, needle: string)
  {
    column in rec.cols && rec.cols[column].Str? && Contains(rec.cols[column].s, needle)
  }

  /** `listarTodos()`. */
  function ListarTodos(t: map<int, LocalRec>, g: map<int, seq<string>>): (r: map<int, Listing>)
    ensures forall id :: id in r <==> id in t && t[id].status == Ativo
  {
    WithStatus(t, g, Ativo, _ => true)
  }

  /** `buscarPorCategoria(categoria)`. */
  function BuscarPorCategoria(t: map<int, LocalRec>, g: map<int, seq<string>>, categoria: string): (r: map<int, Listing>)
    ensures forall id :: id in r <==> id in t && t[id].status == Ativo && Like(t[id], "categoria", categoria)
  {
    WithStatus(t, g, Ativo, rec => Like(rec, "categoria", categoria))
  }

  /** `buscarPorNome(nome)`, with its `LIKE` on `column`. */
  function BuscarPorNome(t: map<int, LocalRec>, g: map<int, seq<string>>, column: string, nome: string): (r: map<int, Listing>)
    ensures forall id :: id in r <==> id in t && t[id].status == Ativo && Like(t[id], column, nome)
  {
    WithStatus(t, g, Ativo, rec => Like(rec, column, nome))
  }

  /** The column `buscarPorNome` filters on as written; `Local` declares no such attribute. */
  const SrcNameColumn := "nomeLocal"

  /** The trade name, the declared attribute a listing's name is stored in. */
  const NameColumn := "nomeFantasia"

  /** `buscarPorId(id)`: `null` unless the listing exists and is active; the reviews and the
      average rating it attaches are not part of this model. */
  function BuscarPorId(t: map<int, LocalRec>, g: map<int, seq<string>>, id: int): (r: Option<Listing>)
    ensures r.Some? <==> id in t && t[id].status == Ativo
    ensures r.Some? ==> r.value == Listing(t[id], ImagesOf(g, id))
  {
    if id in t && t[id].status == Ativo then Some(Listing(t[id], ImagesOf(g, id))) else None
  }

  /** The moderation queue, one query per pending status. */
  datatype Pendentes = Pendentes(cadastros: map<int, Listing>, atualizacoes: map<int, Listing>, exclusoes: map<int, Listing>)

  /** `listarPendentes()`. */
  function ListarPendentes(t: map<int, LocalRec>, g: map<int, seq<string>>): (r: Pendentes)
    ensures forall id :: id in r.cadastros <==> id in t && t[id].status == PendenteAprovacao
    ensures forall id :: id in r.atualizacoes <==> id in t && t[id].status == PendenteAtualizacao
    ensures forall id :: id in r.exclusoes <==> id in t && t[id].status == PendenteExclusao
  {
    Pendentes(
      WithStatus(t, g, PendenteAprovacao, _ => true),
      WithStatus(t, g, PendenteAtualizacao, _ => true),
      WithStatus(t, g, PendenteExclusao, _ => true))
  }

  /** The alias `listarTodos`, `buscarPorCategoria`, `buscarPorNome` and `listarPendentes`
      eager-load the gallery under. */
  const SrcIncludeAlias := "produtosImg"

  /** A `findAll` that eager-loads the gallery under `alias` and filters on `column` (besides
      the status): it throws when the entity index registers no such alias, before any SQL is
      sent; then MySQL refuses a column `Local` does not declare; otherwise it gives `rows`. */
  function FindAll<T>(alias: string, column: string, rows: T): (r: Result<T>)
    ensures r.Thrown? <==> alias != GalleryAssociation || column !in Attributes
    ensures alias != GalleryAssociation ==> r.failure == IncludeError(alias, GalleryAssociation).value
    ensures alias == GalleryAssociation && column !in Attributes ==>
      r.failure == DbFailure(UnknownColumn("Local." + column))
    ensures r.Done? ==> r.value == rows
  {
    match IncludeError(alias, GalleryAssociation)
    case Some(f) => Thrown(f)
    case None => if column in Attributes then Done(rows) else Thrown(DbFailure(UnknownColumn("Local." + column)))
  }

  /** As written, every query that eager-loads the gallery throws the eager-loading error,
      whatever the table holds. */
  lemma AsWrittenQueriesThrow(t: map<int, LocalRec>, g: map<int, seq<string>>, categoria: string, nome: string)
    ensures FindAll(SrcIncludeAlias, "status", ListarTodos(t, g)).Thrown?
    ensures FindAll(SrcIncludeAlias, "categoria", BuscarPorCategoria(t, g, categoria)).Thrown?
    ensures FindAll(SrcIncludeAlias, SrcNameColumn, BuscarPorNome(t, g, SrcNameColumn, nome)).Thrown?
    ensures FindAll(SrcIncludeAlias, "status", ListarPendentes(t, g)).Thrown?
    ensures FindAll(SrcIncludeAlias, "status", ListarTodos(t, g)).failure.name == "SequelizeEagerLoadingError"
  {
  }

  /** Including the gallery under the registered alias, the queries on declared columns
      give their listings. */
  lemma CorrectedQueriesList(t: map<int, LocalRec>, g: map<int, seq<string>>, categoria: string)
    ensures FindAll(GalleryAssociation, "status", ListarTodos(t, g)) == Done(ListarTodos(t, g))
    ensures FindAll(GalleryAssociation, "categoria", BuscarPorCategoria(t, g, categoria)) == Done(BuscarPorCategoria(t, g, categoria))
    ensures FindAll(GalleryAssociation, "status", ListarPendentes(t, g)) == Done(ListarPendentes(t, g))
  {
  }

  /** Even with the include resolving, `buscarPorNome` as written filters on `nomeLocal`,
      which the table lacks: MySQL refuses every such query, whatever the table holds. */
  lemma NameQueryUnknownColumn(t: map<int, LocalRec>, g: map<int, seq<string>>, nome: string)
    ensures FindAll(GalleryAssociation, SrcNameColumn, BuscarPorNome(t, g, SrcNameColumn, nome))
      == Thrown(DbFailure(UnknownColumn("Local.nomeLocal")))
    ensures FindAll(GalleryAssociation, SrcNameColumn, BuscarPorNome(t, g, SrcNameColumn, nome)).failure.name
      == "SequelizeDatabaseError"
  {
    NameColumnUndeclared();
  }

  lemma NameColumnUndeclared()
    ensures SrcNameColumn !in Attributes && NameColumn in Attributes
  {
    assert SrcNameColumn != "categoria" by {
      assert SrcNameColumn[0] != "categoria"[0];
    }
    assert SrcNameColumn != "descricao" by {
      assert SrcNameColumn[0] != "descricao"[0];
    }
    assert NameColumn == Attributes[7];
  }

  /** Filtering on the trade name, the query gives exactly the active listings whose
      `nomeFantasia` contains the text. */
  lemma CorrectedNameQuery(t: map<int, LocalRec>, g: map<int, seq<string>>, nome: string)
    ensures var r := FindAll(GalleryAssociation, NameColumn, BuscarPorNome(t, g, NameColumn, nome));
      r.Done? && forall id :: id in r.value <==> id in t && t[id].status == Ativo && Like(t[id], "nomeFantasia", nome)
  {
  }

  /** Every public query returns active listings only, each with its own row and gallery. */
  lemma PublicQueriesOnlyActive(t: map<int, LocalRec>, g: map<int, seq<string>>, categoria: string, nome: string, id: int)
    ensures forall i :: i in BuscarPorCategoria(t, g, categoria) ==> i in ListarTodos(t, g)
    ensures forall i :: i in BuscarPorNome(t, g, NameColumn, nome) ==> i in ListarTodos(t, g)
    ensures BuscarPorId(t, g, id).Some? <==> id in ListarTodos(t, g)
    ensures BuscarPorId(t, g, id).Some? ==> BuscarPorId(t, g, id).value == ListarTodos(t, g)[id]
  {
  }

  /** The three queues are disjoint, together they hold exactly the listings the admin
      service reports as pending, and none of them is ever shown publicly. */
  lemma {:induction false} PendentesPartition(t: map<int, LocalRec>, g: map<int, seq<string>>)
    ensures var p := ListarPendentes(t, g);
      p.cadastros.Keys !! p.atualizacoes.Keys && p.cadastros.Keys !! p.exclusoes.Keys && p.atualizacoes.Keys !! p.exclusoes.Keys
    ensures var p := ListarPendentes(t, g);
      p.cadastros.Keys + p.atualizacoes.Keys + p.exclusoes.Keys == AdminService.ListarPendencias(t).Keys
    ensures var p := ListarPendentes(t, g);
      (p.cadastros.Keys + p.atualizacoes.Keys + p.exclusoes.Keys) !! ListarTodos(t, g).Keys
  {
    var p := ListarPendentes(t, g);
    var all := p.cadastros.Keys + p.atualizacoes.Keys + p.exclusoes.Keys;
    forall id | id in AdminService.ListarPendencias(t)
      ensures id in all
    {
      assert id in t && IsPending(t[id].status);
    }
  }

  /** A newly created listing waits in the approval queue and is not public. */
  lemma CreatedIsQueued(t: map<int, LocalRec>, g: map<int, seq<string>>, id: int, c: Creation, dados: Payload, latitude: Value, longitude: Value)
    ensures var t' := t[id := CreationRow(c, dados, latitude, longitude)];
      id in ListarPendentes(t', g).cadastros && id !in ListarTodos(t', g)
  {
  }

  /** The creation mapping as written leaves `certificadoCnpj` and `venda` out of the row. */
  lemma SrcCreationLacksRequired(dados: Payload, latitude: Value, longitude: Value)
    ensures var cols := CreationRow(SrcCreation, dados, latitude, longitude).cols;
      "certificadoCnpj" !in cols && "venda" !in cols
  {
  }

  /** The creation mapping as written never supplies `certificadoCnpj` or `venda`, which the
      table requires, so the database refuses every creation, whatever the input. */
  lemma SrcCreationAlwaysRefused(t: map<int, LocalRec>, dados: Payload, latitude: Value, longitude: Value)
    ensures var e := RowError(OnCreate, t, CreationRow(SrcCreation, dados, latitude, longitude));
      e.Some? && e.value.ValidationFailed? && "certificadoCnpj" in e.value.nulls && "venda" in e.value.nulls
  {
    var r := CreationRow(SrcCreation, dados, latitude, longitude);
    SrcCreationLacksRequired(dados, latitude, longitude);
    var missing := MissingRequired(r.cols, Required);
    assert "certificadoCnpj" in missing && "venda" in missing;
  }

  /** The textual columns creation copies from the input. */
  const CopiedTextual: set<string> := {"categoria", "contatoLocal", "endereco", "descricao", "tagsInvisiveis", "instagram", "areasAtuacao"}

  /** The copied columns, and `venda`, are textual. */
  lemma CopiedAreTextual(a: string)
    requires a in CopiedTextual || a == "venda"
    ensures a in Textual
  {
  }

  /** Creation copies each such column from the input, and `venda` when it copies the
      required columns. */
  lemma CreationCopiesTextual(c: Creation, dados: Payload, latitude: Value, longitude: Value, a: string)
    requires a in CopiedTextual || (c.copiesRequired && a == "venda")
    ensures Get(CreationRow(c, dados, latitude, longitude).cols, a) == Get(dados, a)
  {
    if a in {"categoria", "contatoLocal", "endereco", "descricao"} {
      CopiesFirstColumns(c, dados, latitude, longitude, a);
    } else {
      CopiesLaterColumns(c, dados, latitude, longitude, a);
    }
  }

  /** The copied columns early in the mapping. */
  lemma CopiesFirstColumns(c: Creation, dados: Payload, latitude: Value, longitude: Value, a: string)
    requires a in {"categoria", "contatoLocal", "endereco", "descricao"}
    ensures Get(CreationCols(c, dados, latitude, longitude), a) == Get(dados, a)
  {
  }

  /** The copied columns late in the mapping. */
  lemma CopiesLaterColumns(c: Creation, dados: Payload, latitude: Value, longitude: Value, a: string)
    requires a in {"tagsInvisiveis", "instagram", "areasAtuacao"} || (c.copiesRequired && a == "venda")
    ensures Get(CreationCols(c, dados, latitude, longitude), a) == Get(dados, a)
  {
  }

  /** An input that gives a copied textual column an array or an object (a form field sent
      twice) makes creation fail with a validation error naming that column. */
  lemma CreationRefusesNonScalar(c: Creation, t: map<int, LocalRec>, dados: Payload, latitude: Value, longitude: Value, a: string)
    requires a in CopiedTextual || (c.copiesRequired && a == "venda")
    requires NonScalar(dados, a)
    ensures var e := RowError(OnCreate, t, CreationRow(c, dados, latitude, longitude));
      e.Some? && e.value.ValidationFailed? && a in e.value.arrays
    ensures var f := CreationError(c, t, dados, latitude, longitude);
      f.Some? && f.value.name == "SequelizeValidationError"
  {
    var r := CreationRow(c, dados, latitude, longitude);
    CreationCopiesTextual(c, dados, latitude, longitude, a);
    CopiedAreTextual(a);
    assert NonScalar(r.cols, a);
    assert a in NonScalars(r.cols, Textual);
  }

  /** With the required columns copied, `certificadoCnpj` and `venda` hold the input's
      values, and `escala` its default. */
  lemma CorrectedCreationCopies(dados: Payload, latitude: Value, longitude: Value)
    ensures var cols := CreationRow(CorrectedCreation, dados, latitude, longitude).cols;
      Get(cols, "certificadoCnpj") == Get(dados, "certificadoCnpj") && Get(cols, "venda") == Get(dados, "venda")
      && Get(cols, "escala") == Num(0.0)
  {
  }

  /** With the required columns copied, the NOT NULL check passes exactly when the input
      names the person responsible under either spelling, their CPF, a certificate and a
      sales description. */
  lemma CorrectedCreationRequired(dados: Payload, latitude: Value, longitude: Value)
    ensures MissingRequired(CreationRow(CorrectedCreation, dados, latitude, longitude).cols, Required) == [] <==>
      Or(Get(dados, "nome_responsavel"), Get(dados, "nomeResponsavel")) != Null
      && Or(Get(dados, "cpf_responsavel"), Get(dados, "cpfResponsavel")) != Null
      && Present(dados, "certificadoCnpj") && Present(dados, "venda")
  {
    var cols := CreationRow(CorrectedCreation, dados, latitude, longitude).cols;
    CreationResponsible(CorrectedCreation, dados, latitude, longitude);
    CorrectedCreationCopies(dados, latitude, longitude);
    var m := MissingRequired(cols, Required);
    assert Required == ["nomeResponsavel", "cpfResponsavel", "certificadoCnpj", "venda", "escala"];
    assert forall a :: a in Required ==> (Present(cols, a) <==> Get(cols, a) != Null);
    if m != [] {
      assert m[0] in m;
    }
  }

  /** A staged request changes no visible field, only the status and the payload; the
      admin service's reject then undoes an update request but rejects the listing outright
      after a deletion request. */
  lemma RequestThenServiceReject(rec: LocalRec, p: Payload)
    ensures AdminService.Rejected(Requested(rec, PendenteAtualizacao, p)) == rec.(status := Ativo, pending := None)
    ensures AdminService.Rejected(Requested(rec, PendenteExclusao, p)) == rec.(status := Rejeitado, ativo := false, pending := Some(p))
  {
  }

  /** After the toggle the listing is public exactly when `ativo` was true. */
  lemma ToggleVisibility(t: map<int, LocalRec>, g: map<int, seq<string>>, id: int, ativo: bool)
    requires id in t
    ensures id in ListarTodos(t[id := Toggled(t[id], ativo)], g) <==> ativo
  {
  }
}
