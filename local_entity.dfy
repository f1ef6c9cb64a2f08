/** The `Local` listing as the `locais` table stores it: the five moderation
    statuses, the lifecycle columns with their defaults, the content columns with
    their length limits, and the table-wide rule that `cnpj` is unique. */
module LocalEntity {
  import opened Common
  import opened Json

  /** The moderation statuses of a listing. */
  datatype Status = PendenteAprovacao | Ativo | PendenteAtualizacao | PendenteExclusao | Rejeitado

  /** The string each status is stored as. */
  function StatusName(s: Status): (name: string)
    ensures |name| > 0
  {
    match s
    case PendenteAprovacao => "pendente_aprovacao"
    case Ativo => "ativo"
    case PendenteAtualizacao => "pendente_atualizacao"
    case PendenteExclusao => "pendente_exclusao"
    case Rejeitado => "rejeitado"
  }

  /** Reading a stored status back; a string outside the enumeration is no status. */
  function ParseStatus(name: string): (r: Option<Status>)
    ensures r.Some? ==> StatusName(r.value) == name
  {
    if name == "pendente_aprovacao" then Some(PendenteAprovacao)
    else if name == "ativo" then Some(Ativo)
    else if name == "pendente_atualizacao" then Some(PendenteAtualizacao)
    else if name == "pendente_exclusao" then Some(PendenteExclusao)
    else if name == "rejeitado" then Some(Rejeitado)
    else None
  }

  /** Every status survives the trip to its stored name and back, so the five names are distinct. */
  lemma StatusRoundTrip(s: Status)
    ensures ParseStatus(StatusName(s)) == Some(s)
  {
  }

  /** Distinct statuses are stored under distinct names. */
  lemma StatusNamesDistinct(a: Status, b: Status)
    requires StatusName(a) == StatusName(b)
    ensures a == b
  {
    StatusRoundTrip(a);
    StatusRoundTrip(b);
  }

  predicate IsPending(s: Status)
  {
    s == PendenteAprovacao || s == PendenteAtualizacao || s == PendenteExclusao
  }

  /** One row of `locais`. `cols` holds the content columns by attribute name (an absent
      column is NULL); the lifecycle columns are kept apart: `ativo`, the status, and the
      staged JSON payload `dados_atualizacao` (nullable). */
  datatype LocalRec = LocalRec(cols: Payload, ativo: bool, status: Status, pending: Option<Payload>)

  /** The keys a request body may carry that never land in a content column. */
  const LifecycleKeys: set<string> := {"localId", "status", "ativo", "dados_atualizacao"}

  /** A freshly created row: `ativo` defaults to false, `status` to pending approval, no
      payload is staged, and `escala` defaults to 0 when the input does not give it. */
  function NewRow(cols: Payload): (r: LocalRec)
    ensures !r.ativo && r.status == PendenteAprovacao && r.pending == None
    ensures Get(r.cols, "escala") == (if "escala" in cols then cols["escala"] else Num(0.0))
    ensures forall k :: k in cols ==> k in r.cols && r.cols[k] == cols[k]
    ensures r.cols.Keys == cols.Keys + {"escala"}
  {
    LocalRec(if "escala" in cols then cols else cols["escala" := Num(0.0)], false, PendenteAprovacao, None)
  }

  /** A `STRING(n)` column: attribute name, database field name, and length limit. */
  datatype Column = Column(attr: string, field: string, limit: nat)

  /** The length-limited columns in declaration order (`STRING` is `VARCHAR(255)`). */
  const Limited: seq<Column> := [
    Column("categoria", "categoria", 255),
    Column("nomeResponsavel", "nome_responsavel", 255),
    Column("cpfResponsavel", "cpf_responsavel", 14),
    Column("certificadoCnpj", "certificado_cnpj", 14),
    Column("contatoLocal", "contato_local", 255),
    Column("cnpj", "cnpj", 255),
    Column("nomeFantasia", "nome_fantasia", 255),
    Column("emailLocal", "email_local", 255),
    Column("endereco", "endereco", 255),
    Column("tagsInvisiveis", "tags_invisiveis", 255),
    Column("website", "website", 255),
    Column("instagram", "instagram", 255)
  ]

  predicate TooLong(cols: Payload, c: Column)
  {
    c.attr in cols && cols[c.attr].Str? && |cols[c.attr].s| > c.limit
  }

  /** The first column the database refuses as too long, if any. */
  function FirstTooLong(cols: Payload, cs: seq<Column>): (r: Option<Column>)
    ensures r.Some? ==> r.value in cs && TooLong(cols, r.value)
    ensures r.None? ==> forall c :: c in cs ==> !TooLong(cols, c)
  {
    if cs == [] then None
    else if TooLong(cols, cs[0]) then Some(cs[0])
    else FirstTooLong(cols, cs[1..])
  }

  /** The content attributes declared `allowNull: false`, in declaration order. `escala` has
      a default, so only an explicit `null` leaves it NULL. */
  const Required: seq<string> := ["nomeResponsavel", "cpfResponsavel", "certificadoCnpj", "venda", "escala"]

  /** The required attributes assumed for the entity the older services run against: the
      same list without `certificadoCnpj`, which those services never write. */
  const LegacyRequired: seq<string> := ["nomeResponsavel", "cpfResponsavel", "venda", "escala"]

  /** Every attribute `Local` declares, in declaration order. */
  const Attributes: seq<string> := [
    "localId", "categoria", "nomeResponsavel", "cpfResponsavel", "certificadoCnpj", "contatoLocal", "cnpj",
    "nomeFantasia", "emailLocal", "endereco", "descricao", "descricaoDiferencial", "tagsInvisiveis", "website",
    "instagram", "ativo", "logoUrl", "status", "dados_atualizacao", "areasAtuacao", "venda", "escala"]

  /** The attributes declared `STRING` or `TEXT`, in declaration order. */
  const Textual: seq<string> := [
    "categoria", "nomeResponsavel", "cpfResponsavel", "certificadoCnpj", "contatoLocal", "cnpj", "nomeFantasia",
    "emailLocal", "endereco", "descricao", "descricaoDiferencial", "tagsInvisiveis", "website", "instagram",
    "logoUrl", "areasAtuacao", "venda"]

  /** The required attributes `cols` leaves NULL, in declaration order. */
  function MissingRequired(cols: Payload, attrs: seq<string>): (r: seq<string>)
    ensures forall a :: a in r <==> a in attrs && !Present(cols, a)
  {
    if attrs == [] then []
    else (if Present(cols, attrs[0]) then [] else [attrs[0]]) + MissingRequired(cols, attrs[1..])
  }

  /** An array or an object, which Sequelize refuses in a `STRING` or `TEXT` attribute. */
  predicate NonScalar(cols: Payload, a: string)
  {
    a in cols && (cols[a].Arr? || cols[a].Obj?)
  }

  /** The attributes of `attrs` that `cols` sets to an array or an object, in order. */
  function NonScalars(cols: Payload, attrs: seq<string>): (r: seq<string>)
    ensures forall a {:trigger a in r} :: a in r <==> a in attrs && NonScalar(cols, a)
  {
    if attrs == [] then []
    else (if NonScalar(cols, attrs[0]) then [attrs[0]] else []) + NonScalars(cols, attrs[1..])
  }

  /** What one statement validates: the required attributes it checks for NULL and the
      textual attributes it checks for an array or an object. */
  datatype Checks = Checks(required: seq<string>, textual: seq<string>)

  /** `Local.create` validates every attribute. */
  const OnCreate := Checks(Required, Textual)

  /** The creation of the older services, against the required list assumed for their entity. */
  const OnLegacyCreate := Checks(LegacyRequired, Textual)

  /** No length-limited column of the row is too long. */
  predicate ColumnsFit(r: LocalRec)
  {
    forall c :: c in Limited ==> !TooLong(r.cols, c)
  }

  /** The row passes a statement that validates `ch`, and MySQL's length limits. */
  predicate RowFits(ch: Checks, r: LocalRec)
  {
    (forall a :: a in ch.required ==> Present(r.cols, a))
    && (forall a :: a in ch.textual ==> !NonScalar(r.cols, a))
    && ColumnsFit(r)
  }

  /** The attributes of `attrs` whose value differs between `before` and `after`. */
  function Changed(attrs: seq<string>, before: Payload, after: Payload): (r: seq<string>)
    ensures forall a {:trigger a in r} :: a in r <==> a in attrs && Get(before, a) != Get(after, a)
    ensures before == after ==> r == []
  {
    if attrs == [] then []
    else (if Get(before, attrs[0]) != Get(after, attrs[0]) then [attrs[0]] else []) + Changed(attrs[1..], before, after)
  }

  /** The row's CNPJ, when it has a non-NULL one (a unique index admits many NULLs). */
  function CnpjOf(r: LocalRec): (c: Option<Value>)
    ensures c.Some? <==> Present(r.cols, "cnpj")
  {
    if Present(r.cols, "cnpj") then Some(r.cols["cnpj"]) else None
  }

  predicate CnpjTaken(t: map<int, LocalRec>, c: Option<Value>)
  {
    c.Some? && exists id :: id in t && CnpjOf(t[id]) == c
  }

  /** What the database keeps true of the whole table: every row fits its column lengths,
      and no two rows share a CNPJ. NOT NULL is a check of each statement, not of the table:
      Sequelize validates every attribute on an insert and only the changed ones on an update. */
  predicate TableOk(t: map<int, LocalRec>)
  {
    (forall id :: id in t ==> ColumnsFit(t[id]))
    && (forall i, j :: i in t && j in t && i != j && CnpjOf(t[i]).Some? ==> CnpjOf(t[i]) != CnpjOf(t[j]))
  }

  /** The ways the database refuses a statement. A validation error lists the attributes
      left NULL and the textual attributes given an array or an object. */
  datatype DbError =
    | ValidationFailed(nulls: seq<string>, arrays: seq<string>)
    | DataTooLong(field: string)
    | UniqueViolation(cnpj: Value)
    | UnknownColumn(column: string)

  /** An error as JavaScript code sees it: its `name` and its `message`. */
  datatype Failure = Failure(name: string, message: string)

  /** One line per refused attribute of `attrs`, in that order. */
  function ValidationLines(attrs: seq<string>, nulls: seq<string>, arrays: seq<string>): seq<string>
  {
    if attrs == [] then []
    else
      var a := attrs[0];
      (if a in nulls then ["notNull Violation: Local." + a + " cannot be null"]
       else if a in arrays then ["string violation: " + a + " cannot be an array or an object"]
       else [])
      + ValidationLines(attrs[1..], nulls, arrays)
  }

  /** The lines joined by `",\n"`. */
  function JoinLines(lines: seq<string>): string
  {
    if lines == [] then ""
    else if |lines| == 1 then lines[0]
    else lines[0] + ",\n" + JoinLines(lines[1..])
  }

  /** The message of a validation error: one line per refused attribute, in declaration order. */
  function ValidationMessage(nulls: seq<string>, arrays: seq<string>): string
  {
    JoinLines(ValidationLines(Attributes, nulls, arrays))
  }

  function DbFailure(e: DbError): (f: Failure)
    ensures e.ValidationFailed? ==> f.name == "SequelizeValidationError"
    ensures e.DataTooLong? ==> f.name == "SequelizeDatabaseError" && Contains(f.message, "Data too long for column")
    ensures e.UniqueViolation? ==> f.name == "SequelizeUniqueConstraintError"
  {
    match e
    case ValidationFailed(nulls, arrays) => Failure("SequelizeValidationError", ValidationMessage(nulls, arrays))
    case DataTooLong(field) =>
      Failure("SequelizeDatabaseError", "Data too long for column '" + field + "' at row 1")
    case UniqueViolation(_) => Failure("SequelizeUniqueConstraintError", "Validation error")
    case UnknownColumn(c) => Failure("SequelizeDatabaseError", "Unknown column '" + c + "' in 'where clause'")
  }

  /** Why the database would refuse to store `r` beside the rows `others`, if it would, when
      the statement validates `ch`: Sequelize's own validation (NULL in a required attribute,
      an array or object in a textual one) runs first, then MySQL's length limits and the
      unique CNPJ index. */
  function RowError(ch: Checks, others: map<int, LocalRec>, r: LocalRec): (e: Option<DbError>)
    ensures e.None? <==> RowFits(ch, r) && !CnpjTaken(others, CnpjOf(r))
    ensures e.Some? && (e.value.DataTooLong? || e.value.ValidationFailed?) ==> !RowFits(ch, r)
    ensures e.Some? && e.value.ValidationFailed? ==>
      e.value.nulls == MissingRequired(r.cols, ch.required) && e.value.arrays == NonScalars(r.cols, ch.textual)
    ensures e.Some? && e.value.ValidationFailed? <==>
      MissingRequired(r.cols, ch.required) != [] || NonScalars(r.cols, ch.textual) != []
  {
    var missing := MissingRequired(r.cols, ch.required);
    var arrays := NonScalars(r.cols, ch.textual);
    if missing != [] || arrays != [] then
      assert missing != [] ==> missing[0] in missing;
      assert arrays != [] ==> arrays[0] in arrays;
      Some(ValidationFailed(missing, arrays))
    else
      assert forall a :: a in ch.textual && NonScalar(r.cols, a) ==> a in arrays;
      match FirstTooLong(r.cols, Limited)
      case Some(c) => Some(DataTooLong(c.field))
      case None => if CnpjTaken(others, CnpjOf(r)) then Some(UniqueViolation(CnpjOf(r).value)) else None
  }

  /** What an update from `before` to `after` validates: only the attributes it changes. */
  function OnUpdate(before: Payload, after: Payload): Checks
  {
    Checks(Changed(Required, before, after), Changed(Textual, before, after))
  }

  /** Why an update of listing `id` to `r` is refused: Sequelize validates only the
      attributes the update changes. */
  function UpdateError(t: map<int, LocalRec>, id: int, r: LocalRec): (e: Option<DbError>)
    requires id in t
    ensures e.None? <==>
      (forall a :: a in Required && Get(t[id].cols, a) != Get(r.cols, a) ==> Present(r.cols, a))
      && (forall a :: a in Textual && Get(t[id].cols, a) != Get(r.cols, a) ==> !NonScalar(r.cols, a))
      && ColumnsFit(r) && !CnpjTaken(t - {id}, CnpjOf(r))
  {
    RowError(OnUpdate(t[id].cols, r.cols), t - {id}, r)
  }

  /** Writing an update the database accepts keeps the table valid. */
  lemma UpdateKeepsTableOk(t: map<int, LocalRec>, id: int, r: LocalRec)
    requires TableOk(t) && id in t && UpdateError(t, id, r).None?
    ensures TableOk(t[id := r])
  {
    PutKeepsTableOk(t, id, OnUpdate(t[id].cols, r.cols), r);
  }

  /** An update that gives a textual attribute a new value that is an array or an object
      is refused by validation, and the error names that attribute. */
  lemma UpdateRefusesNonScalar(t: map<int, LocalRec>, id: int, r: LocalRec, a: string)
    requires id in t && a in Textual && NonScalar(r.cols, a) && Get(t[id].cols, a) != Get(r.cols, a)
    ensures var e := UpdateError(t, id, r); e.Some? && e.value.ValidationFailed? && a in e.value.arrays
  {
    var ch := OnUpdate(t[id].cols, r.cols);
    assert a in ch.textual;
    assert a in NonScalars(r.cols, ch.textual);
    var e := RowError(ch, t - {id}, r);
    assert e.Some? && e.value.ValidationFailed?;
  }

  /** A row the database accepts keeps the table acceptable. */
  lemma {:induction false} PutKeepsTableOk(t: map<int, LocalRec>, id: int, ch: Checks, r: LocalRec)
    requires TableOk(t)
    requires RowError(ch, t - {id}, r).None?
    ensures TableOk(t[id := r])
  {
    var t' := t[id := r];
    forall i, j | i in t' && j in t' && i != j && CnpjOf(t'[i]).Some?
      ensures CnpjOf(t'[i]) != CnpjOf(t'[j])
    {
      if i == id {
        assert j in t - {id};
      } else if j == id {
        assert i in t - {id};
      } else {
        assert t'[i] == t[i] && t'[j] == t[j];
      }
    }
  }

  lemma RemoveKeepsTableOk(t: map<int, LocalRec>, id: int)
    requires TableOk(t)
    ensures TableOk(t - {id})
  {
  }

  /** An update that keeps the content columns of a stored row is never refused. */
  lemma SameColumnsAccepted(t: map<int, LocalRec>, id: int, r: LocalRec)
    requires TableOk(t) && id in t && r.cols == t[id].cols
    ensures UpdateError(t, id, r).None?
  {
  }

  /** The alias under which the entity index registers `Local.hasMany(ImagemLocal)`. */
  const GalleryAssociation := "locaisImg"

  /** Eager loading the gallery with `include: { as: alias }` when the association is
      registered as `registered`: Sequelize refuses an alias no association has before the
      query runs. */
  function IncludeError(alias: string, registered: string): (e: Option<Failure>)
    ensures e.None? <==> alias == registered
    ensures e.Some? ==> e.value.name == "SequelizeEagerLoadingError"
  {
    if alias == registered then None
    else Some(Failure("SequelizeEagerLoadingError",
      "ImagemLocal is associated to Local using an alias. You've included an alias (" + alias
      + "), but it does not match the alias(es) defined in your association (" + registered + ")."))
  }

  /** What a service call gives back: its value, or the error it throws. */
  datatype Result<T> = Done(value: T) | Thrown(failure: Failure)

  /** `new Error(message)`. */
  function Error(message: string): (f: Failure)
    ensures f.message == message
  {
    Failure("Error", message)
  }
}
