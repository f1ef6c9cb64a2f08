/** The administrator's moderation decisions of `src/controllers/AdminController.ts`:
    approve, edit-and-approve, the unified admin update, the plain delete and reject,
    plus the CSV field escaping and the star-rating histogram of the dashboard.

    Each decision is specified by a pure function from the listing, its gallery and the
    request to a `Decision` (the row change, the new gallery, the files to delete, the
    response message and the notification kind), and carried out by a method that takes
    the same steps as the controller against the `Store`. The older copy of the controller
    differs only in the data of a `Variant`; see `LegacyAdminController`. */
module AdminController {
  import opened Common
  import opened Json
  import opened LocalEntity
  import opened Persistence

  /** What the two copies of the controller, and the corrected reading of them, disagree on. */
  datatype Variant = Variant(
    allowList: seq<string>,     // staged keys an update approval may copy
    recipient: string,          // the column the notification is sent to
    approveImagesKey: string,   // the staged key `approveRequest` reads the new gallery from
    logoKey: string,            // the staged key the decisions read the new logo from
    logoFallback: bool,         // `approveRequest` finds the old logo under `logoUrl || logo`
    galleryFk: string,          // the foreign-key name `adminUpdateLocal` filters gallery rows by
    sentinelAnyStatus: bool,    // edit-and-approve honours `logoUrl: "DELETE"` whatever the status
    includeAlias: string,       // the alias `findByPk` eager-loads the gallery under
    association: string         // the alias the entity index the controller runs against registers
  )

  /** The `findByPk` of approve, edit-and-approve and the admin update loads the gallery. */
  predicate Loads(v: Variant)
  {
    IncludeError(v.includeAlias, v.association).None?
  }

  const SrcAllowList: seq<string> := [
    "categoria", "contatoLocal", "nomeLocal", "endereco", "descricao",
    "instagram", "nomeResponsavel", "cpfResponsavel", "latitude", "longitude"
  ]

  /** `src/controllers/AdminController.ts` as written. */
  const Src := Variant(SrcAllowList, "contatoLocal", "produtos", "logo", true, "localId", false, "produtosImg", GalleryAssociation)

  /** The same controller reading the keys the owner side actually stages (the gallery under
      `imagens`, the new logo under `logoUrl`), honouring the `"DELETE"` sentinel in
      edit-and-approve for every status, as the admin update does, and loading the gallery
      under the alias the entity index registers. */
  const SrcCorrected := Variant(SrcAllowList, "contatoLocal", "imagens", "logoUrl", true, "localId", true, GalleryAssociation, GalleryAssociation)

  datatype NoticeKind =
    | CreationApproved | UpdateApproved | ListingRemoved
    | CreationRejected | UpdateRejected | DeletionRejected

  /** A notification: its kind, its recipient, and the rejection reason it embeds. */
  datatype Notice = Notice(kind: NoticeKind, to: Value, reason: Option<Value>)

  /** The HTTP answer of a decision. */
  datatype Outcome =
    | Ok(message: string, notice: Option<Notice>)
    | NoContent
    | BadRequest(message: string)
    | NotFound(message: string)
    | ServerError(message: string)

  function HttpStatus(o: Outcome): (code: int)
    ensures o.Ok? <==> code == 200
    ensures o.NotFound? <==> code == 404
  {
    match o
    case Ok(_, _) => 200
    case NoContent => 204
    case BadRequest(_) => 400
    case NotFound(_) => 404
    case ServerError(_) => 500
  }

  /** What a decision does, before anything is written. */
  datatype Decision = Decision(
    row: RowChange,
    images: Option<seq<string>>,   // the listing's whole new gallery, when it changes
    unlinks: seq<string>,          // files deleted, best effort, before the commit
    fault: Option<DbError>,        // a query that fails before the commit
    message: string,
    notice: Option<NoticeKind>
  )

  const ApprovedMessage := "Solicitação aprovada com sucesso."

  /** The staged payload, or `{}` when none is staged (`local.dados_atualizacao || {}`). */
  function Staged(rec: LocalRec): (p: Payload)
    ensures rec.pending.Some? ==> p == rec.pending.value
    ensures rec.pending.None? ==> p == map[]
  {
    if rec.pending.Some? then rec.pending.value else map[]
  }

  /** The allow-listed staged fields that are present and not null. */
  function PermittedFields(list: seq<string>, staged: Payload): (r: Payload)
    ensures forall k :: k in r <==> k in list && Present(staged, k)
    ensures forall k :: k in r ==> k in staged && r[k] == staged[k]
  {
    map k | k in list && Present(staged, k) :: staged[k]
  }

  /** The copy loop over the allow-list (`for (const key of camposPermitidos)`). */
  method CopyPermitted(list: seq<string>, staged: Payload) returns (dados: Payload)
    ensures dados == PermittedFields(list, staged)
  {
    dados := map[];
    var i := 0;
    while i < |list|
      invariant 0 <= i <= |list|
      invariant dados == PermittedFields(list[..i], staged)
    {
      var key := list[i];
      if Present(staged, key) {
        dados := dados[key := staged[key]];
      }
      assert list[..i + 1] == list[..i] + [key];
      i := i + 1;
    }
    assert list[..i] == list;
  }

  /** The content a request body writes: everything but the lifecycle keys and the
      `urlsParaExcluir` instruction, which the decisions delete before writing. */
  function BodyContent(body: Payload): (r: Payload)
    ensures forall k :: k in r <==> k in body && k !in LifecycleKeys && k != "urlsParaExcluir"
    ensures forall k :: k in r ==> r[k] == body[k]
  {
    body - (LifecycleKeys + {"urlsParaExcluir"})
  }

  /** A logo change: the value `logoUrl` receives (none: the body's own) and the old file deleted. */
  datatype LogoPlan = LogoPlan(value: Option<Value>, unlinks: seq<string>)

  /** A gallery change: the whole new gallery (none: untouched) and the old files deleted. */
  datatype GalleryPlan = GalleryPlan(images: Option<seq<string>>, unlinks: seq<string>)

  /** Destroy every old row and create the staged URLs, minus the ones marked for deletion. */
  function ReplaceGallery(staged: seq<string>, urls: seq<string>, current: seq<string>): (g: GalleryPlan)
    ensures g.images.Some?
    ensures forall u :: u in g.images.value <==> u in staged && u !in urls
    ensures g.unlinks == current
  {
    GalleryPlan(Some(Without(staged, urls)), current)
  }

  /** Find the rows whose URL is marked and destroy them by id. */
  function PruneGallery(current: seq<string>, urls: seq<string>): (g: GalleryPlan)
    ensures g.images.Some?
    ensures forall u :: u in g.images.value <==> u in current && u !in urls
    ensures forall u :: u in g.unlinks <==> u in current && u in urls
  {
    GalleryPlan(Some(Without(current, urls)), Only(current, urls))
  }

  /** `if (logoAntigaUrl) fs.unlink(...)` for the listing's current logo. The newer copy
      falls back to `(local as any).logo`, which is always `undefined`: Local declares no
      `logo` attribute, so the instance never carries one, and the fallback names no file. */
  function OldLogo(v: Variant, rec: LocalRec): (logo: Value)
    ensures !v.logoFallback ==> logo == Get(rec.cols, "logoUrl")
    ensures FileOf(logo) == FileOf(Get(rec.cols, "logoUrl"))
  {
    if v.logoFallback then Or(Get(rec.cols, "logoUrl"), Null) else Get(rec.cols, "logoUrl")
  }

  /** The copy of an approved update: allow-listed staged fields, then the staged logo. */
  function UpdateFields(v: Variant, staged: Payload): (dados: Payload)
    ensures forall k :: k in dados <==> (k in v.allowList && Present(staged, k)) || (k == "logoUrl" && Truthy(Get(staged, v.logoKey)))
    ensures Truthy(Get(staged, v.logoKey)) ==> dados["logoUrl"] == Get(staged, v.logoKey)
    ensures forall k :: k in dados && k != "logoUrl" ==> k in staged && dados[k] == staged[k]
  {
    var copied := PermittedFields(v.allowList, staged);
    var logo := Get(staged, v.logoKey);
    if Truthy(logo) then copied["logoUrl" := logo] else copied
  }

  /** `approveRequest` on a listing whose gallery is `images`. */
  function ApproveDecision(v: Variant, rec: LocalRec, images: seq<string>): (d: Decision)
    ensures d.fault.None?
    ensures rec.status == PendenteAprovacao ==>
      d == Decision(Put(rec.(status := Ativo, ativo := true)), None, [], None, ApprovedMessage, Some(CreationApproved))
    ensures rec.status == PendenteAtualizacao ==>
      d.row.Put? && d.row.rec.status == Ativo && d.row.rec.ativo && d.row.rec.pending.None?
      && d.row.rec.cols == rec.cols + UpdateFields(v, Staged(rec))
      && d.notice == Some(UpdateApproved) && d.message == ApprovedMessage
    ensures rec.status == PendenteAtualizacao && rec.pending.Some? && NonEmptyArr(Get(Staged(rec), v.approveImagesKey)) ==>
      d.images == Some(Get(Staged(rec), v.approveImagesKey).items)
      && forall u :: u in images ==> u in d.unlinks
    ensures !(rec.status == PendenteAtualizacao && rec.pending.Some? && NonEmptyArr(Get(Staged(rec), v.approveImagesKey))) ==>
      d.images.None?
    ensures rec.status == PendenteExclusao ==>
      d == Decision(Destroy, None, [], None, "local excluído com sucesso.", Some(ListingRemoved))
    ensures rec.status == Ativo || rec.status == Rejeitado ==>
      d == Decision(Keep, None, [], None, ApprovedMessage, None)
  {
    match rec.status
    case PendenteAprovacao =>
      Decision(Put(rec.(status := Ativo, ativo := true)), None, [], None, ApprovedMessage, Some(CreationApproved))
    case PendenteAtualizacao =>
      if rec.pending.Some? then
        var staged := rec.pending.value;
        var logoFiles := if Truthy(Get(staged, v.logoKey)) then FileOf(OldLogo(v, rec)) else [];
        var newImages := Get(staged, v.approveImagesKey);
        var replace := NonEmptyArr(newImages);
        Decision(
          Put(LocalRec(rec.cols + UpdateFields(v, staged), true, Ativo, None)),
          if replace then Some(newImages.items) else None,
          logoFiles + (if replace then images else []),
          None, ApprovedMessage, Some(UpdateApproved))
      else
        Decision(Put(rec.(status := Ativo, ativo := true, pending := None)), None, [], None, ApprovedMessage, Some(UpdateApproved))
    case PendenteExclusao =>
      Decision(Destroy, None, [], None, "local excluído com sucesso.", Some(ListingRemoved))
    case Ativo => Decision(Keep, None, [], None, ApprovedMessage, None)
    case Rejeitado => Decision(Keep, None, [], None, ApprovedMessage, None)
  }

  /** Is the body's `logoUrl` the `"DELETE"` sentinel (or, where `orNull`, null)? */
  predicate ClearsLogo(body: Payload, orNull: bool)
  {
    "logoUrl" in body && (body["logoUrl"] == Str("DELETE") || (orNull && body["logoUrl"] == Null))
  }

  /** The logo step of edit-and-approve and of the admin update: the sentinel clears the
      logo and deletes the current (or staged) file; otherwise, where `swap`, a staged logo
      replaces the current one, whose file is deleted. */
  function LogoStep(v: Variant, rec: LocalRec, body: Payload, clear: bool, swap: bool): (l: LogoPlan)
    ensures clear ==> l == LogoPlan(Some(Null), FileOf(Or(Get(rec.cols, "logoUrl"), Get(Staged(rec), v.logoKey))))
    ensures !clear && swap && Truthy(Get(Staged(rec), v.logoKey)) ==>
      l == LogoPlan(Some(Get(Staged(rec), v.logoKey)), FileOf(Get(rec.cols, "logoUrl")))
    ensures !clear && !(swap && Truthy(Get(Staged(rec), v.logoKey))) ==> l == LogoPlan(None, [])
  {
    var staged := Staged(rec);
    if clear then LogoPlan(Some(Null), FileOf(Or(Get(rec.cols, "logoUrl"), Get(staged, v.logoKey))))
    else if swap && Truthy(Get(staged, v.logoKey)) then LogoPlan(Some(Get(staged, v.logoKey)), FileOf(Get(rec.cols, "logoUrl")))
    else LogoPlan(None, [])
  }

  /** The gallery step: staged `imagens` (where `replace` is allowed) replace the gallery;
      otherwise marked URLs are pruned from it. */
  function GalleryStep(rec: LocalRec, images: seq<string>, urls: seq<string>, replace: bool): (g: GalleryPlan)
    ensures replace && NonEmptyArr(Get(Staged(rec), "imagens")) ==> g == ReplaceGallery(Get(Staged(rec), "imagens").items, urls, images)
    ensures !(replace && NonEmptyArr(Get(Staged(rec), "imagens"))) && |urls| > 0 ==> g == PruneGallery(images, urls)
    ensures !(replace && NonEmptyArr(Get(Staged(rec), "imagens"))) && |urls| == 0 ==> g == GalleryPlan(None, [])
  {
    var staged := Get(Staged(rec), "imagens");
    if replace && NonEmptyArr(staged) then ReplaceGallery(staged.items, urls, images)
    else if |urls| > 0 then PruneGallery(images, urls)
    else GalleryPlan(None, [])
  }

  /** The body as written: its content, with the logo step's value for `logoUrl`. */
  function EditedContent(body: Payload, l: LogoPlan): (r: Payload)
    ensures l.value.Some? ==> r == BodyContent(body)["logoUrl" := l.value.value]
    ensures l.value.None? ==> r == BodyContent(body)
  {
    if l.value.Some? then BodyContent(body)["logoUrl" := l.value.value] else BodyContent(body)
  }

  function EditNotice(s: Status): (n: Option<NoticeKind>)
    ensures s == PendenteAprovacao ==> n == Some(CreationApproved)
    ensures s == PendenteAtualizacao ==> n == Some(UpdateApproved)
    ensures s != PendenteAprovacao && s != PendenteAtualizacao ==> n.None?
  {
    if s == PendenteAprovacao then Some(CreationApproved)
    else if s == PendenteAtualizacao then Some(UpdateApproved)
    else None
  }

  /** `editAndApproveRequest` with the admin's `body` and the parsed `urlsParaExcluir`:
      payload reconciliation only for a pending update with a staged payload, and an
      activated listing whatever the status was. */
  function EditApproveDecision(v: Variant, rec: LocalRec, images: seq<string>, body: Payload, urls: seq<string>): (d: Decision)
    ensures d.fault.None? && d.row.Put?
    ensures d.row.rec.status == Ativo && d.row.rec.ativo && d.row.rec.pending.None?
    ensures var reconcile := rec.status == PendenteAtualizacao && rec.pending.Some?;
      var l := LogoStep(v, rec, body, (reconcile || v.sentinelAnyStatus) && ClearsLogo(body, false), reconcile);
      var g := if reconcile then GalleryStep(rec, images, urls, true) else GalleryPlan(None, []);
      d.row.rec.cols == rec.cols + EditedContent(body, l) && d.images == g.images && d.unlinks == l.unlinks + g.unlinks
    ensures d.notice == EditNotice(rec.status) && d.message == "Local editado e aprovado com sucesso."
  {
    var reconcile := rec.status == PendenteAtualizacao && rec.pending.Some?;
    var l := LogoStep(v, rec, body, (reconcile || v.sentinelAnyStatus) && ClearsLogo(body, false), reconcile);
    var g := if reconcile then GalleryStep(rec, images, urls, true) else GalleryPlan(None, []);
    Decision(Put(LocalRec(rec.cols + EditedContent(body, l), true, Ativo, None)), g.images, l.unlinks + g.unlinks, None,
      "Local editado e aprovado com sucesso.", EditNotice(rec.status))
  }

  /** A status an admin update approves in passing. */
  predicate AwaitsApproval(s: Status)
  {
    s == PendenteAprovacao || s == PendenteAtualizacao
  }

  /** A body's own `ativo` as Sequelize's BOOLEAN sanitiser sets it: a boolean, the form
      strings `"true"` and `"false"`, or the numbers 1 and 0. None when the body has no
      `ativo` or holds a value the row's flag cannot carry. */
  function BodyFlag(body: Payload): (r: Option<bool>)
    ensures r == Some(true) <==> "ativo" in body && body["ativo"] in {Bool(true), Str("true"), Num(1.0)}
    ensures r == Some(false) <==> "ativo" in body && body["ativo"] in {Bool(false), Str("false"), Num(0.0)}
  {
    if "ativo" !in body then None
    else match body["ativo"]
      case Bool(b) => Some(b)
      case Str(s) => if s == "true" then Some(true) else if s == "false" then Some(false) else None
      case Num(x) => if x == 1.0 then Some(true) else if x == 0.0 then Some(false) else None
      case _ => None
  }

  /** A body's own `status`, when it is one of the five stored names; none otherwise. */
  function BodyStatus(body: Payload): (r: Option<Status>)
    ensures r.Some? <==> "status" in body && body["status"].Str? && ParseStatus(body["status"].s).Some?
    ensures r.Some? ==> body["status"] == Str(StatusName(r.value))
  {
    if "status" in body && body["status"].Str? then ParseStatus(body["status"].s) else None
  }

  /** `adminUpdateLocal`: the sentinel (or null) clears the logo for any status; a staged
      logo and staged images are installed for a listing awaiting approval, which is then
      activated, while any other listing takes the body's own `status` and `ativo`; marked
      URLs are pruned otherwise; a gallery query under a foreign-key name other than
      `localId` fails before the commit. */
  function AdminUpdateDecision(v: Variant, rec: LocalRec, images: seq<string>, body: Payload, urls: seq<string>): (d: Decision)
    ensures d.row.Put?
    ensures AwaitsApproval(rec.status) ==>
      d.row.rec.status == Ativo && d.row.rec.ativo && d.row.rec.pending.None?
    ensures !AwaitsApproval(rec.status) ==>
      d.row.rec.status == (if BodyStatus(body).Some? then BodyStatus(body).value else rec.status)
      && d.row.rec.ativo == (if BodyFlag(body).Some? then BodyFlag(body).value else rec.ativo)
      && d.row.rec.pending == (if "dados_atualizacao" in body then None else rec.pending)
    ensures var l := LogoStep(v, rec, body, ClearsLogo(body, true), AwaitsApproval(rec.status));
      d.row.rec.cols == rec.cols + EditedContent(body, l)
    ensures var g := GalleryStep(rec, images, urls, AwaitsApproval(rec.status));
      (g.images.Some? && v.galleryFk != "localId" <==> d.fault.Some?)
      && (d.fault.None? ==> d.images == g.images)
    ensures d.notice == EditNotice(rec.status) && d.message == "Local atualizado com sucesso."
  {
    var l := LogoStep(v, rec, body, ClearsLogo(body, true), AwaitsApproval(rec.status));
    var g := GalleryStep(rec, images, urls, AwaitsApproval(rec.status));
    var fault := if g.images.Some? && v.galleryFk != "localId" then Some(UnknownColumn(v.galleryFk)) else None;
    var cols := rec.cols + EditedContent(body, l);
    var row :=
      if AwaitsApproval(rec.status) then LocalRec(cols, true, Ativo, None)
      else LocalRec(cols, if BodyFlag(body).Some? then BodyFlag(body).value else rec.ativo,
                    if BodyStatus(body).Some? then BodyStatus(body).value else rec.status,
                    if "dados_atualizacao" in body then None else rec.pending);
    Decision(Put(row), if fault.None? then g.images else None, l.unlinks + (if fault.None? then g.unlinks else []),
      fault, "Local atualizado com sucesso.", EditNotice(rec.status))
  }

  /** `rejectRequest`: a pending creation is destroyed, a pending update or deletion returns
      to active with its payload dropped (and `ativo` untouched); any other status is
      refused (`None`). */
  function RejectDecision(rec: LocalRec): (d: Option<Decision>)
    ensures d.None? <==> !IsPending(rec.status)
    ensures rec.status == PendenteAprovacao ==>
      d == Some(Decision(Destroy, None, [], None, "Cadastro de local rejeitado e removido.", Some(CreationRejected)))
    ensures rec.status == PendenteAtualizacao || rec.status == PendenteExclusao ==>
      d.Some? && d.value.row == Put(rec.(status := Ativo, pending := None)) && d.value.images.None? && d.value.unlinks == []
      && d.value.message == "Solicitação rejeitada com sucesso."
      && d.value.notice == Some(if rec.status == PendenteAtualizacao then UpdateRejected else DeletionRejected)
  {
    match rec.status
    case PendenteAprovacao =>
      Some(Decision(Destroy, None, [], None, "Cadastro de local rejeitado e removido.", Some(CreationRejected)))
    case PendenteAtualizacao =>
      Some(Decision(Put(rec.(status := Ativo, pending := None)), None, [], None, "Solicitação rejeitada com sucesso.", Some(UpdateRejected)))
    case PendenteExclusao =>
      Some(Decision(Put(rec.(status := Ativo, pending := None)), None, [], None, "Solicitação rejeitada com sucesso.", Some(DeletionRejected)))
    case Ativo => None
    case Rejeitado => None
  }

  /** The notification sent after the commit: only when there is one to send and the
      recipient column holds a truthy value. A send failure is caught and changes nothing. */
  function Notify(kind: Option<NoticeKind>, to: Value, reason: Option<Value>): (n: Option<Notice>)
    ensures n.Some? <==> kind.Some? && Truthy(to)
    ensures n.Some? ==> n.value == Notice(kind.value, to, reason)
  {
    if kind.Some? && Truthy(to) then Some(Notice(kind.value, to, reason)) else None
  }

  /** The row the in-memory instance describes after the decision. */
  function After(rec: LocalRec, c: RowChange): (r: LocalRec)
    ensures c.Put? ==> r == c.rec
    ensures !c.Put? ==> r == rec
  {
    if c.Put? then c.rec else rec
  }

  /** The answer once the commit has run: 500 with `failure` when anything was refused,
      otherwise 200 with the decision's message and notification. */
  function Answer(d: Decision, err: Option<DbError>, to: Value, reason: Option<Value>, failure: string): (o: Outcome)
    ensures err.Some? ==> o == ServerError(failure)
    ensures err.None? ==> o == Ok(d.message, Notify(d.notice, to, reason))
  {
    if err.Some? then ServerError(failure) else Ok(d.message, Notify(d.notice, to, reason))
  }

  /** The database's verdict on a decision for listing `id` of table `t`. */
  function Verdict(t: map<int, LocalRec>, id: int, d: Decision): (err: Option<DbError>)
    requires id in t
    ensures d.fault.Some? ==> err == d.fault
    ensures d.fault.None? ==> err == ChangeError(t, id, d.row)
  {
    if d.fault.Some? then d.fault else ChangeError(t, id, d.row)
  }

  /** The store after a decision on listing `id` ran: the files it names may be gone, and the
      row change and new gallery are in place exactly when the database accepted them. */
  twostate predicate Carried(db: Store, id: int, d: Decision)
    requires id in old(db.locals)
    reads db
  {
    var err := Verdict(old(db.locals), id, d);
    old(db.files) - (set p | p in d.unlinks) <= db.files && db.files <= old(db.files)
    && db.locals == (if err.None? then Applied(old(db.locals), id, d.row) else old(db.locals))
    && db.gallery == (if err.None? && d.images.Some? then old(db.gallery)[id := d.images.value] else old(db.gallery))
  }

  /** Delete the decision's files, then commit. */
  method Execute(db: Store, id: int, d: Decision) returns (err: Option<DbError>)
    requires db.Valid() && id in db.locals
    modifies db`locals, db`gallery, db`files
    ensures db.Valid() && Carried(db, id, d)
    ensures err == Verdict(old(db.locals), id, d)
  {
    db.UnlinkAll(d.unlinks);
    err := db.Commit(id, d.row, d.images, d.fault);
  }

  /** The steps of `approveRequest` once the listing is found: the status switch, the
      allow-list copy, the logo swap and the gallery replacement. */
  method PlanApprove(v: Variant, local: LocalRec, images: seq<string>) returns (d: Decision)
    ensures d == ApproveDecision(v, local, images)
  {
    match local.status {
      case PendenteAprovacao =>
        d := Decision(Put(local.(status := Ativo, ativo := true)), None, [], None, ApprovedMessage, Some(CreationApproved));
      case PendenteAtualizacao =>
        if local.pending.Some? {
          var staged := local.pending.value;
          var dados := CopyPermitted(v.allowList, staged);
          var unlinks: seq<string> := [];
          if Truthy(Get(staged, v.logoKey)) {
            unlinks := FileOf(OldLogo(v, local));
            dados := dados["logoUrl" := Get(staged, v.logoKey)];
          }
          var gallery: Option<seq<string>> := None;
          var produtos := Get(staged, v.approveImagesKey);
          if NonEmptyArr(produtos) {
            unlinks := unlinks + images;
            gallery := Some(produtos.items);
          }
          d := Decision(Put(LocalRec(local.cols + dados, true, Ativo, None)), gallery, unlinks, None, ApprovedMessage, Some(UpdateApproved));
        } else {
          d := Decision(Put(local.(status := Ativo, ativo := true, pending := None)), None, [], None, ApprovedMessage, Some(UpdateApproved));
        }
      case PendenteExclusao =>
        d := Decision(Destroy, None, [], None, "local excluído com sucesso.", Some(ListingRemoved));
      case Ativo =>
        d := Decision(Keep, None, [], None, ApprovedMessage, None);
      case Rejeitado =>
        d := Decision(Keep, None, [], None, ApprovedMessage, None);
    }
  }

  /** `approveRequest(id)`. */
  method ApproveRequest(db: Store, v: Variant, id: int) returns (out: Outcome)
    requires db.Valid()
    modifies db`locals, db`gallery, db`files
    ensures db.Valid()
    ensures !Loads(v) ==> out == ServerError("Erro ao aprovar a solicitação.") && unchanged(db)
    ensures Loads(v) && id !in old(db.locals) ==>
      out == NotFound("local não encontrado.") && unchanged(db)
    ensures Loads(v) && id in old(db.locals) ==>
      var d := ApproveDecision(v, old(db.locals[id]), old(db.Images(id)));
      Carried(db, id, d)
      && out == Answer(d, Verdict(old(db.locals), id, d), Get(After(old(db.locals[id]), d.row).cols, v.recipient), None,
                       "Erro ao aprovar a solicitação.")
  {
    if !Loads(v) {
      return ServerError("Erro ao aprovar a solicitação.");
    }
    if id !in db.locals {
      return NotFound("local não encontrado.");
    }
    var local := db.locals[id];
    var d := PlanApprove(v, local, db.Images(id));
    var err := Execute(db, id, d);
    out := Answer(d, err, Get(After(local, d.row).cols, v.recipient), None, "Erro ao aprovar a solicitação.");
  }

  /** Writing the edited body: dropping `urlsParaExcluir` and setting `logoUrl` commute
      with taking the content. */
  lemma EditedBodyContent(body: Payload, l: LogoPlan)
    ensures l.value.Some? ==> BodyContent(body["logoUrl" := l.value.value] - {"urlsParaExcluir"}) == EditedContent(body, l)
    ensures l.value.None? ==> BodyContent(body - {"urlsParaExcluir"}) == EditedContent(body, l)
  {
  }

  lemma EditedLogoContent(body: Payload, l: LogoPlan, edited: Payload)
    requires l.value.Some? ==> edited == body["logoUrl" := l.value.value]
    requires l.value.None? ==> edited == body
    ensures BodyContent(edited) == EditedContent(body, l)
  {
  }

  /** The logo steps of `editAndApproveRequest`: the sentinel clears the logo (for every
      status where the variant says so, otherwise only when reconciling); reconciling takes a
      truthy staged logo. */
  method PlanEditLogo(v: Variant, local: LocalRec, body: Payload, reconcile: bool) returns (edited: Payload, logoFiles: seq<string>)
    requires reconcile ==> local.pending.Some?
    ensures var l := LogoStep(v, local, body, (reconcile || v.sentinelAnyStatus) && ClearsLogo(body, false), reconcile);
      logoFiles == l.unlinks
      && (l.value.Some? ==> edited == body["logoUrl" := l.value.value])
      && (l.value.None? ==> edited == body)
  {
    edited, logoFiles := body, [];
    if v.sentinelAnyStatus && !reconcile && ClearsLogo(edited, false) {
      logoFiles := FileOf(Or(Get(local.cols, "logoUrl"), Get(Staged(local), v.logoKey)));
      edited := edited["logoUrl" := Null];
    }
    if reconcile {
      var staged := local.pending.value;
      if ClearsLogo(edited, false) {
        logoFiles := FileOf(Or(Get(local.cols, "logoUrl"), Get(staged, v.logoKey)));
        edited := edited["logoUrl" := Null];
      } else if Truthy(Get(staged, v.logoKey)) {
        logoFiles := FileOf(Get(local.cols, "logoUrl"));
        edited := edited["logoUrl" := Get(staged, v.logoKey)];
      }
    }
  }

  /** The gallery part of an edit that reconciles a staged update: staged `imagens`
      replace the gallery, otherwise marked URLs are pruned from it. */
  method PlanReconcileGallery(local: LocalRec, images: seq<string>, urls: seq<string>)
    returns (files: seq<string>, gallery: Option<seq<string>>)
    ensures files == GalleryStep(local, images, urls, true).unlinks
    ensures gallery == GalleryStep(local, images, urls, true).images
  {
    files, gallery := [], None;
    var imagens := Get(Staged(local), "imagens");
    if NonEmptyArr(imagens) {
      files := images;
      gallery := Some(Without(imagens.items, urls));
    } else if |urls| > 0 {
      files := Only(images, urls);
      gallery := Some(Without(images, urls));
    }
  }

  /** The steps of `editAndApproveRequest` once the listing is found. */
  method PlanEditApprove(v: Variant, local: LocalRec, images: seq<string>, body: Payload, urls: seq<string>) returns (d: Decision)
    ensures d == EditApproveDecision(v, local, images, body, urls)
  {
    var statusOriginal := local.status;
    var reconcile := statusOriginal == PendenteAtualizacao && local.pending.Some?;
    ghost var l := LogoStep(v, local, body, (reconcile || v.sentinelAnyStatus) && ClearsLogo(body, false), reconcile);
    ghost var g := if reconcile then GalleryStep(local, images, urls, true) else GalleryPlan(None, []);
    var edited, logoFiles := PlanEditLogo(v, local, body, reconcile);
    var galleryFiles: seq<string> := [];
    var gallery: Option<seq<string>> := None;
    if reconcile {
      galleryFiles, gallery := PlanReconcileGallery(local, images, urls);
    }
    assert logoFiles == l.unlinks && galleryFiles == g.unlinks && gallery == g.images;
    assert l.value.Some? ==> edited == body["logoUrl" := l.value.value];
    assert l.value.None? ==> edited == body;
    edited := edited - {"urlsParaExcluir"};
    EditedBodyContent(body, l);
    assert BodyContent(edited) == EditedContent(body, l);
    d := Decision(Put(LocalRec(local.cols + BodyContent(edited), true, Ativo, None)), gallery, logoFiles + galleryFiles, None,
      "Local editado e aprovado com sucesso.", EditNotice(statusOriginal));
    ghost var e := EditApproveDecision(v, local, images, body, urls);
    assert d.row == e.row && d.images == e.images && d.unlinks == e.unlinks;
  }

  /** `editAndApproveRequest(id)` with the request `body` and its parsed `urlsParaExcluir`. */
  method EditAndApproveRequest(db: Store, v: Variant, id: int, body: Payload, urls: seq<string>) returns (out: Outcome)
    requires db.Valid()
    modifies db`locals, db`gallery, db`files
    ensures db.Valid()
    ensures !Loads(v) ==> out == ServerError("Erro ao editar e aprovar a solicitação.") && unchanged(db)
    ensures Loads(v) && id !in old(db.locals) ==>
      out == NotFound("Local não encontrado.") && unchanged(db)
    ensures Loads(v) && id in old(db.locals) ==>
      var d := EditApproveDecision(v, old(db.locals[id]), old(db.Images(id)), body, urls);
      Carried(db, id, d)
      && out == Answer(d, Verdict(old(db.locals), id, d), Get(d.row.rec.cols, v.recipient), None,
                       "Erro ao editar e aprovar a solicitação.")
  {
    if !Loads(v) {
      return ServerError("Erro ao editar e aprovar a solicitação.");
    }
    if id !in db.locals {
      return NotFound("Local não encontrado.");
    }
    var d := PlanEditApprove(v, db.locals[id], db.Images(id), body, urls);
    var err := Execute(db, id, d);
    out := Answer(d, err, Get(d.row.rec.cols, v.recipient), None, "Erro ao editar e aprovar a solicitação.");
  }

  /** The gallery steps of `adminUpdateLocal`: every branch queries the gallery by
      `v.galleryFk`, so a wrong column name fails whichever branch runs. */
  method PlanGalleryUpdate(v: Variant, local: LocalRec, images: seq<string>, urls: seq<string>)
    returns (gallery: Option<seq<string>>, files: seq<string>, fault: Option<DbError>)
    ensures var g := GalleryStep(local, images, urls, AwaitsApproval(local.status));
      (fault.Some? <==> g.images.Some? && v.galleryFk != "localId")
      && (fault.Some? ==> fault == Some(UnknownColumn(v.galleryFk)) && files == [] && gallery.None?)
      && (fault.None? ==> files == g.unlinks && gallery == g.images)
  {
    gallery, files, fault := None, [], None;
    var imagens := Get(Staged(local), "imagens");
    if AwaitsApproval(local.status) && NonEmptyArr(imagens) {
      if v.galleryFk != "localId" {
        fault := Some(UnknownColumn(v.galleryFk));
      } else {
        files := images;
        gallery := Some(Without(imagens.items, urls));
      }
    } else if |urls| > 0 {
      if v.galleryFk != "localId" {
        fault := Some(UnknownColumn(v.galleryFk));
      } else {
        files := Only(images, urls);
        gallery := Some(Without(images, urls));
      }
    }
  }

  /** The logo steps of `adminUpdateLocal`: the sentinel or null clears the logo; a listing
      awaiting approval takes a truthy staged logo. */
  method PlanAdminLogo(v: Variant, local: LocalRec, body: Payload) returns (edited: Payload, logoFiles: seq<string>)
    ensures var l := LogoStep(v, local, body, ClearsLogo(body, true), AwaitsApproval(local.status));
      logoFiles == l.unlinks
      && (l.value.Some? ==> edited == body["logoUrl" := l.value.value])
      && (l.value.None? ==> edited == body)
  {
    var staged := Staged(local);
    edited, logoFiles := body, [];
    if ClearsLogo(body, true) {
      logoFiles := FileOf(Or(Get(local.cols, "logoUrl"), Get(staged, v.logoKey)));
      edited := body["logoUrl" := Null];
    } else if AwaitsApproval(local.status) && Truthy(Get(staged, v.logoKey)) {
      logoFiles := FileOf(Get(local.cols, "logoUrl"));
      edited := body["logoUrl" := Get(staged, v.logoKey)];
    }
  }

  /** The steps of `adminUpdateLocal` once the listing is found. */
  method PlanAdminUpdate(v: Variant, local: LocalRec, images: seq<string>, body: Payload, urls: seq<string>) returns (d: Decision)
    ensures d == AdminUpdateDecision(v, local, images, body, urls)
  {
    var statusOriginal := local.status;
    ghost var l := LogoStep(v, local, body, ClearsLogo(body, true), AwaitsApproval(statusOriginal));
    var edited, logoFiles := PlanAdminLogo(v, local, body);
    var gallery, galleryFiles, fault := PlanGalleryUpdate(v, local, images, urls);
    EditedLogoContent(body, l, edited);
    var cols := local.cols + BodyContent(edited);
    var row: LocalRec;
    if AwaitsApproval(statusOriginal) {
      row := LocalRec(cols, true, Ativo, None);
    } else {
      // `...adminEditedData` spreads the body's own `ativo` and `status` into the update
      var ativo := if BodyFlag(body).Some? then BodyFlag(body).value else local.ativo;
      var status := if BodyStatus(body).Some? then BodyStatus(body).value else local.status;
      var pending := if "dados_atualizacao" in body then None else local.pending;
      row := LocalRec(cols, ativo, status, pending);
    }
    d := Decision(Put(row), gallery, logoFiles + galleryFiles, fault, "Local atualizado com sucesso.", EditNotice(statusOriginal));
  }

  /** `adminUpdateLocal(id)` with the request `body` and its parsed `urlsParaExcluir`. */
  method AdminUpdateLocal(db: Store, v: Variant, id: int, body: Payload, urls: seq<string>) returns (out: Outcome)
    requires db.Valid()
    modifies db`locals, db`gallery, db`files
    ensures db.Valid()
    ensures !Loads(v) ==> out == ServerError("Erro ao atualizar o local.") && unchanged(db)
    ensures Loads(v) && id !in old(db.locals) ==>
      out == NotFound("Local não encontrado.") && unchanged(db)
    ensures Loads(v) && id in old(db.locals) ==>
      var d := AdminUpdateDecision(v, old(db.locals[id]), old(db.Images(id)), body, urls);
      Carried(db, id, d)
      && out == Answer(d, Verdict(old(db.locals), id, d), Get(d.row.rec.cols, v.recipient), None,
                       "Erro ao atualizar o local.")
  {
    if !Loads(v) {
      return ServerError("Erro ao atualizar o local.");
    }
    if id !in db.locals {
      return NotFound("Local não encontrado.");
    }
    var d := PlanAdminUpdate(v, db.locals[id], db.Images(id), body, urls);
    var err := Execute(db, id, d);
    out := Answer(d, err, Get(d.row.rec.cols, v.recipient), None, "Erro ao atualizar o local.");
  }

  /** `adminDeleteLocal`: `id` is `parseInt(req.params.id)`, `None` when it is `NaN`. The
      row is destroyed outside any transaction; no file and no gallery row is touched. */
  method AdminDeleteLocal(db: Store, id: Option<int>) returns (out: Outcome)
    requires db.Valid()
    modifies db`locals
    ensures db.Valid()
    ensures id.None? ==> out == BadRequest("ID do local inválido.") && db.locals == old(db.locals)
    ensures id.Some? && id.value !in old(db.locals) ==> out == NotFound("Local não encontrado.") && db.locals == old(db.locals)
    ensures id.Some? && id.value in old(db.locals) ==> out == NoContent && db.locals == old(db.locals) - {id.value}
  {
    if id.None? {
      return BadRequest("ID do local inválido.");
    }
    if id.value !in db.locals {
      return NotFound("Local não encontrado.");
    }
    RemoveKeepsTableOk(db.locals, id.value);
    db.locals := db.locals - {id.value};
    out := NoContent;
  }

  /** `rejectRequest(id)` with the body's `motivoRejeicao` (`Null` when absent). */
  method RejectRequest(db: Store, v: Variant, id: int, motivo: Value) returns (out: Outcome)
    requires db.Valid()
    modifies db`locals, db`gallery, db`files
    ensures db.Valid()
    ensures id !in old(db.locals) ==>
      out == NotFound("Local não encontrado.") && unchanged(db)
    ensures id in old(db.locals) && RejectDecision(old(db.locals[id])).None? ==>
      out == BadRequest("O local não está em um estado pendente para rejeição.") && unchanged(db)
    ensures id in old(db.locals) && RejectDecision(old(db.locals[id])).Some? ==>
      var d := RejectDecision(old(db.locals[id])).value;
      Carried(db, id, d)
      && out == Answer(d, Verdict(old(db.locals), id, d), Get(old(db.locals[id]).cols, v.recipient),
                       if Truthy(motivo) then Some(motivo) else None, "Erro ao rejeitar a solicitação.")
  {
    if id !in db.locals {
      return NotFound("Local não encontrado.");
    }
    var local := db.locals[id];
    var emailParaNotificar := Get(local.cols, v.recipient);
    var reason := if Truthy(motivo) then Some(motivo) else None;
    var d: Decision;
    if local.status == PendenteAprovacao {
      d := Decision(Destroy, None, [], None, "Cadastro de local rejeitado e removido.", Some(CreationRejected));
    } else if local.status == PendenteAtualizacao || local.status == PendenteExclusao {
      var kind := if local.status == PendenteAtualizacao then UpdateRejected else DeletionRejected;
      d := Decision(Put(local.(status := Ativo, pending := None)), None, [], None, "Solicitação rejeitada com sucesso.", Some(kind));
    } else {
      return BadRequest("O local não está em um estado pendente para rejeição.");
    }
    assert RejectDecision(local) == Some(d);
    var err := Execute(db, id, d);
    out := Answer(d, err, emailParaNotificar, reason, "Erro ao rejeitar a solicitação.");
  }

  // ---------------------------------------------------------------------------
  // Properties of the decisions

  /** Approving a pending creation, deleting a listing, or doing nothing is never refused by
      the database: only lifecycle columns change. */
  lemma ApproveLifecycleAccepted(t: map<int, LocalRec>, id: int, v: Variant, images: seq<string>)
    requires TableOk(t) && id in t && t[id].status != PendenteAtualizacao
    ensures Verdict(t, id, ApproveDecision(v, t[id], images)).None?
  {
    if t[id].status == PendenteAprovacao {
      SameColumnsAccepted(t, id, t[id].(status := Ativo, ativo := true));
    }
  }

  /** A rejection the controller accepts is never refused by the database. */
  lemma RejectAccepted(t: map<int, LocalRec>, id: int)
    requires TableOk(t) && id in t && RejectDecision(t[id]).Some?
    ensures Verdict(t, id, RejectDecision(t[id]).value).None?
  {
    if t[id].status != PendenteAprovacao {
      SameColumnsAccepted(t, id, t[id].(status := Ativo, pending := None));
    }
  }

  /** Approving a pending update writes no content column outside the allow-list except
      `logoUrl`, and `logoUrl` only from a truthy staged logo. */
  lemma ApproveWritesOnlyPermitted(v: Variant, rec: LocalRec, images: seq<string>, k: string)
    requires rec.status == PendenteAtualizacao
    requires k !in v.allowList
    requires !(k == "logoUrl" && Truthy(Get(Staged(rec), v.logoKey)))
    ensures Lookup(ApproveDecision(v, rec, images).row.rec.cols, k) == Lookup(rec.cols, k)
  {
  }

  /** In edit-and-approve of a pending update, the `"DELETE"` sentinel wins over a staged
      logo: the logo is cleared and the current (or staged) file deleted. */
  lemma EditApproveDeleteWins(v: Variant, rec: LocalRec, images: seq<string>, body: Payload, urls: seq<string>)
    requires rec.status == PendenteAtualizacao && rec.pending.Some?
    requires ClearsLogo(body, false)
    ensures var d := EditApproveDecision(v, rec, images, body, urls);
      d.row.rec.cols["logoUrl"] == Null
      && d.unlinks[..|FileOf(Or(Get(rec.cols, "logoUrl"), Get(rec.pending.value, v.logoKey)))|]
         == FileOf(Or(Get(rec.cols, "logoUrl"), Get(rec.pending.value, v.logoKey)))
  {
  }

  /** Edit-and-approve of a pending update with staged `imagens` installs exactly the staged
      URLs not marked for deletion, in staged order, and deletes every old file. */
  lemma EditApproveReplacesGallery(v: Variant, rec: LocalRec, images: seq<string>, body: Payload, urls: seq<string>)
    requires rec.status == PendenteAtualizacao && rec.pending.Some?
    requires NonEmptyArr(Get(rec.pending.value, "imagens"))
    ensures var d := EditApproveDecision(v, rec, images, body, urls);
      d.images == Some(Without(rec.pending.value["imagens"].items, urls))
      && forall u :: u in images ==> u in d.unlinks
  {
  }

  /** Outside a pending update with a payload, edit-and-approve leaves the gallery alone
      and deletes no gallery file. */
  lemma EditApproveKeepsGalleryOtherwise(v: Variant, rec: LocalRec, images: seq<string>, body: Payload, urls: seq<string>)
    requires !(rec.status == PendenteAtualizacao && rec.pending.Some?)
    ensures var d := EditApproveDecision(v, rec, images, body, urls);
      d.images.None? && forall u :: u in d.unlinks ==> u in FileOf(Get(rec.cols, "logoUrl")) + FileOf(Get(Staged(rec), v.logoKey))
  {
  }

  /** The admin update never writes the listing's id or the deletion instruction, and a
      body `logoUrl` of `"DELETE"` or null always clears the logo. */
  lemma AdminUpdateShape(v: Variant, rec: LocalRec, images: seq<string>, body: Payload, urls: seq<string>)
    ensures var c := AdminUpdateDecision(v, rec, images, body, urls).row.rec.cols;
      Lookup(c, "localId") == Lookup(rec.cols, "localId")
      && Lookup(c, "urlsParaExcluir") == Lookup(rec.cols, "urlsParaExcluir")
      && (ClearsLogo(body, true) ==> c["logoUrl"] == Null)
  {
  }

  /** The admin update of a listing already active, rejected or pending deletion, with a
      body naming none of the lifecycle keys, keeps its status, flag and staged payload. */
  lemma AdminUpdateKeepsLifecycle(v: Variant, rec: LocalRec, images: seq<string>, body: Payload, urls: seq<string>)
    requires !AwaitsApproval(rec.status)
    requires "dados_atualizacao" !in body && "status" !in body && "ativo" !in body
    ensures var r := AdminUpdateDecision(v, rec, images, body, urls).row.rec;
      r.status == rec.status && r.ativo == rec.ativo && r.pending == rec.pending
      && (forall k :: k in rec.cols && k !in body ==> k in r.cols && r.cols[k] == rec.cols[k])
  {
  }

  /** For a listing not awaiting approval, the body's own lifecycle keys are written: a
      stored status name moves the listing to that status, and the form string `"false"`
      hides it. A listing awaiting approval is activated whatever the body says. */
  lemma AdminUpdateWritesBodyLifecycle(v: Variant, rec: LocalRec, images: seq<string>, body: Payload, urls: seq<string>, s: Status)
    requires "status" in body && body["status"] == Str(StatusName(s))
    requires "ativo" in body && body["ativo"] == Str("false")
    ensures var r := AdminUpdateDecision(v, rec, images, body, urls).row.rec;
      if AwaitsApproval(rec.status) then r.status == Ativo && r.ativo
      else r.status == s && !r.ativo
  {
    StatusRoundTrip(s);
    assert BodyStatus(body) == Some(s);
  }

  // ---------------------------------------------------------------------------
  // The staged keys as written and as the owner side stages them

  /** As written, approving a pending update reads the new gallery from `produtos`: a
      payload staged with its gallery under `imagens` leaves the gallery as it was. */
  lemma SrcApproveIgnoresStagedImagens(rec: LocalRec, images: seq<string>)
    requires rec.status == PendenteAtualizacao && rec.pending.Some?
    requires NonEmptyArr(Get(rec.pending.value, "imagens")) && "produtos" !in rec.pending.value
    ensures ApproveDecision(Src, rec, images).images.None?
  {
  }

  /** Reading `imagens`, the approval installs the staged gallery in order and deletes
      every old file. */
  lemma CorrectedApproveInstallsImagens(rec: LocalRec, images: seq<string>)
    requires rec.status == PendenteAtualizacao && rec.pending.Some?
    requires NonEmptyArr(Get(rec.pending.value, "imagens"))
    ensures var d := ApproveDecision(SrcCorrected, rec, images);
      d.images == Some(rec.pending.value["imagens"].items) && forall u :: u in images ==> u in d.unlinks
  {
  }

  /** As written, the decisions read the new logo from `logo`: a payload staged with its
      logo under `logoUrl` keeps the old logo and deletes no file for it. */
  lemma SrcApproveIgnoresStagedLogoUrl(rec: LocalRec, images: seq<string>)
    requires rec.status == PendenteAtualizacao && rec.pending.Some?
    requires Truthy(Get(rec.pending.value, "logoUrl")) && "logo" !in rec.pending.value
    ensures var d := ApproveDecision(Src, rec, images);
      Lookup(d.row.rec.cols, "logoUrl") == Lookup(rec.cols, "logoUrl")
      && (!NonEmptyArr(Get(rec.pending.value, "produtos")) ==> d.unlinks == [])
  {
  }

  /** Reading `logoUrl`, the staged logo replaces the current one, whose file is deleted. */
  lemma CorrectedApproveSwapsLogo(rec: LocalRec, images: seq<string>)
    requires rec.status == PendenteAtualizacao && rec.pending.Some?
    requires Truthy(Get(rec.pending.value, "logoUrl"))
    ensures var d := ApproveDecision(SrcCorrected, rec, images);
      d.row.rec.cols["logoUrl"] == rec.pending.value["logoUrl"]
      && d.unlinks[..|FileOf(OldLogo(SrcCorrected, rec))|] == FileOf(OldLogo(SrcCorrected, rec))
  {
  }

  /** As written, edit-and-approve honours `logoUrl: "DELETE"` only for a pending update
      with a payload: on a pending creation the text `"DELETE"` itself becomes the logo. */
  lemma SrcEditWritesSentinel(rec: LocalRec, images: seq<string>, body: Payload, urls: seq<string>)
    requires !(rec.status == PendenteAtualizacao && rec.pending.Some?)
    requires "logoUrl" in body && body["logoUrl"] == Str("DELETE")
    ensures EditApproveDecision(Src, rec, images, body, urls).row.rec.cols["logoUrl"] == Str("DELETE")
  {
  }

  /** Honouring the sentinel for every status, as the admin update does, the logo is
      cleared and never set to the text `"DELETE"`. */
  lemma CorrectedEditClearsLogo(rec: LocalRec, images: seq<string>, body: Payload, urls: seq<string>)
    requires ClearsLogo(body, false)
    ensures EditApproveDecision(SrcCorrected, rec, images, body, urls).row.rec.cols["logoUrl"] == Null
  {
  }

  /** No textual attribute is a lifecycle key or the deletion instruction. */
  lemma TextualIsContent(a: string)
    requires a in Textual
    ensures a !in LifecycleKeys && a != "urlsParaExcluir"
  {
  }

  /** Edit-and-approve of a body that gives a textual column an array or an object (a
      form field sent twice) is refused by validation, so the commit fails and nothing is
      written. */
  lemma EditApproveRefusesNonScalar(t: map<int, LocalRec>, id: int, images: seq<string>, body: Payload, urls: seq<string>, a: string)
    requires id in t && a in Textual && a != "logoUrl"
    requires a in body && (body[a].Arr? || body[a].Obj?) && Get(t[id].cols, a) != body[a]
    ensures var e := Verdict(t, id, EditApproveDecision(Src, t[id], images, body, urls));
      e.Some? && e.value.ValidationFailed? && a in e.value.arrays
  {
    var d := EditApproveDecision(Src, t[id], images, body, urls);
    TextualIsContent(a);
    assert d.row.rec.cols[a] == body[a];
    UpdateRefusesNonScalar(t, id, d.row.rec, a);
  }

  /** Likewise for the admin update. */
  lemma AdminUpdateRefusesNonScalar(t: map<int, LocalRec>, id: int, images: seq<string>, body: Payload, urls: seq<string>, a: string)
    requires id in t && a in Textual && a != "logoUrl"
    requires a in body && (body[a].Arr? || body[a].Obj?) && Get(t[id].cols, a) != body[a]
    ensures var e := Verdict(t, id, AdminUpdateDecision(Src, t[id], images, body, urls));
      e.Some? && e.value.ValidationFailed? && a in e.value.arrays
  {
    var d := AdminUpdateDecision(Src, t[id], images, body, urls);
    TextualIsContent(a);
    assert d.row.rec.cols[a] == body[a];
    UpdateRefusesNonScalar(t, id, d.row.rec, a);
  }

  /** As written, the `findByPk` of approve, edit-and-approve and the admin update names a
      gallery alias the entity index does not register, so each of them answers 500 with
      nothing changed, whatever the listing. */
  lemma AsWrittenIncludeRefused()
    ensures !Loads(Src)
    ensures IncludeError(Src.includeAlias, Src.association).value.name == "SequelizeEagerLoadingError"
  {
  }

  /** Including the gallery under the registered alias, the handlers reach their decisions. */
  lemma CorrectedIncludeLoads()
    ensures Loads(SrcCorrected)
  {
  }

  // ---------------------------------------------------------------------------
  // Dashboard helpers

  /** Every `"` of `s` doubled (`replace(/"/g, '""')`). */
  function DoubleQuotes(s: string): (r: string)
    ensures |r| >= |s|
  {
    if s == [] then [] else (if s[0] == '"' then "\"\"" else [s[0]]) + DoubleQuotes(s[1..])
  }

  /** Reading a doubled field back: `""` is one `"`. */
  function UndoubleQuotes(s: string): string
    decreases |s|
  {
    if |s| >= 2 && s[0] == '"' && s[1] == '"' then "\"" + UndoubleQuotes(s[2..])
    else if s == [] then []
    else [s[0]] + UndoubleQuotes(s[1..])
  }

  /** `escapeCsvField`: `field` is `String(value)`, or `None` for null and undefined. */
  function EscapeCsvField(field: Option<string>): (r: string)
    ensures |r| >= 2 && r[0] == '"' && r[|r| - 1] == '"'
    ensures field.None? ==> r == "\"\""
  {
    if field.None? then "\"\""
    else
      var s := field.value;
      if '"' in s || ';' in s || '\n' in s then "\"" + DoubleQuotes(s) + "\"" else "\"" + s + "\""
  }

  lemma {:induction false} DoubleQuotesNoop(s: string)
    requires '"' !in s
    ensures DoubleQuotes(s) == s
  {
    if s != [] {
      DoubleQuotesNoop(s[1..]);
    }
  }

  /** Quoting is unconditional in effect: the value is always wrapped and its quotes doubled,
      whether or not it holds a quote, a separator or a newline. */
  lemma EscapeCsvFieldAlwaysDoubles(s: string)
    ensures EscapeCsvField(Some(s)) == "\"" + DoubleQuotes(s) + "\""
  {
    if !('"' in s || ';' in s || '\n' in s) {
      DoubleQuotesNoop(s);
    }
  }

  lemma {:induction false} UndoubleDouble(s: string)
    ensures UndoubleQuotes(DoubleQuotes(s)) == s
  {
    if s != [] {
      UndoubleDouble(s[1..]);
      if s[0] == '"' {
        assert DoubleQuotes(s) == "\"\"" + DoubleQuotes(s[1..]);
        assert DoubleQuotes(s)[2..] == DoubleQuotes(s[1..]);
      } else {
        assert DoubleQuotes(s) == [s[0]] + DoubleQuotes(s[1..]);
        assert DoubleQuotes(s)[1..] == DoubleQuotes(s[1..]);
      }
    }
  }

  /** A CSV reader recovers the value from the escaped field: strip the wrapping quotes and
      read every `""` as `"`. */
  lemma EscapeCsvFieldRoundTrip(s: string)
    ensures var r := EscapeCsvField(Some(s));
      UndoubleQuotes(r[1..|r| - 1]) == s
  {
    EscapeCsvFieldAlwaysDoubles(s);
    var r := EscapeCsvField(Some(s));
    assert r[1..|r| - 1] == DoubleQuotes(s);
    UndoubleDouble(s);
  }

  /** The histogram bucket of one rating (`null` is `None`): a truthy rating counts in
      bucket `floor(nota) - 1` when that index is 0 to 4. */
  function Bucket(nota: Option<real>): (b: Option<int>)
    ensures b.Some? ==> 0 <= b.value < 5 && nota.Some? && nota.value != 0.0 && b.value == nota.value.Floor - 1
    ensures nota.Some? && nota.value != 0.0 && 0 <= nota.value.Floor - 1 < 5 ==> b.Some?
  {
    if nota.Some? && nota.value != 0.0 && 0 <= nota.value.Floor - 1 < 5 then Some(nota.value.Floor - 1) else None
  }

  /** How many of `notas` fall in bucket `b`. */
  function InBucket(notas: seq<Option<real>>, b: int): nat
  {
    if notas == [] then 0
    else InBucket(notas[..|notas| - 1], b) + (if Bucket(notas[|notas| - 1]) == Some(b) then 1 else 0)
  }

  /** How many of `notas` fall in any bucket. */
  function Counted(notas: seq<Option<real>>): nat
  {
    if notas == [] then 0
    else Counted(notas[..|notas| - 1]) + (if Bucket(notas[|notas| - 1]).Some? then 1 else 0)
  }

  /** The `distribuicaoNotas` loop of the dashboard statistics. */
  method RatingHistogram(notas: seq<Option<real>>) returns (dist: seq<nat>)
    ensures |dist| == 5
    ensures forall b :: 0 <= b < 5 ==> dist[b] == InBucket(notas, b)
  {
    var counts := new nat[5](_ => 0);
    var i := 0;
    while i < |notas|
      invariant 0 <= i <= |notas|
      invariant forall b :: 0 <= b < 5 ==> counts[b] == InBucket(notas[..i], b)
    {
      assert notas[..i + 1][..i] == notas[..i];
      var nota := notas[i];
      if nota.Some? && nota.value != 0.0 {
        var idx := nota.value.Floor - 1;
        if idx >= 0 && idx < 5 {
          counts[idx] := counts[idx] + 1;
        }
      }
      i := i + 1;
    }
    assert notas[..i] == notas;
    dist := counts[..];
  }

  /** The five buckets together hold exactly the ratings that fall in some bucket: no
      rating is counted twice. */
  lemma {:induction false} HistogramTotal(notas: seq<Option<real>>)
    ensures InBucket(notas, 0) + InBucket(notas, 1) + InBucket(notas, 2) + InBucket(notas, 3) + InBucket(notas, 4)
      == Counted(notas)
  {
    if notas != [] {
      HistogramTotal(notas[..|notas| - 1]);
    }
  }
}
