/** The transaction-free moderation service of `src/services/AdminService.ts`. Each call
    loads the listing, assigns its fields one by one and saves it; gallery rows are
    destroyed and created one statement at a time, so a failing save leaves the gallery
    already changed. Its reject rule differs from the controllers': anything but a pending
    update becomes rejected. */
module AdminService {
  import opened Common
  import opened Json
  import opened LocalEntity
  import opened Persistence

  const NotFound := "Local não encontrado"
  const NoPendingUpdate := "Não há atualizações pendentes para este local"

  /** The fields an approved update copies when their staged value is truthy. */
  const ServiceFields: seq<string> := [
    "nomeLocal", "categoria", "descricao", "endereco", "contatoLocal", "instagram",
    "latitude", "longitude", "emailResponsavel", "contatoResponsavel",
    "logoUrl", "alvaraVigilanciaUrl", "alvaraFuncionamentoUrl"
  ]

  /** The staged values of the fields `list` that are truthy, assigned in list order. */
  function TruthyOf(list: seq<string>, staged: Payload): Payload
  {
    if list == [] then map[]
    else
      var key := list[|list| - 1];
      var before := TruthyOf(list[..|list| - 1], staged);
      if Truthy(Get(staged, key)) then before[key := staged[key]] else before
  }

  lemma {:induction false} TruthyOfFields(list: seq<string>, staged: Payload)
    ensures forall k :: k in TruthyOf(list, staged) <==> k in list && k in staged && Truthy(staged[k])
    ensures forall k :: k in TruthyOf(list, staged) ==> k in staged && TruthyOf(list, staged)[k] == staged[k]
  {
    if list != [] {
      var init := list[..|list| - 1];
      TruthyOfFields(init, staged);
      assert list == init + [list[|list| - 1]];
    }
  }

  /** The staged values of `ServiceFields` that are truthy. */
  function TruthyFields(staged: Payload): (r: Payload)
    ensures forall k :: k in r <==> k in ServiceFields && k in staged && Truthy(staged[k])
    ensures forall k :: k in r ==> k in staged && r[k] == staged[k]
  {
    TruthyOfFields(ServiceFields, staged);
    TruthyOf(ServiceFields, staged)
  }

  /** The gallery with listing `id` holding exactly `urls` (no rows when `urls` is empty). */
  function WithImages(g: map<int, seq<string>>, id: int, urls: seq<string>): (r: map<int, seq<string>>)
    ensures forall j :: j != id ==> (j in r <==> j in g) && (j in r ==> r[j] == g[j])
    ensures (if id in r then r[id] else []) == urls
  {
    if urls == [] then g - {id} else g[id := urls]
  }

  /** The listing as `aprovarAtualizacao` saves it. */
  function ApprovedUpdate(rec: LocalRec, staged: Payload): (r: LocalRec)
    ensures r.status == Ativo && r.ativo && r.pending.None?
    ensures forall k :: k in ServiceFields && k in staged && Truthy(staged[k]) ==> k in r.cols && r.cols[k] == staged[k]
    ensures forall k :: !(k in ServiceFields && k in staged && Truthy(staged[k])) ==> Lookup(r.cols, k) == Lookup(rec.cols, k)
  {
    LocalRec(rec.cols + TruthyFields(staged), true, Ativo, None)
  }

  /** The listing as `rejeitarSolicitacao` saves it. */
  function Rejected(rec: LocalRec): (r: LocalRec)
    ensures r.cols == rec.cols
    ensures rec.status == PendenteAtualizacao ==> r == rec.(status := Ativo, pending := None)
    ensures rec.status != PendenteAtualizacao ==> r == rec.(status := Rejeitado, ativo := false)
  {
    if rec.status == PendenteAtualizacao then rec.(status := Ativo, pending := None)
    else rec.(status := Rejeitado, ativo := false)
  }

  /** `aprovarNovoLocal(localId)`: no status check. */
  method AprovarNovoLocal(db: Store, id: int) returns (r: Result<LocalRec>)
    requires db.Valid()
    modifies db`locals, db`gallery
    ensures db.Valid() && db.gallery == old(db.gallery)
    ensures id !in old(db.locals) ==> r == Thrown(Error(NotFound)) && db.locals == old(db.locals)
    ensures id in old(db.locals) ==>
      r == Done(old(db.locals[id]).(status := Ativo, ativo := true)) && db.locals == old(db.locals)[id := r.value]
  {
    if id !in db.locals {
      return Thrown(Error(NotFound));
    }
    var local := db.locals[id];
    local := local.(status := Ativo);
    local := local.(ativo := true);
    SameColumnsAccepted(db.locals, id, local);
    var err := db.Commit(id, Put(local), None, None);
    r := Done(local);
  }

  /** `if (novosDados.key) local.key = novosDados.key`. */
  method CopyIfTruthy(r: Payload, novosDados: Payload, key: string) returns (r': Payload)
    ensures Truthy(Get(novosDados, key)) ==> r' == r[key := novosDados[key]]
    ensures !Truthy(Get(novosDados, key)) ==> r' == r
  {
    r' := r;
    if Truthy(Get(novosDados, key)) {
      r' := r'[key := novosDados[key]];
    }
  }

  /** Copying one more field extends the truthy copy by that field. */
  lemma TruthyStep(cols: Payload, list: seq<string>, key: string, staged: Payload)
    ensures Truthy(Get(staged, key)) ==> cols + TruthyOf(list + [key], staged) == (cols + TruthyOf(list, staged))[key := staged[key]]
    ensures !Truthy(Get(staged, key)) ==> cols + TruthyOf(list + [key], staged) == cols + TruthyOf(list, staged)
  {
    assert (list + [key])[..|list|] == list;
  }

  /** The thirteen `if (novosDados.key) local.key = novosDados.key` assignments, one per
      field of `ServiceFields`, in source order. */
  method CopyTruthy(cols: Payload, novosDados: Payload) returns (r: Payload)
    ensures r == cols + TruthyFields(novosDados)
  {
    r := cols;
    var i := 0;
    while i < |ServiceFields|
      invariant 0 <= i <= |ServiceFields|
      invariant r == cols + TruthyOf(ServiceFields[..i], novosDados)
    {
      var key := ServiceFields[i];
      TruthyStep(cols, ServiceFields[..i], key, novosDados);
      assert ServiceFields[..i + 1] == ServiceFields[..i] + [key];
      r := CopyIfTruthy(r, novosDados, key);
      i := i + 1;
    }
    assert ServiceFields[..i] == ServiceFields;
  }

  /** `ImagemLocal.destroy` followed by one `ImagemLocal.create` per staged URL, each
      committed on its own. */
  method ReplaceImages(db: Store, id: int, urls: seq<string>)
    requires db.Valid() && id in db.locals
    modifies db`gallery
    ensures db.Valid()
    ensures db.gallery == WithImages(old(db.gallery), id, urls)
  {
    db.ClearImages(id);
    var i := 0;
    while i < |urls|
      invariant 0 <= i <= |urls|
      invariant db.Valid() && id in db.locals
      invariant db.gallery == WithImages(old(db.gallery), id, urls[..i])
    {
      db.AddImage(id, urls[i]);
      assert urls[..i + 1] == urls[..i] + [urls[i]];
      i := i + 1;
    }
    assert urls[..i] == urls;
  }

  /** `aprovarAtualizacao(localId)`. */
  method AprovarAtualizacao(db: Store, id: int) returns (r: Result<LocalRec>)
    requires db.Valid()
    modifies db`locals, db`gallery
    ensures db.Valid()
    ensures id !in old(db.locals) ==>
      r == Thrown(Error(NotFound)) && db.locals == old(db.locals) && db.gallery == old(db.gallery)
    ensures id in old(db.locals) && old(db.locals[id]).pending.None? ==>
      r == Thrown(Error(NoPendingUpdate)) && db.locals == old(db.locals) && db.gallery == old(db.gallery)
    ensures id in old(db.locals) && old(db.locals[id]).pending.Some? ==>
      var staged := old(db.locals[id]).pending.value;
      var row := ApprovedUpdate(old(db.locals[id]), staged);
      var err := UpdateError(old(db.locals), id, row);
      db.gallery == (if Get(staged, "imagens").Arr? then WithImages(old(db.gallery), id, staged["imagens"].items) else old(db.gallery))
      && (err.None? ==> r == Done(row) && db.locals == old(db.locals)[id := row])
      && (err.Some? ==> r == Thrown(DbFailure(err.value)) && db.locals == old(db.locals))
  {
    if id !in db.locals {
      return Thrown(Error(NotFound));
    }
    var local := db.locals[id];
    if local.pending.None? {
      return Thrown(Error(NoPendingUpdate));
    }
    var novosDados := local.pending.value;
    var cols := CopyTruthy(local.cols, novosDados);
    local := local.(cols := cols);
    var imagens := Get(novosDados, "imagens");
    if imagens.Arr? {
      ReplaceImages(db, id, imagens.items);
    }
    local := local.(pending := None);
    local := local.(status := Ativo);
    local := local.(ativo := true);
    var err := db.Commit(id, Put(local), None, None);
    if err.Some? {
      return Thrown(DbFailure(err.value));
    }
    r := Done(local);
  }

  /** `rejeitarSolicitacao(localId)`. */
  method RejeitarSolicitacao(db: Store, id: int) returns (r: Result<LocalRec>)
    requires db.Valid()
    modifies db`locals, db`gallery
    ensures db.Valid() && db.gallery == old(db.gallery)
    ensures id !in old(db.locals) ==> r == Thrown(Error(NotFound)) && db.locals == old(db.locals)
    ensures id in old(db.locals) ==>
      r == Done(Rejected(old(db.locals[id]))) && db.locals == old(db.locals)[id := r.value]
  {
    if id !in db.locals {
      return Thrown(Error(NotFound));
    }
    var local := db.locals[id];
    if local.status == PendenteAtualizacao {
      local := local.(pending := None);
      local := local.(status := Ativo);
    } else {
      local := local.(status := Rejeitado);
      local := local.(ativo := false);
    }
    SameColumnsAccepted(db.locals, id, local);
    var err := db.Commit(id, Put(local), None, None);
    r := Done(local);
  }

  /** `aprovarExclusao(localId)`: the gallery rows go first, then the listing, whatever its
      status; no gallery row of the listing is left behind. */
  method AprovarExclusao(db: Store, id: int) returns (r: Result<()>)
    requires db.Valid()
    modifies db`locals, db`gallery
    ensures db.Valid()
    ensures id !in old(db.locals) ==>
      r == Thrown(Error(NotFound)) && db.locals == old(db.locals) && db.gallery == old(db.gallery)
    ensures id in old(db.locals) ==>
      r == Done(()) && db.locals == old(db.locals) - {id} && db.gallery == old(db.gallery) - {id}
  {
    if id !in db.locals {
      return Thrown(Error(NotFound));
    }
    db.ClearImages(id);
    var err := db.Commit(id, Destroy, None, None);
    r := Done(());
  }

  /** `listarPendencias()`: the listings in one of the three pending statuses. */
  function ListarPendencias(t: map<int, LocalRec>): (r: map<int, LocalRec>)
    ensures forall id :: id in r <==> id in t && IsPending(t[id].status)
    ensures forall id :: id in r ==> r[id] == t[id]
  {
    map id | id in t && IsPending(t[id].status) :: t[id]
  }

  /** Rejecting through the service never conflicts with the database, and puts the listing
      where no public query finds it unless it was a pending update. */
  lemma RejectedVisibility(rec: LocalRec)
    ensures Rejected(rec).status == Ativo <==> rec.status == PendenteAtualizacao
    ensures Rejected(rec).status != Ativo ==> !Rejected(rec).ativo
  {
  }

  /** An approved update is idempotent on its content: copying the same staged values onto the
      result changes nothing. */
  lemma ApprovedUpdateIdempotent(rec: LocalRec, staged: Payload)
    ensures ApprovedUpdate(ApprovedUpdate(rec, staged), staged) == ApprovedUpdate(rec, staged)
  {
  }
}
