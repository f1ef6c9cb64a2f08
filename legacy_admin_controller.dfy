/** The older copy of the administrator controller, `controllers/AdminController.ts`. Its
    decisions are those of `AdminController` run with the `Legacy` variant: a wider
    allow-list (with repeated entries), `emailLocal` as the notification recipient, only
    `logoUrl` as the old logo of an approved update, and gallery rows filtered by a
    `LocalId` column in the admin update. It alone counts sales channels on the dashboard. */
module LegacyAdminController {
  import opened Common
  import opened Json
  import opened LocalEntity
  import opened Persistence
  import opened AdminController

  /** `camposPermitidos`, as written: `descricao` and `descricaoDiferencial` appear twice. */
  const LegacyAllowList: seq<string> := [
    "nomeFantasia", "cnpj", "categoria", "nomeResponsavel", "cpfResponsavel",
    "emailLocal", "contatoLocal", "endereco", "descricao", "descricaoDiferencial",
    "areasAtuacao", "tagsInvisiveis", "website", "instagram", "descricaoDiferencial",
    "descricao", "objetivo", "justificativa", "publicoAlvo", "impacto"
  ]

  /** The same list without its repetitions. */
  const DistinctAllowList: seq<string> := [
    "nomeFantasia", "cnpj", "categoria", "nomeResponsavel", "cpfResponsavel",
    "emailLocal", "contatoLocal", "endereco", "descricao", "descricaoDiferencial",
    "areasAtuacao", "tagsInvisiveis", "website", "instagram",
    "objetivo", "justificativa", "publicoAlvo", "impacto"
  ]

  /** The entity index of the older copy is not part of this model; its include carries the
      comment that `produtosImg` is the correct alias, so that alias is taken as registered. */
  const Legacy := Variant(LegacyAllowList, "emailLocal", "produtos", "logo", false, "LocalId", false, "produtosImg", "produtosImg")

  /** The older controller with its gallery queries filtered by `localId`. */
  const LegacyCorrected := Legacy.(galleryFk := "localId")

  /** Repeated allow-list entries copy nothing more and nothing different. */
  lemma LegacyAllowListDuplicates(staged: Payload)
    ensures PermittedFields(LegacyAllowList, staged) == PermittedFields(DistinctAllowList, staged)
  {
  }

  /** Approving a pending update copies every present, non-null staged field of the wider
      list (among them `cnpj`, `emailLocal`, `website` and `objetivo`), leaves every other
      content column but `logoUrl` as it was, and finds the old logo under `logoUrl` alone. */
  lemma LegacyApproveCopiesWiderList(rec: LocalRec, images: seq<string>, k: string)
    requires rec.status == PendenteAtualizacao && rec.pending.Some?
    ensures var c := ApproveDecision(Legacy, rec, images).row.rec.cols;
      (k in LegacyAllowList && Present(rec.pending.value, k) ==> k in c && c[k] == rec.pending.value[k])
      && (k !in LegacyAllowList && k != "logoUrl" ==> Lookup(c, k) == Lookup(rec.cols, k))
    ensures OldLogo(Legacy, rec) == Get(rec.cols, "logoUrl")
  {
  }

  /** A non-empty staged `produtos` list becomes the whole gallery, in order, with every old
      file deleted; the listing ends active with no payload. */
  lemma LegacyApproveReplacesGallery(rec: LocalRec, images: seq<string>)
    requires rec.status == PendenteAtualizacao && rec.pending.Some?
    requires NonEmptyArr(Get(rec.pending.value, "produtos"))
    ensures var d := ApproveDecision(Legacy, rec, images);
      d.images == Some(rec.pending.value["produtos"].items)
      && (forall u :: u in images ==> u in d.unlinks)
      && d.row.rec.status == Ativo && d.row.rec.ativo && d.row.rec.pending.None?
  {
  }

  /** The approval notice is decided after the commit: none when the commit failed, and
      otherwise one exactly when the approved row's `emailLocal` is truthy, sent to it. */
  lemma LegacyNoticeAfterCommit(d: Decision, err: Option<DbError>, row: LocalRec)
    ensures var o := Answer(d, err, Get(row.cols, Legacy.recipient), None, "Erro ao aprovar a solicitação.");
      (err.Some? ==> o.ServerError?)
      && (err.None? ==>
            o.Ok? && o.message == d.message
            && (o.notice.Some? <==> d.notice.Some? && Truthy(Get(row.cols, "emailLocal")))
            && (o.notice.Some? ==> o.notice.value.to == Get(row.cols, "emailLocal")))
  {
  }

  /** In the older edit-and-approve as well, the `"DELETE"` sentinel takes precedence over a
      staged logo. */
  lemma LegacyEditDeleteWins(rec: LocalRec, images: seq<string>, body: Payload, urls: seq<string>)
    requires rec.status == PendenteAtualizacao && rec.pending.Some?
    requires ClearsLogo(body, false) && Truthy(Get(rec.pending.value, "logo"))
    ensures EditApproveDecision(Legacy, rec, images, body, urls).row.rec.cols["logoUrl"] == Null
  {
    EditApproveDeleteWins(Legacy, rec, images, body, urls);
  }

  /** The older reject: a pending creation is destroyed, a pending update or deletion returns
      to active, anything else is refused, and the notice goes to the listing's `emailLocal`
      as it was before the rejection. */
  lemma LegacyRejectBranches(rec: LocalRec, motivo: Value)
    ensures RejectDecision(rec).None? <==> !IsPending(rec.status)
    ensures rec.status == PendenteAprovacao ==> RejectDecision(rec).value.row.Destroy?
    ensures rec.status == PendenteAtualizacao || rec.status == PendenteExclusao ==>
      RejectDecision(rec).value.row == Put(rec.(status := Ativo, pending := None))
    ensures RejectDecision(rec).Some? ==>
      var o := Answer(RejectDecision(rec).value, None, Get(rec.cols, Legacy.recipient),
                      if Truthy(motivo) then Some(motivo) else None, "Erro ao rejeitar a solicitação.");
      o.Ok? && (o.notice.Some? <==> Truthy(Get(rec.cols, "emailLocal")))
      && (o.notice.Some? && Truthy(motivo) ==> o.notice.value.reason == Some(motivo))
  {
  }

  /** As written, every gallery branch of the older admin update queries a `LocalId` column
      the gallery table does not have: the update fails and the row is not written, yet the
      logo file the update meant to replace or clear is deleted first. */
  lemma LegacyAdminUpdateGalleryFails(t: map<int, LocalRec>, id: int, images: seq<string>, body: Payload, urls: seq<string>)
    requires id in t && |urls| > 0
    ensures var d := AdminUpdateDecision(Legacy, t[id], images, body, urls);
      Verdict(t, id, d) == Some(UnknownColumn("LocalId"))
      && d.unlinks == LogoStep(Legacy, t[id], body, ClearsLogo(body, true), AwaitsApproval(t[id].status)).unlinks
  {
  }

  /** With the gallery queried by `localId`, the same update deletes the marked images and is
      refused only for the reasons any row write is (a too-long column or a taken CNPJ). */
  lemma LegacyCorrectedAdminUpdatePrunes(t: map<int, LocalRec>, id: int, images: seq<string>, body: Payload, urls: seq<string>)
    requires id in t && |urls| > 0
    requires !(AwaitsApproval(t[id].status) && NonEmptyArr(Get(Staged(t[id]), "imagens")))
    ensures var d := AdminUpdateDecision(LegacyCorrected, t[id], images, body, urls);
      d.fault.None? && Verdict(t, id, d) == UpdateError(t, id, d.row.rec)
      && d.images == Some(Without(images, urls))
      && (forall u :: u in images && u in urls ==> u in d.unlinks)
  {
  }

  // ---------------------------------------------------------------------------
  // Sales channels on the dashboard

  /** `charAt(0).toUpperCase() + slice(1).toLowerCase()`. */
  function Capitalize(c: string): (r: string)
    ensures |r| == |c|
    ensures c != [] ==> r[0] == UpperChar(c[0]) && r[1..] == Lower(c[1..])
  {
    if c == [] then [] else [UpperChar(c[0])] + Lower(c[1..])
  }

  /** The channel one comma-separated part names, if any: trimmed, skipped when empty,
      capitalised. */
  function Channel(part: string): (r: seq<string>)
    ensures |r| <= 1
  {
    var canal := Trim(part);
    if canal == "" then [] else [Capitalize(canal)]
  }

  /** The channel names one `venda` contributes, part by part. */
  function Formatted(parts: seq<string>): seq<string>
  {
    if parts == [] then [] else Formatted(parts[..|parts| - 1]) + Channel(parts[|parts| - 1])
  }

  /** Every channel occurrence over the listings' `venda` values (`""` stands for a falsy one,
      which `Split` turns into one empty part). */
  function Channels(vendas: seq<string>): seq<string>
  {
    if vendas == [] then [] else Channels(vendas[..|vendas| - 1]) + Formatted(Split(vendas[|vendas| - 1], ','))
  }

  /** `vendasMap[canal] = (vendasMap[canal] || 0) + 1`. */
  function Bump(m: map<string, nat>, x: string): (r: map<string, nat>)
    ensures r.Keys == m.Keys + {x}
    ensures r[x] == (if x in m then m[x] else 0) + 1
    ensures forall k :: k in m && k != x ==> r[k] == m[k]
  {
    m[x := (if x in m then m[x] else 0) + 1]
  }

  /** The counter map built from `xs`, one `Bump` per occurrence in order. */
  function TallyOf(xs: seq<string>): map<string, nat>
  {
    if xs == [] then map[] else Bump(TallyOf(xs[..|xs| - 1]), xs[|xs| - 1])
  }

  lemma TallyOfSnoc(xs: seq<string>, x: string)
    ensures TallyOf(xs + [x]) == Bump(TallyOf(xs), x)
  {
    assert (xs + [x])[..|xs|] == xs;
  }

  /** The counter map holds exactly the names that occur, each with its number of occurrences. */
  lemma {:induction false} TallyOfCounts(xs: seq<string>)
    ensures forall k :: k in TallyOf(xs) <==> Count(xs, k) > 0
    ensures forall k :: k in TallyOf(xs) ==> TallyOf(xs)[k] == Count(xs, k)
  {
    if xs != [] {
      var init, x := xs[..|xs| - 1], xs[|xs| - 1];
      assert xs == init + [x];
      TallyOfCounts(init);
      forall k
        ensures Count(xs, k) == Count(init, k) + (if x == k then 1 else 0)
      {
        CountAppend(init, [x], k);
        assert [x][1..] == [];
      }
    }
  }

  lemma FormattedStep(parts: seq<string>, j: int)
    requires 0 <= j < |parts|
    ensures Formatted(parts[..j + 1]) == Formatted(parts[..j]) + Channel(parts[j])
  {
    assert parts[..j + 1][..j] == parts[..j];
  }

  /** One part of a `venda`: a non-empty trimmed part bumps its capitalised key. */
  method CountChannel(m: map<string, nat>, part: string) returns (r: map<string, nat>)
    ensures Channel(part) == [] ==> r == m
    ensures Channel(part) != [] ==> r == Bump(m, Channel(part)[0])
  {
    r := m;
    var canal := Trim(part);
    if canal != "" {
      var canalFormatado := Capitalize(canal);
      r := r[canalFormatado := (if canalFormatado in r then r[canalFormatado] else 0) + 1];
    }
  }

  /** One step of the inner loop, in terms of the channel the part names. */
  lemma TallyPart(acc: seq<string>, parts: seq<string>, j: int)
    requires 0 <= j < |parts|
    ensures var before := TallyOf(acc + Formatted(parts[..j]));
      var c := Channel(parts[j]);
      TallyOf(acc + Formatted(parts[..j + 1])) == if c == [] then before else Bump(before, c[0])
  {
    FormattedStep(parts, j);
    var f := Formatted(parts[..j]);
    var c := Channel(parts[j]);
    if c == [] {
      assert f + c == f;
    } else {
      assert acc + (f + c) == (acc + f) + [c[0]];
      TallyOfSnoc(acc + f, c[0]);
    }
  }

  /** The inner loop over one `venda`'s comma-separated parts. */
  method TallyVenda(m: map<string, nat>, ghost acc: seq<string>, canais: seq<string>) returns (r: map<string, nat>)
    requires m == TallyOf(acc)
    ensures r == TallyOf(acc + Formatted(canais))
  {
    r := m;
    var j := 0;
    assert acc + Formatted(canais[..0]) == acc;
    while j < |canais|
      invariant 0 <= j <= |canais|
      invariant r == TallyOf(acc + Formatted(canais[..j]))
    {
      TallyPart(acc, canais, j);
      r := CountChannel(r, canais[j]);
      j := j + 1;
    }
    assert canais[..j] == canais;
  }

  lemma ChannelsStep(vendas: seq<string>, i: int)
    requires 0 <= i < |vendas|
    ensures Channels(vendas[..i + 1]) == Channels(vendas[..i]) + Formatted(Split(vendas[i], ','))
  {
    assert vendas[..i + 1][..i] == vendas[..i];
  }

  /** The `Locais.forEach` loop of the dashboard statistics, for the sales channels. */
  method SalesChannels(vendas: seq<string>) returns (vendasMap: map<string, nat>)
    ensures forall k :: k in vendasMap <==> Count(Channels(vendas), k) > 0
    ensures forall k :: k in vendasMap ==> vendasMap[k] == Count(Channels(vendas), k)
  {
    vendasMap := map[];
    var i := 0;
    while i < |vendas|
      invariant 0 <= i <= |vendas|
      invariant vendasMap == TallyOf(Channels(vendas[..i]))
    {
      ChannelsStep(vendas, i);
      var canais := Split(vendas[i], ',');
      vendasMap := TallyVenda(vendasMap, Channels(vendas[..i]), canais);
      i := i + 1;
    }
    assert vendas[..i] == vendas;
    TallyOfCounts(Channels(vendas));
  }

  /** Channel names are folded case-insensitively (in ASCII): a name and its lower-cased form
      are counted under one key. */
  lemma {:induction false} CapitalizeIgnoresCase(c: string)
    ensures Capitalize(Lower(c)) == Capitalize(c)
  {
    if c != [] {
      var l := Lower(c);
      assert l[0] == LowerChar(c[0]);
      assert UpperChar(LowerChar(c[0])) == UpperChar(c[0]);
      assert l[1..] == Lower(c[1..]);
      LowerIdempotent(c[1..]);
    }
  }

  lemma LowerIdempotent(s: string)
    ensures Lower(Lower(s)) == Lower(s)
  {
  }
}
