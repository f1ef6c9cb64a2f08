# Moderation of `Local` listings

This project models the moderation life cycle of a `Local` listing (a business, project or
venue shown on the platform) and proves properties of it. A listing is created pending
approval. Its owner can then ask for an update or a deletion, which is staged as a JSON
payload (`dados_atualizacao`) beside the live columns. An administrator approves, edits and
approves, updates, deletes or rejects the listing. Only active listings are public.

Modules, one per source file:

- `LocalEntity` (`local_entity.dfy`) models `src/entities/Local.entity.ts`:
  - the five statuses;
  - the lifecycle columns and their defaults;
  - the NOT NULL and length constraints, the unique CNPJ index, and how the database refuses a row.
- `Persistence` (`store.dfy`) is the `Store` class:
  - fields: the `locais` table, the gallery rows per listing (in insertion order), the upload files, and the page-view counters;
  - a transaction is compute-then-commit: both writes or neither;
  - file deletions are best effort and are never undone.
- `AdminController` (`admin_controller.dfy`) models `src/controllers/AdminController.ts`:
  - each decision is a pure `Decision` function, a plan method that takes the controller's steps and is proved equal to that function, and a method that runs it against the store;
  - the module also has CSV field escaping and the rating histogram.
- `LegacyAdminController` (`legacy_admin_controller.dfy`) models the older `controllers/AdminController.ts`:
  - the same decisions run with its own `Variant` (allow-list, recipient column, foreign-key spelling);
  - its sales-channel count.
  - Its `escapeCsvField` (controllers/AdminController.ts:979-991) and rating histogram (1050-1061) are character for character those of the newer copy, so they are modelled by `AdminController.EscapeCsvField` and `AdminController.RatingHistogram`.
- `AdminService` (`admin_service.dfy`) models `src/services/AdminService.ts`, the moderation service without transactions.
- `LocalService` (`local_service.dfy`) models `src/services/LocalService.ts`: creation, request staging, the active toggle, and the status-filtered queries.
  - The older `services/LocalService.ts` has the same code for `listarTodos` (services/LocalService.ts:152-165), `buscarPorId` (188-199) and `listarPendentes` (299-330), so the `LocalService` members model both files.
- `LegacyLocalService` (`legacy_local_service.dfy`) models `services/LocalService.ts`:
  - creation with the registry checks and the uniqueness checks;
  - requests by CNPJ.
  - The answer of the external registry lookup is an input.
- `LocalController` (`local_controller.dfy`) models `src/controllers/LocalController.ts`:
  - moving the uploads and preparing the data;
  - sanitising the upload path;
  - classifying errors for the HTTP answer;
  - the request guards;
  - normalising the view-counter key.
- `Common` and `Json` hold JavaScript string semantics and JSON values: truthiness, `||`, `trim`, `includes`, `split`, and undefined as an absent key.

Several choices of the source disagree with what the rest of the code expects. Each such
choice is a parameter: `AdminController.Variant`, `LocalService.Creation`,
`LocalController.Wiring`. The model proves what the code does as written and what the
corrected reading does; see "## Findings".

Three things are inputs: the registry lookup, the outcome of each file deletion (a
nondeterministic choice) and the parsed coordinates. Nothing reads a clock or the network.

## Model

| member | source | states |
|---|---|---|
| LocalEntity.StatusName | src/entities/Local.entity.ts:5-11 | each status has a non-empty stored name |
| LocalEntity.ParseStatus | src/entities/Local.entity.ts:5-11 | a parsed name is the stored name of the status returned |
| LocalEntity.StatusRoundTrip | src/entities/Local.entity.ts:5-11 | every status survives storing and reading back |
| LocalEntity.StatusNamesDistinct | src/entities/Local.entity.ts:5-11 | the five statuses have five distinct names |
| LocalEntity.NewRow | src/entities/Local.entity.ts:111-147 | a new row is inactive, pending approval, with nothing staged; `escala` is 0 unless given; the given columns are kept |
| LocalEntity.FirstTooLong | src/entities/Local.entity.ts:46-110 | the column found is limited and too long; when none is found, no limited column is too long |
| LocalEntity.MissingRequired | src/entities/Local.entity.ts:50-147 | exactly the required attributes the row leaves NULL |
| LocalEntity.CnpjOf | src/entities/Local.entity.ts:70-74 | a row has a CNPJ for the unique index exactly when its `cnpj` is non-NULL |
| LocalEntity.DbFailure | src/entities/Local.entity.ts:46-147 | a validation error (NULL in a required attribute, array or object in a textual one) is a `SequelizeValidationError`; a too-long column is a `SequelizeDatabaseError` whose message says "Data too long for column"; a duplicate CNPJ is a `SequelizeUniqueConstraintError` |
| LocalEntity.NonScalars | src/entities/Local.entity.ts:46-141 | exactly the attributes of the list that the row sets to an array or an object |
| LocalEntity.RowError | src/entities/Local.entity.ts:46-147 | a statement is refused exactly when a required attribute it validates is NULL, a textual attribute it validates holds an array or an object, a limited column is too long, or the CNPJ is taken; validation comes first, and its error lists every NULL and every non-string attribute and arises exactly when there is one |
| LocalEntity.Changed | src/entities/Local.entity.ts:46-147 | exactly the attributes whose value an update changes; none when the row is unchanged |
| LocalEntity.UpdateError | src/entities/Local.entity.ts:46-147 | an update validates only the attributes it changes: a changed required attribute must not be NULL, a changed textual one must not be an array or an object; length and CNPJ are checked on the whole row |
| LocalEntity.UpdateRefusesNonScalar | src/entities/Local.entity.ts:46-141 | an update that gives a textual attribute a new array or object value is refused by validation, naming it |
| LocalEntity.PutKeepsTableOk | src/entities/Local.entity.ts:70-74 | writing a row the database accepts keeps every column within its length and CNPJs unique |
| LocalEntity.RemoveKeepsTableOk | src/entities/Local.entity.ts:70-74 | deleting a row keeps the table valid |
| LocalEntity.SameColumnsAccepted | src/entities/Local.entity.ts:46-147 | an update that changes lifecycle columns alone is never refused, even on a row that leaves a required column NULL |
| LocalEntity.IncludeError | src/entities/index.ts:24-27 | an eager load succeeds exactly when its alias is the registered one; otherwise it is a `SequelizeEagerLoadingError` |
| Persistence.Store.Images | src/entities/index.ts:24-27 | the gallery rows the `localId` association holds for the listing, in insertion order; none for a listing without rows |
| Persistence.Store.Unlink | src/controllers/AdminController.ts:156-171 | a failed `fs.unlink` is caught: the file is either gone or untouched |
| Persistence.Store.UnlinkAll | src/controllers/AdminController.ts:184-198 | deleting files one by one removes at most the named files, and each may survive |
| Persistence.Store.UnlinkEach | src/controllers/LocalController.ts:10-22 | parallel deletion removes at most the named files, and each may survive |
| Persistence.Store.Move | src/controllers/LocalController.ts:56-61 | a renamed file leaves its old path and appears at the new one |
| Persistence.Store.Commit | src/controllers/AdminController.ts:257-288 | the commit applies the row change and the new gallery together, or on any error neither; the table stays valid |
| Persistence.Store.Insert | src/services/LocalService.ts:29-46 | creation gets the next id and writes the row and its gallery, or on refusal nothing |
| Persistence.Store.ClearImages | src/services/AdminService.ts:54 | all gallery rows of the listing are destroyed |
| Persistence.Store.AddImage | src/services/AdminService.ts:56-58 | one URL is appended to the listing's gallery |
| Persistence.Store.Bump | src/controllers/LocalController.ts:204-209 | the counter is created at 0 if needed, then goes up by one; no other counter changes |
| AdminController.Staged | src/controllers/AdminController.ts:324 | the staged payload, or `{}` when none is staged |
| AdminController.PermittedFields | src/controllers/AdminController.ts:131-151 | exactly the allow-listed keys whose staged value is present and non-null, with the staged values |
| AdminController.CopyPermitted | src/controllers/AdminController.ts:144-151 | the copy loop over the allow-list builds exactly those fields |
| AdminController.BodyContent | src/controllers/AdminController.ts:430-445 | the body without the lifecycle keys and the deletion instruction |
| AdminController.ReplaceGallery | src/controllers/AdminController.ts:369-402 | the new gallery holds the staged URLs not marked for deletion; every old file is deleted |
| AdminController.PruneGallery | src/controllers/AdminController.ts:403-430 | the gallery loses exactly the marked URLs it holds, and only their files are deleted |
| AdminController.OldLogo | src/controllers/AdminController.ts:155 | the old logo is the listing's `logoUrl`; the newer copy's fallback to `logo` reads an attribute Local does not declare, so it is undefined and names no file |
| AdminController.UpdateFields | src/controllers/AdminController.ts:131-175 | an approved update copies only allow-listed present fields, plus `logoUrl` from a truthy staged logo |
| AdminController.ApproveDecision | src/controllers/AdminController.ts:104-255 | pending creation: made active, nothing else changes. Pending update: allow-list plus logo written, active with no payload, a non-empty staged gallery replaces the old one and deletes its files. Pending deletion: destroyed. Active or rejected: nothing changes, yet success is reported |
| AdminController.LogoStep | src/controllers/AdminController.ts:331-365 | the `"DELETE"` sentinel clears the logo and deletes the current (or staged) file; otherwise a staged logo replaces the current one, whose file is deleted |
| AdminController.GalleryStep | src/controllers/AdminController.ts:369-430 | staged `imagens` replace the gallery; otherwise marked URLs are pruned; otherwise the gallery is untouched |
| AdminController.EditedContent | src/controllers/AdminController.ts:430-445 | the written content is the body's, with the logo step's value for `logoUrl` |
| AdminController.EditNotice | src/controllers/AdminController.ts:447-458 | approval notices for a pending creation or update, none otherwise |
| AdminController.EditApproveDecision | src/controllers/AdminController.ts:291-486 | whatever the status, the listing ends active, with no payload and the edited content; the logo and gallery are reconciled only for a pending update with a payload |
| AdminController.BodyFlag | src/controllers/AdminController.ts:645-647 | the `ativo` a spread body writes: `true` exactly for `true`, `"true"` or 1, `false` exactly for `false`, `"false"` or 0 (Sequelize's BOOLEAN sanitiser) |
| AdminController.BodyStatus | src/controllers/AdminController.ts:645-647 | the `status` a spread body writes: present exactly when it is one of the five stored names, and then the status that name stores |
| AdminController.AdminUpdateDecision | src/controllers/AdminController.ts:500-709 | a listing awaiting approval is activated with staged logo and gallery; on other statuses the body's own `status` and `ativo` are written when it holds them, and the row's are kept otherwise; `"DELETE"` or null clears the logo; the gallery query fails exactly when its foreign-key name is wrong |
| AdminController.RejectDecision | src/controllers/AdminController.ts:764-801 | refused exactly for a non-pending status; a pending creation is destroyed; a pending update or deletion returns to active with no payload and `ativo` untouched |
| AdminController.Notify | src/controllers/AdminController.ts:259-279 | a notice exists exactly when there is one to send and the recipient column is truthy |
| AdminController.After | src/controllers/AdminController.ts:259-262 | the in-memory row after the decision is the written one, or the old one |
| AdminController.Answer | src/controllers/AdminController.ts:257-288 | a refused commit is a 500 without notice; otherwise a 200 with the decision's message, and the notice is decided after the commit |
| AdminController.Execute | src/controllers/AdminController.ts:154-257 | the decision's files are deleted (each may fail), then the commit runs; the table stays valid |
| AdminController.PlanApprove | src/controllers/AdminController.ts:104-255 | the controller's steps compute exactly `ApproveDecision` |
| AdminController.ApproveRequest | src/controllers/AdminController.ts:83-289 | an include alias that is not registered is a 500 with nothing changed; then a missing id is a 404 with nothing changed; otherwise the decision is carried out and answered |
| AdminController.PlanEditApprove | src/controllers/AdminController.ts:322-445 | the controller's steps compute exactly `EditApproveDecision` |
| AdminController.PlanEditLogo | src/controllers/AdminController.ts:327-366 | the logo steps of edit-and-approve: the body with the logo step's value, and the logo files it deletes |
| AdminController.PlanReconcileGallery | src/controllers/AdminController.ts:369-431 | the gallery steps of reconciling a staged update: staged `imagens` replace the gallery, else marked URLs are pruned, with the files each deletes |
| AdminController.EditAndApproveRequest | src/controllers/AdminController.ts:291-486 | an include alias that is not registered is a 500 with nothing changed; then a missing id is a 404 with nothing changed; otherwise the edit decision is carried out and answered, and a change the database refuses (including an array or object in a textual column) is a 500 with the row and gallery untouched |
| AdminController.PlanGalleryUpdate | src/controllers/AdminController.ts:577-645 | the gallery steps of the admin update, with a wrong foreign-key name failing before any delete |
| AdminController.PlanAdminUpdate | src/controllers/AdminController.ts:530-676 | the controller's steps compute exactly `AdminUpdateDecision` |
| AdminController.PlanAdminLogo | src/controllers/AdminController.ts:537-575 | the logo steps of the admin update: the body's content with the logo step's value, and the logo files it deletes |
| AdminController.AdminUpdateLocal | src/controllers/AdminController.ts:500-709 | an include alias that is not registered is a 500 with nothing changed; then a missing id is a 404 with nothing changed; otherwise the update is carried out and answered, and a change the database refuses (including an array or object in a textual column) is a 500 with the row and gallery untouched |
| AdminController.AdminDeleteLocal | src/controllers/AdminController.ts:711-740 | a non-numeric id is a 400, a missing one a 404; otherwise the row alone is deleted and the answer is 204 |
| AdminController.RejectRequest | src/controllers/AdminController.ts:742-831 | a 404 for a missing id; a 400 with nothing changed for a non-pending status; otherwise the rejection is carried out and the notice carries the truthy reason |
| AdminController.ApproveLifecycleAccepted | src/controllers/AdminController.ts:104-122 | approving a pending creation, a deletion or a no-op is never refused by the database |
| AdminController.RejectAccepted | src/controllers/AdminController.ts:764-801 | an accepted rejection is never refused by the database |
| AdminController.ApproveWritesOnlyPermitted | src/controllers/AdminController.ts:131-151 | an approved update leaves alone every column outside the allow-list, and `logoUrl` unless a truthy logo is staged |
| AdminController.EditApproveDeleteWins | src/controllers/AdminController.ts:331-348 | in edit-and-approve of a pending update, the sentinel beats a staged logo: the logo is null and the old file is deleted first |
| AdminController.EditApproveReplacesGallery | src/controllers/AdminController.ts:369-402 | staged `imagens` become the gallery, minus the marked URLs, in order; every old file is deleted |
| AdminController.EditApproveKeepsGalleryOtherwise | src/controllers/AdminController.ts:326-330 | outside a pending update with a payload, the gallery is untouched and only logo files can be deleted |
| AdminController.AdminUpdateShape | src/controllers/AdminController.ts:537-555 | the admin update never writes `localId` or `urlsParaExcluir`, and `"DELETE"` or null clears the logo |
| AdminController.AdminUpdateKeepsLifecycle | src/controllers/AdminController.ts:645-678 | for an active, rejected or pending-deletion listing and a body naming none of `status`, `ativo` and `dados_atualizacao`, status, flag and payload are kept, and so is every column the body does not name |
| AdminController.AdminUpdateWritesBodyLifecycle | src/controllers/AdminController.ts:645-678 | a body's stored status name and form string `"false"` move and hide a listing not awaiting approval; a listing awaiting approval is activated whatever the body says |
| AdminController.SrcApproveIgnoresStagedImagens | src/controllers/AdminController.ts:176-211 | as written, a gallery staged under `imagens` is never installed by `approveRequest` |
| AdminController.CorrectedApproveInstallsImagens | src/controllers/AdminController.ts:176-211 | reading `imagens`, the staged gallery is installed in order and every old file is deleted |
| AdminController.SrcApproveIgnoresStagedLogoUrl | src/controllers/AdminController.ts:154-175 | as written, a logo staged under `logoUrl` is never installed and no logo file is deleted |
| AdminController.CorrectedApproveSwapsLogo | src/controllers/AdminController.ts:154-175 | reading `logoUrl`, the staged logo replaces the current one, whose file is deleted first |
| AdminController.SrcEditWritesSentinel | src/controllers/AdminController.ts:326-348 | as written, edit-and-approve of a listing that is not a pending update with a payload stores the text `"DELETE"` as its logo |
| AdminController.CorrectedEditClearsLogo | src/controllers/AdminController.ts:326-348 | honouring the sentinel for every status, the logo becomes null |
| AdminController.EditApproveRefusesNonScalar | src/controllers/AdminController.ts:435-442 | an edit whose body gives a textual column a new array or object (a field sent twice under `upload.any()`) is refused by the database |
| AdminController.AdminUpdateRefusesNonScalar | src/controllers/AdminController.ts:676-680 | the same for the admin update |
| AdminController.AsWrittenIncludeRefused | src/controllers/AdminController.ts:92 | as written, the three handlers include the gallery as `produtosImg`, which is not the registered `locaisImg`, so the lookup throws a `SequelizeEagerLoadingError` |
| AdminController.CorrectedIncludeLoads | src/controllers/AdminController.ts:92 | including the gallery as `locaisImg`, the lookup loads |
| AdminController.EscapeCsvField | src/controllers/AdminController.ts:936-947 | the field is always wrapped in quotes; null and undefined give `""` |
| AdminController.EscapeCsvFieldAlwaysDoubles | src/controllers/AdminController.ts:936-947 | whatever the value holds, the result is the value with its quotes doubled, wrapped in quotes |
| AdminController.EscapeCsvFieldRoundTrip | src/controllers/AdminController.ts:936-947 | a CSV reader recovers the value from the field |
| AdminController.Bucket | src/controllers/AdminController.ts:1000-1008 | a truthy rating counts in bucket floor(nota)-1 exactly when that index is 0 to 4 |
| AdminController.RatingHistogram | src/controllers/AdminController.ts:998-1008 | five counters; each counts exactly the ratings of its bucket |
| AdminController.HistogramTotal | src/controllers/AdminController.ts:998-1008 | the buckets together count each rating that falls in one exactly once |
| LegacyAdminController.LegacyAllowListDuplicates | controllers/AdminController.ts:137-168 | the repeated allow-list entries change nothing |
| LegacyAdminController.LegacyApproveCopiesWiderList | controllers/AdminController.ts:137-168 | the wider list is copied, every other column but `logoUrl` is kept, and the old logo is `logoUrl` alone |
| LegacyAdminController.LegacyApproveReplacesGallery | controllers/AdminController.ts:194-238 | a non-empty staged `produtos` becomes the whole gallery in order; old files are deleted; the listing ends active with no payload |
| LegacyAdminController.LegacyNoticeAfterCommit | controllers/AdminController.ts:280-304 | no notice when the commit fails; otherwise a notice exactly when `emailLocal` is truthy, sent to it |
| LegacyAdminController.LegacyEditDeleteWins | controllers/AdminController.ts:359-392 | the sentinel takes precedence over a staged logo |
| LegacyAdminController.LegacyRejectBranches | controllers/AdminController.ts:802-838 | destroy, back to active, or refusal by status; the notice goes to the `emailLocal` from before the rejection and carries a truthy reason |
| LegacyAdminController.LegacyAdminUpdateGalleryFails | controllers/AdminController.ts:615-665 | as written, every gallery branch queries `LocalId` and fails, and the deleted logo file is not restored |
| LegacyAdminController.LegacyCorrectedAdminUpdatePrunes | controllers/AdminController.ts:615-665 | querying `localId`, the marked images are pruned, and the update is refused only for a row the database refuses |
| LegacyAdminController.Capitalize | controllers/AdminController.ts:1090 | the first character upper-cased, the rest lower-cased |
| LegacyAdminController.Channel | controllers/AdminController.ts:1087-1091 | a part names at most one channel: trimmed, skipped when empty |
| LegacyAdminController.Bump | controllers/AdminController.ts:1091 | one counter goes up by one, starting from 0; the others are kept |
| LegacyAdminController.TallyOfCounts | controllers/AdminController.ts:1086-1093 | the counter map holds exactly the names that occur, each with its number of occurrences |
| LegacyAdminController.CountChannel | controllers/AdminController.ts:1088-1092 | a non-empty part bumps its capitalised key; an empty one changes nothing |
| LegacyAdminController.TallyVenda | controllers/AdminController.ts:1086-1093 | the loop over one `venda`'s parts bumps one key per channel it names |
| LegacyAdminController.SalesChannels | controllers/AdminController.ts:1076-1095 | each channel's count is its number of occurrences over all listings' `venda` |
| LegacyAdminController.CapitalizeIgnoresCase | controllers/AdminController.ts:1090 | channel names differing only in ASCII case share a key |
| AdminService.TruthyOfFields | src/services/AdminService.ts:33-49 | the guarded assignments copy exactly the listed fields whose staged value is truthy |
| AdminService.TruthyFields | src/services/AdminService.ts:33-49 | exactly the thirteen fields whose staged value is truthy, with the staged values |
| AdminService.WithImages | src/services/AdminService.ts:52-59 | the listing's gallery becomes exactly the staged URLs, and no other listing's changes |
| AdminService.ApprovedUpdate | src/services/AdminService.ts:30-64 | active, no payload; truthy listed fields take the staged value; every other column keeps its value |
| AdminService.Rejected | src/services/AdminService.ts:79-85 | a pending update returns to active without payload; any other status, `ativo` included, becomes rejected and inactive; content is kept |
| AdminService.AprovarNovoLocal | src/services/AdminService.ts:8-17 | throws on a missing id; otherwise active with no status check, nothing else changes |
| AdminService.CopyIfTruthy | src/services/AdminService.ts:33 | one guarded assignment writes the staged value exactly when it is truthy |
| AdminService.CopyTruthy | src/services/AdminService.ts:33-49 | the thirteen assignments copy exactly the truthy staged fields |
| AdminService.ReplaceImages | src/services/AdminService.ts:52-59 | the destroy-then-create loop leaves the gallery exactly the staged URLs, in order |
| AdminService.AprovarAtualizacao | src/services/AdminService.ts:24-68 | throws on a missing id or a missing payload; otherwise the approved row is written and a staged array replaces the gallery |
| AdminService.RejeitarSolicitacao | src/services/AdminService.ts:73-89 | throws on a missing id; otherwise writes the rejected row |
| AdminService.AprovarExclusao | src/services/AdminService.ts:94-103 | throws on a missing id; otherwise both gallery and row are gone, with no status check |
| AdminService.ListarPendencias | src/services/AdminService.ts:108-118 | exactly the listings in the three pending statuses |
| AdminService.RejectedVisibility | src/services/AdminService.ts:79-85 | a rejection leaves a listing active exactly when it was a pending update; otherwise it is hidden |
| AdminService.ApprovedUpdateIdempotent | src/services/AdminService.ts:30-64 | approving the same staged values again changes nothing |
| LocalService.CreationRow | src/services/LocalService.ts:12-27 | a new row is inactive, pending approval, with nothing staged |
| LocalService.CreationResponsible | src/services/LocalService.ts:15-16 | name and CPF of the person responsible: snake_case first, then camelCase |
| LocalService.CreationImages | src/services/LocalService.ts:33-39 | gallery rows only for a non-empty array under the key read, in input order |
| LocalService.CreationError | src/services/LocalService.ts:29-46 | creation fails exactly when the database refuses the row (validation of every attribute, length, CNPJ) or the gallery input is a non-empty string |
| LocalService.CreationCopiesTextual | src/services/LocalService.ts:12-27 | each copied textual column, and `venda` once the required columns are copied, holds the input's value |
| LocalService.CreationRefusesNonScalar | src/services/LocalService.ts:12-31 | an input giving a copied textual column an array or an object makes creation fail with a `SequelizeValidationError` naming that column |
| LocalService.CadastrarLocalComImagens | src/services/LocalService.ts:9-47 | on an error nothing is written; otherwise the new id holds the row and its gallery |
| LocalService.Requested | src/services/LocalService.ts:59-60 | a request changes only status and payload; visible columns and `ativo` are kept |
| LocalService.Stage | src/services/LocalService.ts:53-63 | "Local não encontrado." on a missing id; an unserialisable payload fails and nothing is written; otherwise the request is staged |
| LocalService.SolicitarAtualizacao | src/services/LocalService.ts:49-64 | the update request is stored verbatim as pending update, or the error, with nothing written |
| LocalService.SolicitarExclusao | src/services/LocalService.ts:66-79 | the deletion request is stored verbatim as pending deletion, or the error, with nothing written |
| LocalService.Toggled | src/services/LocalService.ts:214-220 | `ativo` is the argument; the status is active when true and rejected when false |
| LocalService.AlterarStatusAtivo | src/services/LocalService.ts:209-224 | throws on a missing id; otherwise writes the toggled row |
| LocalService.WithStatus | src/services/LocalService.ts:81-128 | exactly the listings in the status that match, each with its own gallery |
| LocalService.ListarTodos | src/services/LocalService.ts:81-94 | exactly the active listings, once the gallery include resolves (see `FindAll`) |
| LocalService.BuscarPorCategoria | src/services/LocalService.ts:96-110 | active listings whose category contains the text, once the gallery include resolves |
| LocalService.BuscarPorNome | src/services/LocalService.ts:112-128 | active listings whose filtered column contains the text; as written the column is `nomeLocal` (see `NameQueryUnknownColumn`) |
| LocalService.BuscarPorId | src/services/LocalService.ts:130-141 | a listing exactly when it exists and is active, with its gallery |
| LocalService.ListarPendentes | src/services/LocalService.ts:226-257 | one queue per pending status, each holding exactly the listings in that status, once the gallery include resolves |
| LocalService.FindAll | src/services/LocalService.ts:81-128 | a query with a gallery include throws the eager-loading error when its alias is not the registered one; then an `Unknown column` error when it filters on a column `Local` does not declare; otherwise it yields its rows |
| LocalService.AsWrittenQueriesThrow | src/services/LocalService.ts:81-128 | as written, `listarTodos`, `buscarPorCategoria`, `buscarPorNome` and `listarPendentes` throw a `SequelizeEagerLoadingError` |
| LocalService.CorrectedQueriesList | src/services/LocalService.ts:81-110 | including the gallery as `locaisImg`, `listarTodos`, `buscarPorCategoria` and `listarPendentes` yield their listings |
| LocalService.NameColumnUndeclared | src/entities/Local.entity.ts:38-147 | `Local` declares `nomeFantasia` and no `nomeLocal` |
| LocalService.NameQueryUnknownColumn | src/services/LocalService.ts:112-128 | as written, even with the include resolving, `buscarPorNome` filters on `nomeLocal` and MySQL refuses it as an unknown column, whatever the table holds |
| LocalService.CorrectedNameQuery | src/services/LocalService.ts:112-128 | filtering on `nomeFantasia`, the query yields exactly the active listings whose trade name contains the text |
| LocalService.PublicQueriesOnlyActive | src/services/LocalService.ts:81-141 | every public query returns active listings only, with their own row and gallery |
| LocalService.PendentesPartition | src/services/LocalService.ts:226-257 | the queues are disjoint, together they equal the admin service's pending list, and none is public |
| LocalService.CreatedIsQueued | src/services/LocalService.ts:25-26 | a new listing is in the approval queue and not public |
| LocalService.SrcCreationLacksRequired | src/services/LocalService.ts:12-27 | as written, the row has no `certificadoCnpj` and no `venda` |
| LocalService.SrcCreationAlwaysRefused | src/services/LocalService.ts:12-31 | as written, every creation is refused by the NOT NULL check, naming `certificadoCnpj` and `venda` |
| LocalService.CorrectedCreationCopies | src/services/LocalService.ts:12-27 | copying the two required columns stores the input's values, and `escala` defaults to 0 |
| LocalService.CorrectedCreationRequired | src/services/LocalService.ts:12-31 | corrected, the NOT NULL check passes exactly when responsible name, CPF, certificate and sales channels are given |
| LocalService.RequestThenServiceReject | src/services/LocalService.ts:49-79 | after the admin service's reject, an update request is undone, but a deletion request leaves the listing rejected |
| LocalService.ToggleVisibility | src/services/LocalService.ts:209-224 | after the toggle, the listing is public exactly when `ativo` is true |
| LegacyLocalService.StatusLabel | services/LocalService.ts:29-39 | a known inactive code gets its label NULA, SUSPENSA, INAPTA or BAIXADA; any other code is shown as is |
| LegacyLocalService.RegistryCheck | services/LocalService.ts:20-56 | passes exactly for a CNPJ given, looked up, active ("ATIVA" or "2") and in Saquarema; each failure has its own message |
| LegacyLocalService.WhereUndefined | services/LocalService.ts:60-63 | an undefined value in a query condition is a plain `Error` |
| LegacyLocalService.CreationRow | services/LocalService.ts:76-100 | the row takes the entity defaults: inactive, pending approval, nothing staged |
| LegacyLocalService.CreationRenames | services/LocalService.ts:76-93 | `logo` and `ccmei` land in `logoUrl` and `ccmeiUrl`; the person responsible comes from the snake_case fields |
| LegacyLocalService.CreationKeepsCnpj | services/LocalService.ts:78 | the CNPJ is stored as given |
| LegacyLocalService.CreationKeepsEmail | services/LocalService.ts:83 | the e-mail is stored as given |
| LegacyLocalService.CreationEscala | services/LocalService.ts:95 | `escala` is the input's, or the default 0 when absent |
| LegacyLocalService.CadastrarLocalComImagens | services/LocalService.ts:17-116 | the checks run in source order; on any failure nothing is written; otherwise the next id holds the row and its `produtos` gallery |
| LegacyLocalService.MissingCnpjFirst | services/LocalService.ts:20-22 | a missing CNPJ is refused before any other check |
| LegacyLocalService.CreatedOnlyIfAdmitted | services/LocalService.ts:17-116 | a listing is created only for an active Saquarema registration with an e-mail and CNPJ no listing holds, and its row has the older entity's required columns, no array or object in a textual column, and fits the lengths |
| LegacyLocalService.AdmittedIsCreated | services/LocalService.ts:17-116 | conversely, such a registration whose row fits is created |
| LegacyLocalService.CnpjQueryPreemptsIndex | services/LocalService.ts:68-74 | once the CNPJ query finds nothing, the unique index cannot refuse the row |
| LegacyLocalService.CnpjSelectsOne | services/LocalService.ts:122 | no two listings share a non-NULL CNPJ, so a request by CNPJ has one target |
| LegacyLocalService.StageByCnpj | services/LocalService.ts:118-150 | an undefined CNPJ and an unknown one fail with nothing written; otherwise the request is staged on the listing with that CNPJ |
| LegacyLocalService.SolicitarAtualizacaoPorCnpj | services/LocalService.ts:118-133 | the update request is staged by CNPJ |
| LegacyLocalService.SolicitarExclusaoPorCnpj | services/LocalService.ts:135-150 | the CNPJ is read from the request, which is stored whole as the deletion request |
| LegacyLocalService.AlterarStatusAtivo | services/LocalService.ts:276-297 | false gives rejected, true gives active; throws on a missing id |
| LegacyLocalService.BuscarPorNome | services/LocalService.ts:167-183 | active listings whose trade name contains the text |
| LegacyLocalService.LegacyNameQueryIsCorrected | services/LocalService.ts:167-183 | the older search is the corrected `buscarPorNome` of the newer service |
| LocalController.FixStringShape | src/controllers/LocalController.ts:44 | an array becomes its first element; anything else is unchanged; applying it twice is applying it once |
| LocalController.JsOr | src/controllers/LocalController.ts:46-47 | the left value when truthy, otherwise the right one |
| LocalController.SanitizeChar | src/controllers/LocalController.ts:49 | an ASCII letter or digit is lower-cased; anything else becomes `_` |
| LocalController.Sanitize | src/controllers/LocalController.ts:49 | character by character, the same length |
| LocalController.SanitizeSafe | src/controllers/LocalController.ts:49-51 | a sanitised segment has only `_`, digits and lower-case letters (no separator, no dot), and sanitising again changes nothing |
| LocalController.SegmentsPrecedence | src/controllers/LocalController.ts:46-51 | the stored category and name beat the form's; the segments are never empty |
| LocalController.ForwardSlashes | src/controllers/LocalController.ts:60 | every backslash becomes a slash, nothing else changes |
| LocalController.StoredPathShape | src/controllers/LocalController.ts:53-60 | a stored path is `uploads/<cat>/<name>/<file>` with no backslash |
| LocalController.FirstOf | src/controllers/LocalController.ts:63-65 | at most the first file of a field |
| LocalController.Destinations | src/controllers/LocalController.ts:67-72 | one stored path per gallery file, in order |
| LocalController.MoveAllPlaces | src/controllers/LocalController.ts:56-72 | after the moves every stored path exists and no upload is left where it was written |
| LocalController.PreparedPaths | src/controllers/LocalController.ts:89-92 | the stored paths land under `logoUrl`, the permit keys and `imagens`; `imagens` is undefined without gallery files |
| LocalController.PreparedFields | src/controllers/LocalController.ts:75-86 | each text field is the form's through `fixString`; every other form key is passed on unchanged |
| LocalController.MoveFile | src/controllers/LocalController.ts:56-61 | no file gives no path; a file is moved and its stored path returned |
| LocalController.MoveGallery | src/controllers/LocalController.ts:67-72 | the loop moves each gallery file and collects exactly the stored paths, in order |
| LocalController.MoveFilesAndPrepareData | src/controllers/LocalController.ts:36-94 | all uploads are moved under the sanitised directory, and the prepared object is exactly `Prepared` |
| LocalController.HandleError | src/controllers/LocalController.ts:24-33 | a database length error gives 400 with the fixed text; otherwise "não encontrado" gives 404 with the message; otherwise 500 with the message, or the default text when it is empty |
| LocalController.TooLongIs400 | src/controllers/LocalController.ts:25-27 | a too-long column answers 400 |
| LocalController.NotFoundIs404 | src/controllers/LocalController.ts:28-30 | the services' "Local não encontrado." answers 404 |
| LocalController.ValidationIs500 | src/controllers/LocalController.ts:24-33 | a validation error on declared attributes has a non-empty message and answers 500 with it |
| LocalController.NotNullIs500 | src/controllers/LocalController.ts:24-33 | a NOT NULL refusal answers 500 with its own message |
| LocalController.AsWrittenCleanupKeepsMoved | src/controllers/LocalController.ts:10-22 | as written, the clean-up targets only the temporary paths, so every moved file stays |
| LocalController.CorrectedCleanupTargetsMoved | src/controllers/LocalController.ts:10-22 | targeting the stored paths, every moved file is deleted |
| LocalController.Cadastrar | src/controllers/LocalController.ts:96-105 | 201 after creation, with the row and its gallery under the next id; on a failure no row, gallery or id is used, the clean-up targets are deleted at best, and the error is classified |
| LocalController.AsWrittenRegistrationIs500 | src/controllers/LocalController.ts:96-105 | as written, every registration fails with a validation error answered by a 500 |
| LocalController.RepeatedFieldIs500 | src/controllers/LocalController.ts:75-105 | with the corrected wiring, a registration that sends `tagsInvisiveis`, `areasAtuacao` or `venda` twice fails validation and answers 500 |
| LocalController.UpdateArgument | src/controllers/LocalController.ts:111 | as written the request itself, corrected the prepared data, is what gets staged |
| LocalController.AsWrittenUpdateAlwaysRefused | src/controllers/LocalController.ts:107-117 | as written, every update request answers 400, with the circular-JSON message for an existing listing |
| LocalController.CorrectedUpdateAccepted | src/controllers/LocalController.ts:107-117 | handing over the prepared data, an update request answers 200 exactly for an existing listing |
| LocalController.AsWrittenCreationDropsGallery | src/controllers/LocalController.ts:92 | as written, the gallery paths put under `imagens` never become gallery rows |
| LocalController.CorrectedCreationKeepsGallery | src/controllers/LocalController.ts:92 | reading `imagens`, the gallery rows are exactly the stored paths in order |
| LocalController.SolicitarAtualizacao | src/controllers/LocalController.ts:107-117 | 200 with the prepared data staged; any error answers 400 with its message, after the clean-up |
| LocalController.RowKey | src/controllers/LocalController.ts:124 | a whole number and a digit string are keys; a fraction matches no row; a boolean, array or object is an invalid argument |
| LocalController.InvalidKeyIs500 | src/controllers/LocalController.ts:24-33 | the invalid-argument error of `findByPk` answers 500 with its message |
| LocalController.SolicitarExclusao | src/controllers/LocalController.ts:119-138 | a falsy `localId` is a 400 and an unknown one a 404, both with nothing changed; a boolean, array or object is a 500 after the temporary files are deleted; otherwise files go under the stored category and the form's name (the entity has no `nomeLocal`), and the request is staged |
| LocalController.BuscarPorId | src/controllers/LocalController.ts:169-178 | 200 exactly for a public listing; otherwise 404 "Local não encontrado." |
| LocalController.AlterarStatus | src/controllers/LocalController.ts:180-192 | a non-boolean `ativo` is a 400 with nothing changed; an unknown id a 404; otherwise 200 with the toggled row stored |
| LocalController.KeyChar | src/controllers/LocalController.ts:201 | every character becomes `_`, an upper-case letter or a digit |
| LocalController.KeyChars | src/controllers/LocalController.ts:201 | character by character, the same length |
| LocalController.ViewKey | src/controllers/LocalController.ts:199-202 | the trimmed, upper-cased identifier is kept when it is `HOME` or starts with `CAT_`; otherwise the key is `CAT_` followed by it, each character outside `[A-Z0-9]` turned into `_` |
| LocalController.ViewKeyIdempotent | src/controllers/LocalController.ts:199-202 | normalising a key again changes nothing |
| LocalController.RegistrarVisualizacao | src/controllers/LocalController.ts:194-214 | an empty identifier is a 400 with nothing counted; otherwise the counter of the normalised key goes up by one |

## Left out

- E-mail bodies and sending. A notification is modelled by its kind, recipient and reason. Send failures are swallowed in the source and do not change any outcome.
- File system details: `mkdir`, `path.resolve` and `path.join` normalisation, `__dirname`-relative deletion paths. Files are one set of path strings.
- Multer itself. Uploads arrive as a map from field name to files.
- Floating point: `parseFloat` of the coordinates is an input value; averages and `toFixed` are not modelled. `LocalService.BuscarPorId` leaves out the reviews and average it attaches.
- `JSON.parse` of a string `urlsParaExcluir` and `parseInt` of route ids: parsed values are inputs.
- Sequelize's attribute filtering: keys that are not attributes of the entity are kept in the modelled row. No query filters on such a key (`LocalService.FindAll` refuses one) and no modelled code reads one back: the one read of such a key, the `logo` fallback at src/controllers/AdminController.ts:155, is taken as the `undefined` it always is (`AdminController.OldLogo`).
- The entity and the association index of the older files (controllers/AdminController.ts, services/LocalService.ts) are not part of this model:
  - `LocalEntity.LegacyRequired` is the newer entity's NOT NULL list without `certificadoCnpj`, since the older creation never writes that column; the older creation is checked against it.
  - Updates in the older files are checked against the newer entity's lists of required and textual attributes, on the changed attributes only; the older creation uses the newer textual list.
  - The older files include the gallery as `produtosImg`, which is taken to be the alias their index registers.
- `LIKE` collation: case folding and `%`/`_` wildcards inside the search text. MySQL's lenient casts from strings to numbers.
- LegacyLocalService.CadastrarLocalComImagens: the e-mail and CNPJ lookups and the unique index compare by exact equality. Under MySQL's default case-insensitive collation the source also finds a case variant ("Ana@x.com" for "ana@x.com") and refuses the registration; the model creates it.
- LegacyLocalService.CreatedOnlyIfAdmitted: "no listing holds" the e-mail or CNPJ means by exact equality, not under the collation.
- LegacyLocalService.AdmittedIsCreated: a registration whose e-mail or CNPJ differs from a stored one only in letter case is created in the model; the source refuses it.
- LocalEntity.CnpjTaken: the unique index compares CNPJs by exact equality, not under the collation.
- LocalController.SolicitarAtualizacao: the route's id is an integer input. The mounted route `PUT /solicitar-atualizacao` (src/routes/local.routes.ts:55-64) has no `:id`, so the source looks up `Number(undefined)`, which is `NaN` and finds no listing; every request then answers 400, as for a missing listing.
- Cascades between tables, row locking, and concurrent decisions.
- Prototype keys of `mapaStatus` (for example `"constructor"`). Only own keys are modelled.
- Case mapping outside ASCII: `toUpperCase`/`toLowerCase` are modelled on ASCII letters only.
- The exact message text Node gives a circular structure: the model takes its first line.
- AdminController.AdminUpdateDecision: on a listing not awaiting approval, a body `ativo` that Sequelize's BOOLEAN sanitiser leaves unconverted (`null`, `""`, `"sim"`), or a body `status` that is not one of the five stored names, keeps the row's own value in the model; the source hands it to MySQL, which stores a NULL flag or refuses the value. The flag is a boolean in the model.
- LocalController.RowKey: a digit string with leading `+`, spaces or a fraction (which MySQL would cast) matches no row in the model.
- LocalController.Segment: a truthy non-string form value (which `replace` would reject) is treated as the fallback segment.
- LocalController.RegistrarVisualizacao: the 500 answer when the counter table fails is not modelled. The store never fails.
- `exportActiveLocals` apart from `escapeCsvField`, and the dashboard's category, scale and top-10 charts: reporting glue.
- Admin login and JWT, routes and middleware, reviews: outside the moderation core.
- `getPending` of the admin dashboard (src/controllers/AdminController.ts:53-80) is not part of this model; its include uses the same unregistered alias as the handlers.
- Persistence.Store.Images: the rows of the association itself. Whether an eager load by alias reaches them is stated by `LocalEntity.IncludeError`, `AdminController.Loads` and `LocalService.FindAll`.
- LocalService.ListarTodos: the active listings the query selects once its include resolves. As written the include throws first, which `LocalService.AsWrittenQueriesThrow` states.
- LocalService.BuscarPorCategoria: the listings selected once the include resolves; as written it throws, by `LocalService.AsWrittenQueriesThrow`.
- LocalService.BuscarPorNome: the listings the `LIKE` selects once the include resolves and the column exists; as written it throws, by `LocalService.AsWrittenQueriesThrow` and `LocalService.NameQueryUnknownColumn`.
- LocalService.ListarPendentes: the queues selected once the include resolves; as written it throws, by `LocalService.AsWrittenQueriesThrow`.
- LocalController.Sanitize: strings are sequences of Unicode scalar values, so a character outside the Basic Multilingual Plane gives one `_`, where the source's regular expression (no `u` flag) writes two, one per UTF-16 code unit.
- LocalController.ViewKey: as for `Sanitize`, a character outside the Basic Multilingual Plane gives one `_` where the source writes two.
- LocalController.RowKey: the value that Sequelize appends to the `findByPk` message is not modelled. An array whose text contains "não encontrado" would be answered 404 by the source.

## Findings

The rows for src/controllers/AdminController.ts:177-204, 154 and 326-336 are reached only when the handler's include resolves, as with `AdminController.SrcCorrected`'s alias; as written, each such request first fails on the include.

The row for src/controllers/LocalController.ts:111 assumes a route that supplies `:id`. The mounted route `PUT /solicitar-atualizacao` (src/routes/local.routes.ts:55-64) has none, so as mounted every update request finds no listing and answers 400 before the payload matters. The three-argument call also fails TypeScript's arity check, so that row describes a build that skips type checking.

| source | as written | input that shows it | evidently intended | confidence | as-written member | corrected member |
|---|---|---|---|---|---|---|
| src/controllers/AdminController.ts:92 (also 313 and 522) | the three handlers include the gallery as `produtosImg`; the association is registered as `locaisImg` (src/entities/index.ts:24-27) | any approve, edit-and-approve or admin update request | include the registered alias | not executed | AdminController.AsWrittenIncludeRefused | AdminController.CorrectedIncludeLoads |
| src/services/LocalService.ts:86-89 (also 102-105, 120-123 and 232-235) | the four listing queries include the gallery as `produtosImg` | any call of `listarTodos`, `buscarPorCategoria`, `buscarPorNome` or `listarPendentes` | include the registered alias (`buscarPorNome` also needs the next row) | not executed | LocalService.AsWrittenQueriesThrow | LocalService.CorrectedQueriesList |
| src/services/LocalService.ts:115 | `buscarPorNome` filters on `nomeLocal`, which `Local` does not declare (src/entities/Local.entity.ts:38-147) | any call of `buscarPorNome` once the include resolves | filter on `nomeFantasia`, as the older copy does (services/LocalService.ts:167-183) | not executed | LocalService.NameQueryUnknownColumn | LocalService.CorrectedNameQuery |
| src/controllers/AdminController.ts:177-204 | `approveRequest` takes the new gallery from staged `produtos` | an update staged through `LocalController` (gallery under `imagens`, no `produtos`) | the staged `imagens` replace the gallery, as in `editAndApproveRequest` | not executed | AdminController.SrcApproveIgnoresStagedImagens | AdminController.CorrectedApproveInstallsImagens |
| src/controllers/AdminController.ts:154 | the decisions read the new logo from staged `logo` | an update staged with a new `logoUrl` (src/controllers/LocalController.ts:89) and no `logo` | the staged `logoUrl` replaces the old logo, as `AdminService` reads it | not executed | AdminController.SrcApproveIgnoresStagedLogoUrl | AdminController.CorrectedApproveSwapsLogo |
| src/controllers/AdminController.ts:326-336 | the `"DELETE"` sentinel is honoured only for a pending update with a payload | edit-and-approve of a pending creation with body `logoUrl: "DELETE"` | the logo is cleared for every status, as in `adminUpdateLocal` | not executed | AdminController.SrcEditWritesSentinel | AdminController.CorrectedEditClearsLogo |
| controllers/AdminController.ts:623-659 | the older `adminUpdateLocal` filters gallery rows by `LocalId` | any admin update with a non-empty `urlsParaExcluir` | filter by `localId`, the column the gallery table has | not executed | LegacyAdminController.LegacyAdminUpdateGalleryFails | LegacyAdminController.LegacyCorrectedAdminUpdatePrunes |
| src/controllers/LocalController.ts:111 | `solicitarAtualizacao(Number(id), req, dadosAtualizacao)` hands the request as the payload; the service takes two parameters, so the third argument is dropped | any update request whose route supplies the id of an existing listing | store the prepared `dadosAtualizacao`, on a route that carries `:id` | not executed | LocalController.AsWrittenUpdateAlwaysRefused | LocalController.CorrectedUpdateAccepted |
| src/services/LocalService.ts:33 | creation reads gallery URLs from `produtos` | a registration with gallery files, which the controller puts under `imagens` | gallery rows from `imagens` | not executed | LocalController.AsWrittenCreationDropsGallery | LocalController.CorrectedCreationKeepsGallery |
| src/services/LocalService.ts:12-27 | the row omits the NOT NULL columns `certificadoCnpj` and `venda` | any registration, whatever its fields | copy both from the input | not executed | LocalController.AsWrittenRegistrationIs500 | LocalService.CorrectedCreationRequired |
| src/controllers/LocalController.ts:10-22 | the failure clean-up deletes the temporary paths, which the moves have already emptied | a registration with a logo that the database refuses | delete the files where they were moved to | not executed | LocalController.AsWrittenCleanupKeepsMoved | LocalController.CorrectedCleanupTargetsMoved |
