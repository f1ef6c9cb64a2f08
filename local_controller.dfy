/** The owner-facing controller of `src/controllers/LocalController.ts`: it moves the
    uploaded files into `uploads/<category>/<name>/`, merges their stored paths into the
    form data, calls the service, and turns errors into HTTP answers. Two choices of the
    code as written are parameters here (`Wiring`), so that the model can show both what
    it does and what it evidently meant to do. */
module LocalController {
  import opened Common
  import opened Json
  import opened LocalEntity
  import opened Persistence
  import LocalService

  /** An HTTP answer: the status code and, for `{ message }` bodies, the message. */
  datatype Reply = Reply(status: int, message: Option<string>)

  /** `fixString`: a text field multer delivered as an array becomes its first element.
      `undefined` is `None`. */
  function FixString(v: Option<Value>): (r: Option<Value>)
  {
    if v.Some? && v.value.Arr? then (if v.value.items != [] then Some(Str(v.value.items[0])) else None)
    else v
  }

  /** `fixString` never yields an array, keeps every other value, and applying it twice is
      applying it once. */
  lemma FixStringShape(v: Option<Value>)
    ensures FixString(v).Some? ==> !FixString(v).value.Arr?
    ensures !(v.Some? && v.value.Arr?) ==> FixString(v) == v
    ensures v.Some? && v.value.Arr? && v.value.items != [] ==> FixString(v) == Some(Str(v.value.items[0]))
    ensures FixString(FixString(v)) == FixString(v)
  {
  }

  /** `a || b` where either side may be `undefined`. */
  function JsOr(a: Option<Value>, b: Option<Value>): (r: Option<Value>)
    ensures a.Some? && Truthy(a.value) ==> r == a
    ensures !(a.Some? && Truthy(a.value)) ==> r == b
  {
    if a.Some? && Truthy(a.value) then a else b
  }

  /** One character of `replace(/[^a-z0-9]/gi, "_").toLowerCase()`. */
  function SanitizeChar(c: char): (r: char)
    ensures IsAsciiAlnum(c) ==> r == LowerChar(c) && r != '_'
    ensures !IsAsciiAlnum(c) ==> r == '_'
  {
    if IsAsciiAlnum(c) then LowerChar(c) else '_'
  }

  /** `sanitize`: every character that is not an ASCII letter or digit becomes `_`, and
      letters are lower-cased. */
  function Sanitize(s: string): (r: string)
    ensures |r| == |s|
    ensures forall i :: 0 <= i < |s| ==> r[i] == SanitizeChar(s[i])
  {
    seq(|s|, i requires 0 <= i < |s| => SanitizeChar(s[i]))
  }

  /** A sanitised name holds only `_`, digits and lower-case letters (so no separator and
      no dot can leave the upload directory), and sanitising again changes nothing. */
  lemma SanitizeSafe(s: string)
    ensures forall i :: 0 <= i < |s| ==> Sanitize(s)[i] == '_' || IsAsciiDigit(Sanitize(s)[i]) || IsAsciiLower(Sanitize(s)[i])
    ensures '/' !in Sanitize(s) && '\\' !in Sanitize(s) && '.' !in Sanitize(s)
    ensures Sanitize(Sanitize(s)) == Sanitize(s)
  {
  }

  /** `sanitize(value || fallback)`. Form fields are strings, so a truthy value is one. */
  function Segment(v: Option<Value>, fallback: string): string
  {
    if v.Some? && v.value.Str? && v.value.s != "" then Sanitize(v.value.s) else Sanitize(fallback)
  }

  /** The category and name of a listing that already exists. */
  datatype Existing = Existing(categoria: Option<Value>, nomeLocal: Option<Value>)

  function CategoriaOf(existing: Option<Existing>, form: Payload): Option<Value>
  {
    FixString(JsOr(if existing.Some? then existing.value.categoria else None, Lookup(form, "categoria")))
  }

  function NomeOf(existing: Option<Existing>, form: Payload): Option<Value>
  {
    var stored := if existing.Some? then existing.value.nomeLocal else None;
    FixString(JsOr(JsOr(JsOr(stored, Lookup(form, "nomeLocal")), Lookup(form, "nomeFantasia")), Lookup(form, "nomeProjeto")))
  }

  /** The directory segment for the category, defaulting to `geral`. */
  function CategorySegment(existing: Option<Existing>, form: Payload): string
  {
    Segment(CategoriaOf(existing, form), "geral")
  }

  /** The directory segment for the listing's name, defaulting to `local_sem_nome`. */
  function NameSegment(existing: Option<Existing>, form: Payload): string
  {
    Segment(NomeOf(existing, form), "local_sem_nome")
  }

  /** The stored listing's category and name take precedence over the form's; neither
      segment is ever empty. */
  lemma SegmentsPrecedence(existing: Existing, form: Payload)
    ensures existing.categoria.Some? && Truthy(existing.categoria.value) ==>
      CategoriaOf(Some(existing), form) == FixString(existing.categoria)
    ensures existing.nomeLocal.Some? && Truthy(existing.nomeLocal.value) ==>
      NomeOf(Some(existing), form) == FixString(existing.nomeLocal)
    ensures CategoriaOf(None, form) == FixString(Lookup(form, "categoria"))
    ensures |CategorySegment(Some(existing), form)| > 0 && |NameSegment(Some(existing), form)| > 0
  {
  }

  /** `.replace(/\\/g, "/")`. */
  function ForwardSlashes(s: string): (r: string)
    ensures |r| == |s|
    ensures forall i :: 0 <= i < |s| ==> r[i] == (if s[i] == '\\' then '/' else s[i])
  {
    seq(|s|, i requires 0 <= i < |s| => if s[i] == '\\' then '/' else s[i])
  }

  /** The path stored for an uploaded file: `path.join("uploads", cat, name, filename)` with
      backslashes turned into slashes. */
  function StoredPath(cat: string, name: string, filename: string): string
  {
    ForwardSlashes("uploads/" + cat + "/" + name + "/" + filename)
  }

  /** A stored path for sanitised segments is `uploads/<cat>/<name>/<file>` and holds no
      backslash. */
  lemma StoredPathShape(cat: string, name: string, filename: string)
    ensures var p := StoredPath(Sanitize(cat), Sanitize(name), filename);
      p == "uploads/" + Sanitize(cat) + "/" + Sanitize(name) + "/" + ForwardSlashes(filename)
      && '\\' !in p
  {
    var c := Sanitize(cat);
    var n := Sanitize(name);
    var whole := "uploads/" + c + "/" + n + "/" + filename;
    var p := StoredPath(c, n, filename);
    assert p == "uploads/" + c + "/" + n + "/" + ForwardSlashes(filename) by {
      var prefix := "uploads/" + c + "/" + n + "/";
      assert whole == prefix + filename;
      assert forall i :: 0 <= i < |prefix| ==> prefix[i] != '\\';
    }
  }

  /** A file multer received: where it was written, and the name it was given. */
  datatype Upload = Upload(path: string, filename: string)

  /** `req.files`: the uploaded files by form field. */
  type Uploads = map<string, seq<Upload>>

  /** `arquivos[field]?.[0]`, as a list of at most one file. */
  function FirstOf(files: Uploads, field: string): (r: seq<Upload>)
    ensures |r| <= 1
  {
    if field in files && files[field] != [] then [files[field][0]] else []
  }

  /** The first of the four field names multer filled decides the gallery. */
  function GalleryFiles(files: Uploads): seq<Upload>
  {
    if "imagens" in files then files["imagens"]
    else if "produtos" in files then files["produtos"]
    else if "produtosImg" in files then files["produtosImg"]
    else if "localImg" in files then files["localImg"]
    else []
  }

  /** Every file moved, in the order the moves happen. */
  function MovedUploads(files: Uploads): seq<Upload>
  {
    FirstOf(files, "logo") + FirstOf(files, "alvara_funcionamento") + FirstOf(files, "vigilancia_sanitaria") + GalleryFiles(files)
  }

  function Destinations(cat: string, name: string, us: seq<Upload>): (r: seq<string>)
    ensures |r| == |us|
    ensures forall i :: 0 <= i < |us| ==> r[i] == StoredPath(cat, name, us[i].filename)
  {
    seq(|us|, i requires 0 <= i < |us| => StoredPath(cat, name, us[i].filename))
  }

  /** The file set after `fs.rename` of each upload, one after the other. */
  function MoveAll(fs: set<string>, cat: string, name: string, us: seq<Upload>): set<string>
  {
    if us == [] then fs
    else
      var last := us[|us| - 1];
      MoveAll(fs, cat, name, us[..|us| - 1]) - {last.path} + {StoredPath(cat, name, last.filename)}
  }

  /** When no upload was written where another is moved to, every moved file is at its
      stored path afterwards, and none is left where multer wrote it. */
  lemma {:induction false} MoveAllPlaces(fs: set<string>, cat: string, name: string, us: seq<Upload>)
    requires forall u, d :: u in us && d in Destinations(cat, name, us) ==> u.path != d
    ensures forall d :: d in Destinations(cat, name, us) ==> d in MoveAll(fs, cat, name, us)
    ensures forall u :: u in us ==> u.path !in MoveAll(fs, cat, name, us)
  {
    if us != [] {
      var init := us[..|us| - 1];
      forall u, d | u in init && d in Destinations(cat, name, init)
        ensures u.path != d
      {
        var i :| 0 <= i < |init| && Destinations(cat, name, init)[i] == d;
        assert us[i] == init[i];
        assert Destinations(cat, name, us)[i] == d;
        assert d in Destinations(cat, name, us);
        var j :| 0 <= j < |init| && init[j] == u;
        assert us[j] == u;
      }
      MoveAllPlaces(fs, cat, name, init);
      forall d | d in Destinations(cat, name, us)
        ensures d in MoveAll(fs, cat, name, us)
      {
        var i :| 0 <= i < |us| && Destinations(cat, name, us)[i] == d;
        if i < |init| {
          assert Destinations(cat, name, init)[i] == d;
        }
      }
      var last := Destinations(cat, name, us)[|us| - 1];
      assert last in Destinations(cat, name, us);
      forall u | u in us
        ensures u.path !in MoveAll(fs, cat, name, us)
      {
        assert u.path != last;
        var j :| 0 <= j < |us| && us[j] == u;
        if j < |init| {
          assert init[j] == u;
        }
      }
    }
  }

  /** The stored paths handed back for the uploads. */
  datatype Paths = Paths(logo: Option<string>, alvaraFuncionamento: Option<string>, vigilancia: Option<string>, gallery: seq<string>)

  function PathOf(cat: string, name: string, us: seq<Upload>): Option<string>
  {
    if us == [] then None else Some(StoredPath(cat, name, us[0].filename))
  }

  function PathsOf(cat: string, name: string, files: Uploads): Paths
  {
    Paths(
      PathOf(cat, name, FirstOf(files, "logo")),
      PathOf(cat, name, FirstOf(files, "alvara_funcionamento")),
      PathOf(cat, name, FirstOf(files, "vigilancia_sanitaria")),
      Destinations(cat, name, GalleryFiles(files)))
  }

  function AsStr(p: Option<string>): (r: Option<Value>)
  {
    if p.Some? then Some(Str(p.value)) else None
  }

  /** The form fields passed through `fixString` under their own name. */
  const FixedFields: seq<string> := [
    "nomeLocal", "categoria", "nomeResponsavel", "cpfResponsavel", "contatoResponsavel",
    "contatoLocal", "endereco", "descricao", "instagram"]

  /** `m` with each field of `keys` set to `fixString(form[field])`. */
  function FixFields(m: Payload, keys: seq<string>, form: Payload): Payload
  {
    if keys == [] then m
    else
      var key := keys[|keys| - 1];
      Assign(FixFields(m, keys[..|keys| - 1], form), key, FixString(Lookup(form, key)))
  }

  lemma {:induction false} FixFieldsLookup(m: Payload, keys: seq<string>, form: Payload, k: string)
    ensures Lookup(FixFields(m, keys, form), k) == if k in keys then FixString(Lookup(form, k)) else Lookup(m, k)
  {
    if keys != [] {
      var init := keys[..|keys| - 1];
      FixFieldsLookup(m, init, form, k);
      assert keys == init + [keys[|keys| - 1]];
    }
  }

  /** The object `_moveFilesAndPrepareData` returns: the form, its text fields through
      `fixString`, the coordinates `parseFloat` made of truthy inputs, and the stored paths
      (a missing file leaves its key `undefined`; no gallery leaves `imagens` undefined). */
  function Prepared(form: Payload, p: Paths, latitude: Value, longitude: Value): Payload
  {
    var d := FixFields(form, FixedFields, form);
    var d := Assign(d, "emailResponsavel", FixString(JsOr(Lookup(form, "emailResponsavel"), Lookup(form, "emailContato"))));
    var d := Assign(d, "latitude", Some(if Truthy(Get(form, "latitude")) then latitude else Null));
    var d := Assign(d, "longitude", Some(if Truthy(Get(form, "longitude")) then longitude else Null));
    var d := Assign(d, "logoUrl", AsStr(p.logo));
    var d := Assign(d, "alvaraFuncionamentoUrl", AsStr(p.alvaraFuncionamento));
    var d := Assign(d, "alvaraVigilanciaUrl", AsStr(p.vigilancia));
    Assign(d, "imagens", if p.gallery != [] then Some(Arr(p.gallery)) else None)
  }

  /** The keys the returned object sets itself. */
  const Overridden: set<string> := {
    "emailResponsavel", "latitude", "longitude", "logoUrl", "alvaraFuncionamentoUrl", "alvaraVigilanciaUrl", "imagens"}

  /** The stored paths land under `logoUrl`, the two permit keys and `imagens`. */
  lemma PreparedPaths(form: Payload, p: Paths, latitude: Value, longitude: Value)
    ensures var d := Prepared(form, p, latitude, longitude);
      Lookup(d, "imagens") == (if p.gallery != [] then Some(Arr(p.gallery)) else None)
      && Lookup(d, "logoUrl") == AsStr(p.logo)
      && Lookup(d, "alvaraVigilanciaUrl") == AsStr(p.vigilancia)
  {
  }

  /** Each text field is the form's value through `fixString`, and every key the object
      does not set is the form's own. */
  lemma PreparedFields(form: Payload, p: Paths, latitude: Value, longitude: Value, k: string)
    ensures k in FixedFields && k !in Overridden ==> Lookup(Prepared(form, p, latitude, longitude), k) == FixString(Lookup(form, k))
    ensures k !in FixedFields && k !in Overridden ==> Lookup(Prepared(form, p, latitude, longitude), k) == Lookup(form, k)
  {
    FixFieldsLookup(form, FixedFields, form, k);
  }

  /** `moveFile` on `arquivos[field]?.[0]`. */
  method MoveFile(db: Store, cat: string, name: string, us: seq<Upload>) returns (p: Option<string>)
    requires |us| <= 1
    modifies db`files
    ensures p == PathOf(cat, name, us)
    ensures db.files == MoveAll(old(db.files), cat, name, us)
  {
    if us == [] {
      return None;
    }
    var stored := StoredPath(cat, name, us[0].filename);
    db.Move(us[0].path, stored);
    assert us[..0] == [];
    p := Some(stored);
  }

  lemma MoveAllAppend(fs: set<string>, cat: string, name: string, a: seq<Upload>, u: Upload)
    ensures MoveAll(fs, cat, name, a + [u]) == MoveAll(fs, cat, name, a) - {u.path} + {StoredPath(cat, name, u.filename)}
  {
    assert (a + [u])[..|a|] == a;
  }

  lemma {:induction false} MoveAllConcat(fs: set<string>, cat: string, name: string, a: seq<Upload>, b: seq<Upload>)
    ensures MoveAll(MoveAll(fs, cat, name, a), cat, name, b) == MoveAll(fs, cat, name, a + b)
  {
    if b != [] {
      var init := b[..|b| - 1];
      MoveAllConcat(fs, cat, name, a, init);
      assert a + b == (a + init) + [b[|b| - 1]];
      MoveAllAppend(fs, cat, name, a + init, b[|b| - 1]);
    } else {
      assert a + b == a;
    }
  }

  /** The gallery loop: each file moved in turn, its stored path appended. */
  method MoveGallery(db: Store, cat: string, name: string, us: seq<Upload>) returns (paths: seq<string>)
    modifies db`files
    ensures paths == Destinations(cat, name, us)
    ensures db.files == MoveAll(old(db.files), cat, name, us)
  {
    paths := [];
    var i := 0;
    assert us[..0] == [];
    while i < |us|
      invariant 0 <= i <= |us|
      invariant paths == Destinations(cat, name, us[..i])
      invariant db.files == MoveAll(old(db.files), cat, name, us[..i])
    {
      var file := us[i];
      var newPath := StoredPath(cat, name, file.filename);
      db.Move(file.path, newPath);
      assert us[..i + 1] == us[..i] + [file];
      MoveAllAppend(old(db.files), cat, name, us[..i], file);
      paths := paths + [newPath];
      i := i + 1;
    }
    assert us[..i] == us;
  }

  /** `_moveFilesAndPrepareData(req, existingInfo)`: the three single files, then the
      gallery one file at a time, then the merged object. */
  method MoveFilesAndPrepareData(db: Store, form: Payload, files: Uploads, existing: Option<Existing>, latitude: Value, longitude: Value)
    returns (data: Payload)
    modifies db`files
    ensures var cat := CategorySegment(existing, form);
      var name := NameSegment(existing, form);
      db.files == MoveAll(old(db.files), cat, name, MovedUploads(files))
      && data == Prepared(form, PathsOf(cat, name, files), latitude, longitude)
  {
    var cat := CategorySegment(existing, form);
    var name := NameSegment(existing, form);
    ghost var start := db.files;
    var logo := FirstOf(files, "logo");
    var alvara := FirstOf(files, "alvara_funcionamento");
    var vigilancia := FirstOf(files, "vigilancia_sanitaria");
    var logoPath := MoveFile(db, cat, name, logo);
    var alvaraFuncPath := MoveFile(db, cat, name, alvara);
    MoveAllConcat(start, cat, name, logo, alvara);
    var vigilanciaPath := MoveFile(db, cat, name, vigilancia);
    MoveAllConcat(start, cat, name, logo + alvara, vigilancia);
    var imagensPaths := MoveGallery(db, cat, name, GalleryFiles(files));
    MoveAllConcat(start, cat, name, logo + alvara + vigilancia, GalleryFiles(files));
    data := Prepared(form, Paths(logoPath, alvaraFuncPath, vigilanciaPath, imagensPaths), latitude, longitude);
  }

  const TooLongMessage := "Um dos campos excedeu o limite de caracteres permitido."
  const InternalMessage := "Ocorreu um erro interno no servidor."

  /** `_handleError`: the database's length error is a 400 with a fixed message, a message
      saying "não encontrado" is a 404 that repeats it, anything else is a 500. */
  function HandleError(f: Failure): (r: Reply)
    ensures r.status in {400, 404, 500} && r.message.Some?
    ensures r.status == 400 <==> f.name == "SequelizeDatabaseError" && Contains(f.message, "Data too long for column")
    ensures r.status == 400 ==> r.message == Some(TooLongMessage)
    ensures r.status == 404 <==> r.status != 400 && Contains(f.message, "não encontrado")
    ensures r.status != 400 && f.message != "" ==> r.message == Some(f.message)
  {
    if f.name == "SequelizeDatabaseError" && Contains(f.message, "Data too long for column") then Reply(400, Some(TooLongMessage))
    else if Contains(f.message, "não encontrado") then Reply(404, Some(f.message))
    else Reply(500, Some(if f.message != "" then f.message else InternalMessage))
  }

  /** A column the database finds too long answers 400. */
  lemma TooLongIs400(field: string)
    ensures HandleError(DbFailure(DataTooLong(field))) == Reply(400, Some(TooLongMessage))
  {
  }

  /** The services' "Local não encontrado." answers 404 with that message. */
  lemma NotFoundIs404()
    ensures HandleError(Error(LocalService.NotFoundMessage)) == Reply(404, Some(LocalService.NotFoundMessage))
  {
    var s := LocalService.NotFoundMessage;
    assert s[6..20] == "não encontrado";
    ContainsAt(s, "não encontrado", 6);
  }

  lemma AsciiConcat(a: string, b: string)
    requires IsAscii(a) && IsAscii(b)
    ensures IsAscii(a + b)
  {
    forall i | 0 <= i < |a + b|
      ensures (a + b)[i] < '\U{0080}'
    {
      if i < |a| {
        assert (a + b)[i] == a[i];
      } else {
        assert (a + b)[i] == b[i - |a|];
      }
    }
  }

  lemma AttributesAsciiA()
    ensures IsAscii("localId") && IsAscii("categoria") && IsAscii("nomeResponsavel") && IsAscii("cpfResponsavel")
    ensures IsAscii("certificadoCnpj") && IsAscii("contatoLocal")
  {
  }

  lemma AttributesAsciiB()
    ensures IsAscii("cnpj") && IsAscii("nomeFantasia") && IsAscii("emailLocal") && IsAscii("endereco")
    ensures IsAscii("descricao") && IsAscii("descricaoDiferencial")
  {
  }

  lemma AttributesAsciiC()
    ensures IsAscii("tagsInvisiveis") && IsAscii("website") && IsAscii("instagram") && IsAscii("ativo")
    ensures IsAscii("logoUrl") && IsAscii("status")
  {
  }

  lemma AttributesAsciiD()
    ensures IsAscii("dados_atualizacao") && IsAscii("areasAtuacao") && IsAscii("venda") && IsAscii("escala")
  {
  }

  lemma AttributesAscii()
    ensures forall a :: a in Attributes ==> IsAscii(a)
  {
    AttributesAsciiA();
    AttributesAsciiB();
    AttributesAsciiC();
    AttributesAsciiD();
  }

  lemma LineTextsAscii()
    ensures IsAscii("notNull Violation: Local.") && IsAscii(" cannot be null")
    ensures IsAscii("string violation: ") && IsAscii(" cannot be an array or an object") && IsAscii(",\n")
  {
  }

  lemma {:induction false} ValidationLinesAscii(attrs: seq<string>, nulls: seq<string>, arrays: seq<string>)
    requires forall a :: a in attrs ==> IsAscii(a)
    ensures forall l :: l in ValidationLines(attrs, nulls, arrays) ==> IsAscii(l)
  {
    if attrs != [] {
      var a := attrs[0];
      ValidationLinesAscii(attrs[1..], nulls, arrays);
      LineTextsAscii();
      AsciiConcat("notNull Violation: Local.", a);
      AsciiConcat("notNull Violation: Local." + a, " cannot be null");
      AsciiConcat("string violation: ", a);
      AsciiConcat("string violation: " + a, " cannot be an array or an object");
    }
  }

  lemma {:induction false} JoinLinesAscii(lines: seq<string>)
    requires forall l :: l in lines ==> IsAscii(l)
    ensures IsAscii(JoinLines(lines))
  {
    if |lines| > 1 {
      JoinLinesAscii(lines[1..]);
      assert lines[0] in lines;
      LineTextsAscii();
      AsciiConcat(lines[0], ",\n");
      AsciiConcat(lines[0] + ",\n", JoinLines(lines[1..]));
    } else if |lines| == 1 {
      assert lines[0] in lines;
    }
  }

  /** A validation line exists for every declared attribute that is refused. */
  lemma {:induction false} ValidationLinesNonEmpty(attrs: seq<string>, nulls: seq<string>, arrays: seq<string>, a: string)
    requires a in attrs && (a in nulls || a in arrays)
    ensures ValidationLines(attrs, nulls, arrays) != []
    ensures forall l :: l in ValidationLines(attrs, nulls, arrays) ==> l != ""
  {
    if attrs[0] != a {
      ValidationLinesNonEmpty(attrs[1..], nulls, arrays, a);
    } else if attrs[1..] != [] {
      ValidationLinesShape(attrs[1..], nulls, arrays);
    }
  }

  lemma {:induction false} ValidationLinesShape(attrs: seq<string>, nulls: seq<string>, arrays: seq<string>)
    ensures forall l :: l in ValidationLines(attrs, nulls, arrays) ==> l != ""
  {
    if attrs != [] {
      ValidationLinesShape(attrs[1..], nulls, arrays);
    }
  }

  /** A validation error on declared attributes is neither a length error nor a
      "não encontrado" one, so the controller answers it with a 500 that repeats it. */
  lemma ValidationIs500(nulls: seq<string>, arrays: seq<string>, a: string)
    requires a in Attributes && (a in nulls || a in arrays)
    ensures var f := DbFailure(ValidationFailed(nulls, arrays));
      HandleError(f) == Reply(500, Some(f.message)) && f.message != ""
  {
    var lines := ValidationLines(Attributes, nulls, arrays);
    AttributesAscii();
    ValidationLinesAscii(Attributes, nulls, arrays);
    JoinLinesAscii(lines);
    ValidationLinesNonEmpty(Attributes, nulls, arrays, a);
    assert lines[0] in lines;
    var nf := "não encontrado";
    assert nf[1] == 'ã';
    AsciiLacks(JoinLines(lines), nf, 1);
  }

  /** A NOT NULL refusal of the listing's own columns answers 500 with its message. */
  lemma NotNullIs500(cols: Payload, arrays: seq<string>)
    requires MissingRequired(cols, Required) != []
    ensures var f := DbFailure(ValidationFailed(MissingRequired(cols, Required), arrays));
      HandleError(f) == Reply(500, Some(f.message))
  {
    var missing := MissingRequired(cols, Required);
    assert missing[0] in missing;
    assert missing[0] in Attributes;
    ValidationIs500(missing, arrays, missing[0]);
  }

  /** How the controller is wired: which creation mapping the service uses, whether the
      clean-up after a failure deletes the moved files or the paths multer wrote them to,
      and whether an update request hands the service the HTTP request or the prepared data. */
  datatype Wiring = Wiring(creation: LocalService.Creation, cleansMoved: bool, passesRequest: bool)

  /** The code as written. */
  const AsWritten := Wiring(LocalService.SrcCreation, false, true)

  /** What the code evidently intends. */
  const Corrected := Wiring(LocalService.CorrectedCreation, true, false)

  /** Every path multer wrote an upload to (`Object.values(files).flat()`). */
  function TempPaths(files: Uploads): set<string>
  {
    set f, u | f in files && u in files[f] :: u.path
  }

  /** The files `_deleteUploadedFilesOnFailure` targets. */
  function CleanupTargets(w: Wiring, cat: string, name: string, files: Uploads): set<string>
  {
    if w.cleansMoved then TempPaths(files) + (set d | d in Destinations(cat, name, MovedUploads(files)))
    else TempPaths(files)
  }

  /** No upload was written where a moved file is stored. */
  predicate Separate(cat: string, name: string, files: Uploads)
  {
    forall f, u, d :: f in files && u in files[f] && d in Destinations(cat, name, MovedUploads(files)) ==> u.path != d
  }

  lemma MovedAreUploads(files: Uploads)
    ensures forall u :: u in MovedUploads(files) ==> exists f :: f in files && u in files[f]
  {
    forall u | u in MovedUploads(files)
      ensures exists f :: f in files && u in files[f]
    {
      if u in FirstOf(files, "logo") {
        assert u in files["logo"];
      } else if u in FirstOf(files, "alvara_funcionamento") {
        assert u in files["alvara_funcionamento"];
      } else if u in FirstOf(files, "vigilancia_sanitaria") {
        assert u in files["vigilancia_sanitaria"];
      }
    }
  }

  /** As written, the clean-up after a failure targets only the paths multer wrote to, which
      the moves have emptied: every moved file stays in `uploads/` however the deletions go. */
  lemma {:induction false} AsWrittenCleanupKeepsMoved(fs: set<string>, cat: string, name: string, files: Uploads)
    requires Separate(cat, name, files)
    ensures forall d :: d in Destinations(cat, name, MovedUploads(files)) ==>
      d in MoveAll(fs, cat, name, MovedUploads(files)) && d !in CleanupTargets(AsWritten, cat, name, files)
  {
    MovedAreUploads(files);
    MoveAllPlaces(fs, cat, name, MovedUploads(files));
  }

  /** Corrected, the clean-up targets every moved file where it now is. */
  lemma CorrectedCleanupTargetsMoved(cat: string, name: string, files: Uploads)
    ensures forall d :: d in Destinations(cat, name, MovedUploads(files)) ==> d in CleanupTargets(Corrected, cat, name, files)
  {
  }

  /** `cadastrar`: prepare the data, create, 201; on an error, clean up and classify it. */
  method Cadastrar(db: Store, w: Wiring, form: Payload, files: Uploads, latitude: Value, longitude: Value) returns (out: Reply)
    requires db.Valid()
    modifies db`locals, db`gallery, db`nextId, db`files
    ensures db.Valid()
    ensures var cat := CategorySegment(None, form);
      var name := NameSegment(None, form);
      var data := Prepared(form, PathsOf(cat, name, files), latitude, longitude);
      var moved := MoveAll(old(db.files), cat, name, MovedUploads(files));
      var e := LocalService.CreationError(w.creation, old(db.locals), data, Get(data, "latitude"), Get(data, "longitude"));
      if e.Some? then
        out == HandleError(e.value) && db.locals == old(db.locals) && db.gallery == old(db.gallery)
        && db.nextId == old(db.nextId) && moved - CleanupTargets(w, cat, name, files) <= db.files <= moved
      else
        out == Reply(201, None) && db.files == moved
        && db.locals == old(db.locals)[old(db.nextId) := LocalService.CreationRow(w.creation, data, Get(data, "latitude"), Get(data, "longitude"))]
        && db.gallery == old(db.gallery)[old(db.nextId) := LocalService.CreationImages(w.creation, data)]
        && db.nextId == old(db.nextId) + 1
  {
    ghost var t, g, n := db.locals, db.gallery, db.nextId;
    var data := MoveFilesAndPrepareData(db, form, files, None, latitude, longitude);
    assert db.locals == t && db.gallery == g && db.nextId == n;
    ghost var e := LocalService.CreationError(w.creation, t, data, Get(data, "latitude"), Get(data, "longitude"));
    var r := LocalService.CadastrarLocalComImagens(db, w.creation, data, Get(data, "latitude"), Get(data, "longitude"));
    assert r.Thrown? <==> e.Some?;
    if r.Thrown? {
      db.UnlinkEach(CleanupTargets(w, CategorySegment(None, form), NameSegment(None, form), files));
      return HandleError(r.failure);
    }
    out := Reply(201, None);
  }

  /** As written, every registration fails: the service's row lacks `certificadoCnpj` and
      `venda`, and the answer is a 500 carrying the NOT NULL message. */
  lemma AsWrittenRegistrationIs500(t: map<int, LocalRec>, data: Payload, latitude: Value, longitude: Value)
    ensures var e := LocalService.CreationError(AsWritten.creation, t, data, latitude, longitude);
      e.Some? && HandleError(e.value).status == 500 && e.value.name == "SequelizeValidationError"
  {
    LocalService.SrcCreationAlwaysRefused(t, data, latitude, longitude);
    var cols := LocalService.CreationRow(LocalService.SrcCreation, data, latitude, longitude).cols;
    NotNullIs500(cols, NonScalars(cols, Textual));
  }

  /** `tagsInvisiveis`, `areasAtuacao` and `venda` reach the prepared data untouched. */
  lemma PassedThrough(a: string)
    requires a == "tagsInvisiveis" || a == "areasAtuacao" || a == "venda"
    ensures a !in FixedFields && a !in Overridden
  {
  }

  /** With the corrected wiring, a registration that sends `tagsInvisiveis`,
      `areasAtuacao` or `venda` twice is refused: multer makes the field an array, the prepared data
      passes it on without `fixString`, and validation refuses an array in a textual column.
      The answer is a 500. */
  lemma RepeatedFieldIs500(t: map<int, LocalRec>, form: Payload, p: Paths, latitude: Value, longitude: Value, a: string)
    requires a == "tagsInvisiveis" || a == "areasAtuacao" || a == "venda"
    requires a in form && form[a].Arr?
    ensures var e := LocalService.CreationError(Corrected.creation, t, Prepared(form, p, latitude, longitude), latitude, longitude);
      e.Some? && e.value.name == "SequelizeValidationError" && HandleError(e.value).status == 500
  {
    var d := Prepared(form, p, latitude, longitude);
    PassedThrough(a);
    PreparedFields(form, p, latitude, longitude, a);
    assert NonScalar(d, a);
    LocalService.CreationRefusesNonScalar(Corrected.creation, t, d, latitude, longitude, a);
    var e := RowError(OnCreate, t, LocalService.CreationRow(Corrected.creation, d, latitude, longitude));
    LocalService.CopiedAreTextual(a);
    ValidationIs500(e.value.nulls, e.value.arrays, a);
  }

  /** What an update request hands the service as the payload to stage. */
  function UpdateArgument(w: Wiring, data: Payload): (arg: LocalService.StagedArg)
    ensures w.passesRequest ==> arg == LocalService.SelfReferencing
    ensures !w.passesRequest ==> arg == LocalService.JsonPayload(data)
  {
    if w.passesRequest then LocalService.SelfReferencing else LocalService.JsonPayload(data)
  }

  /** The answer to an update request for listing `id` of table `t`. */
  function UpdateReply(w: Wiring, t: map<int, LocalRec>, id: int): (out: Reply)
  {
    if id !in t then Reply(400, Some(LocalService.NotFoundMessage))
    else if w.passesRequest then Reply(400, Some(LocalService.CircularJson.message))
    else Reply(200, None)
  }

  /** As written, the HTTP request itself is what the service is asked to store, and
      serialising it fails: every update request answers 400, whatever the listing. */
  lemma AsWrittenUpdateAlwaysRefused(t: map<int, LocalRec>, id: int)
    ensures UpdateReply(AsWritten, t, id).status == 400
    ensures id in t ==> UpdateReply(AsWritten, t, id).message == Some("Converting circular structure to JSON")
  {
  }

  /** Handing over the prepared data, an update request for an existing listing succeeds,
      and one for a missing listing answers 400 with the service's message. */
  lemma CorrectedUpdateAccepted(t: map<int, LocalRec>, id: int)
    ensures UpdateReply(Corrected, t, id).status == 200 <==> id in t
    ensures id !in t ==> UpdateReply(Corrected, t, id) == Reply(400, Some(LocalService.NotFoundMessage))
  {
  }

  /** As written, the service reads the gallery from `produtos`, but the controller puts
      the stored paths under `imagens`: a registration creates no gallery row. */
  lemma AsWrittenCreationDropsGallery(form: Payload, p: Paths, latitude: Value, longitude: Value)
    requires "produtos" !in form
    ensures LocalService.CreationImages(AsWritten.creation, Prepared(form, p, latitude, longitude)) == []
  {
    PreparedFields(form, p, latitude, longitude, "produtos");
  }

  /** Reading `imagens`, the gallery rows are exactly the stored paths, in upload order. */
  lemma CorrectedCreationKeepsGallery(form: Payload, p: Paths, latitude: Value, longitude: Value)
    ensures LocalService.CreationImages(Corrected.creation, Prepared(form, p, latitude, longitude)) == p.gallery
  {
    PreparedPaths(form, p, latitude, longitude);
  }

  /** `solicitarAtualizacao`: any error is a 400 carrying its message, after the clean-up. */
  method SolicitarAtualizacao(db: Store, w: Wiring, id: int, form: Payload, files: Uploads, latitude: Value, longitude: Value)
    returns (out: Reply)
    requires db.Valid()
    modifies db`locals, db`gallery, db`files
    ensures db.Valid() && db.gallery == old(db.gallery)
    ensures var cat := CategorySegment(None, form);
      var name := NameSegment(None, form);
      var data := Prepared(form, PathsOf(cat, name, files), latitude, longitude);
      var moved := MoveAll(old(db.files), cat, name, MovedUploads(files));
      out == UpdateReply(w, old(db.locals), id)
      && if out.status == 200 then
        db.files == moved
        && db.locals == old(db.locals)[id := LocalService.Requested(old(db.locals[id]), PendenteAtualizacao, data)]
      else
        db.locals == old(db.locals) && moved - CleanupTargets(w, cat, name, files) <= db.files <= moved
  {
    var data := MoveFilesAndPrepareData(db, form, files, None, latitude, longitude);
    var r := LocalService.SolicitarAtualizacao(db, id, UpdateArgument(w, data));
    if r.Thrown? {
      db.UnlinkEach(CleanupTargets(w, CategorySegment(None, form), NameSegment(None, form), files));
      return Reply(400, Some(r.failure.message));
    }
    out := Reply(200, None);
  }

  /** The value of a string of decimal digits. */
  function DigitsValue(s: string): (n: nat)
    requires forall i :: 0 <= i < |s| ==> IsAsciiDigit(s[i])
  {
    if s == [] then 0
    else
      assert IsAsciiDigit(s[|s| - 1]);
      10 * DigitsValue(s[..|s| - 1]) + (s[|s| - 1] as int - '0' as int)
  }

  /** What `findByPk` makes of a body value: a primary key to look up, a value that matches
      no row (a fraction, or a string that is not a number), or an argument it refuses. */
  datatype KeyLookup = Key(id: int) | NoRow | InvalidKey

  /** `findByPk` looks up numbers and strings; it throws for a boolean, an array (a field
      repeated in the form) or an object. */
  function RowKey(v: Value): (k: KeyLookup)
    ensures k.InvalidKey? <==> v.Bool? || v.Arr? || v.Obj?
    ensures v.Num? && v.x == v.x.Floor as real ==> k == Key(v.x.Floor)
    ensures v.Num? && v.x != v.x.Floor as real ==> k == NoRow
    ensures v.Str? && v.s != [] && (forall i :: 0 <= i < |v.s| ==> IsAsciiDigit(v.s[i])) ==> k == Key(DigitsValue(v.s))
  {
    if v.Bool? || v.Arr? || v.Obj? then InvalidKey
    else if v.Num? then (if v.x == v.x.Floor as real then Key(v.x.Floor) else NoRow)
    else if v.Str? && v.s != [] && forall i :: 0 <= i < |v.s| ==> IsAsciiDigit(v.s[i]) then Key(DigitsValue(v.s))
    else NoRow
  }

  /** The error `findByPk` throws for an argument it refuses (the rendered value it appends
      is not part of this model). */
  const InvalidArgument := "Argument passed to findByPk is invalid"

  /** The controller answers a refused `findByPk` argument with a 500 that repeats it. */
  lemma InvalidKeyIs500()
    ensures HandleError(Error(InvalidArgument)) == Reply(500, Some(InvalidArgument))
  {
    var nf := "não encontrado";
    assert nf[1] == 'ã';
    AsciiLacks(InvalidArgument, nf, 1);
  }

  const IdRequired := "O ID do local é obrigatório."
  const DeletionSent := "Solicitação de exclusão enviada."

  /** `solicitarExclusao`: the body must name an existing listing; the files go under that
      listing's stored category and the name the form gives (the entity has no `nomeLocal`
      to read it from), and the prepared data is staged whole. An argument
      `findByPk` refuses is caught: the uploads are deleted where multer wrote them and the
      error is answered. */
  method SolicitarExclusao(db: Store, form: Payload, files: Uploads, latitude: Value, longitude: Value) returns (out: Reply)
    requires db.Valid()
    modifies db`locals, db`gallery, db`files
    ensures db.Valid() && db.gallery == old(db.gallery)
    ensures !Truthy(Get(form, "localId")) ==> out == Reply(400, Some(IdRequired)) && unchanged(db)
    ensures Truthy(Get(form, "localId")) && RowKey(form["localId"]).InvalidKey? ==>
      out == Reply(500, Some(InvalidArgument)) && db.locals == old(db.locals)
      && old(db.files) - TempPaths(files) <= db.files && db.files <= old(db.files)
    ensures var k := RowKey(Get(form, "localId"));
      Truthy(Get(form, "localId")) && !k.InvalidKey? && !(k.Key? && k.id in old(db.locals)) ==>
      out == Reply(404, Some(LocalService.NotFoundMessage)) && unchanged(db)
    ensures Truthy(Get(form, "localId")) && RowKey(form["localId"]).Key? && RowKey(form["localId"]).id in old(db.locals) ==>
      var id := RowKey(form["localId"]).id;
      var existing := Some(Existing(Lookup(old(db.locals[id]).cols, "categoria"), None));
      var cat := CategorySegment(existing, form);
      var name := NameSegment(existing, form);
      var data := Prepared(form, PathsOf(cat, name, files), latitude, longitude);
      out == Reply(200, Some(DeletionSent))
      && db.files == MoveAll(old(db.files), cat, name, MovedUploads(files))
      && db.locals == old(db.locals)[id := LocalService.Requested(old(db.locals[id]), PendenteExclusao, data)]
  {
    var localId := Get(form, "localId");
    if !Truthy(localId) {
      return Reply(400, Some(IdRequired));
    }
    var key := RowKey(localId);
    if key.InvalidKey? {
      db.UnlinkEach(TempPaths(files));
      InvalidKeyIs500();
      return HandleError(Error(InvalidArgument));
    }
    if key.NoRow? || key.id !in db.locals {
      return Reply(404, Some(LocalService.NotFoundMessage));
    }
    var local := db.locals[key.id];
    // `Local` declares no `nomeLocal`, so the instance's `nomeLocal` is undefined.
    var existing := Existing(Lookup(local.cols, "categoria"), None);
    var data := MoveFilesAndPrepareData(db, form, files, Some(existing), latitude, longitude);
    var _ := LocalService.SolicitarExclusao(db, key.id, LocalService.JsonPayload(data));
    out := Reply(200, Some(DeletionSent));
  }

  /** `buscarPorId`: 404 unless the listing is public. */
  function BuscarPorId(t: map<int, LocalRec>, g: map<int, seq<string>>, id: int): (r: Reply)
    ensures r.status == 200 <==> id in LocalService.ListarTodos(t, g)
    ensures r.status != 200 ==> r == Reply(404, Some(LocalService.NotFoundMessage))
  {
    if LocalService.BuscarPorId(t, g, id).Some? then Reply(200, None) else Reply(404, Some(LocalService.NotFoundMessage))
  }

  const NotBoolean := "O valor 'ativo' deve ser booleano."

  /** `alterarStatus`: only a JSON boolean reaches the service. */
  method AlterarStatus(db: Store, id: int, ativo: Option<Value>) returns (out: Reply)
    requires db.Valid()
    modifies db`locals, db`gallery
    ensures db.Valid() && db.gallery == old(db.gallery)
    ensures !(ativo.Some? && ativo.value.Bool?) ==> out == Reply(400, Some(NotBoolean)) && db.locals == old(db.locals)
    ensures ativo.Some? && ativo.value.Bool? && id !in old(db.locals) ==>
      out == Reply(404, Some(LocalService.NotFoundMessage)) && db.locals == old(db.locals)
    ensures ativo.Some? && ativo.value.Bool? && id in old(db.locals) ==>
      out == Reply(200, None) && db.locals == old(db.locals)[id := LocalService.Toggled(old(db.locals[id]), ativo.value.b)]
  {
    if !(ativo.Some? && ativo.value.Bool?) {
      return Reply(400, Some(NotBoolean));
    }
    var r := LocalService.AlterarStatusAtivo(db, id, ativo.value.b);
    if r.Thrown? {
      NotFoundIs404();
      return HandleError(r.failure);
    }
    out := Reply(200, None);
  }

  /** One character of `replace(/[^A-Z0-9]/g, "_")`. */
  function KeyChar(c: char): (r: char)
    ensures r == '_' || IsAsciiUpper(r) || IsAsciiDigit(r)
  {
    if IsAsciiUpper(c) || IsAsciiDigit(c) then c else '_'
  }

  function KeyChars(s: string): (r: string)
    ensures |r| == |s|
    ensures forall i :: 0 <= i < |s| ==> r[i] == KeyChar(s[i])
  {
    seq(|s|, i requires 0 <= i < |s| => KeyChar(s[i]))
  }

  /** The counter key for a page identifier: trimmed and upper-cased; `HOME` and keys that
      already start with `CAT_` are kept, any other gets the prefix and its characters
      outside `[A-Z0-9]` turned into `_`. */
  function ViewKey(identificador: string): (k: string)
    ensures k == "HOME" || StartsWith(k, "CAT_")
    ensures var key := Upper(Trim(identificador));
      key == "HOME" || StartsWith(key, "CAT_") ==> k == key
    ensures var key := Upper(Trim(identificador));
      !(key == "HOME" || StartsWith(key, "CAT_")) ==>
        |k| == |key| + 4 && k[..4] == "CAT_" && forall i :: 0 <= i < |key| ==> k[i + 4] == KeyChar(key[i])
  {
    var key := Upper(Trim(identificador));
    if !StartsWith(key, "CAT_") && key != "HOME" then
      assert ("CAT_" + KeyChars(key))[..4] == "CAT_";
      "CAT_" + KeyChars(key)
    else key
  }

  lemma TrimNoop(s: string)
    requires s != [] ==> !IsJsSpace(s[0]) && !IsJsSpace(s[|s| - 1])
    ensures Trim(s) == s
  {
    assert TrimStart(s) == s;
    assert TrimEnd(s) == s;
  }

  /** A key already trimmed and upper-cased is its own normal form. */
  lemma NormalKeyKept(k: string)
    requires k != [] ==> !IsJsSpace(k[0]) && !IsJsSpace(k[|k| - 1])
    requires forall i :: 0 <= i < |k| ==> !IsAsciiLower(k[i])
    ensures Upper(Trim(k)) == k
  {
    var t := Trim(k);
    TrimNoop(k);
    assert t == k;
    UpperNoop(k);
  }

  lemma UpperNoop(k: string)
    requires forall i :: 0 <= i < |k| ==> !IsAsciiLower(k[i])
    ensures Upper(k) == k
  {
    forall i | 0 <= i < |k|
      ensures Upper(k)[i] == k[i]
    {
      assert UpperChar(k[i]) == k[i];
    }
  }

  lemma CatKeyKept(key: string)
    ensures var k := "CAT_" + KeyChars(key); Upper(Trim(k)) == k && StartsWith(k, "CAT_")
  {
    var k := "CAT_" + KeyChars(key);
    assert k[0] == 'C';
    assert forall i :: 0 <= i < |k| ==> !IsAsciiLower(k[i]) && !IsJsSpace(k[i]) by {
      forall i | 0 <= i < |k|
        ensures !IsAsciiLower(k[i]) && !IsJsSpace(k[i])
      {
        if i >= 4 {
          assert k[i] == KeyChar(key[i - 4]);
        }
      }
    }
    NormalKeyKept(k);
    assert k[..4] == "CAT_";
  }

  /** Normalising a key again changes nothing, so the same page always bumps the same counter. */
  lemma {:induction false} ViewKeyIdempotent(identificador: string)
    ensures ViewKey(ViewKey(identificador)) == ViewKey(identificador)
  {
    var key := Upper(Trim(identificador));
    if !StartsWith(key, "CAT_") && key != "HOME" {
      CatKeyKept(key);
    } else {
      UpperTrimNormal(identificador);
    }
  }

  /** A trimmed, upper-cased identifier is its own normal form. */
  lemma UpperTrimNormal(s: string)
    ensures var key := Upper(Trim(s)); Upper(Trim(key)) == key
  {
    var t := Trim(s);
    var key := Upper(t);
    if key != [] {
      assert key[0] == UpperChar(t[0]) && key[|key| - 1] == UpperChar(t[|t| - 1]);
    }
    assert forall i :: 0 <= i < |key| ==> !IsAsciiLower(key[i]) by {
      forall i | 0 <= i < |key|
        ensures !IsAsciiLower(key[i])
      {
        assert key[i] == UpperChar(t[i]);
      }
    }
    NormalKeyKept(key);
  }

  /** `registrarVisualizacao`: an empty identifier is a 400; otherwise the counter under the
      normalised key goes up by one. */
  method RegistrarVisualizacao(db: Store, identificador: string) returns (out: Reply)
    modifies db`views
    ensures identificador == "" ==> out == Reply(400, Some("ID obrigatório.")) && db.views == old(db.views)
    ensures identificador != "" ==>
      var key := ViewKey(identificador);
      out == Reply(200, None) && db.views == old(db.views)[key := (if key in old(db.views) then old(db.views)[key] else 0) + 1]
  {
    if identificador == "" {
      return Reply(400, Some("ID obrigatório."));
    }
    db.Bump(ViewKey(identificador));
    out := Reply(200, None);
  }
}
