/** What the decisions read and write: the `locais` table, the gallery table
    `imagens_local` (one ordered list of URLs per listing), the files under the upload
    directory, and the `contador_visualizacoes` counters.

    A transaction is modelled as compute-then-commit: the decision prepares one row
    change and, at most, one new gallery for the listing, and `Commit` either applies
    both or, when the database refuses the row, neither. File deletions happen outside
    the transaction, may fail, and are never undone by a rollback. */
module Persistence {
  import opened Common
  import opened Json
  import opened LocalEntity

  /** What a statement does to one row. */
  datatype RowChange = Keep | Put(rec: LocalRec) | Destroy

  /** The table after the change. */
  function Applied(t: map<int, LocalRec>, id: int, c: RowChange): (r: map<int, LocalRec>)
    ensures c.Keep? ==> r == t
    ensures c.Put? ==> r == t[id := c.rec]
    ensures c.Destroy? ==> r == t - {id}
  {
    match c
    case Keep => t
    case Put(rec) => t[id := rec]
    case Destroy => t - {id}
  }

  /** Why the database refuses the change, if it does: only a written row can break a
      column limit or the CNPJ index. */
  function ChangeError(t: map<int, LocalRec>, id: int, c: RowChange): (e: Option<DbError>)
    requires id in t
    ensures !c.Put? ==> e.None?
    ensures c.Put? ==> e == UpdateError(t, id, c.rec)
  {
    if c.Put? then UpdateError(t, id, c.rec) else None
  }

  /** The gallery after a commit that installs `images`, if any. */
  function Regallery(g: map<int, seq<string>>, id: int, images: Option<seq<string>>): (r: map<int, seq<string>>)
    ensures forall i :: i in r <==> i in g || (images.Some? && i == id)
  {
    if images.Some? then g[id := images.value] else g
  }

  /** The database's own constraints hold, and every id in use is below `nextId`. */
  ghost predicate StoreOk(t: map<int, LocalRec>, g: map<int, seq<string>>, nextId: int)
  {
    TableOk(t)
    && nextId > 0
    && (forall id :: id in t ==> 0 < id < nextId)
    && (forall id :: id in g ==> 0 < id < nextId)
  }

  /** A change the database accepts, with its gallery, keeps the store valid. */
  lemma ChangeKeepsStoreOk(t: map<int, LocalRec>, g: map<int, seq<string>>, n: int, id: int, c: RowChange, images: Option<seq<string>>)
    requires StoreOk(t, g, n) && id in t && ChangeError(t, id, c).None?
    ensures StoreOk(Applied(t, id, c), Regallery(g, id, images), n)
  {
    match c {
      case Keep =>
      case Put(r) => UpdateKeepsTableOk(t, id, r);
      case Destroy => RemoveKeepsTableOk(t, id);
    }
  }

  class Store {
    var locals: map<int, LocalRec>
    var gallery: map<int, seq<string>>
    var files: set<string>
    var views: map<string, nat>
    var nextId: int

    /** The database's own constraints hold, and every id in use was handed out. */
    ghost predicate Valid()
      reads this
    {
      StoreOk(locals, gallery, nextId)
    }

    constructor ()
      ensures Valid()
      ensures locals == map[] && gallery == map[] && files == {} && views == map[]
    {
      locals := map[];
      gallery := map[];
      files := {};
      views := map[];
      nextId := 1;
    }

    /** `ImagemLocal.findAll({ where: { localId: id } })`, as URLs in insertion order. */
    function Images(id: int): (urls: seq<string>)
      reads this
      ensures id in gallery ==> urls == gallery[id]
      ensures id !in gallery ==> urls == []
    {
      if id in gallery then gallery[id] else []
    }

    /** `fs.unlink(path)` inside a `try`: either the file is gone or nothing happened. */
    method Unlink(path: string)
      modifies this`files
      ensures files == old(files) - {path} || files == old(files)
    {
      if * {
        files := files - {path};
      }
    }

    /** One best-effort `fs.unlink` per path, in order; a failure only skips that path. */
    method UnlinkAll(paths: seq<string>)
      modifies this`files
      ensures old(files) - (set p | p in paths) <= files && files <= old(files)
    {
      var i := 0;
      while i < |paths|
        invariant 0 <= i <= |paths|
        invariant old(files) - (set p | p in paths[..i]) <= files && files <= old(files)
      {
        Unlink(paths[i]);
        assert paths[..i + 1] == paths[..i] + [paths[i]];
        i := i + 1;
      }
    }

    /** One best-effort `fs.unlink` per path, all started together (`Promise.all`); each
        may fail on its own. */
    method UnlinkEach(paths: set<string>)
      modifies this`files
      ensures old(files) - paths <= files && files <= old(files)
    {
      var left := paths;
      while left != {}
        invariant left <= paths
        invariant old(files) - (paths - left) <= files && files <= old(files)
        decreases left
      {
        var p :| p in left;
        Unlink(p);
        left := left - {p};
      }
    }

    /** `fs.rename(from, to)`. */
    method Move(from: string, to: string)
      modifies this`files
      ensures files == old(files) - {from} + {to}
    {
      files := files - {from} + {to};
    }

    /** The end of a transaction on listing `id`: a `fault` raised earlier, or the row change
        the database refuses, rolls both writes back; otherwise the row change and the new
        gallery (when there is one) are applied together. */
    method Commit(id: int, change: RowChange, images: Option<seq<string>>, fault: Option<DbError>)
      returns (err: Option<DbError>)
      requires Valid() && id in locals
      modifies this`locals, this`gallery
      ensures Valid()
      ensures err == (if fault.Some? then fault else ChangeError(old(locals), id, change))
      ensures locals == (if err.None? then Applied(old(locals), id, change) else old(locals))
      ensures gallery == (if err.None? && images.Some? then old(gallery)[id := images.value] else old(gallery))
    {
      if fault.Some? {
        return fault;
      }
      err := ChangeError(locals, id, change);
      if err.None? {
        ChangeKeepsStoreOk(locals, gallery, nextId, id, change, images);
        locals, gallery := Applied(locals, id, change), Regallery(gallery, id, images);
      }
    }

    /** `Local.create(row)` followed by `ImagemLocal.bulkCreate(images)` in one transaction:
        the new listing gets the next id, or, when the database refuses the row, nothing
        is written. Creation validates the attributes `ch` names. */
    method Insert(ch: Checks, row: LocalRec, images: seq<string>) returns (id: int, err: Option<DbError>)
      requires Valid()
      modifies this`locals, this`gallery, this`nextId
      ensures Valid()
      ensures err == RowError(ch, old(locals), row)
      ensures id == old(nextId) && id !in old(locals) && id !in old(gallery)
      ensures err.None? ==> locals == old(locals)[id := row] && gallery == old(gallery)[id := images] && nextId == old(nextId) + 1
      ensures err.Some? ==> locals == old(locals) && gallery == old(gallery) && nextId == old(nextId)
    {
      id := nextId;
      assert locals - {id} == locals;
      err := RowError(ch, locals, row);
      if err.None? {
        PutKeepsTableOk(locals, id, ch, row);
        locals := locals[id := row];
        gallery := gallery[id := images];
        nextId := nextId + 1;
      }
    }

    /** `ImagemLocal.destroy({ where: { localId: id } })` outside any transaction. */
    method ClearImages(id: int)
      requires Valid()
      modifies this`gallery
      ensures Valid()
      ensures gallery == old(gallery) - {id}
    {
      gallery := gallery - {id};
    }

    /** `ImagemLocal.create({ localId: id, url })` outside any transaction. */
    method AddImage(id: int, url: string)
      requires Valid() && id in locals
      modifies this`gallery
      ensures Valid()
      ensures gallery == old(gallery)[id := old(Images(id)) + [url]]
    {
      gallery := gallery[id := Images(id) + [url]];
    }

    /** `findOrCreate({ where: { identificador: key }, defaults: { visualizacoes: 0 } })`
        followed by `increment("visualizacoes")`. */
    method Bump(key: string)
      modifies this`views
      ensures views == old(views)[key := (if key in old(views) then old(views)[key] else 0) + 1]
    {
      var n := if key in views then views[key] else 0;
      views := views[key := n + 1];
    }
  }
}
