/**
 * The artworks page: the form of one artwork, the row it builds, saving it
 * (update of the artwork being edited, or insert of a new one), deleting,
 * loading a row back into the form, the owner's name shown in the list, and
 * the image upload of the form.
 */
module Obras {
  import opened Wrappers
  import opened JsText
  import opened Tables
  import opened Records
  import opened Uploads

  /**
   * The artwork form as text fields. `status` stays unset for a new artwork
   * until the select is touched (the select only shows `'exposicao'`).
   */
  datatype ObraForm = ObraForm(
    nome: string,
    numeroIdentificacao: string,
    colecao: string,
    certificado: string,
    status: Option<ObraStatus>,
    clienteId: string,
    imagemPath: string)

  /** The form after `reset()`. */
  const BlankObraForm := ObraForm("", "", "", "", None, "", "")

  /** The two inputs registered with `required`: the submit handler is not reached while either is empty. */
  predicate MissingRequired(f: ObraForm)
    ensures !MissingRequired(f) <==> BuildObraData(f).nome != "" && BuildObraData(f).numeroIdentificacao != Some("")
  {
    f.nome == "" || f.numeroIdentificacao == ""
  }

  /**
   * `obraData` of `onSubmit`. Empty optional texts become null; the owner is the
   * parsed client id when the status is `'cliente'` (NaN, written as null, when
   * no client was picked) and null for any other status.
   */
  function BuildObraData(f: ObraForm): (r: ObraData)
    ensures r.nome == f.nome && r.numeroIdentificacao == Some(f.numeroIdentificacao) && r.status == f.status
    ensures r.colecao.None? <==> f.colecao == ""
    ensures r.colecao.Some? ==> r.colecao.value == f.colecao
    ensures r.certificado.None? <==> f.certificado == ""
    ensures r.certificado.Some? ==> r.certificado.value == f.certificado
    ensures r.imagemPath.None? <==> f.imagemPath == ""
    ensures r.imagemPath.Some? ==> r.imagemPath.value == f.imagemPath
    ensures f.status != Some(ComCliente) ==> r.clienteId.None?
    ensures f.status == Some(ComCliente) ==> r.clienteId == ParseInt(f.clienteId)
  {
    ObraData(
      f.nome,
      Some(f.numeroIdentificacao),
      NullIfEmpty(f.colecao),
      NullIfEmpty(f.certificado),
      f.status,
      if f.status == Some(ComCliente) then ParseInt(f.clienteId) else None,
      NullIfEmpty(f.imagemPath))
  }

  /**
   * `handleEdit`: the form filled from a row. Null texts show as empty fields
   * and the owner's id as its decimal text.
   */
  function EditForm(o: Obra): (r: ObraForm)
    ensures r.nome == o.data.nome && r.status == o.data.status
    ensures r.numeroIdentificacao == o.data.numeroIdentificacao.GetOr("")
    ensures r.colecao == EmptyIfNull(o.data.colecao) && r.certificado == EmptyIfNull(o.data.certificado)
    ensures r.imagemPath == EmptyIfNull(o.data.imagemPath)
    ensures ParseInt(r.clienteId) == o.data.clienteId
  {
    OptIntToStringRoundTrip(o.data.clienteId);
    ObraForm(
      o.data.nome,
      o.data.numeroIdentificacao.GetOr(""),
      EmptyIfNull(o.data.colecao),
      EmptyIfNull(o.data.certificado),
      o.data.status,
      OptIntToString(o.data.clienteId),
      EmptyIfNull(o.data.imagemPath))
  }

  /** A text column that is null or not empty survives the form: `|| ''` and then `|| null`. */
  predicate SurvivesForm(s: Option<string>) {
    s.None? || s.value != ""
  }

  /**
   * Loading a row into the form and building the row again gives back the same
   * columns, when each optional text is null or non-empty, the number is set,
   * and an owner is only recorded for status `'cliente'`.
   */
  lemma EditRoundTrip(o: Obra)
    requires SurvivesForm(o.data.colecao) && SurvivesForm(o.data.certificado) && SurvivesForm(o.data.imagemPath)
    requires o.data.numeroIdentificacao.Some?
    requires o.data.clienteId.Some? ==> o.data.status == Some(ComCliente)
    ensures BuildObraData(EditForm(o)) == o.data
  {
  }

  /** Saving the form of an artwork whose status is not `'cliente'` drops its recorded owner. */
  lemma EditDropsOwnerUnlessWithClient(o: Obra)
    requires o.data.status != Some(ComCliente)
    ensures BuildObraData(EditForm(o)).clienteId.None?
  {
  }

  /**
   * Status `'cliente'` with no client picked is saved as an artwork with a
   * client but no owner: nothing in the form refuses it.
   */
  lemma WithClientButNoOwner(f: ObraForm)
    requires f.status == Some(ComCliente) && f.clienteId == ""
    ensures !OwnerRecorded(Obra(0, BuildObraData(f)))
  {
  }

  /** The `obras` table with the id the store gives the next inserted row. */
  datatype ObraTable = ObraTable(rows: seq<Obra>, nextId: int)

  /** Ids are unique and below the next id. */
  ghost predicate TableValid(t: ObraTable) {
    && UniqueIds(t.rows, ObraId)
    && forall o :: o in t.rows ==> o.id < t.nextId
  }

  /** The row rewritten with the form's columns; its id stays. */
  function WithData(o: Obra, data: ObraData): (r: Obra)
    ensures r.id == o.id && r.data == data
  {
    Obra(o.id, data)
  }

  function Replace(data: ObraData): Obra -> Obra {
    o => WithData(o, data)
  }

  /**
   * `onSubmit` over the table, for a submit that passed the `required` checks
   * and whose store call succeeds (`ok`): the artwork being edited is
   * rewritten by id, otherwise one row is inserted.
   */
  function SaveObra(t: ObraTable, editing: Option<Obra>, f: ObraForm, ok: bool): (r: ObraTable)
    ensures MissingRequired(f) || !ok ==> r == t
    ensures !MissingRequired(f) && ok && editing.Some? ==>
      && r.nextId == t.nextId
      && |r.rows| == |t.rows|
      && forall i :: 0 <= i < |t.rows| ==>
           r.rows[i] == if t.rows[i].id == editing.value.id then Obra(t.rows[i].id, BuildObraData(f)) else t.rows[i]
    ensures !MissingRequired(f) && ok && editing.None? ==>
      r.rows == t.rows + [Obra(t.nextId, BuildObraData(f))] && r.nextId == t.nextId + 1
  {
    if MissingRequired(f) || !ok then t
    else match editing
    case Some(e) => t.(rows := UpdateById(t.rows, ObraId, e.id, Replace(BuildObraData(f))))
    case None => ObraTable(t.rows + [Obra(t.nextId, BuildObraData(f))], t.nextId + 1)
  }

  /** A save keeps the ids unique and below the next id. */
  lemma SaveKeepsTableValid(t: ObraTable, editing: Option<Obra>, f: ObraForm, ok: bool)
    requires TableValid(t)
    ensures TableValid(SaveObra(t, editing, f, ok))
  {
    var r := SaveObra(t, editing, f, ok);
    if !MissingRequired(f) && ok {
      if editing.Some? {
        UpdateKeepsUniqueIds(t.rows, ObraId, editing.value.id, Replace(BuildObraData(f)));
        forall o | o in r.rows ensures o.id < r.nextId {
          var i :| 0 <= i < |r.rows| && r.rows[i] == o;
          assert t.rows[i] in t.rows;
        }
      } else {
        AppendKeepsUniqueIds(t.rows, ObraId, Obra(t.nextId, BuildObraData(f)));
      }
    }
  }

  /** An insert adds exactly one row, found under the new id with the form's columns. */
  lemma InsertAddsOneRow(t: ObraTable, f: ObraForm)
    requires TableValid(t) && !MissingRequired(f)
    ensures var r := SaveObra(t, None, f, true);
      |r.rows| == |t.rows| + 1 && FindById(r.rows, ObraId, t.nextId) == Some(Obra(t.nextId, BuildObraData(f)))
  {
    var r := SaveObra(t, None, f, true);
    SaveKeepsTableValid(t, None, f, true);
    FindUniqueId(r.rows, ObraId, Obra(t.nextId, BuildObraData(f)));
  }

  /**
   * Opening a row for editing and saving without changes leaves the table as
   * it was, under the conditions of `EditRoundTrip`.
   */
  lemma UnchangedEditKeepsTable(t: ObraTable, o: Obra)
    requires TableValid(t) && o in t.rows
    requires SurvivesForm(o.data.colecao) && SurvivesForm(o.data.certificado) && SurvivesForm(o.data.imagemPath)
    requires o.data.nome != "" && o.data.numeroIdentificacao.Some? && o.data.numeroIdentificacao.value != ""
    requires o.data.clienteId.Some? ==> o.data.status == Some(ComCliente)
    ensures SaveObra(t, Some(o), EditForm(o), true) == t
  {
    var r := SaveObra(t, Some(o), EditForm(o), true);
    EditRoundTrip(o);
    var j :| 0 <= j < |t.rows| && t.rows[j] == o;
    forall i | 0 <= i < |t.rows| ensures r.rows[i] == t.rows[i] {
      if t.rows[i].id == o.id {
        assert i == j;
      }
    }
  }

  /** `handleDelete` removes exactly the row with that id, when there is one, and keeps the others in order. */
  lemma DeleteRemovesThatRow(t: ObraTable, id: int)
    requires TableValid(t)
    ensures var rows := DeleteById(t.rows, ObraId, id);
      && FindById(rows, ObraId, id).None?
      && (forall o :: o in t.rows && o.id != id ==> o in rows)
      && |rows| == if FindById(t.rows, ObraId, id).Some? then |t.rows| - 1 else |t.rows|
  {
    DeleteCount(t.rows, ObraId, id);
  }

  /** A delete keeps the ids unique and below the next id. */
  lemma DeleteKeepsTableValid(t: ObraTable, id: int)
    requires TableValid(t)
    ensures TableValid(t.(rows := DeleteById(t.rows, ObraId, id)))
  {
    DeleteKeepsUniqueIds(t.rows, ObraId, id);
  }

  /** `getClienteNome` of the artworks list: `'-'` for no id (or id 0), an unknown id, or an empty name. */
  function ClienteNome(clientes: seq<Cliente>, id: Option<int>): (r: string)
    ensures r != ""
    ensures id.None? || id == Some(0) ==> r == "-"
    ensures id.Some? && (forall c :: c in clientes ==> c.id != id.value) ==> r == "-"
    ensures r != "-" ==> exists c :: c in clientes && Some(c.id) == id && c.nome == r
  {
    match id
    case None => "-"
    case Some(n) =>
      if n == 0 then "-"
      else match FindById(clientes, ClienteId, n)
      case None => "-"
      case Some(c) => if c.nome == "" then "-" else c.nome
  }

  /** With unique client ids, a recorded owner shows under the owner's name. */
  lemma ClienteNomeOfOwner(clientes: seq<Cliente>, c: Cliente)
    requires UniqueIds(clientes, ClienteId) && c in clientes
    requires c.id != 0 && c.nome != ""
    ensures ClienteNome(clientes, Some(c.id)) == c.nome
  {
    FindUniqueId(clientes, ClienteId, c);
  }

  /** The artworks page over the `obras` table. */
  class ObrasPage {
    // The store's table.
    var obras: seq<Obra>
    var nextObraId: int
    // The clients the page loaded, for the owner select and names.
    var clientes: seq<Cliente>
    // The form, and the artwork being edited (`editingObra`).
    var form: ObraForm
    var editing: Option<Obra>

    function Table(): ObraTable
      reads this
    {
      ObraTable(obras, nextObraId)
    }

    ghost predicate Valid()
      reads this
    {
      TableValid(Table())
    }

    constructor (t: ObraTable, loaded: seq<Cliente>)
      requires TableValid(t)
      ensures Valid() && Table() == t && clientes == loaded
      ensures form == BlankObraForm && editing == None
    {
      obras, nextObraId := t.rows, t.nextId;
      clientes := loaded;
      form := BlankObraForm;
      editing := None;
    }

    /**
     * `onSubmit`, reached once the `required` inputs are filled, with `ok` the
     * outcome of the store call. After a save the form is reset and nothing is
     * being edited; after a failure both stay.
     */
    method Submit(ok: bool) returns (saved: bool)
      requires Valid()
      modifies this`obras, this`nextObraId, this`form, this`editing
      ensures Valid()
      ensures saved <==> !MissingRequired(old(form)) && ok
      ensures Table() == SaveObra(old(Table()), old(editing), old(form), ok)
      ensures saved ==> form == BlankObraForm && editing == None
      ensures !saved ==> form == old(form) && editing == old(editing)
    {
      if form.nome == "" || form.numeroIdentificacao == "" || !ok {
        return false;
      }
      ghost var saving := SaveObra(Table(), editing, form, ok);
      SaveKeepsTableValid(Table(), editing, form, ok);
      var data := BuildObraData(form);
      if editing.Some? {
        obras := UpdateById(obras, ObraId, editing.value.id, Replace(data));
      } else {
        obras := obras + [Obra(nextObraId, data)];
        nextObraId := nextObraId + 1;
      }
      assert Table() == saving;
      form := BlankObraForm;
      editing := None;
      saved := true;
    }

    /** `handleDelete`: nothing happens unless the user confirms and the store call succeeds. */
    method Delete(id: int, confirmed: bool, ok: bool)
      requires Valid()
      modifies this`obras
      ensures Valid()
      ensures obras == if confirmed && ok then DeleteById(old(obras), ObraId, id) else old(obras)
    {
      if !confirmed || !ok {
        return;
      }
      DeleteKeepsTableValid(Table(), id);
      obras := DeleteById(obras, ObraId, id);
    }

    /** `handleEdit`: remember the artwork and set the form fields one by one. */
    method HandleEdit(o: Obra)
      modifies this`form, this`editing
      ensures editing == Some(o) && form == EditForm(o)
    {
      editing := Some(o);
      form := form.(nome := o.data.nome);
      form := form.(numeroIdentificacao := o.data.numeroIdentificacao.GetOr(""));
      form := form.(colecao := EmptyIfNull(o.data.colecao));
      form := form.(certificado := EmptyIfNull(o.data.certificado));
      form := form.(status := o.data.status);
      form := form.(clienteId := OptIntToString(o.data.clienteId));
      form := form.(imagemPath := EmptyIfNull(o.data.imagemPath));
    }

    /** `handleDialogClose`: nothing is being edited and the form is reset. */
    method CloseDialog()
      modifies this`form, this`editing
      ensures editing == None && form == BlankObraForm
    {
      editing := None;
      form := BlankObraForm;
    }

    /**
     * `handleImageUpload` into the `obras` folder. `token` and `now` stand for
     * the random name and `Date.now()`, `uploadOk` for the storage call, and
     * `publicUrl` for the bucket's public URL of a path.
     */
    method HandleImageUpload(file: Option<SelectedFile>, token: string, now: int, uploadOk: bool, publicUrl: string -> string)
      returns (step: UploadStep)
      modifies this`form
      ensures step == PlanUpload("obras", file, token, now)
      ensures form == if step.UploadTo? && uploadOk then old(form).(imagemPath := publicUrl(step.path)) else old(form)
    {
      step := PlanUpload("obras", file, token, now);
      if step.UploadTo? && uploadOk {
        form := form.(imagemPath := publicUrl(step.path));
      }
    }
  }
}
