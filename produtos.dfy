/**
 * The products page: the product form, the row it builds, saving it (update of
 * the product being edited, or insert of a new one), deleting, loading a row
 * back into the form, resetting the form, the linked artwork's name shown in
 * the list, and the image upload of the form.
 */
module Produtos {
  import opened Wrappers
  import opened JsText
  import opened Tables
  import opened Records
  import opened Uploads

  /** The product form as text fields; the amount is the money text. */
  datatype ProdutoForm = ProdutoForm(
    nome: string,
    tipoProduto: string,
    obraId: string,
    quantidadeEstoque: string,
    valor: Money,
    imagemPath: string)

  /** The form's initial state and the state `resetForm` restores: stock `"0"`, every other field empty. */
  const DefaultProdutoForm := ProdutoForm("", "", "", "0", Money(""), "")

  /** The inputs marked `required`: the browser does not submit while one of them is empty. */
  predicate MissingRequired(f: ProdutoForm) {
    f.nome == "" || f.quantidadeEstoque == "" || f.valor.text == ""
  }

  /** The text has an exponent part, as in `1e3`. */
  predicate HasExponent(s: string) {
    'e' in s || 'E' in s
  }

  /**
   * The stock input's `min="0"`, for a text without an exponent: when
   * `parseInt` reads a number below 0, the text is a float of at most -1 (or no
   * number at all, which the browser empties), so it is not submitted. The
   * browser compares the float value; for a text with an exponent it may round
   * to 0 (`-1e-324`), so such texts are not blocked here.
   */
  predicate StockBelowMin(f: ProdutoForm) {
    var n := ParseInt(f.quantidadeEstoque);
    !HasExponent(f.quantidadeEstoque) && n.Some? && n.value < 0
  }

  /**
   * The browser's checks before `handleSubmit` runs: a required input is empty,
   * or the stock is below its minimum. A form that passes them builds a row with
   * a name and an amount, and a stock of at least 0 unless its text has an exponent.
   */
  predicate SubmitBlocked(f: ProdutoForm)
    ensures !SubmitBlocked(f) ==>
      var d := BuildProdutoData(f);
      && d.nome != "" && d.valor.text != ""
      && (!HasExponent(f.quantidadeEstoque) ==> d.quantidadeEstoque >= 0)
  {
    MissingRequired(f) || StockBelowMin(f)
  }

  /**
   * `produtoData` of `handleSubmit`. Empty optional texts become null. An empty
   * artwork id is null, any other is parsed (NaN, written as null, when it is
   * not a number). The stock is the parsed number, or 0 when it is NaN.
   */
  function BuildProdutoData(f: ProdutoForm): (r: ProdutoData)
    ensures r.nome == f.nome && r.valor == f.valor
    ensures r.tipoProduto.None? <==> f.tipoProduto == ""
    ensures r.tipoProduto.Some? ==> r.tipoProduto.value == f.tipoProduto
    ensures r.imagemPath.None? <==> f.imagemPath == ""
    ensures r.imagemPath.Some? ==> r.imagemPath.value == f.imagemPath
    ensures f.obraId == "" ==> r.obraId.None?
    ensures f.obraId != "" ==> r.obraId == ParseInt(f.obraId)
    ensures ParseInt(f.quantidadeEstoque).None? ==> r.quantidadeEstoque == 0
    ensures ParseInt(f.quantidadeEstoque).Some? ==> r.quantidadeEstoque == ParseInt(f.quantidadeEstoque).value
  {
    ProdutoData(
      f.nome,
      NullIfEmpty(f.tipoProduto),
      NullIfEmpty(f.imagemPath),
      if f.obraId == "" then None else ParseInt(f.obraId),
      ParseIntOrZero(f.quantidadeEstoque),
      f.valor)
  }

  /**
   * `handleEdit`: the form filled from a row. Null texts show as empty fields,
   * the artwork id and the stock as their decimal text.
   */
  function EditForm(p: Produto): (r: ProdutoForm)
    ensures r.nome == p.data.nome && r.valor == p.data.valor
    ensures r.tipoProduto == EmptyIfNull(p.data.tipoProduto) && r.imagemPath == EmptyIfNull(p.data.imagemPath)
    ensures r.obraId == "" <==> p.data.obraId.None?
    ensures ParseInt(r.obraId) == p.data.obraId
    ensures r.quantidadeEstoque != "" && ParseInt(r.quantidadeEstoque) == Some(p.data.quantidadeEstoque)
  {
    OptIntToStringRoundTrip(p.data.obraId);
    ParseIntToString(p.data.quantidadeEstoque);
    ProdutoForm(
      p.data.nome,
      EmptyIfNull(p.data.tipoProduto),
      OptIntToString(p.data.obraId),
      IntToString(p.data.quantidadeEstoque),
      p.data.valor,
      EmptyIfNull(p.data.imagemPath))
  }

  /**
   * Loading a row into the form and building the row again gives back the same
   * columns when the optional texts are null or non-empty; the stock survives
   * `toString` and `parseInt`.
   */
  lemma EditRoundTrip(p: Produto)
    requires p.data.tipoProduto.None? || p.data.tipoProduto.value != ""
    requires p.data.imagemPath.None? || p.data.imagemPath.value != ""
    ensures BuildProdutoData(EditForm(p)) == p.data
  {
  }

  /** A text that `parseInt` reads as NaN is stored as stock 0. */
  lemma UnparsableStockIsZero(f: ProdutoForm)
    requires ParseInt(f.quantidadeEstoque).None?
    ensures BuildProdutoData(f).quantidadeEstoque == 0
  {
  }

  /** The `produtos` table with the id the store gives the next inserted row. */
  datatype ProdutoTable = ProdutoTable(rows: seq<Produto>, nextId: int)

  /** Ids are unique and below the next id. */
  ghost predicate TableValid(t: ProdutoTable) {
    && UniqueIds(t.rows, ProdutoId)
    && forall p :: p in t.rows ==> p.id < t.nextId
  }

  /** The row rewritten with the form's columns; its id stays. */
  function WithData(p: Produto, data: ProdutoData): (r: Produto)
    ensures r.id == p.id && r.data == data
  {
    Produto(p.id, data)
  }

  function Replace(data: ProdutoData): Produto -> Produto {
    p => WithData(p, data)
  }

  /**
   * `handleSubmit` over the table, for a form the browser submits and a store
   * call that succeeds (`ok`): the product being edited is rewritten by id,
   * otherwise one row is inserted.
   */
  function SaveProduto(t: ProdutoTable, editing: Option<Produto>, f: ProdutoForm, ok: bool): (r: ProdutoTable)
    ensures SubmitBlocked(f) || !ok ==> r == t
    ensures !SubmitBlocked(f) && ok && editing.Some? ==>
      && r.nextId == t.nextId
      && |r.rows| == |t.rows|
      && forall i :: 0 <= i < |t.rows| ==>
           r.rows[i] == if t.rows[i].id == editing.value.id then Produto(t.rows[i].id, BuildProdutoData(f)) else t.rows[i]
    ensures !SubmitBlocked(f) && ok && editing.None? ==>
      r.rows == t.rows + [Produto(t.nextId, BuildProdutoData(f))] && r.nextId == t.nextId + 1
  {
    if SubmitBlocked(f) || !ok then t
    else match editing
    case Some(e) => t.(rows := UpdateById(t.rows, ProdutoId, e.id, Replace(BuildProdutoData(f))))
    case None => ProdutoTable(t.rows + [Produto(t.nextId, BuildProdutoData(f))], t.nextId + 1)
  }

  /** A save keeps the ids unique and below the next id. */
  lemma SaveKeepsTableValid(t: ProdutoTable, editing: Option<Produto>, f: ProdutoForm, ok: bool)
    requires TableValid(t)
    ensures TableValid(SaveProduto(t, editing, f, ok))
  {
    var r := SaveProduto(t, editing, f, ok);
    if !SubmitBlocked(f) && ok {
      if editing.Some? {
        UpdateKeepsUniqueIds(t.rows, ProdutoId, editing.value.id, Replace(BuildProdutoData(f)));
        forall p | p in r.rows ensures p.id < r.nextId {
          var i :| 0 <= i < |r.rows| && r.rows[i] == p;
          assert t.rows[i] in t.rows;
        }
      } else {
        AppendKeepsUniqueIds(t.rows, ProdutoId, Produto(t.nextId, BuildProdutoData(f)));
      }
    }
  }

  /** An insert adds exactly one row, found under the new id with the form's columns. */
  lemma InsertAddsOneRow(t: ProdutoTable, f: ProdutoForm)
    requires TableValid(t) && !SubmitBlocked(f)
    ensures var r := SaveProduto(t, None, f, true);
      |r.rows| == |t.rows| + 1 && FindById(r.rows, ProdutoId, t.nextId) == Some(Produto(t.nextId, BuildProdutoData(f)))
  {
    var r := SaveProduto(t, None, f, true);
    SaveKeepsTableValid(t, None, f, true);
    FindUniqueId(r.rows, ProdutoId, Produto(t.nextId, BuildProdutoData(f)));
  }

  /**
   * Opening a row for editing and saving without changes leaves the table as
   * it was, under the conditions of `EditRoundTrip`, for a product with a name,
   * an amount and a stock of at least 0 (the browser refuses to submit otherwise).
   */
  lemma UnchangedEditKeepsTable(t: ProdutoTable, p: Produto)
    requires TableValid(t) && p in t.rows
    requires p.data.tipoProduto.None? || p.data.tipoProduto.value != ""
    requires p.data.imagemPath.None? || p.data.imagemPath.value != ""
    requires p.data.nome != "" && p.data.valor.text != "" && p.data.quantidadeEstoque >= 0
    ensures SaveProduto(t, Some(p), EditForm(p), true) == t
  {
    var r := SaveProduto(t, Some(p), EditForm(p), true);
    EditRoundTrip(p);
    var j :| 0 <= j < |t.rows| && t.rows[j] == p;
    forall i | 0 <= i < |t.rows| ensures r.rows[i] == t.rows[i] {
      if t.rows[i].id == p.id {
        assert i == j;
      }
    }
  }

  /** `handleDelete` removes exactly the row with that id, when there is one, and keeps the others in order. */
  lemma DeleteRemovesThatRow(t: ProdutoTable, id: int)
    requires TableValid(t)
    ensures var rows := DeleteById(t.rows, ProdutoId, id);
      && FindById(rows, ProdutoId, id).None?
      && (forall p :: p in t.rows && p.id != id ==> p in rows)
      && |rows| == if FindById(t.rows, ProdutoId, id).Some? then |t.rows| - 1 else |t.rows|
  {
    DeleteCount(t.rows, ProdutoId, id);
  }

  /** A save of a stock text without an exponent never writes a stock below 0, so a table without one keeps that property. */
  lemma SaveKeepsStockNonNegative(t: ProdutoTable, editing: Option<Produto>, f: ProdutoForm, ok: bool)
    requires NoNegativeStock(t.rows) && !HasExponent(f.quantidadeEstoque)
    ensures NoNegativeStock(SaveProduto(t, editing, f, ok).rows)
  {
    var r := SaveProduto(t, editing, f, ok);
    if !SubmitBlocked(f) && ok {
      forall p | p in r.rows ensures p.data.quantidadeEstoque >= 0 {
        var i :| 0 <= i < |r.rows| && r.rows[i] == p;
        if i < |t.rows| {
          assert t.rows[i] in t.rows;
        }
      }
    }
  }

  /** A stock typed as `-1` is refused by the browser: the save changes nothing. */
  lemma MinusOneStockRefused(t: ProdutoTable, editing: Option<Produto>, f: ProdutoForm, ok: bool)
    requires f.quantidadeEstoque == "-1"
    ensures SaveProduto(t, editing, f, ok) == t
  {
    ParseMagnitudeNumeral("1", []);
    assert "1" + [] == "1" && "-" + "1" == "-1";
    ParseIntMinus("1", 1);
  }

  /**
   * The stock text `-1e-324` is a float that rounds to 0, so the browser submits
   * it, and `parseInt` reads it as -1: the insert writes a stock below 0.
   */
  lemma TinyNegativeStockSaved(t: ProdutoTable, f: ProdutoForm)
    requires f.nome != "" && f.valor.text != "" && f.quantidadeEstoque == "-1e-324"
    ensures var r := SaveProduto(t, None, f, true);
      && r.rows == t.rows + [Produto(t.nextId, BuildProdutoData(f))]
      && BuildProdutoData(f).quantidadeEstoque == -1
      && !NoNegativeStock(r.rows)
  {
    TinyNegativeStockText();
    assert f.quantidadeEstoque[2] == 'e';
    assert !SubmitBlocked(f);
    var r := SaveProduto(t, None, f, true);
    assert r.rows[|t.rows|] in r.rows;
  }

  /** `parseInt("-1e-324")` stops at the `e` and reads -1. */
  lemma TinyNegativeStockText()
    ensures ParseInt("-1e-324") == Some(-1)
  {
    ParseMagnitudeNumeral("1", "e-324");
    assert "1" + "e-324" == "1e-324" && "-" + "1e-324" == "-1e-324";
    ParseIntMinus("1e-324", 1);
  }

  /** A delete keeps the ids unique and below the next id. */
  lemma DeleteKeepsTableValid(t: ProdutoTable, id: int)
    requires TableValid(t)
    ensures TableValid(t.(rows := DeleteById(t.rows, ProdutoId, id)))
  {
    DeleteKeepsUniqueIds(t.rows, ProdutoId, id);
  }

  /**
   * `getObraNome`: "Sem obra" for no artwork (or id 0), "Obra não encontrada"
   * for an id no loaded artwork has, and otherwise the artwork's name, empty or not.
   */
  function ObraNome(obras: seq<Obra>, id: Option<int>): (r: string)
    ensures id.None? || id == Some(0) ==> r == "Sem obra"
    ensures id.Some? && id.value != 0 && (forall o :: o in obras ==> o.id != id.value) ==> r == "Obra não encontrada"
    ensures r != "Sem obra" && r != "Obra não encontrada" ==> exists o :: o in obras && Some(o.id) == id && o.data.nome == r
  {
    match id
    case None => "Sem obra"
    case Some(n) =>
      if n == 0 then "Sem obra"
      else match FindById(obras, ObraId, n)
      case None => "Obra não encontrada"
      case Some(o) => o.data.nome
  }

  /** With unique artwork ids, a linked artwork shows under its own name. */
  lemma ObraNomeOfLinked(obras: seq<Obra>, o: Obra)
    requires UniqueIds(obras, ObraId) && o in obras && o.id != 0
    ensures ObraNome(obras, Some(o.id)) == o.data.nome
  {
    FindUniqueId(obras, ObraId, o);
  }

  /** The products page over the `produtos` table. */
  class ProdutosPage {
    // The store's table.
    var produtos: seq<Produto>
    var nextProdutoId: int
    // The artworks the page loaded, for the artwork select and names.
    var obras: seq<Obra>
    // The form, and the product being edited (`editingProduto`).
    var form: ProdutoForm
    var editing: Option<Produto>

    function Table(): ProdutoTable
      reads this
    {
      ProdutoTable(produtos, nextProdutoId)
    }

    /** The table's ids are valid. */
    ghost predicate Valid()
      reads this
    {
      TableValid(Table())
    }

    constructor (t: ProdutoTable, loaded: seq<Obra>)
      requires TableValid(t)
      ensures Valid() && Table() == t && obras == loaded
      ensures form == DefaultProdutoForm && editing == None
    {
      produtos, nextProdutoId := t.rows, t.nextId;
      obras := loaded;
      form := DefaultProdutoForm;
      editing := None;
    }

    /** `resetForm`: the default form and nothing being edited. */
    method ResetForm()
      modifies this`form, this`editing
      ensures form == DefaultProdutoForm && editing == None
    {
      form := DefaultProdutoForm;
      editing := None;
    }

    /**
     * `handleSubmit`, for a form the browser submits, with `ok` the outcome of
     * the store call. After a save the form is reset; after a failure the form
     * and the product being edited stay.
     */
    method Submit(ok: bool) returns (saved: bool)
      requires Valid()
      modifies this`produtos, this`nextProdutoId, this`form, this`editing
      ensures Valid()
      ensures saved <==> !SubmitBlocked(old(form)) && ok
      ensures NoNegativeStock(old(produtos)) && !HasExponent(old(form).quantidadeEstoque) ==> NoNegativeStock(produtos)
      ensures Table() == SaveProduto(old(Table()), old(editing), old(form), ok)
      ensures saved ==> form == DefaultProdutoForm && editing == None
      ensures !saved ==> form == old(form) && editing == old(editing)
    {
      var stock := ParseInt(form.quantidadeEstoque);
      var exponent := 'e' in form.quantidadeEstoque || 'E' in form.quantidadeEstoque;
      if form.nome == "" || form.quantidadeEstoque == "" || form.valor.text == "" || (!exponent && stock.Some? && stock.value < 0) || !ok {
        return false;
      }
      ghost var saving := SaveProduto(Table(), editing, form, ok);
      SaveKeepsTableValid(Table(), editing, form, ok);
      if NoNegativeStock(produtos) && !exponent {
        SaveKeepsStockNonNegative(Table(), editing, form, ok);
      }
      var data := BuildProdutoData(form);
      if editing.Some? {
        produtos := UpdateById(produtos, ProdutoId, editing.value.id, Replace(data));
      } else {
        produtos := produtos + [Produto(nextProdutoId, data)];
        nextProdutoId := nextProdutoId + 1;
      }
      assert Table() == saving;
      ResetForm();
      saved := true;
    }

    /** `handleDelete`: nothing happens unless the user confirms and the store call succeeds. */
    method Delete(id: int, confirmed: bool, ok: bool)
      requires Valid()
      modifies this`produtos
      ensures Valid()
      ensures produtos == if confirmed && ok then DeleteById(old(produtos), ProdutoId, id) else old(produtos)
      ensures NoNegativeStock(old(produtos)) ==> NoNegativeStock(produtos)
    {
      if !confirmed || !ok {
        return;
      }
      DeleteKeepsTableValid(Table(), id);
      produtos := DeleteById(produtos, ProdutoId, id);
    }

    /** `handleEdit`: remember the product and fill the form from it. */
    method HandleEdit(p: Produto)
      modifies this`form, this`editing
      ensures editing == Some(p) && form == EditForm(p)
    {
      editing := Some(p);
      form := ProdutoForm(
        p.data.nome,
        EmptyIfNull(p.data.tipoProduto),
        OptIntToString(p.data.obraId),
        IntToString(p.data.quantidadeEstoque),
        p.data.valor,
        EmptyIfNull(p.data.imagemPath));
    }

    /**
     * `handleImageUpload` into the `produtos` folder. `token` and `now` stand for
     * the random name and `Date.now()`, `uploadOk` for the storage call, and
     * `publicUrl` for the bucket's public URL of a path.
     */
    method HandleImageUpload(file: Option<SelectedFile>, token: string, now: int, uploadOk: bool, publicUrl: string -> string)
      returns (step: UploadStep)
      modifies this`form
      ensures step == PlanUpload("produtos", file, token, now)
      ensures form == if step.UploadTo? && uploadOk then old(form).(imagemPath := publicUrl(step.path)) else old(form)
    {
      step := PlanUpload("produtos", file, token, now);
      if step.UploadTo? && uploadOk {
        form := form.(imagemPath := publicUrl(step.path));
      }
    }
  }
}
