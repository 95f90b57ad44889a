/**
 * The sales page: recording the sale of one artwork or one product to a client.
 *
 * The sale is two separate writes to the store: the `vendas` row is inserted
 * first, then the sold item is updated (an artwork goes to the buyer, a
 * product loses one unit of stock). Nothing undoes the first write when the
 * second fails. The artwork's status is not checked again when it is updated,
 * and the new stock is computed from the product list the page loaded, not
 * from the table.
 */
module Vendas {
  import opened Wrappers
  import opened JsText
  import opened Tables
  import opened Records

  /** The sale dialog: chosen client (id text), item kind, chosen item (id text), amount. */
  datatype SaleForm = SaleForm(cliente: string, kind: ItemKind, item: string, valorTotal: Money)

  /** The dialog after `resetForm`. */
  const BlankSaleForm := SaleForm("", ObraItem, "", Money(""))

  /** The tables of the store the sale touches. */
  datatype Db = Db(
    clientes: seq<Cliente>,
    obras: seq<Obra>,
    produtos: seq<Produto>,
    vendas: seq<Venda>,
    nextVendaId: int)

  /** What the page loaded earlier and reads during a sale: the clients and the in-stock products. */
  datatype Snapshot = Snapshot(clientes: seq<Cliente>, produtos: seq<Produto>)

  /** How each store call of one attempt turns out: the venda insert, then the item update. */
  datatype Calls = Calls(insertOk: bool, updateOk: bool)

  datatype Rejection = MissingField | InvalidCliente
  datatype Failure = NotAuthenticated | VendaInsertFailed | ItemUpdateFailed

  /** Rejected: refused before any write. Failed: a step failed. Recorded: the whole sale went through. */
  datatype Outcome = Rejected(why: Rejection) | Failed(failure: Failure) | Recorded(venda: Venda)

  datatype SaleResult = SaleResult(db: Db, outcome: Outcome)

  /** `obrasDisponiveis`: the artworks with status `'exposicao'`. */
  function ObrasDisponiveis(obras: seq<Obra>): (r: seq<Obra>)
    ensures forall o :: o in r <==> o in obras && OnDisplay(o)
  {
    Filter(obras, OnDisplay)
  }

  /** `produtos` as the sales page loads them: stock greater than 0. */
  function ProdutosEmEstoque(produtos: seq<Produto>): (r: seq<Produto>)
    ensures forall p :: p in r <==> p in produtos && InStock(p)
  {
    Filter(produtos, InStock)
  }

  /** A field of the dialog is empty. */
  predicate MissingAField(f: SaleForm) {
    f.cliente == "" || f.item == "" || f.valorTotal.text == ""
  }

  /** `clientes.find(c => c.id === parseInt(text))`; NaN equals no id. */
  function SelectedCliente(clientes: seq<Cliente>, text: string): (r: Option<Cliente>)
    ensures r.Some? ==> r.value in clientes && Some(r.value.id) == ParseInt(text)
    ensures r.None? <==> forall c :: c in clientes ==> Some(c.id) != ParseInt(text)
  {
    match ParseInt(text)
    case None => None
    case Some(id) => FindById(clientes, ClienteId, id)
  }

  /** The artwork after it is sold: status `'cliente'`, owned by `buyer`, nothing else changed. */
  function SoldTo(o: Obra, buyer: int): (r: Obra)
    ensures r.id == o.id && r.data.status == Some(ComCliente) && r.data.clienteId == Some(buyer)
    ensures r.data == o.data.(status := r.data.status, clienteId := r.data.clienteId)
  {
    Obra(o.id, o.data.(status := Some(ComCliente), clienteId := Some(buyer)))
  }

  function SellTo(buyer: int): Obra -> Obra {
    o => SoldTo(o, buyer)
  }

  /** The product with its stock set to `n`, nothing else changed. */
  function WithStock(p: Produto, n: int): (r: Produto)
    ensures r.id == p.id && r.data.quantidadeEstoque == n
    ensures r.data == p.data.(quantidadeEstoque := n)
  {
    Produto(p.id, p.data.(quantidadeEstoque := n))
  }

  function SetStock(n: int): Produto -> Produto {
    p => WithStock(p, n)
  }

  /** The sale row the dialog describes, for client `c` and item `itemId`. */
  ghost predicate DescribesSale(v: Venda, db: Db, c: Cliente, form: SaleForm, session: Option<string>, now: string) {
    && v.id == db.nextVendaId
    && v.clienteId == Some(c.id)
    && v.vendedorAuthId == session
    && v.tipoItem == form.kind
    && ParseInt(form.item) == Some(v.itemId)
    && v.valorTotal == form.valorTotal
    && v.dataVenda == now
  }

  /** The venda of this attempt was written (and is still there, whatever happened next). */
  predicate VendaWritten(o: Outcome) {
    o.Recorded? || o == Failed(ItemUpdateFailed)
  }

  /**
   * `handleSubmit` as one step over the store. `session` is the signed-in user's
   * id (none when signed out); `now` is the sale timestamp text. What it does is
   * stated by `SubmitSaleEffects`.
   */
  function SubmitSale(db: Db, snap: Snapshot, form: SaleForm, session: Option<string>, now: string, calls: Calls): (r: SaleResult)
    ensures r.db.clientes == db.clientes
    ensures r.outcome.Rejected? || r.outcome == Failed(NotAuthenticated) ==> r.db == db
    ensures session.None? ==> r.db == db
  {
    match CheckSale(snap.clientes, form, session)
    case Refuse(o) => SaleResult(db, o)
    case Proceed(c) => RecordSale(db, snap, form, c, session, now, calls)
  }

  /** The two writes of a sale to `buyer`: insert the venda, then update the sold item (see `RecordSaleSteps`). */
  function RecordSale(db: Db, snap: Snapshot, form: SaleForm, buyer: Cliente, session: Option<string>, now: string, calls: Calls): (r: SaleResult)
    ensures r.db.clientes == db.clientes
    ensures !r.outcome.Rejected? && r.outcome != Failed(NotAuthenticated)
    ensures !calls.insertOk ==> r == SaleResult(db, Failed(VendaInsertFailed))
  {
    var itemId := ParseInt(form.item);
    // A NaN item id is written as null, which the NOT NULL `item_id` column refuses.
    if !calls.insertOk || itemId.None? then SaleResult(db, Failed(VendaInsertFailed))
    else
      var venda := Venda(db.nextVendaId, Some(buyer.id), session, form.kind, itemId.value, now, form.valorTotal);
      var written := db.(vendas := db.vendas + [venda], nextVendaId := db.nextVendaId + 1);
      match form.kind
      case ObraItem => SellObra(written, venda, calls)
      case ProdutoItem => SellProduto(written, snap, venda, calls)
  }

  /**
   * The venda insert comes first: when it fails (the call fails, or the item id
   * is NaN) nothing changes; otherwise the venda row is appended before the item
   * update, whatever that update then does.
   */
  lemma RecordSaleSteps(db: Db, snap: Snapshot, form: SaleForm, buyer: Cliente, session: Option<string>, now: string, calls: Calls)
    ensures var r := RecordSale(db, snap, form, buyer, session, now, calls);
      && (r.outcome == Failed(VendaInsertFailed) <==> !calls.insertOk || ParseInt(form.item).None?)
      && (r.outcome == Failed(VendaInsertFailed) || VendaWritten(r.outcome))
      && (r.outcome == Failed(VendaInsertFailed) ==> r.db == db)
      && (VendaWritten(r.outcome) ==>
            && r.db.vendas == db.vendas + [Venda(db.nextVendaId, Some(buyer.id), session, form.kind, ParseInt(form.item).value, now, form.valorTotal)]
            && r.db.nextVendaId == db.nextVendaId + 1
            && r.db.clientes == db.clientes)
      && (r.outcome.Recorded? ==> r.outcome.venda == r.db.vendas[|db.vendas|])
  {
    var itemId := ParseInt(form.item);
    if calls.insertOk && itemId.Some? {
      var venda := Venda(db.nextVendaId, Some(buyer.id), session, form.kind, itemId.value, now, form.valorTotal);
      var written := db.(vendas := db.vendas + [venda], nextVendaId := db.nextVendaId + 1);
      assert written.vendas[|db.vendas|] == venda;
      var r := if form.kind == ObraItem then SellObra(written, venda, calls) else SellProduto(written, snap, venda, calls);
      assert RecordSale(db, snap, form, buyer, session, now, calls) == r;
      assert r.db.vendas == written.vendas && r.db.clientes == db.clientes;
    }
  }

  /** Once the venda insert went through, the sale continues with the item update on the store holding the new row. */
  lemma RecordSaleAfterInsert(db: Db, snap: Snapshot, form: SaleForm, buyer: Cliente, session: Option<string>, now: string, calls: Calls, venda: Venda, written: Db)
    requires calls.insertOk && ParseInt(form.item).Some?
    requires venda == Venda(db.nextVendaId, Some(buyer.id), session, form.kind, ParseInt(form.item).value, now, form.valorTotal)
    requires written == db.(vendas := db.vendas + [venda], nextVendaId := db.nextVendaId + 1)
    ensures RecordSale(db, snap, form, buyer, session, now, calls)
      == if form.kind == ObraItem then SellObra(written, venda, calls) else SellProduto(written, snap, venda, calls)
  {
  }

  /** What one attempt at a sale does to the store, and what it reports. */
  lemma SubmitSaleEffects(db: Db, snap: Snapshot, form: SaleForm, session: Option<string>, now: string, calls: Calls)
    ensures var r := SubmitSale(db, snap, form, session, now, calls);
      // Checks made before any write.
      && (MissingAField(form) <==> r.outcome == Rejected(MissingField))
      && (!MissingAField(form) && SelectedCliente(snap.clientes, form.cliente).None? <==> r.outcome == Rejected(InvalidCliente))
      && (r.outcome == Failed(NotAuthenticated) <==>
            !MissingAField(form) && SelectedCliente(snap.clientes, form.cliente).Some? && session.None?)
      && (!VendaWritten(r.outcome) ==> r.db == db)
      // The clients are never written.
      && r.db.clientes == db.clientes
      // One venda is appended, and nothing else in the table changes.
      && (VendaWritten(r.outcome) ==>
            && |r.db.vendas| == |db.vendas| + 1
            && r.db.vendas[..|db.vendas|] == db.vendas
            && r.db.nextVendaId == db.nextVendaId + 1
            && DescribesSale(r.db.vendas[|db.vendas|], db, SelectedCliente(snap.clientes, form.cliente).value, form, session, now))
      && (r.outcome.Recorded? ==> r.outcome.venda == r.db.vendas[|db.vendas|])
      // The item is updated only after the venda is written, and only when the whole sale went through.
      && (!r.outcome.Recorded? ==> r.db.obras == db.obras && r.db.produtos == db.produtos)
      && (form.kind == ObraItem ==> r.db.produtos == db.produtos)
      && (form.kind == ProdutoItem ==> r.db.obras == db.obras)
  {
    var check := CheckSale(snap.clientes, form, session);
    if check.Proceed? {
      RecordSaleSteps(db, snap, form, check.buyer, session, now, calls);
    }
  }

  /** What the checks before the first write decide: refuse with an outcome, or go on with the buyer. */
  datatype Check = Refuse(outcome: Outcome) | Proceed(buyer: Cliente)

  /** The checks of `handleSubmit` before any write: all fields filled, a loaded client, a session. */
  function CheckSale(clientes: seq<Cliente>, form: SaleForm, session: Option<string>): (r: Check)
    ensures MissingAField(form) <==> r == Refuse(Rejected(MissingField))
    ensures !MissingAField(form) && SelectedCliente(clientes, form.cliente).None? <==> r == Refuse(Rejected(InvalidCliente))
    ensures r == Refuse(Failed(NotAuthenticated)) <==>
      !MissingAField(form) && SelectedCliente(clientes, form.cliente).Some? && session.None?
    ensures r.Proceed? <==> !MissingAField(form) && SelectedCliente(clientes, form.cliente).Some? && session.Some?
    ensures r.Proceed? ==> SelectedCliente(clientes, form.cliente) == Some(r.buyer)
  {
    if MissingAField(form) then Refuse(Rejected(MissingField))
    else match SelectedCliente(clientes, form.cliente)
    case None => Refuse(Rejected(InvalidCliente))
    case Some(c) => if session.None? then Refuse(Failed(NotAuthenticated)) else Proceed(c)
  }

  /** The second write of an artwork sale, once `venda` is in the table: hand the artwork to the buyer. */
  function SellObra(written: Db, venda: Venda, calls: Calls): (r: SaleResult)
    requires venda.clienteId.Some?
    ensures r.outcome == (if calls.updateOk then Recorded(venda) else Failed(ItemUpdateFailed))
    ensures r.db == written.(obras := r.db.obras)
    ensures |r.db.obras| == |written.obras|
  {
    if !calls.updateOk then SaleResult(written, Failed(ItemUpdateFailed))
    else SaleResult(written.(obras := UpdateById(written.obras, ObraId, venda.itemId, SellTo(venda.clienteId.value))), Recorded(venda))
  }

  /** Row by row: every artwork with the sold id is handed to the buyer, and no other row changes. */
  lemma SellObraRows(written: Db, venda: Venda, calls: Calls)
    requires venda.clienteId.Some?
    ensures var r := SellObra(written, venda, calls);
      forall i :: 0 <= i < |written.obras| ==>
        r.db.obras[i] == if calls.updateOk && written.obras[i].id == venda.itemId
                         then SoldTo(written.obras[i], venda.clienteId.value)
                         else written.obras[i]
  {
  }

  /**
   * The second write of a product sale, once `venda` is in the table: set the
   * stock to the loaded stock minus one. A product that is not among the loaded
   * ones is not written at all, and the sale counts as recorded.
   */
  function SellProduto(written: Db, snap: Snapshot, venda: Venda, calls: Calls): (r: SaleResult)
    ensures var cached := FindById(snap.produtos, ProdutoId, venda.itemId);
      r.outcome == (if calls.updateOk || cached.None? then Recorded(venda) else Failed(ItemUpdateFailed))
    ensures r.db == written.(produtos := r.db.produtos)
    ensures |r.db.produtos| == |written.produtos|
  {
    match FindById(snap.produtos, ProdutoId, venda.itemId)
    case None => SaleResult(written, Recorded(venda))
    case Some(p) =>
      if !calls.updateOk then SaleResult(written, Failed(ItemUpdateFailed))
      else SaleResult(written.(produtos := UpdateById(written.produtos, ProdutoId, venda.itemId, SetStock(p.data.quantidadeEstoque - 1))), Recorded(venda))
  }

  /**
   * Row by row: every product with the sold id gets the loaded stock minus one
   * (when the product was loaded and the call went through), and no other row changes.
   */
  lemma SellProdutoRows(written: Db, snap: Snapshot, venda: Venda, calls: Calls)
    ensures var r := SellProduto(written, snap, venda, calls);
      var cached := FindById(snap.produtos, ProdutoId, venda.itemId);
      forall i :: 0 <= i < |written.produtos| ==>
        r.db.produtos[i] == if calls.updateOk && written.produtos[i].id == venda.itemId && cached.Some?
                            then WithStock(written.produtos[i], cached.value.data.quantidadeEstoque - 1)
                            else written.produtos[i]
  {
  }

  /**
   * Once the checks pass and the venda is inserted, a sale is `SellObra` or
   * `SellProduto` applied to tables whose artworks and products are still those
   * of the store, so the row-by-row effect stated there is that of the whole sale.
   */
  lemma RecordedSaleShape(db: Db, snap: Snapshot, form: SaleForm, session: Option<string>, now: string, calls: Calls)
      returns (written: Db, venda: Venda)
    requires SubmitSale(db, snap, form, session, now, calls).outcome.Recorded?
    ensures venda == SubmitSale(db, snap, form, session, now, calls).outcome.venda
    ensures venda.clienteId.Some? && venda.tipoItem == form.kind
    ensures written.obras == db.obras && written.produtos == db.produtos
    ensures form.kind == ObraItem ==> SubmitSale(db, snap, form, session, now, calls) == SellObra(written, venda, calls)
    ensures form.kind == ProdutoItem ==> SubmitSale(db, snap, form, session, now, calls) == SellProduto(written, snap, venda, calls)
  {
    var c := CheckSale(snap.clientes, form, session).buyer;
    var itemId := ParseInt(form.item);
    venda := Venda(db.nextVendaId, Some(c.id), session, form.kind, itemId.value, now, form.valorTotal);
    written := db.(vendas := db.vendas + [venda], nextVendaId := db.nextVendaId + 1);
  }

  /** A sale never leaves an artwork marked as with a client without naming the client. */
  lemma SaleKeepsOwnerRecorded(db: Db, snap: Snapshot, form: SaleForm, session: Option<string>, now: string, calls: Calls)
    requires forall o :: o in db.obras ==> OwnerRecorded(o)
    ensures forall o :: o in SubmitSale(db, snap, form, session, now, calls).db.obras ==> OwnerRecorded(o)
  {
    var r := SubmitSale(db, snap, form, session, now, calls);
    forall o | o in r.db.obras ensures OwnerRecorded(o) {
      var i :| 0 <= i < |r.db.obras| && r.db.obras[i] == o;
      if r.db.obras != db.obras {
        assert db.obras[i] in db.obras;
      }
    }
  }

  /**
   * A sale never makes a stock negative: the stock written is a loaded stock
   * minus one, and the page loads only products whose stock is above 0.
   */
  lemma SaleKeepsStockNonNegative(db: Db, snap: Snapshot, form: SaleForm, session: Option<string>, now: string, calls: Calls)
    requires forall p :: p in snap.produtos ==> InStock(p)
    requires NoNegativeStock(db.produtos)
    ensures NoNegativeStock(SubmitSale(db, snap, form, session, now, calls).db.produtos)
  {
    var r := SubmitSale(db, snap, form, session, now, calls);
    forall p | p in r.db.produtos ensures p.data.quantidadeEstoque >= 0 {
      var i :| 0 <= i < |r.db.produtos| && r.db.produtos[i] == p;
      if r.db.produtos != db.produtos {
        assert db.produtos[i] in db.produtos;
      }
    }
  }

  /** Once the page reloads after an artwork sale, the sold artwork is no longer offered. */
  lemma SoldObraLeavesSale(db: Db, snap: Snapshot, form: SaleForm, session: Option<string>, now: string, calls: Calls)
    requires form.kind == ObraItem
    requires SubmitSale(db, snap, form, session, now, calls).outcome.Recorded?
    ensures var r := SubmitSale(db, snap, form, session, now, calls);
      forall o :: o in ObrasDisponiveis(r.db.obras) ==> o.id != r.outcome.venda.itemId
  {
    var r := SubmitSale(db, snap, form, session, now, calls);
    forall o | o in ObrasDisponiveis(r.db.obras) ensures o.id != r.outcome.venda.itemId {
      var i :| 0 <= i < |r.db.obras| && r.db.obras[i] == o;
      assert OnDisplay(o);
    }
  }

  /** Once the page reloads after selling the last unit of a product, the product is no longer offered. */
  lemma SoldOutProdutoLeavesSale(db: Db, snap: Snapshot, form: SaleForm, session: Option<string>, now: string, calls: Calls)
    requires form.kind == ProdutoItem
    requires SubmitSale(db, snap, form, session, now, calls).outcome.Recorded?
    requires var id := SubmitSale(db, snap, form, session, now, calls).outcome.venda.itemId;
      var cached := FindById(snap.produtos, ProdutoId, id);
      cached.Some? && cached.value.data.quantidadeEstoque == 1
    ensures var r := SubmitSale(db, snap, form, session, now, calls);
      forall p :: p in ProdutosEmEstoque(r.db.produtos) ==> p.id != r.outcome.venda.itemId
  {
    var r := SubmitSale(db, snap, form, session, now, calls);
    forall p | p in ProdutosEmEstoque(r.db.produtos) ensures p.id != r.outcome.venda.itemId {
      var i :| 0 <= i < |r.db.produtos| && r.db.produtos[i] == p;
      assert InStock(p);
    }
  }

  /**
   * Whether the sale goes through never depends on the artworks or products in
   * the store: an artwork already with a client is sold again, and a product's
   * current stock is not consulted.
   */
  lemma OutcomeIgnoresItemRows(db: Db, obras: seq<Obra>, produtos: seq<Produto>, snap: Snapshot, form: SaleForm,
                               session: Option<string>, now: string, calls: Calls)
    ensures SubmitSale(db.(obras := obras, produtos := produtos), snap, form, session, now, calls).outcome
         == SubmitSale(db, snap, form, session, now, calls).outcome
  {
  }

  /**
   * Selling an artwork that has already been sold and handed to another client
   * succeeds and hands it to the new buyer.
   */
  lemma SoldObraSoldAgain(db: Db, snap: Snapshot, form: SaleForm, session: Option<string>, now: string, calls: Calls, k: nat)
    requires form.kind == ObraItem && k < |db.obras|
    requires db.obras[k].data.status == Some(ComCliente)
    requires !MissingAField(form) && SelectedCliente(snap.clientes, form.cliente).Some?
    requires ParseInt(form.item) == Some(db.obras[k].id)
    requires session.Some? && calls.insertOk && calls.updateOk
    ensures var r := SubmitSale(db, snap, form, session, now, calls);
      r.outcome.Recorded? && r.db.obras[k] == SoldTo(db.obras[k], SelectedCliente(snap.clientes, form.cliente).value.id)
  {
  }

  /** A product missing from the loaded list is still recorded as sold, and no stock changes. */
  lemma UnloadedProdutoSoldWithoutStockChange(db: Db, snap: Snapshot, form: SaleForm, session: Option<string>, now: string, calls: Calls)
    requires form.kind == ProdutoItem
    requires !MissingAField(form) && SelectedCliente(snap.clientes, form.cliente).Some?
    requires ParseInt(form.item).Some? && FindById(snap.produtos, ProdutoId, ParseInt(form.item).value).None?
    requires session.Some? && calls.insertOk
    ensures var r := SubmitSale(db, snap, form, session, now, calls);
      r.outcome.Recorded? && r.db.produtos == db.produtos && |r.db.vendas| == |db.vendas| + 1
  {
  }

  /** When the item update fails, the venda already inserted stays in the table. */
  lemma FailedUpdateLeavesVenda(db: Db, snap: Snapshot, form: SaleForm, session: Option<string>, now: string, calls: Calls)
    requires SubmitSale(db, snap, form, session, now, calls).outcome == Failed(ItemUpdateFailed)
    ensures var r := SubmitSale(db, snap, form, session, now, calls);
      |r.db.vendas| == |db.vendas| + 1 && r.db.obras == db.obras && r.db.produtos == db.produtos
  {
    SubmitSaleEffects(db, snap, form, session, now, calls);
  }

  /**
   * The stock written is the loaded stock minus one even when the table has
   * moved on since the page loaded it (a decrement can be lost).
   */
  lemma StockComesFromLoadedList(db: Db, snap: Snapshot, form: SaleForm, session: Option<string>, now: string, calls: Calls, k: nat)
    requires form.kind == ProdutoItem && k < |db.produtos|
    requires SubmitSale(db, snap, form, session, now, calls).outcome.Recorded?
    requires Some(db.produtos[k].id) == ParseInt(form.item)
    requires FindById(snap.produtos, ProdutoId, db.produtos[k].id).Some?
    ensures SubmitSale(db, snap, form, session, now, calls).db.produtos[k].data.quantidadeEstoque
         == FindById(snap.produtos, ProdutoId, db.produtos[k].id).value.data.quantidadeEstoque - 1
  {
  }

  /** Choosing a loaded client in the dialog (which stores `id.toString()`) always passes the client check. */
  lemma ChosenClienteIsFound(clientes: seq<Cliente>, c: Cliente)
    requires c in clientes
    ensures SelectedCliente(clientes, IntToString(c.id)).Some?
    ensures SelectedCliente(clientes, IntToString(c.id)).value.id == c.id
  {
    ParseIntToString(c.id);
  }

  /** An entry of the item picker. */
  datatype Item = Item(id: int, nome: string)

  function ObraItems(s: seq<Obra>): (r: seq<Item>)
    ensures |r| == |s| && forall i :: 0 <= i < |s| ==> r[i] == Item(s[i].id, s[i].data.nome)
  {
    if s == [] then [] else [Item(s[0].id, s[0].data.nome)] + ObraItems(s[1..])
  }

  function ProdutoItems(s: seq<Produto>): (r: seq<Item>)
    ensures |r| == |s| && forall i :: 0 <= i < |s| ==> r[i] == Item(s[i].id, s[i].data.nome)
  {
    if s == [] then [] else [Item(s[0].id, s[0].data.nome)] + ProdutoItems(s[1..])
  }

  /** `availableItems`: the picker offers the on-display artworks or the in-stock products the page loaded. */
  function AvailableItems(kind: ItemKind, obrasDisponiveis: seq<Obra>, produtos: seq<Produto>): (r: seq<Item>)
    ensures kind == ObraItem ==> |r| == |obrasDisponiveis|
    ensures kind == ObraItem ==> forall i :: 0 <= i < |r| ==> r[i] == Item(obrasDisponiveis[i].id, obrasDisponiveis[i].data.nome)
    ensures kind == ProdutoItem ==> |r| == |produtos|
    ensures kind == ProdutoItem ==> forall i :: 0 <= i < |r| ==> r[i] == Item(produtos[i].id, produtos[i].data.nome)
  {
    match kind
    case ObraItem => ObraItems(obrasDisponiveis)
    case ProdutoItem => ProdutoItems(produtos)
  }

  /** Right after a load, the artwork picker offers exactly the artworks with status `'exposicao'`. */
  lemma ObrasOffered(obras: seq<Obra>, produtos: seq<Produto>, x: Item)
    ensures x in AvailableItems(ObraItem, ObrasDisponiveis(obras), ProdutosEmEstoque(produtos)) <==>
      exists o :: o in obras && OnDisplay(o) && x == Item(o.id, o.data.nome)
  {
    var os := ObrasDisponiveis(obras);
    if x in ObraItems(os) {
      var i :| 0 <= i < |os| && ObraItems(os)[i] == x;
      assert os[i] in os;
    }
    if exists o :: o in obras && OnDisplay(o) && x == Item(o.id, o.data.nome) {
      var o :| o in obras && OnDisplay(o) && x == Item(o.id, o.data.nome);
      var i :| 0 <= i < |os| && os[i] == o;
      assert ObraItems(os)[i] == x;
    }
  }

  /** Right after a load, the product picker offers exactly the products with stock above 0. */
  lemma ProdutosOffered(obras: seq<Obra>, produtos: seq<Produto>, x: Item)
    ensures x in AvailableItems(ProdutoItem, ObrasDisponiveis(obras), ProdutosEmEstoque(produtos)) <==>
      exists p :: p in produtos && InStock(p) && x == Item(p.id, p.data.nome)
  {
    var ps := ProdutosEmEstoque(produtos);
    if x in ProdutoItems(ps) {
      var i :| 0 <= i < |ps| && ProdutoItems(ps)[i] == x;
      assert ps[i] in ps;
    }
    if exists p :: p in produtos && InStock(p) && x == Item(p.id, p.data.nome) {
      var p :| p in produtos && InStock(p) && x == Item(p.id, p.data.nome);
      var i :| 0 <= i < |ps| && ps[i] == p;
      assert ProdutoItems(ps)[i] == x;
    }
  }

  /** `getClienteNome` of the sales list: the client's name, or `'N/A'` when not found or empty. */
  function ClienteNome(clientes: seq<Cliente>, id: int): (r: string)
    ensures r != ""
    ensures (forall c :: c in clientes ==> c.id != id) ==> r == "N/A"
    ensures r != "N/A" ==> exists c :: c in clientes && c.id == id && c.nome == r
    ensures var found := FindById(clientes, ClienteId, id);
      found.Some? && found.value.nome != "" ==> r == found.value.nome
    ensures var found := FindById(clientes, ClienteId, id);
      found.None? || found.value.nome == "" ==> r == "N/A"
  {
    match FindById(clientes, ClienteId, id)
    case None => "N/A"
    case Some(c) => if c.nome == "" then "N/A" else c.nome
  }

  /**
   * `getItemNome`: an artwork is looked up among all artworks, a product among
   * the loaded (in-stock) products only, so a sold-out product shows `'N/A'`.
   */
  function ItemNome(todasObras: seq<Obra>, produtos: seq<Produto>, kind: ItemKind, id: int): (r: string)
    ensures r != ""
    ensures kind == ObraItem && (forall o :: o in todasObras ==> o.id != id) ==> r == "N/A"
    ensures kind == ProdutoItem && (forall p :: p in produtos ==> p.id != id) ==> r == "N/A"
    ensures kind == ObraItem && r != "N/A" ==> exists o :: o in todasObras && o.id == id && o.data.nome == r
    ensures kind == ProdutoItem && r != "N/A" ==> exists p :: p in produtos && p.id == id && p.data.nome == r
    ensures var found := FindById(todasObras, ObraId, id);
      kind == ObraItem ==> r == if found.Some? && found.value.data.nome != "" then found.value.data.nome else "N/A"
    ensures var found := FindById(produtos, ProdutoId, id);
      kind == ProdutoItem ==> r == if found.Some? && found.value.data.nome != "" then found.value.data.nome else "N/A"
  {
    match kind
    case ObraItem =>
      (match FindById(todasObras, ObraId, id)
       case None => "N/A"
       case Some(o) => if o.data.nome == "" then "N/A" else o.data.nome)
    case ProdutoItem =>
      (match FindById(produtos, ProdutoId, id)
       case None => "N/A"
       case Some(p) => if p.data.nome == "" then "N/A" else p.data.nome)
  }

  /** With unique client ids, a sale's client shows under the client's name when it has one. */
  lemma ClienteNomeOfBuyer(clientes: seq<Cliente>, c: Cliente)
    requires UniqueIds(clientes, ClienteId) && c in clientes && c.nome != ""
    ensures ClienteNome(clientes, c.id) == c.nome
  {
    FindUniqueId(clientes, ClienteId, c);
  }

  /** With unique artwork ids, a sold artwork shows under its name when it has one. */
  lemma ItemNomeOfObra(todasObras: seq<Obra>, produtos: seq<Produto>, o: Obra)
    requires UniqueIds(todasObras, ObraId) && o in todasObras && o.data.nome != ""
    ensures ItemNome(todasObras, produtos, ObraItem, o.id) == o.data.nome
  {
    FindUniqueId(todasObras, ObraId, o);
  }

  /** With unique product ids, a sold product still in the loaded list shows under its name when it has one. */
  lemma ItemNomeOfProduto(todasObras: seq<Obra>, produtos: seq<Produto>, p: Produto)
    requires UniqueIds(produtos, ProdutoId) && p in produtos && p.data.nome != ""
    ensures ItemNome(todasObras, produtos, ProdutoItem, p.id) == p.data.nome
  {
    FindUniqueId(produtos, ProdutoId, p);
  }

  /** Which of the four lists reloaded after a sale actually loaded (each call may fail on its own). */
  datatype Reloads = Reloads(vendas: bool, todasObras: bool, obrasDisponiveis: bool, produtos: bool)

  /** The sales page together with the store tables it reads and writes. */
  class SalesPage {
    // The store's tables.
    var clientes: seq<Cliente>
    var obras: seq<Obra>
    var produtos: seq<Produto>
    var vendas: seq<Venda>
    var nextVendaId: int
    // The lists the page has loaded.
    var loadedVendas: seq<Venda>
    var loadedClientes: seq<Cliente>
    var todasObras: seq<Obra>
    var obrasDisponiveis: seq<Obra>
    var loadedProdutos: seq<Produto>
    // The sale dialog.
    var form: SaleForm

    function Tables(): Db
      reads this
    {
      Db(clientes, obras, produtos, vendas, nextVendaId)
    }

    function Loaded(): Snapshot
      reads this
    {
      Snapshot(loadedClientes, loadedProdutos)
    }

    /** The offered lists came through the sellable filters. */
    ghost predicate Valid()
      reads this
    {
      && (forall o :: o in obrasDisponiveis ==> OnDisplay(o))
      && (forall p :: p in loadedProdutos ==> InStock(p))
    }

    /** The page before its first loads, over a store holding `db`. */
    constructor (db: Db)
      ensures Valid() && Tables() == db && form == BlankSaleForm
      ensures loadedVendas == [] && loadedClientes == [] && todasObras == []
      ensures obrasDisponiveis == [] && loadedProdutos == []
    {
      clientes, obras, produtos, vendas, nextVendaId := db.clientes, db.obras, db.produtos, db.vendas, db.nextVendaId;
      loadedVendas, loadedClientes, todasObras, obrasDisponiveis, loadedProdutos := [], [], [], [], [];
      form := BlankSaleForm;
    }

    /** `loadVendas`; a failed query keeps the previous list. */
    method LoadVendas(ok: bool)
      modifies this`loadedVendas
      ensures loadedVendas == if ok then vendas else old(loadedVendas)
    {
      if ok {
        loadedVendas := vendas;
      }
    }

    /** `loadClientes`. */
    method LoadClientes(ok: bool)
      modifies this`loadedClientes
      ensures loadedClientes == if ok then clientes else old(loadedClientes)
    {
      if ok {
        loadedClientes := clientes;
      }
    }

    /** `loadTodasObras`. */
    method LoadTodasObras(ok: bool)
      modifies this`todasObras
      ensures todasObras == if ok then obras else old(todasObras)
    {
      if ok {
        todasObras := obras;
      }
    }

    /** `loadObrasDisponiveis`: the artworks with status `'exposicao'`. */
    method LoadObrasDisponiveis(ok: bool)
      requires Valid()
      modifies this`obrasDisponiveis
      ensures Valid()
      ensures obrasDisponiveis == if ok then ObrasDisponiveis(obras) else old(obrasDisponiveis)
    {
      if ok {
        obrasDisponiveis := ObrasDisponiveis(obras);
      }
    }

    /** `loadProdutos`: the products with stock greater than 0. */
    method LoadProdutos(ok: bool)
      requires Valid()
      modifies this`loadedProdutos
      ensures Valid()
      ensures loadedProdutos == if ok then ProdutosEmEstoque(produtos) else old(loadedProdutos)
    {
      if ok {
        loadedProdutos := ProdutosEmEstoque(produtos);
      }
    }

    /** `resetForm`. */
    method ResetForm()
      modifies this`form
      ensures form == BlankSaleForm
    {
      form := form.(cliente := "");
      form := form.(kind := ObraItem);
      form := form.(item := "");
      form := form.(valorTotal := Money(""));
    }

    /** Picking a client stores its id as text. */
    method ChooseCliente(c: Cliente)
      modifies this`form
      ensures form == old(form).(cliente := IntToString(c.id))
    {
      form := form.(cliente := IntToString(c.id));
    }

    /** Switching between artwork and product clears the chosen item. */
    method ChooseItemKind(kind: ItemKind)
      modifies this`form
      ensures form == old(form).(kind := kind, item := "")
    {
      form := form.(kind := kind);
      form := form.(item := "");
    }

    /** Picking an item stores its id as text. */
    method ChooseItem(it: Item)
      modifies this`form
      ensures form == old(form).(item := IntToString(it.id))
    {
      form := form.(item := IntToString(it.id));
    }

    /** Typing the amount. */
    method EnterValorTotal(text: string)
      modifies this`form
      ensures form == old(form).(valorTotal := Money(text))
    {
      form := form.(valorTotal := Money(text));
    }

    /**
     * The checks and the two writes of `handleSubmit`, up to the point where
     * the page reports success.
     */
    method WriteSale(session: Option<string>, now: string, calls: Calls) returns (outcome: Outcome)
      modifies this`vendas, this`nextVendaId, this`obras, this`produtos
      ensures var r := SubmitSale(old(Tables()), old(Loaded()), old(form), session, now, calls);
        Tables() == r.db && outcome == r.outcome
    {
      var check := Validate(session);
      if check.Refuse? {
        return check.outcome;
      }
      outcome := InsertAndUpdate(check.buyer, session, now, calls);
    }

    /** The venda insert and the item update of `handleSubmit`, for a sale that passed the checks. */
    method InsertAndUpdate(buyer: Cliente, session: Option<string>, now: string, calls: Calls) returns (outcome: Outcome)
      modifies this`vendas, this`nextVendaId, this`obras, this`produtos
      ensures var r := RecordSale(old(Tables()), Loaded(), form, buyer, session, now, calls);
        Tables() == r.db && outcome == r.outcome
    {
      var itemId := ParseInt(form.item);
      if !calls.insertOk || itemId.None? {
        return Failed(VendaInsertFailed);
      }
      outcome := InsertThenUpdate(buyer, session, now, calls, itemId.value);
    }

    /** Both writes, once the venda insert is known to go through with the parsed item id. */
    method InsertThenUpdate(buyer: Cliente, session: Option<string>, now: string, calls: Calls, itemId: int) returns (outcome: Outcome)
      requires calls.insertOk && ParseInt(form.item) == Some(itemId)
      modifies this`vendas, this`nextVendaId, this`obras, this`produtos
      ensures var r := RecordSale(old(Tables()), Loaded(), form, buyer, session, now, calls);
        Tables() == r.db && outcome == r.outcome
    {
      ghost var before, snap := Tables(), Loaded();
      var venda := InsertVenda(buyer, session, now, itemId);
      ghost var written := Tables();
      ghost var expected := if form.kind == ObraItem then SellObra(written, venda, calls) else SellProduto(written, snap, venda, calls);
      assert RecordSale(before, snap, form, buyer, session, now, calls) == expected by {
        RecordSaleAfterInsert(before, snap, form, buyer, session, now, calls, venda, written);
      }
      outcome := UpdateItem(venda, calls);
      assert Loaded() == snap;
      assert Tables() == expected.db && outcome == expected.outcome;
    }

    /** The item update of `handleSubmit`, chosen by the kind of item sold. */
    method UpdateItem(venda: Venda, calls: Calls) returns (outcome: Outcome)
      requires venda.clienteId.Some?
      modifies this`obras, this`produtos
      ensures var r := if form.kind == ObraItem then SellObra(old(Tables()), venda, calls) else SellProduto(old(Tables()), Loaded(), venda, calls);
        Tables() == r.db && outcome == r.outcome
    {
      if form.kind == ObraItem {
        outcome := UpdateObra(venda, calls);
      } else {
        outcome := UpdateProduto(venda, calls);
      }
    }

    /** The venda insert: the new row, with the next id, goes at the end of the table. */
    method InsertVenda(buyer: Cliente, session: Option<string>, now: string, itemId: int) returns (venda: Venda)
      modifies this`vendas, this`nextVendaId
      ensures venda == Venda(old(nextVendaId), Some(buyer.id), session, form.kind, itemId, now, form.valorTotal)
      ensures Tables() == old(Tables()).(vendas := old(vendas) + [venda], nextVendaId := old(nextVendaId) + 1)
    {
      venda := Venda(nextVendaId, Some(buyer.id), session, form.kind, itemId, now, form.valorTotal);
      vendas := vendas + [venda];
      nextVendaId := nextVendaId + 1;
    }

    /** The checks of `handleSubmit` before the first write; nothing changes. */
    method Validate(session: Option<string>) returns (check: Check)
      ensures check == CheckSale(loadedClientes, form, session)
    {
      if form.cliente == "" || form.item == "" || form.valorTotal.text == "" {
        return Refuse(Rejected(MissingField));
      }
      var selected := SelectedCliente(loadedClientes, form.cliente);
      if selected.None? {
        return Refuse(Rejected(InvalidCliente));
      }
      if session.None? {
        return Refuse(Failed(NotAuthenticated));
      }
      check := Proceed(selected.value);
    }

    /** The artwork update of `handleSubmit`, after the venda insert. */
    method UpdateObra(venda: Venda, calls: Calls) returns (outcome: Outcome)
      requires venda.clienteId.Some?
      modifies this`obras
      ensures var r := SellObra(old(Tables()), venda, calls);
        Tables() == r.db && outcome == r.outcome
    {
      if !calls.updateOk {
        return Failed(ItemUpdateFailed);
      }
      obras := UpdateById(obras, ObraId, venda.itemId, SellTo(venda.clienteId.value));
      outcome := Recorded(venda);
    }

    /** The product update of `handleSubmit`, after the venda insert; the stock comes from the loaded list. */
    method UpdateProduto(venda: Venda, calls: Calls) returns (outcome: Outcome)
      modifies this`produtos
      ensures var r := SellProduto(old(Tables()), Loaded(), venda, calls);
        Tables() == r.db && outcome == r.outcome
    {
      var produto := FindById(loadedProdutos, ProdutoId, venda.itemId);
      if produto.Some? {
        if !calls.updateOk {
          return Failed(ItemUpdateFailed);
        }
        produtos := UpdateById(produtos, ProdutoId, venda.itemId, SetStock(produto.value.data.quantidadeEstoque - 1));
      }
      outcome := Recorded(venda);
    }

    /** After a sale that went through (`sold`): clear the dialog and reload the four lists. */
    method RefreshAfterSale(sold: bool, reloads: Reloads)
      requires Valid()
      modifies this`form, this`loadedVendas, this`todasObras, this`obrasDisponiveis, this`loadedProdutos
      ensures Valid()
      ensures sold ==>
        && form == BlankSaleForm
        && loadedVendas == (if reloads.vendas then vendas else old(loadedVendas))
        && todasObras == (if reloads.todasObras then obras else old(todasObras))
        && obrasDisponiveis == (if reloads.obrasDisponiveis then ObrasDisponiveis(obras) else old(obrasDisponiveis))
        && loadedProdutos == (if reloads.produtos then ProdutosEmEstoque(produtos) else old(loadedProdutos))
      ensures !sold ==>
        && form == old(form) && loadedVendas == old(loadedVendas) && todasObras == old(todasObras)
        && obrasDisponiveis == old(obrasDisponiveis) && loadedProdutos == old(loadedProdutos)
    {
      if sold {
        ResetForm();
        LoadVendas(reloads.vendas);
        LoadTodasObras(reloads.todasObras);
        LoadObrasDisponiveis(reloads.obrasDisponiveis);
        LoadProdutos(reloads.produtos);
      }
    }

    /**
     * `handleSubmit`: validate the dialog, insert the venda, update the sold
     * item; after a sale that went through, clear the dialog and reload the
     * sales, artworks, offered artworks and products.
     */
    method HandleSubmit(session: Option<string>, now: string, calls: Calls, reloads: Reloads) returns (outcome: Outcome)
      requires Valid()
      modifies this
      ensures Valid()
      ensures Tables() == SubmitSale(old(Tables()), old(Loaded()), old(form), session, now, calls).db
      ensures outcome == SubmitSale(old(Tables()), old(Loaded()), old(form), session, now, calls).outcome
      ensures loadedClientes == old(loadedClientes)
      ensures NoNegativeStock(old(produtos)) ==> NoNegativeStock(produtos)
      ensures outcome.Recorded? ==>
        && form == BlankSaleForm
        && loadedVendas == (if reloads.vendas then vendas else old(loadedVendas))
        && todasObras == (if reloads.todasObras then obras else old(todasObras))
        && obrasDisponiveis == (if reloads.obrasDisponiveis then ObrasDisponiveis(obras) else old(obrasDisponiveis))
        && loadedProdutos == (if reloads.produtos then ProdutosEmEstoque(produtos) else old(loadedProdutos))
      ensures !outcome.Recorded? ==>
        && form == old(form) && loadedVendas == old(loadedVendas) && todasObras == old(todasObras)
        && obrasDisponiveis == old(obrasDisponiveis) && loadedProdutos == old(loadedProdutos)
    {
      ghost var sale := SubmitSale(Tables(), Loaded(), form, session, now, calls);
      outcome := WriteSale(session, now, calls);
      assert Tables() == sale.db && outcome == sale.outcome;
      RefreshAfterSale(outcome.Recorded?, reloads);
      assert Tables() == sale.db;
      if NoNegativeStock(old(produtos)) {
        SaleKeepsStockNonNegative(old(Tables()), old(Loaded()), old(form), session, now, calls);
      }
    }
  }
}
