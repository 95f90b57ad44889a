/**
 * The rows of the gallery's tables. Field nullability follows the generated
 * table types: a nullable column is an `Option`. Timestamps the store fills in
 * (`created_at`) are not modelled; `data_venda` is an opaque text.
 */
module Records {
  import opened Wrappers

  /** A calendar date already decoded from its ISO text. */
  datatype Date = Date(year: int, month: int, day: int)

  /** An amount of money, kept as the text it was entered as and passed through unchanged. */
  datatype Money = Money(text: string)

  datatype Cliente = Cliente(
    id: int,
    nome: string,
    endereco: Option<string>,
    dataNascimento: Option<Date>,
    telefone: Option<string>)

  /** Where an artwork is: `'cliente'` (with its owner) or `'exposicao'` (on display, for sale). */
  datatype ObraStatus = ComCliente | EmExposicao

  /** The columns of an `obras` row other than its id: what the edit form writes. */
  datatype ObraData = ObraData(
    nome: string,
    numeroIdentificacao: Option<string>,
    colecao: Option<string>,
    certificado: Option<string>,
    status: Option<ObraStatus>,
    clienteId: Option<int>,
    imagemPath: Option<string>)

  datatype Obra = Obra(id: int, data: ObraData)

  /** The columns of a `produtos` row other than its id. */
  datatype ProdutoData = ProdutoData(
    nome: string,
    tipoProduto: Option<string>,
    imagemPath: Option<string>,
    obraId: Option<int>,
    quantidadeEstoque: int,
    valor: Money)

  datatype Produto = Produto(id: int, data: ProdutoData)

  /** `tipo_item` of a sale: `'obra'` or `'produto'`. */
  datatype ItemKind = ObraItem | ProdutoItem

  datatype Venda = Venda(
    id: int,
    clienteId: Option<int>,
    vendedorAuthId: Option<string>,
    tipoItem: ItemKind,
    itemId: int,
    dataVenda: string,
    valorTotal: Money)

  function ClienteId(c: Cliente): int { c.id }
  function ObraId(o: Obra): int { o.id }
  function ProdutoId(p: Produto): int { p.id }
  function VendaId(v: Venda): int { v.id }

  /** An artwork that may be sold: status `'exposicao'`. */
  predicate OnDisplay(o: Obra) { o.data.status == Some(EmExposicao) }

  /** A product that may be sold: stock greater than 0. */
  predicate InStock(p: Produto) { p.data.quantidadeEstoque > 0 }

  /** No product in `ps` has a stock below 0. */
  predicate NoNegativeStock(ps: seq<Produto>) {
    forall p :: p in ps ==> p.data.quantidadeEstoque >= 0
  }

  /** An artwork marked as being with a client names that client. */
  predicate OwnerRecorded(o: Obra) { o.data.status == Some(ComCliente) ==> o.data.clienteId.Some? }
}
