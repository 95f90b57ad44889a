# Gallery sales and catalogue pages: a Dafny model

This project models the decision logic of an art gallery's management web
client. The backend tables are replaced by in-memory tables. Each call to the
hosted store (insert, update, delete, query, file upload) is reduced to a
boolean outcome that the caller passes in.

- **Sales page** (`Vendas`): recording a sale. `SubmitSale` is the whole
  `handleSubmit` as a function over the store's tables, and the lemma
  `SubmitSaleEffects` states what it does. The class
  `SalesPage` holds the tables, the lists the page loaded and the sale dialog.
  Its `HandleSubmit` method runs the same steps one at a time and is proved
  equal to `SubmitSale`. The model keeps the code's gaps:
  - The artwork's status is not checked again when it is written.
  - Nothing undoes the venda insert when the item update fails.
  - A product that is not in the loaded list is recorded as sold without any
    stock change.
  - The new stock is the loaded stock minus one, not the table's.
- **Artworks page** (`Obras`) and **products page** (`Produtos`):
  - the pure form-to-row builders and the edit-form mapping, with their round trips;
  - saving (update by id, or insert) and deleting, over a table with unique ids;
  - the name lookups shown in the lists;
  - the image upload check and storage path (`Uploads`).

  Each page is also a class whose methods change the table and the form in place.
- **Birthdays** (`Aniversariantes`, `Dashboard`): the day-and-month filter, its
  duplicate on the dashboard, the count label, the empty state, the banner
  condition and the first name in the greeting.

Helper modules:
- `Wrappers`: `Option`.
- `JsText`: the JavaScript conversions the pages rely on. These are `parseInt`,
  `toString`, `x || null`, `x || ''`, `startsWith`, `split(sep).pop()` and
  `split(sep)[0]`.
- `Tables`: `find`, `filter`, update by id and delete by id, over a sequence of rows.
- `Records`: the row types. Nullability follows the generated table types.

Dates are already decoded `(year, month, day)` triples. Money (`valor`,
`valor_total`) is an opaque text passed through unchanged.

## What the sale does not check

- The sale does not check the item's status or stock again before writing.
  Its outcome does not depend on the artwork or product rows in the store
  (`Vendas.OutcomeIgnoresItemRows`), and an artwork that already has a client
  is sold again (`Vendas.SoldObraSoldAgain`).
- A failed item update is reported (`ItemUpdateFailed`), but the venda row
  inserted before it stays (`Vendas.FailedUpdateLeavesVenda`).
- A product that is not in the loaded list is recorded as sold, and no stock
  changes (`Vendas.UnloadedProdutoSoldWithoutStockChange`).
- The artworks form can save status `'cliente'` with no client picked. The
  artwork then has no owner (`Obras.WithClientButNoOwner`).

## Model

| member | source | states |
|---|---|---|
| `Vendas.ObrasDisponiveis` | src/pages/Vendas.tsx:95-108 | the offered artworks are exactly the artworks with status `'exposicao'` |
| `Vendas.ProdutosEmEstoque` | src/pages/Vendas.tsx:110-123 | the loaded products are exactly those with stock greater than 0 |
| `Vendas.SelectedCliente` | src/pages/Vendas.tsx:131-135 | a client is found exactly when some loaded client's id equals `parseInt` of the chosen text; NaN finds none |
| `Vendas.CheckSale` | src/pages/Vendas.tsx:126-139 | an empty field rejects first; then a client that is not loaded; then a missing session; otherwise the sale proceeds with the found client |
| `Vendas.SubmitSaleEffects` | src/pages/Vendas.tsx:125-178 | the rejections and a failed insert leave every table as it was; the clients never change; a written venda is exactly one appended row carrying the client, the session user, the item kind and id, the amount and the timestamp, with earlier rows untouched; obras and produtos change only on a recorded sale, and only the table of the sold kind |
| `Vendas.SubmitSale` | src/pages/Vendas.tsx:125-178 | the clients are never written; a rejection, a missing session or a failed authentication check leaves every table as it was |
| `Vendas.RecordSale` | src/pages/Vendas.tsx:141-178 | once the checks have passed, the sale is never rejected; a failed venda insert leaves every table as it was; the clients are never written |
| `Vendas.RecordSaleSteps` | src/pages/Vendas.tsx:141-178 | the insert fails exactly when the store call fails or the item id is NaN, and then nothing changes; otherwise the venda row is appended before the item update |
| `Vendas.SellObra` | src/pages/Vendas.tsx:156-165 | the outcome is recorded exactly when the update call goes through and a failure otherwise; only the artwork table can change, and it keeps its length |
| `Vendas.SellObraRows` | src/pages/Vendas.tsx:156-165 | a successful update sets every row with the item's id to status `'cliente'` owned by the buyer and leaves every other row unchanged; a failed update changes no row |
| `Vendas.SellProduto` | src/pages/Vendas.tsx:166-177 | a product missing from the loaded list is not written and the sale counts as recorded; otherwise the outcome is recorded exactly when the update call goes through; only the product table can change, and it keeps its length |
| `Vendas.SellProdutoRows` | src/pages/Vendas.tsx:166-177 | the rows with the item's id get the loaded stock minus 1 when the product was loaded and the call went through; every other row is unchanged |
| `Vendas.SoldTo` | src/pages/Vendas.tsx:159-162 | the sold artwork keeps its id and every column except status (now `'cliente'`) and owner (now the buyer) |
| `Vendas.WithStock` | src/pages/Vendas.tsx:171-173 | the product keeps its id and every column except the stock |
| `Vendas.RecordedSaleShape` | src/pages/Vendas.tsx:141-178 | a recorded sale is `SellObra` or `SellProduto` applied to the store's own artwork and product rows, with a venda that names the buyer and the chosen kind |
| `Vendas.SaleKeepsOwnerRecorded` | src/pages/Vendas.tsx:156-165 | if every artwork with status `'cliente'` names its owner before a sale, that still holds after it |
| `Vendas.SaleKeepsStockNonNegative` | src/pages/Vendas.tsx:110-177 | when the loaded products all have stock above 0 and no stock is negative, no stock is negative after a sale |
| `Vendas.SoldObraLeavesSale` | src/pages/Vendas.tsx:156-186 | after a recorded artwork sale, the reloaded offered artworks do not include the sold id |
| `Vendas.SoldOutProdutoLeavesSale` | src/pages/Vendas.tsx:110-186 | after selling a product whose loaded stock was 1, the reloaded products do not include it |
| `Vendas.OutcomeIgnoresItemRows` | src/pages/Vendas.tsx:137-178 | the outcome of a sale does not depend on the artwork or product rows in the store: there is no check of availability at write time |
| `Vendas.SoldObraSoldAgain` | src/pages/Vendas.tsx:156-165 | an artwork already with a client is sold again and handed to the new buyer |
| `Vendas.UnloadedProdutoSoldWithoutStockChange` | src/pages/Vendas.tsx:166-177 | a product that is not in the loaded list is recorded as sold, a venda is added and no stock changes |
| `Vendas.FailedUpdateLeavesVenda` | src/pages/Vendas.tsx:153-176 | when the item update fails, the venda inserted before it stays and no item changes |
| `Vendas.StockComesFromLoadedList` | src/pages/Vendas.tsx:167-174 | the stock written is the loaded stock minus 1, whatever the table holds now |
| `Vendas.ChosenClienteIsFound` | src/pages/Vendas.tsx:274 | the id text the client picker stores always finds that client again |
| `Vendas.ObrasOffered` | src/pages/Vendas.tsx:216 | right after loading, the artwork picker offers exactly the artworks with status `'exposicao'` |
| `Vendas.ProdutosOffered` | src/pages/Vendas.tsx:216 | right after loading, the product picker offers exactly the products with stock above 0 |
| `Vendas.ClienteNome` | src/pages/Vendas.tsx:200-203 | the name of the first loaded client with the id when that name is not empty; `'N/A'` when no client has the id or its name is empty |
| `Vendas.ItemNome` | src/pages/Vendas.tsx:205-213 | an artwork is looked up among all artworks and a product among the loaded products only; the first row with the id gives its name when that name is not empty, and `'N/A'` is shown otherwise |
| `Vendas.ClienteNomeOfBuyer` | src/pages/Vendas.tsx:200-203 | with unique client ids, a sale's loaded buyer with a name shows under that name |
| `Vendas.ItemNomeOfObra` | src/pages/Vendas.tsx:205-209 | with unique artwork ids, a sold artwork with a name shows under that name |
| `Vendas.ItemNomeOfProduto` | src/pages/Vendas.tsx:205-213 | with unique product ids, a loaded product with a name shows under that name |
| `Vendas.AvailableItems` | src/pages/Vendas.tsx:216 | the picker offers one entry per on-display artwork or per loaded product, according to the item kind, in list order, each with the row's id and name |
| `Vendas.SalesPage.LoadVendas` | src/pages/Vendas.tsx:50-65 | a successful load copies the venda table; a failed one keeps the list |
| `Vendas.SalesPage.LoadClientes` | src/pages/Vendas.tsx:67-79 | a successful load copies the client table; a failed one keeps the list |
| `Vendas.SalesPage.LoadTodasObras` | src/pages/Vendas.tsx:81-93 | a successful load copies the artwork table; a failed one keeps the list |
| `Vendas.SalesPage.LoadObrasDisponiveis` | src/pages/Vendas.tsx:95-108 | a successful load replaces the list with the on-display artworks; the offered list only ever holds on-display artworks |
| `Vendas.SalesPage.LoadProdutos` | src/pages/Vendas.tsx:110-123 | a successful load replaces the list with the in-stock products; the list only ever holds products in stock |
| `Vendas.SalesPage.ResetForm` | src/pages/Vendas.tsx:193-198 | the dialog is empty with item kind `'obra'` |
| `Vendas.SalesPage.ChooseCliente` | src/pages/Vendas.tsx:274 | the picked client's id is stored as its decimal text; nothing else changes |
| `Vendas.SalesPage.ChooseItemKind` | src/pages/Vendas.tsx:296-299 | switching the item kind clears the chosen item |
| `Vendas.SalesPage.ChooseItem` | src/pages/Vendas.tsx:335 | the picked item's id is stored as its decimal text |
| `Vendas.SalesPage.EnterValorTotal` | src/pages/Vendas.tsx:367 | the amount text is stored unchanged |
| `Vendas.SalesPage.Validate` | src/pages/Vendas.tsx:126-139 | the checks before the first write, computed without changing anything, agree with `CheckSale` |
| `Vendas.SalesPage.UpdateObra` | src/pages/Vendas.tsx:156-165 | the in-place artwork update leaves the tables as `SellObra` says |
| `Vendas.SalesPage.UpdateProduto` | src/pages/Vendas.tsx:166-177 | the in-place stock update leaves the tables as `SellProduto` says |
| `Vendas.SalesPage.InsertAndUpdate` | src/pages/Vendas.tsx:141-178 | the append and the item update leave the tables as `RecordSale` says |
| `Vendas.SalesPage.InsertThenUpdate` | src/pages/Vendas.tsx:141-178 | once the insert is known to go through, the two writes leave the tables as `RecordSale` says |
| `Vendas.SalesPage.InsertVenda` | src/pages/Vendas.tsx:141-152 | the new venda carries the next id, the buyer, the session user, the kind, the item id, the timestamp and the amount, and is appended after the existing rows; nothing else changes |
| `Vendas.SalesPage.UpdateItem` | src/pages/Vendas.tsx:155-178 | the update made is the artwork one or the product one according to the chosen kind |
| `Vendas.SalesPage.WriteSale` | src/pages/Vendas.tsx:125-178 | the tables and the outcome after the steps are those of `SubmitSale` on the state before |
| `Vendas.SalesPage.RefreshAfterSale` | src/pages/Vendas.tsx:180-186 | after a sale that went through, the dialog is reset and each list that reloads holds the new table; otherwise nothing changes |
| `Vendas.SalesPage.HandleSubmit` | src/pages/Vendas.tsx:125-191 | the store ends as `SubmitSale` says; the loaded clients stay; if no stock was negative before, none is after; after a recorded sale the dialog is cleared and the lists reload; after anything else the page state stays |
| `Obras.MissingRequired` | src/pages/Obras.tsx:236-244 | the two `required` inputs let the form through exactly when the built artwork has a non-empty name and a non-empty identification number |
| `Obras.BuildObraData` | src/pages/Obras.tsx:127-135 | empty collection, certificate and image become null and non-empty ones pass through; the owner is null unless the status is `'cliente'`, when it is the parsed client id |
| `Obras.EditForm` | src/pages/Obras.tsx:165-176 | null texts show as empty fields; the owner's text parses back to the owner id |
| `Obras.EditRoundTrip` | src/pages/Obras.tsx:127-176 | for null-or-non-empty texts, a set number and an owner only with status `'cliente'`, building the row from the edit form gives back the row's columns |
| `Obras.EditDropsOwnerUnlessWithClient` | src/pages/Obras.tsx:133 | saving the form of an artwork whose status is not `'cliente'` drops any recorded owner |
| `Obras.WithClientButNoOwner` | src/pages/Obras.tsx:133 | status `'cliente'` with no client picked builds an artwork with a client but no owner |
| `Obras.SaveObra` | src/pages/Obras.tsx:137-152 | editing rewrites exactly the rows with the edited id and keeps the others; otherwise exactly one row with the next id is appended; a missing required field or a failed call changes nothing |
| `Obras.SaveKeepsTableValid` | src/pages/Obras.tsx:137-152 | a save keeps ids unique and below the next id |
| `Obras.InsertAddsOneRow` | src/pages/Obras.tsx:145-152 | an insert adds one row, found under the new id with the form's columns |
| `Obras.UnchangedEditKeepsTable` | src/pages/Obras.tsx:125-176 | opening a row for editing and saving it unchanged leaves the table as it was, under the round-trip conditions |
| `Obras.DeleteRemovesThatRow` | src/pages/Obras.tsx:181-185 | after a delete no row has the id, every other row remains, and the table shrinks by one exactly when the id was present |
| `Obras.DeleteKeepsTableValid` | src/pages/Obras.tsx:181-185 | a delete keeps ids unique and below the next id |
| `Obras.ClienteNome` | src/pages/Obras.tsx:203-207 | `'-'` for a null or 0 id and for an unknown id; any other text is the name of a loaded client with that id |
| `Obras.ClienteNomeOfOwner` | src/pages/Obras.tsx:203-207 | with unique client ids, a recorded owner shows under the owner's name |
| `Obras.ObrasPage.Submit` | src/pages/Obras.tsx:125-163 | the table ends as `SaveObra` says and stays valid; after a save the form is reset and nothing is being edited; after a failure both stay |
| `Obras.ObrasPage.Delete` | src/pages/Obras.tsx:178-194 | the table loses the rows with the id only when the user confirms and the call succeeds |
| `Obras.ObrasPage.HandleEdit` | src/pages/Obras.tsx:165-176 | the edited artwork is remembered and the form holds `EditForm` of it |
| `Obras.ObrasPage.CloseDialog` | src/pages/Obras.tsx:196-201 | nothing is being edited and the form is blank |
| `Obras.ObrasPage.HandleImageUpload` | src/pages/Obras.tsx:79-123 | the file is refused or uploaded into the `obras` folder; the form's image changes only after a successful upload, to the public URL of the path |
| `Produtos.BuildProdutoData` | src/pages/Produtos.tsx:148-155 | empty type and image become null; an empty artwork id is null and any other is parsed; the stock is the parsed number, or 0 when unparsable |
| `Produtos.EditForm` | src/pages/Produtos.tsx:195-207 | null texts show as empty fields; the artwork id and the stock parse back to their values |
| `Produtos.EditRoundTrip` | src/pages/Produtos.tsx:148-205 | for null-or-non-empty texts, building the row from the edit form gives back the row's columns; the stock survives `toString` and `parseInt` |
| `Produtos.UnparsableStockIsZero` | src/pages/Produtos.tsx:152 | a stock text that `parseInt` reads as NaN is saved as 0 |
| `Produtos.SubmitBlocked` | src/pages/Produtos.tsx:290-349 | a form the `required` inputs and the stock input's `min="0"` let through builds a product with a name and a price text, and with a stock of at least 0 when the stock text has no exponent |
| `Produtos.SaveProduto` | src/pages/Produtos.tsx:157-180 | editing rewrites exactly the rows with the edited id; otherwise exactly one row with the next id is appended; a blocked form (an empty required field, or a stock text without an exponent read below 0) or a failed call changes nothing |
| `Produtos.SaveKeepsStockNonNegative` | src/pages/Produtos.tsx:157-180 | if no stock is negative before a save of a stock text without an exponent, none is after it |
| `Produtos.TinyNegativeStockSaved` | src/pages/Produtos.tsx:152-180 | the stock text `"-1e-324"`, which the browser submits because its value rounds to 0, is inserted with stock -1, and the table then holds a negative stock |
| `Produtos.TinyNegativeStockText` | src/pages/Produtos.tsx:152 | `parseInt("-1e-324")` is -1 |
| `Produtos.MinusOneStockRefused` | src/pages/Produtos.tsx:330-336 | a stock of `"-1"` is refused by `min="0"` and leaves the table as it was |
| `Produtos.SaveKeepsTableValid` | src/pages/Produtos.tsx:157-180 | a save keeps ids unique and below the next id |
| `Produtos.InsertAddsOneRow` | src/pages/Produtos.tsx:169-180 | an insert adds one row, found under the new id with the form's columns |
| `Produtos.UnchangedEditKeepsTable` | src/pages/Produtos.tsx:144-207 | opening a row for editing and saving it unchanged leaves the table as it was, under the round-trip conditions |
| `Produtos.DeleteRemovesThatRow` | src/pages/Produtos.tsx:212-216 | after a delete no row has the id, every other row remains, and the table shrinks by one exactly when the id was present |
| `Produtos.DeleteKeepsTableValid` | src/pages/Produtos.tsx:212-216 | a delete keeps ids unique and below the next id |
| `Produtos.ObraNome` | src/pages/Produtos.tsx:249-253 | "Sem obra" for a null or 0 id, "Obra não encontrada" for an unknown id, otherwise the name of a loaded artwork with that id |
| `Produtos.ObraNomeOfLinked` | src/pages/Produtos.tsx:249-253 | with unique artwork ids, a linked artwork shows under its own name |
| `Produtos.ProdutosPage.ResetForm` | src/pages/Produtos.tsx:236-247 | stock `"0"`, every other field empty, nothing being edited |
| `Produtos.ProdutosPage.Submit` | src/pages/Produtos.tsx:144-193 | the table ends as `SaveProduto` says and stays valid; a table without a negative stock keeps that property when the stock text has no exponent; a save happens exactly when the form is not blocked and the call succeeds; after a save the form is reset; after a failure form and edited product stay |
| `Produtos.ProdutosPage.Delete` | src/pages/Produtos.tsx:209-234 | the table loses the rows with the id only when the user confirms and the call succeeds; a table without a negative stock keeps that property |
| `Produtos.ProdutosPage.HandleEdit` | src/pages/Produtos.tsx:195-207 | the edited product is remembered and the form holds `EditForm` of it |
| `Produtos.ProdutosPage.HandleImageUpload` | src/pages/Produtos.tsx:86-142 | the file is refused or uploaded into the `produtos` folder; the form's image changes only after a successful upload |
| `Uploads.CheckImage` | src/pages/Obras.tsx:83-93 | accepted exactly when the type starts with `image/` and the size is at most 5·1024·1024 bytes; the type is checked before the size |
| `Uploads.FileExtension` | src/pages/Obras.tsx:98 | the extension holds no dot |
| `Uploads.FileExtensionShape` | src/pages/Produtos.tsx:111 | a name without a dot is its own extension; otherwise the extension is what follows some dot, the last one |
| `Uploads.StoragePathInFolder` | src/pages/Obras.tsx:97-100 | the storage path lies in the page's folder |
| `Uploads.StoragePathKeepsExtension` | src/pages/Produtos.tsx:111-113 | the stored object's extension is the chosen file's extension |
| `Uploads.PlanUpload` | src/pages/Obras.tsx:79-100 | no file does nothing; a file that fails the check is refused with the reason; otherwise it goes to the storage path |
| `JsText.ParseInt` | src/pages/Produtos.tsx:152 | blank text is NaN; a negative result comes from text whose first non-blank character is `-` |
| `JsText.IntToString` | src/pages/Produtos.tsx:201 | the text is not empty and starts with `-` exactly when the number is negative |
| `JsText.ParseIntToString` | src/pages/Produtos.tsx:201 | `parseInt(n.toString())` gives back `n` |
| `JsText.OptIntToStringRoundTrip` | src/pages/Obras.tsx:172 | the text a nullable id is shown as parses back to the id, and to NaN (none) for null |
| `JsText.ParseIntOrZero` | src/pages/Produtos.tsx:152 | the parsed number, or 0 when `parseInt` gives NaN |
| `JsText.NullIfEmpty` | src/pages/Obras.tsx:130 | the empty string becomes null; any other string passes through |
| `JsText.EmptyIfNull` | src/pages/Obras.tsx:169 | null becomes the empty string; a null or non-empty value comes back through `NullIfEmpty` |
| `JsText.LastSegment` | src/pages/Obras.tsx:98 | the result is a suffix without the separator, preceded by the separator unless it is the whole string |
| `JsText.FirstSegment` | src/pages/Dashboard.tsx:73 | the result is a prefix without the separator, followed by the separator unless it is the whole string |
| `Tables.FindById` | src/pages/Vendas.tsx:201 | a found row is in the table with that id; nothing is found exactly when no row has it |
| `Tables.FindByIdIsFirst` | src/pages/Vendas.tsx:201 | the row at an index with the id, when no earlier row has the id, is the row found |
| `Tables.FindByIdIndex` | src/pages/Vendas.tsx:201 | a found row sits at some index with no earlier row carrying the id |
| `Tables.FindUniqueId` | src/pages/Vendas.tsx:201 | with unique ids, a row of the table is found under its own id |
| `Tables.Filter` | src/pages/Aniversariantes.tsx:34 | the kept rows are exactly the rows of the table that pass the test, and there are no more of them than rows |
| `Tables.UpdateById` | src/pages/Obras.tsx:138-141 | each row with the id is rewritten, every other row stays, in place |
| `Tables.DeleteById` | src/pages/Obras.tsx:182-185 | the rows with the id are gone and the others remain in order |
| `Aniversariantes.BirthDate` | src/pages/Aniversariantes.tsx:35 | the stored birth date, or 1 January 1970 for a null one |
| `Aniversariantes.Aniversariantes` | src/pages/Aniversariantes.tsx:34-39 | a loaded client is listed exactly when the birth date's day and month equal today's |
| `Aniversariantes.YearIgnored` | src/pages/Aniversariantes.tsx:37-38 | changing the birth year or today's year never changes inclusion |
| `Aniversariantes.BornOnTheFifteenthOfMarch` | src/pages/Aniversariantes.tsx:34-39 | a client born on 15 March 1990 is listed on 15 March of any year and not on 16 March |
| `Aniversariantes.AniversariantesKeepOrder` | src/pages/Aniversariantes.tsx:34 | the result is a subsequence of the loaded list |
| `Aniversariantes.AniversariantesSorted` | src/pages/Aniversariantes.tsx:27-39 | a list loaded in birth-date order gives a result in birth-date order |
| `Aniversariantes.AfterLoad` | src/pages/Aniversariantes.tsx:25-45 | a failed query keeps the list shown; a successful one shows exactly today's birthdays |
| `Aniversariantes.CountLabel` | src/pages/Aniversariantes.tsx:60 | the label is singular exactly when the count is 1 |
| `Aniversariantes.CountLine` | src/pages/Aniversariantes.tsx:60 | `parseInt` of the count line is the number of clients listed |
| `Aniversariantes.PageView` | src/pages/Aniversariantes.tsx:65-114 | the "Nenhum aniversariante hoje" state exactly when the list is empty, otherwise one card per listed client |
| `Dashboard.DashboardAniversariantes` | src/pages/Dashboard.tsx:36-41 | a loaded client is listed exactly when the birth date's day and month equal today's |
| `Dashboard.SameAsBirthdaysPage` | src/pages/Dashboard.tsx:36-41 | the dashboard's copy of the filter gives the same list as the birthdays page |
| `Dashboard.BirthdayToday` | src/pages/Dashboard.tsx:36-40 | the dashboard's test agrees with the birthdays page's test; a null birth date counts as a birthday exactly on 1 January |
| `Dashboard.ShowsBanner` | src/pages/Dashboard.tsx:82 | the banner shows exactly when the list holds some client |
| `Dashboard.BannerKeepsOrder` | src/pages/Dashboard.tsx:29-41 | the banner lists a subsequence of the loaded list, in birth-date order |
| `Dashboard.BannerIffSomeBirthday` | src/pages/Dashboard.tsx:82 | the banner shows exactly when some loaded client has a birthday today |
| `Dashboard.FirstName` | src/pages/Dashboard.tsx:73 | nothing without a name; otherwise a prefix of the name without spaces, ending at the first space or at the end |
| `Dashboard.FirstNameOfSingleName` | src/pages/Dashboard.tsx:73 | a name without a space is greeted whole |
| `Dashboard.FirstNameOfFullName` | src/pages/Dashboard.tsx:73 | a name `first + " " + rest` is greeted by `first` |

## Left out

- Store calls, authentication and storage: queries, sessions, `upload` and
  `getPublicUrl` are external services. Each call is a boolean outcome, the
  session is an optional user id, and the public URL is a function parameter.
- Store row ordering: `order('nome')` and `order('created_at')` are not
  modelled. Loaded lists keep table order, and the birthday order property is
  stated for a list that arrives sorted by birth date.
- Column defaults and server-side constraints, apart from the NOT NULL
  `item_id` of a venda (a NaN item id makes the insert fail). When the status
  select of a new artwork was never touched, the form has no `status` value,
  so the insert omits the key and the column default applies. The model stores
  a null status instead, because the default is not visible in the source.
- Random file names, `Date.now()` and the sale timestamp: nondeterministic.
  They are inputs (`token`, `now`).
- `parseFloat` of `valor` and `valor_total`, and `toFixed(2)`: floating point.
  Money is an opaque text passed through unchanged, so a `valor` that
  `parseFloat` reads as NaN is not turned into 0.
- JavaScript `Date` parsing, time zones and `date-fns` formatting. Birth dates
  are decoded triples read in local time, and a null birth date is read as
  1 January 1970.
- Produtos.SubmitBlocked: the browser's checks on the number inputs compare
  the text's floating-point value, which is not modelled. Only the blocks that
  follow from `parseInt` are kept: an empty required input, and a stock text
  without an exponent that `parseInt` reads below 0.
  - The stock input's implicit `step="1"` (which refuses `"1.5"`) and
    `min="0"` for texts between -1 and 0 (such as `"-0.5"`) are not blocked.
    Both still save a stock of at least 0, because `parseInt` stops at the dot.
  - A stock text with an exponent is never blocked. The browser submits those
    whose value rounds to 0, such as `"-1e-324"`, and the program then saves
    them as -1 (`Produtos.TinyNegativeStockSaved`). It refuses others, such as
    `"-5e0"`, which the model saves as -5. So "no stock below 0"
    (`Produtos.SaveKeepsStockNonNegative`, `Produtos.ProdutosPage.Submit`) is
    promised only for stock texts without an exponent, and the products page's
    `Valid()` does not include it.
  - The price input's `min` and `step` are not modelled, because money text is
    not parsed.
- Uploads.StoragePath: has no contract of its own; its properties are the
  lemmas `StoragePathInFolder` and `StoragePathKeepsExtension`.
- Numbers beyond 2^53: integers are unbounded here.
- React state, dialogs, toasts, navigation and rendering. This includes the
  loading spinners, the image previews and the auth redirect. The sign-in page,
  routing and the static index page are not part of this model.
- Concurrent sessions: two sellers selling the same artwork is a race between
  clients, which the page code does not address.
