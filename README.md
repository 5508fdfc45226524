# ProductManager product store, modelled in Dafny

The system is a small tool server named "ProductManager". It exposes four
tools, `create_product`, `delete_product`, `get_product` and
`count_products`. All four work on one in-memory dictionary, `products`, which
maps a product id to a record with a `name`, a `description` and a `price`.
Each tool answers with a small dictionary: either an `error` text or a
success payload.

- `catalog.dfy` (module `Catalog`) gives each tool's meaning as a pure step
  on the dictionary (`Create`, `Delete`, `Get`, `Count`). `Reply` has one
  constructor per shape of answer. `Step` and `Run` replay a sequence of tool
  calls in the order the server handles them. The lemmas relate operations to
  each other: round trip, no overwrite, restoring the store, and counting.
- `server.dfy` (module `ProductManager`) is the server state as a class.
  `ProductStore` has the field `products`. Create and delete change it in
  place. Get and count only read it. Each method's answer and new state are
  those of the matching `Catalog` function.

The answer texts are the source's own strings: "Produto já existe",
"Produto não encontrado", "Produto cadastrado" and "Produto deletado".
Prices are unbounded integers and are not validated, as in the source.

Only the product store in `main.py` is modelled; the rest of the repository
is not.

`ProductManager.Scenario` is an example client run. It shows that the method
contracts fix concrete answers: a first create, a refused second create of the
same id, a get, a count, a delete, a refused second delete and a final count
of zero.

## Model

| member | source | states |
|---|---|---|
| `Catalog.Create` | main.py:12-19 | An id already present gives the error "Produto já existe" and leaves the store unchanged. A new id adds exactly that key with the given name, description and price, and answers "Produto cadastrado" with the stored record. Every other entry keeps its record, and the count grows by one exactly when the id was new. |
| `Catalog.Delete` | main.py:25-28 | An absent id gives "Produto não encontrado" and leaves the store unchanged. A present id removes only that key and answers "Produto deletado". Every remaining entry keeps its record, and the count drops by exactly one. |
| `Catalog.Get` | main.py:34-36 | The answer is a record exactly when the id is present. It then carries the id and the stored name, description and price. Otherwise it is "Produto não encontrado". |
| `Catalog.Count` | main.py:42 | The total equals the number of keys in the store. |
| `Catalog.Step` | main.py:8-42 | Get and count calls leave the store unchanged. Every call changes the number of products by +1 for a registration, -1 for a deletion and 0 otherwise. |
| `Catalog.Replay` | main.py:6-42 | Calls handled one after another, each on the state the previous one left, give exactly one answer per call. |
| `Catalog.Run` | main.py:6-42 | Handling a sequence of tool calls on the shared dictionary (a `Catalog.Replay` of `Catalog.Step`) gives exactly one answer per call. `Catalog.RunAppend` and `Catalog.RunAt` state which answer and which final store. |
| `Catalog.RunAppend` | main.py:6-42 | Running two batches of calls one after the other equals running their concatenation. The second batch starts from the store the first one left, and the answers are the first batch's followed by the second's. |
| `Catalog.RunAt` | main.py:6-42 | The answer to the i-th call is the answer that call gives on the store left by all earlier calls. |
| `Catalog.RunCount` | main.py:12-28 | After any sequence of calls, the count is the starting count plus successful creations minus successful deletions. |
| `Catalog.RunKeepsRecord` | main.py:12-14 | A stored record survives any sequence of calls that does not delete its id. A later create of the same id never overwrites it. |
| `Catalog.CreateThenGet` | main.py:14-19 | Round trip: after a successful create, and any later calls that do not delete the id, get returns exactly the id and the fields passed in. |
| `Catalog.CreateThenDelete` | main.py:12-28 | A successful create followed by a delete of the same id restores the original store. |
| `ProductManager.ProductStore.constructor` | main.py:6 | The store starts empty. |
| `ProductManager.ProductStore.CreateProduct` | main.py:9-19 | Updates `products` in place. The new dictionary and the answer are those of `Catalog.Create` on the old dictionary. |
| `ProductManager.ProductStore.DeleteProduct` | main.py:22-28 | Updates `products` in place. The new dictionary and the answer are those of `Catalog.Delete` on the old dictionary. |
| `ProductManager.ProductStore.GetProduct` | main.py:31-36 | Modifies nothing. Answers with the stored fields and the id when the id is present, and with "Produto não encontrado" otherwise. |
| `ProductManager.ProductStore.CountProducts` | main.py:39-42 | Modifies nothing. The answer is that of `Catalog.Count` on the current store: the number of stored products. |

## Left out

- The FastMCP server object, tool registration and the `streamable-http` transport (main.py:1, 3, 8, 44-45). They are calls into a library whose code is not part of this model. A tool call is a method call here.
- The `stateless_http` and `json_response` options, and the encoding of answers as JSON. Answers are values of the `Reply` datatype, one constructor per dictionary shape.
- Checking of argument types by the library (for example, that `price` is an integer). The model takes typed arguments. Like the source, it puts no bounds on the price.
- Python dictionary insertion order. No tool observes it, so the store is an unordered `map`.
- Aliasing: `create_product` returns the very dictionary it stored. Records are values here. Nothing in the source changes a record after storing it, so no answer can tell the difference.
- Concurrency between tool calls. Calls are modelled as handled one at a time, which is the order `Run` replays.
