# Sandwich kiosk: order and stock bookkeeping

A Dafny model of the order and stock logic of a Django sandwich kiosk. The kiosk
keeps three tables:

- products (`Produit`), each with a non-negative stock;
- sandwiches (`Sandwich`), each made of a set of products;
- orders (`Commande`), each for some quantity of one sandwich.

Saving a sandwich recomputes two derived fields from its products:

- its weight, the sum of the product weights;
- its cook time, the largest product cook time.

Saving an order sets its weight to the sandwich's stored weight times the
quantity. If the order's status is "terminée", the save also takes the quantity
off the stock of every product of the sandwich. The REST action
`changer_statut` validates a new status against the five `STATUS_CHOICES`,
stores it and saves the order. It then sends listeners a snapshot of the stock,
one `(nom, quantite)` pair per product.

The model has two modules:

- `Models` (models.dfy) covers `commandes/models.py`. Its class `Database` holds
  the three tables as sequence fields; a row's primary key is its position.
  `SaveSandwich`, `SaveCommande` and `CreateCommande` change those tables in
  place. Each is proved against pure specification functions (`Recompute`,
  `OrderWeight`, `Debit`), and the lemmas about those functions carry the
  properties.
- `Views` (views.dfy) covers `commandes/views.py`. It models the status
  validation, the `changer_statut` action over a `Database`, and the stock
  snapshot built by `update_stock`.

## Behaviour as written

The model follows the code as written:

- **No guard on the previous status.** The stock is debited on every save of an
  order whose status is "terminée" (commandes/models.py:100). Re-posting
  "terminée" debits again (`DoubleDebit`, `RepostTerminee`). Creating an order
  directly as "terminée" also debits (`CreateCommande`).
- **Partial debit.** `quantite_stock` is a `PositiveIntegerField`, so the
  database refuses a product row whose stock would go negative, and the save
  raises. The model records this as a faithful partial update:
  - the loop stops at the first product that is short of stock;
  - the products before it stay debited;
  - the order row, already saved with its new status, stays saved.

  `Debit`, `FirstShort` and `DebitCharacterised` state the first two points.
  The `ensures` of `SaveCommande` and `ChangerStatut` state the third.
- **Stale sandwich weight.** An order's weight uses the weight stored on the
  sandwich (commandes/models.py:95), which is not recomputed from the products.
  Sandwich weights change only through an explicit `SaveSandwich`.
- **Product cook time.** `Sandwich.save` reads `produit.temps_cuisson`
  (commandes/models.py:68), and the product test creates and checks one
  (commandes/tests/test_sandwich.py:13,22). Yet `Produit` declares no such field
  (commandes/models.py:21-25). The model gives each product a `nat` cook time,
  as the test implies. As written, saving a sandwich that has products would
  fail on the missing attribute.
- **Iteration order.** The ORM does not fix the order in which
  `sandwich.produits.all()` and `Produit.objects.all()` are iterated. The model
  fixes it: a sandwich lists its products as a sequence of distinct keys, and
  the product table is a sequence. Two things depend on this order. The first
  is a partial debit: which products it has already debited before it stops,
  which one it stops at, and so the stock it leaves behind. The second is the
  order of the snapshot entries. The derived sandwich fields do not depend on it
  (`RecomputeOrderFree`), and neither does a debit that completes
  (`DebitOrderFree`).

## Model

| member | source | states |
|---|---|---|
| Models.KeyIsChoice | commandes/models.py:78-84 | every order status is stored under one of the five keys of STATUS_CHOICES |
| Models.MaxCook | commandes/models.py:68 | the sandwich cook time is the largest cook time of its products: no product exceeds it, and some product has it |
| Models.TotalWeightPermutation | commandes/models.py:67 | the summed weight depends only on the product set, not on the order the products are iterated in |
| Models.MaxCookOrderFree | commandes/models.py:68 | the maximum cook time does not depend on the iteration order either |
| Models.Recompute | commandes/models.py:62-69 | a sandwich with products gets the sum of their weights and their largest cook time. A sandwich without products is left exactly as it was. Name, size and product set never change |
| Models.RecomputeIdempotent | commandes/models.py:62-69 | saving a sandwich twice gives the same row as saving it once |
| Models.RecomputeOrderFree | commandes/models.py:58-69 | listing the same products in another order gives the same derived weight and cook time |
| Models.EmptySandwichKeepsDefaults | commandes/models.py:59-66 | a new sandwich saved with no products keeps the defaults: weight 0 and cook time 0 |
| Models.Debit | commandes/models.py:99-103 | the debit loop keeps the product table's size. Its meaning is stated by the lemmas below |
| Models.FirstShort | commandes/models.py:101-103 | names the first product in iteration order with less stock than the quantity: every product before it has enough |
| Models.DebitCharacterised | commandes/models.py:99-103 | the debit takes exactly the quantity off each product before the first short one. Every other product, and every other field, is unchanged. The short product is reported, or nothing when none is short |
| Models.DebitSucceeds | commandes/models.py:100-103 | the debit completes if and only if every product of the sandwich has at least the quantity. It then lowers each of them by exactly the quantity and touches nothing else |
| Models.DoubleDebit | commandes/models.py:99-103 | debiting the same order twice takes twice the quantity off each product of the sandwich. This holds whenever each product has that much stock |
| Models.DebitOrderFree | commandes/models.py:99-102 | listing the sandwich's products in another order does not change whether the debit completes, and a completed debit leaves the same product table |
| Models.DebitLowersTotal | commandes/models.py:100-103 | total stock falls by the quantity once for each product the loop managed to save |
| Models.SumFrom | commandes/models.py:33 | the row-by-row accumulation of the stock column equals the stock total |
| Models.SqlSum | commandes/models.py:33 | the SQL sum of the stock column is NULL exactly when there are no products, and otherwise the stock total |
| Models.Database.GetStockTotal | commandes/models.py:30-33 | get_stock_total is the sum of every product's stock, and 0 when there are no products |
| Models.Database.SaveSandwich | commandes/models.py:62-69 | the sandwich row becomes `Recompute` of itself. Products, orders and other sandwiches do not change |
| Models.Database.SaveCommande | commandes/models.py:92-103 | the order weight becomes the sandwich's stored weight times the quantity, whatever it was before. Any status other than "terminée" leaves every stock unchanged. "terminée" applies `Debit` to the sandwich's products whatever the previous status, and reports a refused product row |
| Models.Database.CreateCommande | commandes/models.py:86-103 | a new order row is appended with its computed weight. When it is created as "terminée", the stock is debited at once |
| Models.Database.CreateCommandeWithDefaults | commandes/models.py:87-89 | an order created with only its sandwich gets quantity 1, status "en attente" and the sandwich's stored weight, and no stock changes |
| Views.StockData | commandes/views.py:62-63 | the snapshot has exactly one entry per product, in table order, pairing its name with its stock |
| Views.SnapshotMatchesStockTotal | commandes/views.py:62-63 | summing the snapshot's quantities gives the stock total that get_stock_total reports |
| Views.ParseStatus | commandes/views.py:29-32 | a status is accepted if and only if it is present and is one of the keys of STATUS_CHOICES, and it is read as the status stored under that key |
| Views.ParseKey | commandes/views.py:31-35 | every one of the five statuses is accepted by its key, whatever the order's current status |
| Views.ChangerStatut | commandes/views.py:25-42 | an unknown order gives HTTP 404, and a missing or unknown status gives HTTP 400; neither changes any row. A valid status is stored and the order saved: its weight is recomputed, and "terminée" debits the stock. A refused product row gives HTTP 500 and keeps the earlier debits. On success the reply is HTTP 200 and the new stock snapshot is broadcast |
| Views.RepostTerminee | commandes/views.py:34-35 | posting "terminée" twice for the same order succeeds both times when each product has twice the quantity in stock. Each product of the sandwich then loses twice the quantity, and every other product loses nothing. The order is stored as "terminée" with its recomputed weight, and every other order stays as it was |

## Left out

- WebSocket broadcast: these are asynchronous channel-layer I/O and are not modelled:
  - the `group_send` in `Produit.save` (commandes/models.py:40-44);
  - the send in `update_stock` (commandes/views.py:65-72);
  - all of commandes/consumers.py.

  The payload `update_stock` would send is `ChangerStatut`'s `broadcast` result.
- The missing-channel-layer branch of `update_stock` (commandes/views.py:56-58) is configuration. The model assumes a channel layer is configured.
- The model also assumes the send in `Produit.save` never raises (commandes/models.py:40-44). Unlike `update_stock`'s send, it has no `try`. A missing or failing channel layer would raise there, after the product row is saved. That would stop the debit loop after that product and turn `changer_statut` into a 500. The model's debit stops only at a product whose stock would go negative.
- Logging with `print` is not modelled.
- Framework wiring is not modelled: the generic viewsets, the `stock_actuel` endpoint, the serializers and the routing. This covers commandes/views.py:10-23 and 44-49, commandes/serializers.py and fablab_api/urls.py. Their field validation is replaced by the model's types: sizes, colours and statuses are enumerations, and quantities are `nat`.
- fablab_api/asgi.py, commandes/admin.py, main.py and test_main.py are not part of this model. They are setup, admin registration and an unrelated demo.
- Weights are `real`, and floating-point rounding of the `FloatField`s is not modelled.
- Timestamps (`date_commande`) are not modelled.
- ORM persistence mechanics are not modelled:
  - the two-phase `super().save()` and `update_fields`;
  - the fact that editing a sandwich's product set does not itself run `Sandwich.save`.

  Recomputation happens only through an explicit `SaveSandwich`, and editing the product set is not an operation of the model.
- The partial debit assumes Django's default autocommit, with no `ATOMIC_REQUESTS` and no transaction around the save: each `save()` commits on its own. The project settings that decide this are not part of this model.
- The `if self.sandwich` test in `Commande.save` (commandes/models.py:94) always holds in the model. Every order references an existing sandwich, as the required foreign key demands.
- A `statut` that is present but not a string is not modelled: the request field is either absent or a string.
- Concurrent completions racing on one product's stock are not modelled. The code has no locking, and this is concurrency, not sequential logic.
- Models.Debit: its own contract states only that the table keeps its size. What the debit does is stated by `DebitCharacterised`, `DebitSucceeds` and `DebitLowersTotal`.
