/// The kiosk's data model (commandes/models.py): products with a stock level,
/// sandwiches whose weight and cook time are derived from their products, and
/// orders whose completion debits the stock of every product of the sandwich.
///
/// The three database tables are the fields of class `Database`; a row's
/// primary key is its position in its table.
module Models {

  datatype Option<T> = None | Some(value: T)

  /// TAILLE_CHOICES of both Produit and Sandwich.
  datatype Taille = S | M | L

  /// COULEUR_CHOICES of Produit.
  datatype Couleur = Jaune | Rouge | Vert | Bleu

  type ProduitId = nat
  type SandwichId = nat
  type CommandeId = nat

  /// A product row. `quantiteStock` is a PositiveIntegerField, hence a nat;
  /// `tempsCuisson` (seconds) is read by Sandwich.save although the Django
  /// model does not declare it.
  datatype Produit = Produit(
    nom: string,
    taille: Taille,
    poids: real,
    quantiteStock: nat,
    couleur: Couleur,
    tempsCuisson: nat)

  /// A sandwich row. `produits` is its many-to-many product set, listed in the
  /// order the ORM iterates it; `poidsTotal` and `tempsCuisson` are derived.
  datatype Sandwich = Sandwich(
    nom: string,
    taille: Taille,
    produits: seq<ProduitId>,
    poidsTotal: real,
    tempsCuisson: nat)

  /// The five STATUS_CHOICES of an order.
  datatype Status = EnAttente | TicketImprime | Validee | EnCuisson | Terminee

  /// An order row: one sandwich, a quantity, a derived weight and a status.
  datatype Commande = Commande(
    sandwich: SandwichId,
    quantite: nat,
    poidsTotal: real,
    status: Status)

  /// What a save reports: success, or the database refusing a product row
  /// whose stock would drop below zero (an IntegrityError).
  datatype Outcome = Saved | NegativeStock(produit: ProduitId)

  // ---------------------------------------------------------------------
  // Statuses and field defaults
  // ---------------------------------------------------------------------

  /// Commande.STATUS_CHOICES: (stored key, display label) pairs.
  const StatusChoices: seq<(string, string)> := [
    ("en attente", "En attente"),
    ("ticket imprimé", "Ticket imprimé"),
    ("validée", "Validée"),
    ("en cuisson", "En cuisson"),
    ("terminée", "Terminée")
  ]

  /// The key under which a status is stored in the `status` column.
  function Key(st: Status): string {
    match st
    case EnAttente => "en attente"
    case TicketImprime => "ticket imprimé"
    case Validee => "validée"
    case EnCuisson => "en cuisson"
    case Terminee => "terminée"
  }

  /// Every status is stored under one of the keys of STATUS_CHOICES: a check
  /// that the keys written in `Key` agree with the choice list.
  lemma KeyIsChoice(st: Status)
    ensures exists i :: 0 <= i < |StatusChoices| && StatusChoices[i].0 == Key(st)
  {
    match st
    case EnAttente => assert StatusChoices[0].0 == Key(st);
    case TicketImprime => assert StatusChoices[1].0 == Key(st);
    case Validee => assert StatusChoices[2].0 == Key(st);
    case EnCuisson => assert StatusChoices[3].0 == Key(st);
    case Terminee => assert StatusChoices[4].0 == Key(st);
  }

  /// Field defaults of Commande: quantite 1, poids_total 0, "en attente".
  const DefaultQuantite: nat := 1
  const DefaultStatus: Status := EnAttente

  /// A sandwich as first saved, before any recomputation: both derived fields
  /// hold their defaults, 0.
  function NewSandwich(nom: string, taille: Taille, produits: seq<ProduitId>): Sandwich {
    Sandwich(nom, taille, produits, 0.0, 0)
  }

  /// An order row as created: poids_total holds its default, 0, until saved.
  function NewCommande(sandwich: SandwichId, quantite: nat, status: Status): Commande {
    Commande(sandwich, quantite, 0.0, status)
  }

  // ---------------------------------------------------------------------
  // Sandwich.save: derived weight and cook time
  // ---------------------------------------------------------------------

  /// Every listed product exists in the product table.
  predicate InTable(ps: seq<Produit>, ids: seq<ProduitId>) {
    forall k :: 0 <= k < |ids| ==> ids[k] < |ps|
  }

  /// No product is listed twice (a many-to-many set).
  predicate Distinct(ids: seq<ProduitId>) {
    forall i, j :: 0 <= i < j < |ids| ==> ids[i] != ids[j]
  }

  /// Sum of the weights of the listed products.
  function TotalWeight(ps: seq<Produit>, ids: seq<ProduitId>): real
    requires InTable(ps, ids)
  {
    if ids == [] then 0.0 else ps[ids[0]].poids + TotalWeight(ps, ids[1..])
  }

  /// The weight of a concatenation is the sum of the weights of its parts.
  lemma {:induction false} TotalWeightAppend(ps: seq<Produit>, a: seq<ProduitId>, b: seq<ProduitId>)
    requires InTable(ps, a) && InTable(ps, b)
    ensures InTable(ps, a + b)
    ensures TotalWeight(ps, a + b) == TotalWeight(ps, a) + TotalWeight(ps, b)
  {
    if a != [] {
      assert (a + b)[0] == a[0];
      assert (a + b)[1..] == a[1..] + b;
      TotalWeightAppend(ps, a[1..], b);
    } else {
      assert a + b == b;
    }
  }

  /// Taking the product at position `j` out of the list takes its weight
  /// out of the total.
  lemma TotalWeightRemove(ps: seq<Produit>, ids: seq<ProduitId>, j: nat)
    requires InTable(ps, ids) && j < |ids|
    ensures InTable(ps, ids[..j] + ids[j + 1..])
    ensures TotalWeight(ps, ids) == ps[ids[j]].poids + TotalWeight(ps, ids[..j] + ids[j + 1..])
  {
    var x, tail := ids[j], ids[j + 1..];
    assert ids == ids[..j] + ([x] + tail);
    assert ([x] + tail)[1..] == tail;
    TotalWeightAppend(ps, ids[..j], [x] + tail);
    TotalWeightAppend(ps, ids[..j], tail);
  }

  /// Removing position `j` removes one occurrence of its element.
  lemma MultisetRemove(ids: seq<ProduitId>, j: nat)
    requires j < |ids|
    ensures multiset(ids[..j] + ids[j + 1..]) == multiset(ids) - multiset{ids[j]}
  {
    assert ids == ids[..j] + [ids[j]] + ids[j + 1..];
  }

  /// A reordering of listed products lists products of the same table.
  lemma InTablePermutation(ps: seq<Produit>, a: seq<ProduitId>, b: seq<ProduitId>)
    requires InTable(ps, a) && multiset(a) == multiset(b)
    ensures InTable(ps, b)
  {
    forall k | 0 <= k < |b| ensures b[k] < |ps| {
      assert b[k] in multiset(a);
    }
  }

  /// The weight depends only on the product set, not on the iteration order.
  lemma {:induction false} TotalWeightPermutation(ps: seq<Produit>, a: seq<ProduitId>, b: seq<ProduitId>)
    requires InTable(ps, a) && multiset(a) == multiset(b)
    ensures InTable(ps, b)
    ensures TotalWeight(ps, a) == TotalWeight(ps, b)
    decreases |a|
  {
    InTablePermutation(ps, a, b);
    if a == [] {
      assert |b| == |multiset(b)| == 0;
    } else {
      var j := PermutedHead(a, b);
      var rest := b[..j] + b[j + 1..];
      TotalWeightPermutation(ps, a[1..], rest);
      TotalWeightRemove(ps, b, j);
    }
  }

  /// Where the head of `a` sits in a reordering `b`, and what is left of `b`
  /// without it is a reordering of the tail of `a`.
  lemma PermutedHead(a: seq<ProduitId>, b: seq<ProduitId>) returns (j: nat)
    requires a != [] && multiset(a) == multiset(b)
    ensures j < |b| && b[j] == a[0]
    ensures multiset(a[1..]) == multiset(b[..j] + b[j + 1..])
  {
    j := IndexIn(a[0], b);
    MultisetRemove(b, j);
    MultisetTail(a);
  }

  /// A position of an element of `b`.
  lemma IndexIn(x: ProduitId, b: seq<ProduitId>) returns (j: nat)
    requires x in multiset(b)
    ensures j < |b| && b[j] == x
  {
    assert x in b;
    j :| 0 <= j < |b| && b[j] == x;
  }

  /// The tail of a list holds one occurrence fewer of its head.
  lemma MultisetTail(a: seq<ProduitId>)
    requires a != []
    ensures multiset(a[1..]) == multiset(a) - multiset{a[0]}
  {
    assert a == [a[0]] + a[1..];
  }

  /// `m` is the largest cook time among the listed products.
  predicate IsMaxCook(ps: seq<Produit>, ids: seq<ProduitId>, m: nat)
    requires InTable(ps, ids)
  {
    (forall k :: 0 <= k < |ids| ==> ps[ids[k]].tempsCuisson <= m) &&
    (exists k :: 0 <= k < |ids| && ps[ids[k]].tempsCuisson == m)
  }

  /// The bottleneck cook time of a non-empty product list.
  function MaxCook(ps: seq<Produit>, ids: seq<ProduitId>): (m: nat)
    requires InTable(ps, ids) && ids != []
    ensures IsMaxCook(ps, ids, m)
    decreases |ids|
  {
    if |ids| == 1 then ps[ids[0]].tempsCuisson
    else
      var rest := MaxCook(ps, ids[1..]);
      assert forall k :: 1 <= k < |ids| ==> ids[k] == ids[1..][k - 1];
      if ps[ids[0]].tempsCuisson >= rest then ps[ids[0]].tempsCuisson else rest
  }

  /// The maximum is unique, hence independent of the iteration order.
  lemma MaxCookOrderFree(ps: seq<Produit>, a: seq<ProduitId>, b: seq<ProduitId>)
    requires InTable(ps, a) && a != [] && multiset(a) == multiset(b)
    ensures InTable(ps, b) && b != []
    ensures MaxCook(ps, a) == MaxCook(ps, b)
  {
    forall k | 0 <= k < |b| ensures b[k] in a {
      assert b[k] in multiset(a);
    }
    forall k | 0 <= k < |a| ensures a[k] in b {
      assert a[k] in multiset(b);
    }
    var ma, mb := MaxCook(ps, a), MaxCook(ps, b);
    var i :| 0 <= i < |a| && ps[a[i]].tempsCuisson == ma;
    var j :| 0 <= j < |b| && ps[b[j]].tempsCuisson == mb;
    var i' :| 0 <= i' < |b| && b[i'] == a[i];
    var j' :| 0 <= j' < |a| && a[j'] == b[j];
  }

  /// The effect of Sandwich.save on a sandwich row: with at least one
  /// product, the weight becomes the sum of the product weights and the cook
  /// time the largest product cook time; with none, nothing changes.
  function Recompute(s: Sandwich, ps: seq<Produit>): (r: Sandwich)
    requires InTable(ps, s.produits)
    ensures r.nom == s.nom && r.taille == s.taille && r.produits == s.produits
    ensures s.produits == [] ==> r == s
    ensures s.produits != [] ==>
      r.poidsTotal == TotalWeight(ps, s.produits) && IsMaxCook(ps, s.produits, r.tempsCuisson)
  {
    if s.produits == [] then s
    else s.(poidsTotal := TotalWeight(ps, s.produits), tempsCuisson := MaxCook(ps, s.produits))
  }

  /// Saving a sandwich twice is the same as saving it once.
  lemma RecomputeIdempotent(s: Sandwich, ps: seq<Produit>)
    requires InTable(ps, s.produits)
    ensures Recompute(Recompute(s, ps), ps) == Recompute(s, ps)
  {
  }

  /// The derived fields depend on the product set only: listing the same
  /// products in another order gives the same weight and cook time.
  lemma RecomputeOrderFree(s: Sandwich, ps: seq<Produit>, order: seq<ProduitId>)
    requires InTable(ps, s.produits) && multiset(order) == multiset(s.produits)
    ensures InTable(ps, order)
    ensures Recompute(s.(produits := order), ps) == Recompute(s, ps).(produits := order)
  {
    TotalWeightPermutation(ps, s.produits, order);
    if s.produits != [] {
      MaxCookOrderFree(ps, s.produits, order);
    } else {
      assert |order| == |multiset(order)| == 0;
    }
  }

  /// A sandwich saved with no products keeps the default derived fields.
  lemma EmptySandwichKeepsDefaults(nom: string, taille: Taille, ps: seq<Produit>)
    ensures Recompute(NewSandwich(nom, taille, []), ps).poidsTotal == 0.0
    ensures Recompute(NewSandwich(nom, taille, []), ps).tempsCuisson == 0
  {
  }

  // ---------------------------------------------------------------------
  // Commande.save: the order weight and the stock debit
  // ---------------------------------------------------------------------

  /// Weight of an order: the sandwich's stored weight times the quantity.
  function OrderWeight(poidsSandwich: real, quantite: nat): real {
    poidsSandwich * (quantite as real)
  }

  /// A product row after `q` units left its stock.
  function Taken(p: Produit, q: nat): Produit
    requires q <= p.quantiteStock
  {
    p.(quantiteStock := p.quantiteStock - q)
  }

  /// Final product table of the debit loop, and the product whose save the
  /// database refused, if any.
  datatype DebitResult = DebitResult(table: seq<Produit>, failedAt: Option<ProduitId>)

  /// The debit loop of Commande.save: each listed product in turn loses `q`
  /// units of stock and is saved. A product with fewer than `q` units cannot
  /// be saved (its stock column is non-negative), which stops the loop; the
  /// products before it stay debited.
  function Debit(ps: seq<Produit>, ids: seq<ProduitId>, q: nat): (r: DebitResult)
    requires InTable(ps, ids)
    ensures |r.table| == |ps|
    decreases |ids|
  {
    if ids == [] then DebitResult(ps, None)
    else
      var p := ps[ids[0]];
      if p.quantiteStock < q then DebitResult(ps, Some(ids[0]))
      else Debit(ps[ids[0] := Taken(p, q)], ids[1..], q)
  }

  /// Position of the first listed product with fewer than `q` units, or the
  /// length of the list when every product has enough.
  function FirstShort(ps: seq<Produit>, ids: seq<ProduitId>, q: nat): (i: nat)
    requires InTable(ps, ids)
    ensures i <= |ids|
    ensures forall k :: 0 <= k < i ==> q <= ps[ids[k]].quantiteStock
    ensures i < |ids| ==> ps[ids[i]].quantiteStock < q
    decreases |ids|
  {
    if ids == [] then 0
    else if ps[ids[0]].quantiteStock < q then 0
    else
      var i := FirstShort(ps, ids[1..], q);
      assert forall k :: 1 <= k < |ids| ==> ids[k] == ids[1..][k - 1];
      1 + i
  }

  /// `FirstShort` reads only the stock of the listed products.
  lemma {:induction false} FirstShortFrame(ps: seq<Produit>, ps': seq<Produit>, ids: seq<ProduitId>, q: nat)
    requires InTable(ps, ids) && InTable(ps', ids)
    requires forall k :: 0 <= k < |ids| ==> ps[ids[k]].quantiteStock == ps'[ids[k]].quantiteStock
    ensures FirstShort(ps, ids, q) == FirstShort(ps', ids, q)
    decreases |ids|
  {
    if ids != [] && q <= ps[ids[0]].quantiteStock {
      assert forall k :: 0 <= k < |ids[1..]| ==> ids[1..][k] == ids[k + 1];
      FirstShortFrame(ps, ps', ids[1..], q);
    }
  }

  /// `after` is `before` with exactly the products in `done` debited by `q`
  /// units each; every other product, and every other field, is unchanged.
  ghost predicate DebitedExactly(before: seq<Produit>, after: seq<Produit>, done: seq<ProduitId>, q: nat) {
    |after| == |before| &&
    forall p :: 0 <= p < |before| ==>
      after[p] == before[p].(quantiteStock := after[p].quantiteStock) &&
      after[p].quantiteStock + (if p in done then q else 0) == before[p].quantiteStock
  }

  /// Debiting `h` first and then exactly the products in `done` debits
  /// exactly `[h] + done`.
  lemma DebitedExactlyCons(ps: seq<Produit>, after: seq<Produit>, h: ProduitId, done: seq<ProduitId>, q: nat)
    requires h < |ps| && q <= ps[h].quantiteStock && h !in done
    requires DebitedExactly(ps[h := Taken(ps[h], q)], after, done, q)
    ensures DebitedExactly(ps, after, [h] + done, q)
  {
    var ps' := ps[h := Taken(ps[h], q)];
    forall p | 0 <= p < |ps|
      ensures after[p] == ps[p].(quantiteStock := after[p].quantiteStock)
      ensures after[p].quantiteStock + (if p in [h] + done then q else 0) == ps[p].quantiteStock
    {
      assert p in [h] + done <==> p == h || p in done;
      if p != h {
        assert ps'[p] == ps[p];
      }
    }
  }

  /// One turn of the debit loop: when the first product has enough stock,
  /// the rest of the loop runs on the table where it has been debited, and
  /// finds its first short product one position later.
  lemma DebitUnfold(ps: seq<Produit>, ids: seq<ProduitId>, q: nat)
    requires InTable(ps, ids) && Distinct(ids) && ids != [] && q <= ps[ids[0]].quantiteStock
    ensures var ps' := ps[ids[0] := Taken(ps[ids[0]], q)];
      InTable(ps', ids[1..]) && Distinct(ids[1..]) && ids[0] !in ids[1..] &&
      Debit(ps, ids, q) == Debit(ps', ids[1..], q) &&
      FirstShort(ps, ids, q) == 1 + FirstShort(ps', ids[1..], q)
  {
    var h, tl := ids[0], ids[1..];
    var ps' := ps[h := Taken(ps[h], q)];
    assert forall k :: 0 <= k < |tl| ==> tl[k] == ids[k + 1] && tl[k] != h;
    FirstShortFrame(ps, ps', tl, q);
  }

  /// The debit loop debits exactly the products before the first one that is
  /// short of stock and reports that one; when none is short it debits them
  /// all and reports nothing.
  lemma {:induction false} DebitCharacterised(ps: seq<Produit>, ids: seq<ProduitId>, q: nat)
    requires InTable(ps, ids) && Distinct(ids)
    ensures var r, i := Debit(ps, ids, q), FirstShort(ps, ids, q);
      DebitedExactly(ps, r.table, ids[..i], q) &&
      r.failedAt == (if i < |ids| then Some(ids[i]) else None)
    decreases |ids|
  {
    if ids == [] {
    } else if ps[ids[0]].quantiteStock < q {
      assert ids[..0] == [];
    } else {
      var h, tl := ids[0], ids[1..];
      var ps' := ps[h := Taken(ps[h], q)];
      DebitUnfold(ps, ids, q);
      DebitCharacterised(ps', tl, q);
      var i' := FirstShort(ps', tl, q);
      assert h !in tl[..i'];
      DebitedExactlyCons(ps, Debit(ps', tl, q).table, h, tl[..i'], q);
      assert ids[..i' + 1] == [h] + tl[..i'];
    }
  }

  /// The debit completes if and only if every listed product has at least
  /// `q` units; it then debits each of them by exactly `q`.
  lemma DebitSucceeds(ps: seq<Produit>, ids: seq<ProduitId>, q: nat)
    requires InTable(ps, ids) && Distinct(ids)
    ensures Debit(ps, ids, q).failedAt == None <==> forall k :: 0 <= k < |ids| ==> q <= ps[ids[k]].quantiteStock
    ensures Debit(ps, ids, q).failedAt == None ==> DebitedExactly(ps, Debit(ps, ids, q).table, ids, q)
  {
    DebitCharacterised(ps, ids, q);
    assert ids[..|ids|] == ids;
  }

  /// Completing the same order twice debits its products twice: with at least
  /// `2 * q` units of each, both debits complete and each product of the
  /// sandwich has lost `2 * q` units, every other product none.
  lemma DoubleDebit(ps: seq<Produit>, ids: seq<ProduitId>, q: nat)
    requires InTable(ps, ids) && Distinct(ids)
    requires forall k :: 0 <= k < |ids| ==> 2 * q <= ps[ids[k]].quantiteStock
    ensures var once := Debit(ps, ids, q);
      once.failedAt == None && Debit(once.table, ids, q).failedAt == None &&
      DebitedExactly(ps, Debit(once.table, ids, q).table, ids, 2 * q)
  {
    DebitSucceeds(ps, ids, q);
    var once := Debit(ps, ids, q).table;
    DebitSucceeds(once, ids, q);
    var twice := Debit(once, ids, q).table;
    forall p | 0 <= p < |ps|
      ensures twice[p] == ps[p].(quantiteStock := twice[p].quantiteStock)
      ensures twice[p].quantiteStock + (if p in ids then 2 * q else 0) == ps[p].quantiteStock
    {
    }
  }

  /// A completed debit does not depend on the order the products are listed
  /// in: any reordering of the sandwich's products completes exactly when the
  /// original does, and then leaves the same product table.
  lemma {:induction false} DebitOrderFree(ps: seq<Produit>, ids: seq<ProduitId>, order: seq<ProduitId>, q: nat)
    requires InTable(ps, ids) && Distinct(ids) && Distinct(order) && multiset(order) == multiset(ids)
    ensures InTable(ps, order)
    ensures Debit(ps, order, q).failedAt == None <==> Debit(ps, ids, q).failedAt == None
    ensures Debit(ps, ids, q).failedAt == None ==> Debit(ps, order, q).table == Debit(ps, ids, q).table
  {
    InTablePermutation(ps, ids, order);
    DebitSucceeds(ps, ids, q);
    DebitSucceeds(ps, order, q);
    forall x ensures x in order <==> x in ids {
      assert x in order <==> x in multiset(order);
      assert x in ids <==> x in multiset(ids);
    }
    if forall k :: 0 <= k < |ids| ==> q <= ps[ids[k]].quantiteStock {
      forall k | 0 <= k < |order| ensures q <= ps[order[k]].quantiteStock {
        var j := IndexIn(order[k], ids);
      }
    } else {
      var k :| 0 <= k < |ids| && q > ps[ids[k]].quantiteStock;
      var j := IndexIn(ids[k], order);
    }
    if Debit(ps, ids, q).failedAt == None {
      var a, b := Debit(ps, order, q).table, Debit(ps, ids, q).table;
      forall p | 0 <= p < |ps| ensures a[p] == b[p] {
        assert p in order <==> p in ids;
      }
      assert a == b;
    }
  }

  // ---------------------------------------------------------------------
  // Produit.get_stock_total
  // ---------------------------------------------------------------------

  /// Total number of units in stock over a product table.
  function StockTotal(ps: seq<Produit>): nat {
    if ps == [] then 0 else ps[0].quantiteStock + StockTotal(ps[1..])
  }

  /// Replacing one product changes the total by the difference of stocks.
  lemma {:induction false} StockTotalUpdate(ps: seq<Produit>, i: nat, p: Produit)
    requires i < |ps|
    ensures StockTotal(ps[i := p]) + ps[i].quantiteStock == StockTotal(ps) + p.quantiteStock
  {
    if i > 0 {
      assert ps[i := p][1..] == ps[1..][i - 1 := p];
      StockTotalUpdate(ps[1..], i - 1, p);
    }
  }

  /// The debit loop lowers the total stock by `q` for every product it
  /// managed to save.
  lemma {:induction false} DebitLowersTotal(ps: seq<Produit>, ids: seq<ProduitId>, q: nat)
    requires InTable(ps, ids) && Distinct(ids)
    ensures StockTotal(Debit(ps, ids, q).table) + q * FirstShort(ps, ids, q) == StockTotal(ps)
    decreases |ids|
  {
    if ids == [] || ps[ids[0]].quantiteStock < q {
      assert FirstShort(ps, ids, q) == 0;
    } else {
      var ps' := ps[ids[0] := Taken(ps[ids[0]], q)];
      DebitUnfold(ps, ids, q);
      DebitLowersTotal(ps', ids[1..], q);
      TakenLowersTotal(ps, ids[0], q);
      MulSucc(q, FirstShort(ps', ids[1..], q));
    }
  }

  lemma MulSucc(q: nat, i: nat)
    ensures q * (i + 1) == q * i + q
  {
  }

  /// Taking `q` units from one product takes `q` units from the total.
  lemma TakenLowersTotal(ps: seq<Produit>, h: ProduitId, q: nat)
    requires h < |ps| && q <= ps[h].quantiteStock
    ensures StockTotal(ps[h := Taken(ps[h], q)]) + q == StockTotal(ps)
  {
    StockTotalUpdate(ps, h, Taken(ps[h], q));
  }

  /// Rows scanned by SQL `SUM`, accumulated from the left.
  function SumFrom(acc: nat, ps: seq<Produit>): (r: nat)
    ensures r == acc + StockTotal(ps)
    decreases |ps|
  {
    if ps == [] then acc else SumFrom(acc + ps[0].quantiteStock, ps[1..])
  }

  /// SQL `SUM` over the stock column: NULL over an empty table.
  function SqlSum(ps: seq<Produit>): (r: Option<nat>)
    ensures r == None <==> ps == []
    ensures r != None ==> r.value == StockTotal(ps)
  {
    if ps == [] then None else Some(SumFrom(0, ps))
  }

  // ---------------------------------------------------------------------
  // The database
  // ---------------------------------------------------------------------

  /// Referential integrity of the three tables: sandwiches list existing,
  /// distinct products and orders reference existing sandwiches.
  ghost predicate Consistent(ps: seq<Produit>, ss: seq<Sandwich>, cs: seq<Commande>) {
    (forall s :: 0 <= s < |ss| ==> InTable(ps, ss[s].produits) && Distinct(ss[s].produits)) &&
    (forall c :: 0 <= c < |cs| ==> cs[c].sandwich < |ss|)
  }

  class Database {
    var produits: seq<Produit>
    var sandwiches: seq<Sandwich>
    var commandes: seq<Commande>

    ghost predicate Valid()
      reads this
    {
      Consistent(produits, sandwiches, commandes)
    }

    constructor (produits: seq<Produit>, sandwiches: seq<Sandwich>, commandes: seq<Commande>)
      requires Consistent(produits, sandwiches, commandes)
      ensures Valid()
      ensures this.produits == produits && this.sandwiches == sandwiches && this.commandes == commandes
    {
      this.produits := produits;
      this.sandwiches := sandwiches;
      this.commandes := commandes;
    }

    /// Produit.get_stock_total: the SQL sum of all stock, or 0 when the
    /// product table is empty.
    function GetStockTotal(): (r: nat)
      reads this
      ensures r == StockTotal(produits)
      ensures produits == [] ==> r == 0
    {
      match SqlSum(produits)
      case None => 0
      case Some(total) => total
    }

    /// Sandwich.save: recompute the weight and the cook time of sandwich `s`
    /// from its products when it has any; no other row changes.
    method SaveSandwich(s: SandwichId)
      requires Valid() && s < |sandwiches|
      modifies this
      ensures produits == old(produits) && commandes == old(commandes)
      ensures sandwiches == old(sandwiches)[s := Recompute(old(sandwiches[s]), produits)]
      ensures Valid()
    {
      var sw := sandwiches[s];
      if sw.produits != [] {
        sw := sw.(poidsTotal := TotalWeight(produits, sw.produits));
        sw := sw.(tempsCuisson := MaxCook(produits, sw.produits));
        sandwiches := sandwiches[s := sw];
      }
    }

    /// Commande.save on order `c`: store its weight, the sandwich's stored
    /// weight times the quantity, then, if its status is "terminée", debit
    /// the stock of every product of its sandwich by the quantity, whatever
    /// the status was before. A product short of stock stops the debit with
    /// `NegativeStock`; the order row and the products already debited stay
    /// saved.
    method SaveCommande(c: CommandeId) returns (outcome: Outcome)
      requires Valid() && c < |commandes|
      modifies this
      ensures Valid()
      ensures sandwiches == old(sandwiches)
      ensures var o := old(commandes[c]);
        commandes == old(commandes)[c := o.(poidsTotal := OrderWeight(sandwiches[o.sandwich].poidsTotal, o.quantite))]
      ensures old(commandes[c]).status != Terminee ==> produits == old(produits) && outcome == Saved
      ensures var o := old(commandes[c]);
        o.status == Terminee ==>
          var d := Debit(old(produits), sandwiches[o.sandwich].produits, o.quantite);
          produits == d.table &&
          outcome == (if d.failedAt == None then Saved else NegativeStock(d.failedAt.value))
    {
      var o := commandes[c];
      var sw := sandwiches[o.sandwich];
      o := o.(poidsTotal := OrderWeight(sw.poidsTotal, o.quantite));
      commandes := commandes[c := o];
      outcome := Saved;
      if o.status == Terminee {
        var ids := sw.produits;
        ghost var before := produits;
        var k := 0;
        while k < |ids|
          invariant 0 <= k <= |ids|
          invariant |produits| == |before|
          invariant sandwiches == old(sandwiches) && commandes == old(commandes)[c := o]
          invariant Debit(produits, ids[k..], o.quantite) == Debit(before, ids, o.quantite)
          invariant outcome == Saved
        {
          var id := ids[k];
          var p := produits[id];
          assert ids[k..][1..] == ids[k + 1..];
          if p.quantiteStock < o.quantite {
            outcome := NegativeStock(id);
            return;
          }
          produits := produits[id := Taken(p, o.quantite)];
          k := k + 1;
        }
      }
    }

    /// Creating an order (Commande.objects.create): a new row with the given
    /// fields, then Commande.save, which debits the stock at once when the
    /// order is created directly as "terminée".
    method CreateCommande(sandwich: SandwichId, quantite: nat, status: Status)
      returns (c: CommandeId, outcome: Outcome)
      requires Valid() && sandwich < |sandwiches|
      modifies this
      ensures Valid()
      ensures c == |old(commandes)|
      ensures sandwiches == old(sandwiches)
      ensures commandes == old(commandes) +
        [Commande(sandwich, quantite, OrderWeight(sandwiches[sandwich].poidsTotal, quantite), status)]
      ensures status != Terminee ==> produits == old(produits) && outcome == Saved
      ensures status == Terminee ==>
        var d := Debit(old(produits), sandwiches[sandwich].produits, quantite);
        produits == d.table &&
        outcome == (if d.failedAt == None then Saved else NegativeStock(d.failedAt.value))
    {
      commandes := commandes + [NewCommande(sandwich, quantite, status)];
      c := |commandes| - 1;
      outcome := SaveCommande(c);
      assert commandes == old(commandes) +
        [Commande(sandwich, quantite, OrderWeight(sandwiches[sandwich].poidsTotal, quantite), status)];
    }

    /// Creating an order from its sandwich alone: the quantity and the status
    /// take their field defaults, 1 and "en attente", so no stock changes.
    method CreateCommandeWithDefaults(sandwich: SandwichId) returns (c: CommandeId)
      requires Valid() && sandwich < |sandwiches|
      modifies this
      ensures Valid()
      ensures sandwiches == old(sandwiches) && produits == old(produits)
      ensures commandes == old(commandes) +
        [Commande(sandwich, 1, OrderWeight(sandwiches[sandwich].poidsTotal, 1), EnAttente)]
    {
      var outcome;
      c, outcome := CreateCommande(sandwich, DefaultQuantite, DefaultStatus);
    }
  }
}
