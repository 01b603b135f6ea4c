/// The REST side of the kiosk (commandes/views.py): the status-change action
/// on an order and the stock snapshot sent to WebSocket listeners.
module Views {
  import opened Models

  // ---------------------------------------------------------------------
  // update_stock: the snapshot of the product table
  // ---------------------------------------------------------------------

  /// One entry of the stock broadcast: a product's name and its stock.
  datatype StockEntry = StockEntry(nom: string, quantite: nat)

  /// The payload update_stock sends: one entry per product, in table order.
  function StockData(ps: seq<Produit>): (r: seq<StockEntry>)
    ensures |r| == |ps|
    ensures forall i :: 0 <= i < |ps| ==> r[i] == StockEntry(ps[i].nom, ps[i].quantiteStock)
  {
    if ps == [] then [] else [StockEntry(ps[0].nom, ps[0].quantiteStock)] + StockData(ps[1..])
  }

  /// Sum of the quantities a listener reads off a snapshot.
  function SnapshotTotal(entries: seq<StockEntry>): nat {
    if entries == [] then 0 else entries[0].quantite + SnapshotTotal(entries[1..])
  }

  /// A listener summing the snapshot obtains Produit.get_stock_total.
  lemma {:induction false} SnapshotMatchesStockTotal(ps: seq<Produit>)
    ensures SnapshotTotal(StockData(ps)) == StockTotal(ps)
  {
    if ps != [] {
      assert StockData(ps)[1..] == StockData(ps[1..]);
      SnapshotMatchesStockTotal(ps[1..]);
    }
  }

  // ---------------------------------------------------------------------
  // CommandeViewSet.changer_statut
  // ---------------------------------------------------------------------

  /// The `statut` field of the request body, validated against the keys of
  /// STATUS_CHOICES: a missing field or an unknown string is refused.
  function ParseStatus(statut: Option<string>): (r: Option<Status>)
    ensures r != None <==>
      statut != None && exists i :: 0 <= i < |StatusChoices| && StatusChoices[i].0 == statut.value
    ensures r != None ==> statut == Some(Key(r.value))
  {
    match statut
    case None => None
    case Some(s) =>
      if s == "en attente" then assert StatusChoices[0].0 == s; Some(EnAttente)
      else if s == "ticket imprimé" then assert StatusChoices[1].0 == s; Some(TicketImprime)
      else if s == "validée" then assert StatusChoices[2].0 == s; Some(Validee)
      else if s == "en cuisson" then assert StatusChoices[3].0 == s; Some(EnCuisson)
      else if s == "terminée" then assert StatusChoices[4].0 == s; Some(Terminee)
      else None
  }

  /// Every status can be requested by its key, whatever the current one.
  lemma ParseKey(st: Status)
    ensures ParseStatus(Some(Key(st))) == Some(st)
  {
  }

  /// The response of changer_statut.
  datatype Reply =
    | NotFound                         // no order with that key
    | InvalidStatus                    // "Statut invalide"
    | StatusChanged(status: Status)    // "Statut changé en …"
    | ServerError(produit: ProduitId)  // the save raised on a product's stock

  /// HTTP status code of each response.
  function HttpCode(r: Reply): nat {
    match r
    case NotFound => 404
    case InvalidStatus => 400
    case StatusChanged(_) => 200
    case ServerError(_) => 500
  }

  /// POST .../commandes/{pk}/changer_statut/ with body field `statut`.
  /// An unknown order is 404; a missing or unknown status is 400 and changes
  /// nothing. Otherwise the status is stored, whatever it was before, and the
  /// order is saved (Commande.save), which recomputes its weight and, for
  /// "terminée", debits the stock. A refused product row surfaces as 500 with
  /// the earlier debits kept; on success the new stock snapshot is broadcast.
  method ChangerStatut(db: Database, pk: CommandeId, statut: Option<string>)
    returns (reply: Reply, broadcast: Option<seq<StockEntry>>)
    requires db.Valid()
    modifies db
    ensures db.Valid()
    ensures db.sandwiches == old(db.sandwiches)
    ensures pk >= |old(db.commandes)| ==>
      reply == NotFound && HttpCode(reply) == 404 && broadcast == None &&
      db.produits == old(db.produits) && db.commandes == old(db.commandes)
    ensures pk < |old(db.commandes)| && ParseStatus(statut) == None ==>
      reply == InvalidStatus && HttpCode(reply) == 400 && broadcast == None &&
      db.produits == old(db.produits) && db.commandes == old(db.commandes)
    ensures pk < |old(db.commandes)| && ParseStatus(statut) != None ==>
      var st, o := ParseStatus(statut).value, old(db.commandes[pk]);
      var sw := db.sandwiches[o.sandwich];
      db.commandes == old(db.commandes)[pk := o.(status := st, poidsTotal := OrderWeight(sw.poidsTotal, o.quantite))] &&
      (st != Terminee ==> db.produits == old(db.produits) && reply == StatusChanged(st)) &&
      (st == Terminee ==>
        var d := Debit(old(db.produits), sw.produits, o.quantite);
        db.produits == d.table &&
        reply == (if d.failedAt == None then StatusChanged(st) else ServerError(d.failedAt.value))) &&
      HttpCode(reply) == (if reply.StatusChanged? then 200 else 500) &&
      broadcast == (if reply.StatusChanged? then Some(StockData(db.produits)) else None)
  {
    if pk >= |db.commandes| {
      return NotFound, None;
    }
    var nouveau := ParseStatus(statut);
    if nouveau == None {
      return InvalidStatus, None;
    }
    db.commandes := db.commandes[pk := db.commandes[pk].(status := nouveau.value)];
    var outcome := db.SaveCommande(pk);
    if outcome.NegativeStock? {
      return ServerError(outcome.produit), None;
    }
    reply := StatusChanged(nouveau.value);
    broadcast := Some(StockData(db.produits));
  }

  /// Posting "terminée" a second time for an order that is already finished
  /// debits its sandwich's products a second time: with at least twice the
  /// quantity of each in stock, both posts succeed and every product of the
  /// sandwich has lost twice the quantity, every other product nothing. The
  /// order is stored as "terminée" with its weight recomputed.
  method RepostTerminee(db: Database, pk: CommandeId) returns (first: Reply, second: Reply)
    requires db.Valid() && pk < |db.commandes|
    requires var o := db.commandes[pk];
      forall k :: 0 <= k < |db.sandwiches[o.sandwich].produits| ==>
        2 * o.quantite <= db.produits[db.sandwiches[o.sandwich].produits[k]].quantiteStock
    modifies db
    ensures db.Valid() && db.sandwiches == old(db.sandwiches)
    ensures first == StatusChanged(Terminee) && second == StatusChanged(Terminee)
    ensures var o := old(db.commandes[pk]);
      DebitedExactly(old(db.produits), db.produits, db.sandwiches[o.sandwich].produits, 2 * o.quantite)
    ensures var o := old(db.commandes[pk]);
      db.commandes == old(db.commandes)[pk := o.(status := Terminee,
        poidsTotal := OrderWeight(db.sandwiches[o.sandwich].poidsTotal, o.quantite))]
  {
    ghost var o := db.commandes[pk];
    ghost var ids := db.sandwiches[o.sandwich].produits;
    DoubleDebit(db.produits, ids, o.quantite);
    ParseKey(Terminee);
    var payload;
    first, payload := ChangerStatut(db, pk, Some(Key(Terminee)));
    second, payload := ChangerStatut(db, pk, Some(Key(Terminee)));
  }
}
