/**
 * The orders directory as a table from order id to document, and the request
 * handlers that read and update it: `create_order`, `upload_file`,
 * `get_order`, `payment_success` and `list_orders`.
 */
module Store {
  import opened Wrappers
  import opened Text
  import opened Payload
  import opened Uploads
  import opened Orders

  const OrderNotFound := "Order not found"
  const CreateFailed := "Failed to create order"

  /** `f` is the first of the required fields, in checking order, that `data` lacks. */
  predicate IsFirstMissing(data: Object, f: Field)
  {
    exists i :: 0 <= i < |RequiredFields| && RequiredFields[i] == f && Key(f) !in data
                && forall j :: 0 <= j < i ==> Key(RequiredFields[j]) in data
  }

  /** The validation loop of `create_order`: the first required field the request lacks, if any. */
  method FirstMissingField(data: Object) returns (missing: Option<Field>)
    ensures missing.None? <==> HasRequiredFields(data)
    ensures missing.Some? ==> IsFirstMissing(data, missing.value)
  {
    for i := 0 to |RequiredFields|
      invariant forall j :: 0 <= j < i ==> Key(RequiredFields[j]) in data
    {
      if Key(RequiredFields[i]) !in data {
        return Some(RequiredFields[i]);
      }
    }
    return None;
  }

  /** The required fields are checked in a fixed order, so only one of them is reported. */
  lemma FirstMissingIsUnique(data: Object, f: Field, g: Field)
    requires IsFirstMissing(data, f) && IsFirstMissing(data, g)
    ensures f == g
  {
  }

  /** The record is what `orders/<id>.json` may hold: filed under its own id, and consistent. */
  ghost predicate FiledUnder(id: string, r: Record)
  {
    OrderIdPrefix <= id && OrderId in r && r[OrderId] == Str(id) && Consistent(r)
  }

  /** Every entry of the table is filed under its own id and consistent. */
  ghost predicate AllFiled(orders: map<string, Record>)
  {
    forall id :: id in orders ==> FiledUnder(id, orders[id])
  }

  /** Filing a well-formed record under its own id keeps the whole table well-formed. */
  lemma FilingKeepsAllFiled(orders: map<string, Record>, id: string, r: Record)
    requires AllFiled(orders) && FiledUnder(id, r)
    ensures AllFiled(orders[id := r])
  {
  }

  /**
   * What `upload_file` answers for the document `loaded` (None when there is
   * no `orders/<orderId>.json`), and the document it then saves.
   * `secureFilename` stands for werkzeug's `secure_filename`, `uuidHex` for
   * `uuid.uuid4().hex` and `now` for the upload time. A sanitized name with no
   * '.' makes the source's `rsplit('.', 1)[1]` raise, which it reports as a 500.
   */
  function UploadOutcome(loaded: Option<Record>, orderId: string, file: Option<FilePart>,
                         secureFilename: string -> string, uuidHex: string, now: string)
    : (out: (Response<Object>, Option<Record>))
    ensures out.0.NotFound? <==> loaded.None? || loaded.value == map[]
    ensures out.0.NotFound? ==> out.0.error == OrderNotFound
    ensures !out.0.NotFound? ==> (out.0.BadRequest? <==> FileError(file).Some?)
    ensures out.0.BadRequest? ==> out.0.error == FileError(file).value
    ensures !out.0.NotFound? && FileError(file).None? ==>
              (out.0.ServerError? <==> '.' !in secureFilename(file.value.filename))
    ensures out.0.ServerError? ==> out.0.error == UploadFailed
    ensures out.1.Some? <==> out.0.Ok?
    ensures out.0.Ok? ==>
              && file.Some?
              && var name := secureFilename(file.value.filename);
              && OrderUploadPath(orderId, uuidHex, name).Some?
              && out.1.value == WithUpload(loaded.value, OrderUploadPath(orderId, uuidHex, name).value,
                                           name, file.value.size, now)
              && out.0.body == map["success" := Bool(true), "message" := Str("File uploaded successfully"),
                                   "order_id" := Str(orderId), "filename" := Str(name),
                                   "file_size" := Num(file.value.size)]
  {
    if loaded.None? || loaded.value == map[] then (NotFound(OrderNotFound), None)
    else match FileError(file)
      case Some(err) => (BadRequest(err), None)
      case None =>
        var name := secureFilename(file.value.filename);
        match OrderUploadPath(orderId, uuidHex, name)
        case None => (ServerError(UploadFailed), None)
        case Some(path) =>
          (Ok(map["success" := Bool(true), "message" := Str("File uploaded successfully"),
                  "order_id" := Str(orderId), "filename" := Str(name), "file_size" := Num(file.value.size)]),
           Some(WithUpload(loaded.value, path, name, file.value.size, now)))
  }

  /** An upload keeps a record filed under its own id. */
  lemma UploadKeepsFiled(id: string, r: Record, path: string, filename: string, size: nat, uploadedAt: string)
    requires FiledUnder(id, r)
    ensures FiledUnder(id, WithUpload(r, path, filename, size, uploadedAt))
  {
    UploadKeepsConsistent(r, path, filename, size, uploadedAt);
  }

  /** A payment keeps a record filed under its own id. */
  lemma PaymentKeepsFiled(id: string, r: Record, intent: Option<Json>, paidAt: string)
    requires FiledUnder(id, r)
    ensures FiledUnder(id, WithPayment(r, intent, paidAt))
  {
    PaymentKeepsConsistent(r, intent, paidAt);
  }

  /** The order id a directory entry names: the file name without ".json"; None for any other file. */
  function JsonStem(filename: string): (stem: Option<string>)
    ensures stem.Some? <==> 5 <= |filename| && filename[|filename| - 5..] == ".json"
    ensures stem.Some? ==> stem.value + ".json" == filename
  {
    if 5 <= |filename| && filename[|filename| - 5..] == ".json" then
      assert filename == filename[..|filename| - 5] + filename[|filename| - 5..];
      Some(filename[..|filename| - 5])
    else None
  }

  /**
   * The orders `list_orders` reports for a directory listing, in the
   * listing's order: each ".json" entry whose order is stored and non-empty.
   */
  function ListedIds(orders: map<string, Record>, listing: seq<string>): (ids: seq<string>)
    ensures forall i :: 0 <= i < |ids| ==>
              ids[i] in orders && orders[ids[i]] != map[] && ids[i] + ".json" in listing
    decreases |listing|
  {
    if listing == [] then []
    else
      var front := listing[..|listing| - 1];
      var earlier := ListedIds(orders, front);
      var stem := JsonStem(listing[|listing| - 1]);
      assert forall i :: 0 <= i < |earlier| ==> earlier[i] + ".json" in listing by {
        assert listing == front + [listing[|listing| - 1]];
      }
      if stem.Some? && stem.value in orders && orders[stem.value] != map[] then earlier + [stem.value]
      else earlier
  }

  /** Every stored, non-empty order whose file the listing names is reported. */
  lemma {:induction false} ListedIdsCover(orders: map<string, Record>, listing: seq<string>, id: string)
    requires id in orders && orders[id] != map[] && id + ".json" in listing
    ensures id in ListedIds(orders, listing)
    decreases |listing|
  {
    var front := listing[..|listing| - 1];
    assert listing == front + [listing[|listing| - 1]];
    if id + ".json" in front {
      ListedIdsCover(orders, front, id);
    } else {
      assert JsonStem(id + ".json") == Some(id);
    }
  }

  /** A listing without repeated names reports each order once. */
  lemma {:induction false} ListedIdsDistinct(orders: map<string, Record>, listing: seq<string>)
    requires forall i, j :: 0 <= i < j < |listing| ==> listing[i] != listing[j]
    ensures forall i, j :: 0 <= i < j < |ListedIds(orders, listing)| ==>
              ListedIds(orders, listing)[i] != ListedIds(orders, listing)[j]
    decreases |listing|
  {
    if listing != [] {
      var front := listing[..|listing| - 1];
      ListedIdsDistinct(orders, front);
      var earlier := ListedIds(orders, front);
      var stem := JsonStem(listing[|listing| - 1]);
      var ids := ListedIds(orders, listing);
      if stem.Some? && stem.value in orders && orders[stem.value] != map[] {
        assert ids == earlier + [stem.value];
        forall m | 0 <= m < |earlier| ensures earlier[m] != stem.value {
          assert earlier[m] + ".json" in front;
          var k :| 0 <= k < |front| && front[k] == earlier[m] + ".json";
          assert listing[k] == front[k];
        }
        forall i, j | 0 <= i < j < |ids| ensures ids[i] != ids[j] {
          assert ids[i] == earlier[i];
          if j < |earlier| {
            assert ids[j] == earlier[j];
          }
        }
      } else {
        assert ids == earlier;
      }
    }
  }

  /** The summaries of the orders `ids` names, in that order. */
  function Summaries(orders: map<string, Record>, ids: seq<string>): (s: seq<OrderSummary>)
    requires AllFiled(orders) && forall i :: 0 <= i < |ids| ==> ids[i] in orders
    ensures |s| == |ids|
    ensures forall i :: 0 <= i < |ids| ==> s[i] == Summary(orders[ids[i]])
    decreases |ids|
  {
    if ids == [] then []
    else
      var id := ids[|ids| - 1];
      assert FiledUnder(id, orders[id]);
      Summaries(orders, ids[..|ids| - 1]) + [Summary(orders[id])]
  }

  /** A sequence without repeats has as many distinct elements as entries. */
  lemma {:induction false} DistinctCount(xs: seq<string>)
    requires forall i, j :: 0 <= i < j < |xs| ==> xs[i] != xs[j]
    ensures |set x | x in xs| == |xs|
    decreases |xs|
  {
    if xs != [] {
      var front := xs[..|xs| - 1];
      DistinctCount(front);
      var last := xs[|xs| - 1];
      assert last !in front by {
        forall k | 0 <= k < |front| ensures front[k] != last {
          assert front[k] == xs[k];
        }
      }
      assert (set x | x in xs) == (set x | x in front) + {last} by {
        assert xs == front + [last];
      }
    }
  }

  /** The listing names the file of every stored order. */
  predicate ListsEveryOrder(orders: map<string, Record>, listing: seq<string>)
  {
    forall id :: id in orders ==> id + ".json" in listing
  }

  /** A listing of the whole directory yields the summary of every stored order. */
  lemma ListingCoversOrders(orders: map<string, Record>, listing: seq<string>, id: string)
    requires AllFiled(orders) && ListsEveryOrder(orders, listing) && id in orders
    ensures Summary(orders[id]) in Summaries(orders, ListedIds(orders, listing))
  {
    var ids := ListedIds(orders, listing);
    assert FiledUnder(id, orders[id]);
    ListedIdsCover(orders, listing, id);
    var k :| 0 <= k < |ids| && ids[k] == id;
    assert Summaries(orders, ids)[k] == Summary(orders[id]);
  }

  /** A listing without repeated names yields summaries of different orders. */
  lemma ListingNamesDistinctOrders(orders: map<string, Record>, listing: seq<string>, i: nat, j: nat)
    requires AllFiled(orders) && forall a, b :: 0 <= a < b < |listing| ==> listing[a] != listing[b]
    requires i < j < |Summaries(orders, ListedIds(orders, listing))|
    ensures Summaries(orders, ListedIds(orders, listing))[i].orderId
            != Summaries(orders, ListedIds(orders, listing))[j].orderId
  {
    var ids := ListedIds(orders, listing);
    ListedIdsDistinct(orders, listing);
    assert FiledUnder(ids[i], orders[ids[i]]) && FiledUnder(ids[j], orders[ids[j]]);
  }

  /** A listing of the whole directory without repeated names yields exactly one summary per order. */
  lemma ListingCountsOrders(orders: map<string, Record>, listing: seq<string>)
    requires AllFiled(orders) && ListsEveryOrder(orders, listing)
    requires forall a, b :: 0 <= a < b < |listing| ==> listing[a] != listing[b]
    ensures |Summaries(orders, ListedIds(orders, listing))| == |orders|
  {
    var ids := ListedIds(orders, listing);
    ListedIdsDistinct(orders, listing);
    DistinctCount(ids);
    forall id | id in orders ensures id in ids {
      assert FiledUnder(id, orders[id]);
      ListedIdsCover(orders, listing, id);
    }
    assert (set x | x in ids) == orders.Keys;
  }

  /**
   * The orders directory. Each document `orders/<id>.json` is the entry under
   * `id`; `save_order` replaces an entry whole and `load_order` reads one.
   */
  class OrderStore {
    var orders: map<string, Record>

    ghost predicate Valid()
      reads this
    {
      AllFiled(orders)
    }

    /** An empty orders directory. */
    constructor ()
      ensures Valid() && orders == map[]
    {
      orders := map[];
    }

    /** `load_order`: the document stored under `id`, or None. */
    function Load(id: string): (r: Option<Record>)
      reads this
      ensures r.Some? <==> id in orders
      ensures r.Some? ==> r.value == orders[id]
    {
      if id in orders then Some(orders[id]) else None
    }

    /** `save_order`: file the record under its own order id, replacing any earlier one. */
    method Save(r: Record)
      requires OrderId in r && r[OrderId].Str?
      modifies this
      ensures orders == old(orders)[r[OrderId].s := r]
    {
      orders := orders[r[OrderId].s := r];
    }

    /**
     * `create_order`. `body` is the request's JSON object, None when there is
     * none (the source then fails on `field not in None` and answers 500).
     * `uuidText` stands for `str(uuid.uuid4())` and `now` for the creation
     * time. A fresh id that happens to equal a stored one replaces that order
     * (last write wins).
     */
    method CreateOrder(body: Option<Object>, uuidText: string, now: string) returns (res: Response<Object>)
      requires Valid()
      modifies this
      ensures Valid()
      ensures res.Ok? <==> body.Some? && HasRequiredFields(body.value)
      ensures res.ServerError? <==> body.None?
      ensures res.ServerError? ==> orders == old(orders) && res.error == CreateFailed
      ensures res.BadRequest? <==> body.Some? && !HasRequiredFields(body.value)
      ensures res.BadRequest? ==>
                orders == old(orders)
                && exists f :: IsFirstMissing(body.value, f) && res.error == "Missing required field: " + Key(f)
      ensures res.Ok? ==>
                && body.Some?
                && var id := GenerateOrderId(uuidText);
                && orders == old(orders)[id := NewOrder(id, body.value, now)]
                && res.body == map["success" := Bool(true), "order_id" := Str(id),
                                   "message" := Str("Order created successfully")]
    {
      if body.None? {
        return ServerError(CreateFailed);
      }
      var data := body.value;
      var missing := FirstMissingField(data);
      if missing.Some? {
        return BadRequest("Missing required field: " + Key(missing.value));
      }
      var id := GenerateOrderId(uuidText);
      var order := NewOrder(id, data, now);
      NewOrderIsConsistent(id, data, now);
      FilingKeepsAllFiled(orders, id, order);
      Save(order);
      res := Ok(map["success" := Bool(true), "order_id" := Str(id),
                    "message" := Str("Order created successfully")]);
    }

    /**
     * `upload_file`: bind an uploaded file to an existing order. The order is
     * looked up before the file is checked; the new document is the one
     * `UploadOutcome` gives, filed under the order's id.
     */
    method UploadFile(id: string, file: Option<FilePart>, secureFilename: string -> string,
                      uuidHex: string, now: string) returns (res: Response<Object>)
      requires Valid()
      modifies this
      ensures Valid()
      ensures res.NotFound? <==> id !in old(orders)
      ensures var out := UploadOutcome(old(Load(id)), id, file, secureFilename, uuidHex, now);
              && res == out.0
              && orders == if out.1.Some? then old(orders)[id := out.1.value] else old(orders)
    {
      var loaded := Load(id);
      assert loaded.Some? ==> FiledUnder(id, loaded.value);
      var out := UploadOutcome(loaded, id, file, secureFilename, uuidHex, now);
      res := out.0;
      if out.1.Some? {
        var name := secureFilename(file.value.filename);
        UploadKeepsFiled(id, loaded.value, OrderUploadPath(id, uuidHex, name).value, name, file.value.size, now);
        FilingKeepsAllFiled(orders, id, out.1.value);
        Save(out.1.value);
      }
    }

    /** `get_order`: the stored document without "file_path", or 404. */
    function GetOrder(id: string): (res: Response<Record>)
      reads this
      ensures res.Ok? || res.NotFound?
      ensures res.NotFound? <==> id !in orders || orders[id] == map[]
      ensures res.NotFound? ==> res.error == OrderNotFound
      ensures res.Ok? ==>
                && res.body.Keys == orders[id].Keys - {FilePath}
                && forall f :: f in res.body ==> res.body[f] == orders[id][f]
    {
      match Load(id)
      case None => NotFound(OrderNotFound)
      case Some(order) => if order == map[] then NotFound(OrderNotFound) else Ok(Sanitized(order))
    }

    /**
     * `payment_success`. `request` is the JSON body, None when there is none;
     * `now` is the payment time. No order of upload and payment is enforced.
     */
    method PaymentSuccess(id: string, request: Option<Object>, now: string) returns (res: Response<Object>)
      requires Valid()
      modifies this
      ensures Valid()
      ensures res.Ok? || res.NotFound?
      ensures res.NotFound? <==> id !in old(orders)
      ensures res.NotFound? ==> orders == old(orders) && res.error == OrderNotFound
      ensures res.Ok? ==>
                && orders == old(orders)[id := WithPayment(old(orders)[id], PaymentIntent(BodyOrEmpty(request)), now)]
                && res.body == map["success" := Bool(true), "message" := Str("Payment recorded successfully"),
                                   "order_id" := Str(id)]
    {
      var loaded := Load(id);
      assert loaded.Some? ==> FiledUnder(id, loaded.value);
      if loaded.None? || loaded.value == map[] {
        return NotFound(OrderNotFound);
      }
      var intent := PaymentIntent(BodyOrEmpty(request));
      var order := WithPayment(loaded.value, intent, now);
      PaymentKeepsFiled(id, loaded.value, intent, now);
      FilingKeepsAllFiled(orders, id, order);
      Save(order);
      res := Ok(map["success" := Bool(true), "message" := Str("Payment recorded successfully"),
                    "order_id" := Str(id)]);
    }

    /**
     * `list_orders`: one summary per order file the listing names, in the
     * listing's order. `listing` stands for what `os.listdir('orders')` returns.
     */
    method ListOrders(listing: seq<string>) returns (summaries: seq<OrderSummary>)
      requires Valid()
      ensures summaries == Summaries(orders, ListedIds(orders, listing))
    {
      summaries := [];
      for i := 0 to |listing|
        invariant summaries == Summaries(orders, ListedIds(orders, listing[..i]))
      {
        assert listing[..i + 1][..i] == listing[..i];
        ghost var ids := ListedIds(orders, listing[..i]);
        var stem := JsonStem(listing[i]);
        if stem.Some? {
          var loaded := Load(stem.value);
          if loaded.Some? && loaded.value != map[] {
            assert (ids + [stem.value])[..|ids|] == ids;
            summaries := summaries + [Summary(loaded.value)];
          }
        }
      }
      assert listing[..|listing|] == listing;
    }
  }
}
