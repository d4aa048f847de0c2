/**
 * Order documents and what each handler does to one: the fresh record of
 * `create_order`, the field updates of `upload_file` and `payment_success`,
 * the copy `get_order` sends, and the summary `list_orders` sends.
 */
module Orders {
  import opened Text
  import opened Wrappers
  import opened Payload

  /** The keys an order document can hold; `Key` gives each one's JSON name. */
  datatype Field =
    | OrderId | CustomerEmail | CustomerName | ServiceType | Price | RushDelivery
    | Status | CreatedAt | FileUploaded | PaymentCompleted
    | FilePath | OriginalFilename | FileSize | UploadedAt
    | PaymentCompletedAt | PaymentIntentId

  function Key(f: Field): string
  {
    match f
    case OrderId => "order_id"
    case CustomerEmail => "customer_email"
    case CustomerName => "customer_name"
    case ServiceType => "service_type"
    case Price => "price"
    case RushDelivery => "rush_delivery"
    case Status => "status"
    case CreatedAt => "created_at"
    case FileUploaded => "file_uploaded"
    case PaymentCompleted => "payment_completed"
    case FilePath => "file_path"
    case OriginalFilename => "original_filename"
    case FileSize => "file_size"
    case UploadedAt => "uploaded_at"
    case PaymentCompletedAt => "payment_completed_at"
    case PaymentIntentId => "payment_intent_id"
  }

  /**
   * An order document, the JSON object stored in `orders/<order_id>.json`.
   * Every key the handlers write is one of the `Field`s.
   */
  type Record = map<Field, Json>

  const OrderIdPrefix: string := "WAR-"

  /** The fields `create_order` requires, in the order it checks them. */
  const RequiredFields: seq<Field> := [CustomerEmail, CustomerName, ServiceType, Price]

  const StatusPendingPayment: string := "pending_payment"
  const StatusFileUploaded: string := "file_uploaded"
  const StatusPaid: string := "paid"

  /** The fields `upload_file` writes. */
  const UploadFields: set<Field> := {FileUploaded, FilePath, OriginalFilename, FileSize, UploadedAt, Status}

  /** The fields `payment_success` always writes; PaymentIntentId is written when the request has one. */
  const PaymentFields: set<Field> := {PaymentCompleted, Status, PaymentCompletedAt}

  /** The fields of a fresh order. */
  const CreatedFields: set<Field> :=
    {OrderId, CustomerEmail, CustomerName, ServiceType, Price, RushDelivery,
     Status, CreatedAt, FileUploaded, PaymentCompleted}

  /** The request carries every field `create_order` requires. */
  predicate HasRequiredFields(data: Object)
  {
    forall i :: 0 <= i < |RequiredFields| ==> Key(RequiredFields[i]) in data
  }

  /** `generate_order_id`: "WAR-" and the upper-cased first 8 characters of a uuid4's text. */
  function GenerateOrderId(uuidText: string): (id: string)
    ensures OrderIdPrefix <= id && |id| <= 12
    ensures IsUuidText(uuidText) ==>
              |id| == 12 && forall i :: 4 <= i < 12 ==> IsUpperHexDigit(id[i])
  {
    var tail := Upper(Take(uuidText, 8));
    var id := OrderIdPrefix + tail;
    assert forall i :: 4 <= i < |id| ==> id[i] == tail[i - 4];
    id
  }

  /**
   * The lifecycle facts every stored order keeps. The status names the most
   * recent transition: "pending_payment" until the first upload or payment,
   * then "file_uploaded" or "paid" by whichever came last. The file metadata
   * is there exactly when file_uploaded is true, and the payment time (and
   * any intent id) only once payment_completed is true.
   */
  ghost predicate Consistent(r: Record)
  {
    HasBaseFields(r) && HasFileMetadata(r, r[FileUploaded].b) && HasPaymentMetadata(r) && StatusAgrees(r)
  }

  /** The fields `create_order` writes are present, with an id string and two boolean flags. */
  ghost predicate HasBaseFields(r: Record)
  {
    && OrderId in r && CustomerEmail in r && CustomerName in r && ServiceType in r && Price in r
    && Status in r && CreatedAt in r && FileUploaded in r && PaymentCompleted in r
    && r[OrderId].Str? && r[FileUploaded].Bool? && r[PaymentCompleted].Bool?
  }

  /** The payment time is there exactly when payment_completed is true, and an intent id only then. */
  ghost predicate HasPaymentMetadata(r: Record)
    requires PaymentCompleted in r && r[PaymentCompleted].Bool?
  {
    && (r[PaymentCompleted].b <==> PaymentCompletedAt in r)
    && (PaymentIntentId in r ==> r[PaymentCompleted].b)
  }

  /** The status is one of the three names and agrees with the flags. */
  ghost predicate StatusAgrees(r: Record)
    requires HasBaseFields(r)
  {
    && (r[Status] == Str(StatusPendingPayment) || r[Status] == Str(StatusFileUploaded) || r[Status] == Str(StatusPaid))
    && (r[Status] == Str(StatusPendingPayment) <==> !r[FileUploaded].b && !r[PaymentCompleted].b)
    && (r[Status] == Str(StatusFileUploaded) ==> r[FileUploaded].b)
    && (r[Status] == Str(StatusPaid) ==> r[PaymentCompleted].b)
  }

  /** The three status names are different strings. */
  lemma StatusesDiffer()
    ensures StatusPendingPayment != StatusFileUploaded && StatusPendingPayment != StatusPaid
    ensures StatusFileUploaded != StatusPaid
  {
    assert |StatusPendingPayment| == 15 && |StatusFileUploaded| == 13 && |StatusPaid| == 4;
  }

  /** Either all of the file metadata is present or none of it is. */
  ghost predicate HasFileMetadata(r: Record, uploaded: bool)
  {
    if uploaded then FilePath in r && OriginalFilename in r && FileSize in r && UploadedAt in r
    else FilePath !in r && OriginalFilename !in r && FileSize !in r && UploadedAt !in r
  }

  /** The record `create_order` saves for a request that has every required field. */
  function NewOrder(id: string, data: Object, createdAt: string): (r: Record)
    requires HasRequiredFields(data)
    ensures r.Keys == CreatedFields
    ensures r[OrderId] == Str(id)
    ensures forall i :: 0 <= i < |RequiredFields| ==> r[RequiredFields[i]] == data[Key(RequiredFields[i])]
    ensures r[RushDelivery] == if Key(RushDelivery) in data then data[Key(RushDelivery)] else Bool(false)
    ensures r[Status] == Str(StatusPendingPayment) && r[CreatedAt] == Str(createdAt)
    ensures r[FileUploaded] == Bool(false) && r[PaymentCompleted] == Bool(false)
  {
    assert Key(RequiredFields[0]) in data && Key(RequiredFields[1]) in data;
    assert Key(RequiredFields[2]) in data && Key(RequiredFields[3]) in data;
    map[OrderId := Str(id),
        CustomerEmail := data[Key(CustomerEmail)],
        CustomerName := data[Key(CustomerName)],
        ServiceType := data[Key(ServiceType)],
        Price := data[Key(Price)],
        RushDelivery := GetOr(data, Key(RushDelivery), Bool(false)),
        Status := Str(StatusPendingPayment),
        CreatedAt := Str(createdAt),
        FileUploaded := Bool(false),
        PaymentCompleted := Bool(false)]
  }

  /** A fresh order is consistent: pending, with no file and no payment. */
  lemma NewOrderIsConsistent(id: string, data: Object, createdAt: string)
    requires HasRequiredFields(data)
    ensures Consistent(NewOrder(id, data, createdAt))
  {
    StatusesDiffer();
    var r := NewOrder(id, data, createdAt);
    assert !r[FileUploaded].b && !r[PaymentCompleted].b;
    assert FilePath !in r && OriginalFilename !in r && FileSize !in r && UploadedAt !in r;
    assert PaymentCompletedAt !in r && PaymentIntentId !in r;
  }

  /** The record after `upload_file` binds a file to it. */
  function WithUpload(r: Record, path: string, filename: string, size: nat, uploadedAt: string): (u: Record)
    ensures u.Keys == r.Keys + UploadFields
    ensures forall f :: f in r && f !in UploadFields ==> u[f] == r[f]
    ensures u[FileUploaded] == Bool(true) && u[Status] == Str(StatusFileUploaded)
    ensures u[FilePath] == Str(path) && u[OriginalFilename] == Str(filename)
    ensures u[FileSize] == Num(size) && u[UploadedAt] == Str(uploadedAt)
  {
    r[FileUploaded := Bool(true)]
     [FilePath := Str(path)]
     [OriginalFilename := Str(filename)]
     [FileSize := Num(size)]
     [UploadedAt := Str(uploadedAt)]
     [Status := Str(StatusFileUploaded)]
  }

  /** An upload keeps a record consistent, whatever its status was. */
  lemma UploadKeepsConsistent(r: Record, path: string, filename: string, size: nat, uploadedAt: string)
    requires Consistent(r)
    ensures Consistent(WithUpload(r, path, filename, size, uploadedAt))
  {
    StatusesDiffer();
  }

  /** The request's "payment_intent_id", None when it has none. */
  function PaymentIntent(request: Object): (intent: Option<Json>)
    ensures intent.Some? <==> Key(PaymentIntentId) in request
    ensures intent.Some? ==> intent.value == request[Key(PaymentIntentId)]
  {
    if Key(PaymentIntentId) in request then Some(request[Key(PaymentIntentId)]) else None
  }

  /**
   * The record after `payment_success`; `intent` is the request's
   * "payment_intent_id", None when the request has none.
   */
  function WithPayment(r: Record, intent: Option<Json>, paidAt: string): (p: Record)
    ensures p.Keys == r.Keys + PaymentFields + (if intent.Some? then {PaymentIntentId} else {})
    ensures forall f :: f in r && f !in PaymentFields && f != PaymentIntentId ==> p[f] == r[f]
    ensures p[PaymentCompleted] == Bool(true) && p[Status] == Str(StatusPaid)
    ensures p[PaymentCompletedAt] == Str(paidAt)
    ensures intent.Some? ==> p[PaymentIntentId] == intent.value
    ensures intent.None? && PaymentIntentId in r ==> p[PaymentIntentId] == r[PaymentIntentId]
  {
    var p := r[PaymentCompleted := Bool(true)]
              [Status := Str(StatusPaid)]
              [PaymentCompletedAt := Str(paidAt)];
    match intent
    case Some(id) => p[PaymentIntentId := id]
    case None => p
  }

  /** A payment keeps the fields `create_order` wrote, and the file flag as it was. */
  lemma PaymentKeepsBaseFields(r: Record, intent: Option<Json>, paidAt: string)
    requires HasBaseFields(r)
    ensures HasBaseFields(WithPayment(r, intent, paidAt))
    ensures WithPayment(r, intent, paidAt)[FileUploaded] == r[FileUploaded]
  {
    assert FileUploaded !in PaymentFields;
  }

  /** A payment leaves the file metadata as it was. */
  lemma PaymentKeepsFileMetadata(r: Record, intent: Option<Json>, paidAt: string, uploaded: bool)
    requires HasFileMetadata(r, uploaded)
    ensures HasFileMetadata(WithPayment(r, intent, paidAt), uploaded)
  {
    var p := WithPayment(r, intent, paidAt);
    assert FilePath !in PaymentFields && OriginalFilename !in PaymentFields;
    assert FileSize !in PaymentFields && UploadedAt !in PaymentFields;
    if uploaded {
      assert FilePath in p && OriginalFilename in p && FileSize in p && UploadedAt in p;
    } else {
      assert FilePath !in p && OriginalFilename !in p && FileSize !in p && UploadedAt !in p;
    }
  }

  /** A payment keeps a record consistent, with or without an intent id, before or after an upload. */
  lemma PaymentKeepsConsistent(r: Record, intent: Option<Json>, paidAt: string)
    requires Consistent(r)
    ensures Consistent(WithPayment(r, intent, paidAt))
  {
    var p := WithPayment(r, intent, paidAt);
    PaymentKeepsBaseFields(r, intent, paidAt);
    PaymentKeepsFileMetadata(r, intent, paidAt, r[FileUploaded].b);
    assert HasPaymentMetadata(p);
    assert StatusAgrees(p) by {
      StatusesDiffer();
    }
  }

  /** The copy `get_order` returns: the record without "file_path". */
  function Sanitized(r: Record): (s: Record)
    ensures s.Keys == r.Keys - {FilePath}
    ensures forall f :: f in s ==> s[f] == r[f]
  {
    r - {FilePath}
  }

  /** The entry `list_orders` sends for one order: six of its fields, nothing else. */
  datatype OrderSummary = OrderSummary(orderId: Json, customerEmail: Json, status: Json, createdAt: Json,
                                       fileUploaded: Json, paymentCompleted: Json)

  /** The summary of one record; a flag reads as stored, or as false when it is missing. */
  function Summary(r: Record): (s: OrderSummary)
    requires OrderId in r && CustomerEmail in r && Status in r && CreatedAt in r
    ensures s.orderId == r[OrderId] && s.customerEmail == r[CustomerEmail]
    ensures s.status == r[Status] && s.createdAt == r[CreatedAt]
    ensures FileUploaded in r ==> s.fileUploaded == r[FileUploaded]
    ensures FileUploaded !in r ==> s.fileUploaded == Bool(false)
    ensures PaymentCompleted in r ==> s.paymentCompleted == r[PaymentCompleted]
    ensures PaymentCompleted !in r ==> s.paymentCompleted == Bool(false)
  {
    OrderSummary(r[OrderId], r[CustomerEmail], r[Status], r[CreatedAt],
                 if FileUploaded in r then r[FileUploaded] else Bool(false),
                 if PaymentCompleted in r then r[PaymentCompleted] else Bool(false))
  }

  /** A consistent record's summary carries its id, email, status, creation time and both flags as stored. */
  lemma SummaryOfConsistent(r: Record)
    requires Consistent(r)
    ensures var s := Summary(r);
            && s.orderId == r[OrderId] && s.customerEmail == r[CustomerEmail]
            && s.status == r[Status] && s.createdAt == r[CreatedAt]
            && s.fileUploaded == r[FileUploaded] && s.paymentCompleted == r[PaymentCompleted]
            && s.fileUploaded.Bool? && s.paymentCompleted.Bool?
  {
  }

  /** Read back straight after creation, an order is pending, with no file and no payment. */
  lemma CreatedOrderIsPending(id: string, data: Object, createdAt: string)
    requires HasRequiredFields(data)
    ensures var view := Sanitized(NewOrder(id, data, createdAt));
            && view == NewOrder(id, data, createdAt)
            && view[Status] == Str(StatusPendingPayment)
            && view[FileUploaded] == Bool(false) && view[PaymentCompleted] == Bool(false)
  {
  }

  /** After an upload the storage path is in the record but never in the copy `get_order` returns. */
  lemma UploadedPathStaysHidden(r: Record, path: string, filename: string, size: nat, uploadedAt: string)
    ensures var u := WithUpload(r, path, filename, size, uploadedAt);
            FilePath in u && FilePath !in Sanitized(u)
            && Sanitized(u)[OriginalFilename] == Str(filename)
  {
  }

  /** Paying twice with the same request is paying once at the later time. */
  lemma PaymentIsIdempotent(r: Record, intent: Option<Json>, t1: string, t2: string)
    ensures WithPayment(WithPayment(r, intent, t1), intent, t2) == WithPayment(r, intent, t2)
  {
  }

  /** A second payment without an intent id keeps the flags, the status and the earlier intent id. */
  lemma RepeatedPaymentKeepsIntent(r: Record, intent: Json, t1: string, t2: string)
    ensures WithPayment(WithPayment(r, Some(intent), t1), None, t2)[PaymentCompleted] == Bool(true)
    ensures WithPayment(WithPayment(r, Some(intent), t1), None, t2)[Status] == Str(StatusPaid)
    ensures WithPayment(WithPayment(r, Some(intent), t1), None, t2)[PaymentIntentId] == intent
  {
  }

  /**
   * The status regresses: an upload after payment sets it back to
   * "file_uploaded" while payment_completed stays true.
   */
  lemma UploadAfterPaymentRegressesStatus(r: Record, intent: Option<Json>, paidAt: string,
                                           path: string, filename: string, size: nat, uploadedAt: string)
    ensures var u := WithUpload(WithPayment(r, intent, paidAt), path, filename, size, uploadedAt);
            u[Status] == Str(StatusFileUploaded) && u[PaymentCompleted] == Bool(true)
  {
  }
}
