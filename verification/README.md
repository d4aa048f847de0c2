# Order backend of the wedding-audio-repair service, modelled in Dafny

The service is a small Flask backend (`app.py`). A customer creates an order,
uploads an audio or video file for it, and records the payment. An
administrator can read one order or list them all. Each order is a JSON
document `orders/<order_id>.json`.

This project models the core of that backend:

- **Upload validation** (`uploads.dfy`): `allowed_file`, the checks both upload
  handlers make (a file part, a non-empty name, an allowed extension, at most
  100 MiB), the two storage names `<uuid>.<ext>` and
  `<order_id>_<8 hex>.<ext>`, and the unbound handler `upload_file_direct`
  without its file write.
- **Order documents** (`orders.dfy`):
  - the record `create_order` builds;
  - the field updates of `upload_file` and `payment_success`;
  - the copy `get_order` sends, without `file_path`;
  - the six-field summary `list_orders` sends;
  - the lifecycle invariant `Consistent` every stored order keeps.
- **The orders directory and its handlers** (`store.dfy`): a class
  `OrderStore` whose field `orders` maps each id to its document.
  - `load_order` reads an entry; `save_order` replaces a whole entry, keyed by
    the record's own `order_id`.
  - The handlers `create_order`, `upload_file`, `get_order`, `payment_success`
    and `list_orders` are methods on it, each proved to keep the store
    invariant `Valid`: every entry is filed under its own id and is
    consistent.
- **Helpers**: `text.dfy` holds the Python string operations used above
  (`rsplit('.', 1)`, `[:n]`, `lower()`, `upper()`), `payload.dfy` holds JSON
  values and handler responses, and `wrappers.dfy` holds `Option`.

Randomness, clocks and library calls become parameters:

- the text of `uuid.uuid4()` and its `.hex`;
- the time stamps;
- werkzeug's `secure_filename`, as a function-typed parameter;
- the uploaded file's size;
- the result of `os.listdir('orders')`.

HTTP responses are the datatype `Response`: `Ok` (200), `BadRequest` (400),
`NotFound` (404) and `ServerError` (500), each carrying the source's message.

Three facts of the code shape the model:

- `ALLOWED_EXTENSIONS` holds exactly 9 extensions: mp3, wav, mp4, m4a, aac,
  flac, ogg, mov and avi.
- An upload after payment sets the status back to "file_uploaded" while
  `payment_completed` stays true. `UploadAfterPaymentRegressesStatus` proves
  this, and `Consistent` allows it.
- Payment before upload is allowed.

## Model

| member | source | states |
|---|---|---|
| Text.LastIndexOf | app.py:28 | None exactly when the character is absent; otherwise the index holds it and no later position does |
| Text.RSplitOnce | app.py:28 | `rsplit(sep, 1)`: `[s]` without a separator; otherwise two parts that rebuild `s` around the last separator, the second free of it |
| Text.Take | app.py:31 | `s[:n]` is a prefix of `s`, of length `min(n, len(s))` |
| Text.Lower | app.py:28 | same length; every character is ASCII-lower-cased in place |
| Text.Upper | app.py:31 | same length; every character is ASCII-upper-cased in place |
| Text.LowerIdempotent | app.py:28 | lowering twice equals lowering once |
| Uploads.AllowedFile | app.py:20-28 | true iff the name has an extension (text after its last '.') whose lower-cased form is one of the 9 allowed |
| Uploads.AllowedFileIgnoresCase | app.py:26-28 | lower-casing the file name never changes the verdict |
| Uploads.AcceptsUpperCaseExtension | app.py:26-28 | "A.MP3" is accepted |
| Uploads.AcceptsEarlierDots | app.py:26-28 | "take.final.Wav" is accepted: only the last '.' counts |
| Uploads.RejectsHiddenExtension | app.py:26-28 | "song.mp3.exe" is refused |
| Uploads.RejectsExeAndNoExtension | app.py:26-28 | "x.exe" and "noext" are refused |
| Uploads.FileError | app.py:159-179 | no error iff a part is present, its name is non-empty and allowed, and its size is at most 100 MiB; otherwise the first failing check's message: no part gives "No file provided", an empty name "No file selected", a refused extension "Invalid file type…", an oversized file "File size exceeds 100MB limit" |
| Uploads.SizeLimitIsInclusive | app.py:178-179 | a file of exactly MAX_FILE_SIZE bytes passes; one byte more gives "File size exceeds 100MB limit" |
| Uploads.StoredExtension | app.py:182-183 | None iff the sanitized name has no '.'; otherwise the lower-cased text after its last '.' |
| Uploads.DirectFileName | app.py:130 | exactly the file id, a '.', then the extension: the length is the sum, and the extension is the text after the last '.' |
| Uploads.OrderFileName | app.py:184 | the name starts with `order_id + "_"` and ends with "." and the extension; for a 32-digit uuid hex, 8 lower-case hex digits follow the "_" |
| Uploads.OrderUploadPath | app.py:182-187 | None iff the sanitized name has no '.'; otherwise `uploads/` and the order file name built with the lower-cased extension |
| Uploads.DirectUploadPath | app.py:128-133 | None iff the sanitized name has no '.'; otherwise `uploads/` and the direct file name built with the lower-cased extension |
| Uploads.StoredNameKeepsExtension | app.py:183-184 | reading the extension back from a stored name gives the extension it was built with |
| Uploads.UploadDirect | app.py:98-148 | never 404; 400 iff a file check fails, with its message; 500 iff the sanitized name has no '.', with "Failed to upload file"; otherwise 200 with the success body and the upload path |
| Payload.GetOr | app.py:77 | `d.get(key, default)` |
| Payload.BodyOrEmpty | app.py:241 | `get_json() or {}`: the body, or the empty object when there is none |
| Orders.GenerateOrderId | app.py:30-31 | starts with "WAR-" and has at most 12 characters; for a uuid4 text, exactly 12, the last 8 being upper-case hex digits |
| Orders.NewOrder | app.py:69-82 | exactly the ten creation fields: the four required fields copied, rush_delivery given or false, status "pending_payment", both flags false |
| Orders.NewOrderIsConsistent | app.py:71-82 | a fresh order satisfies the lifecycle invariant |
| Orders.CreatedOrderIsPending | app.py:71-82 | a fresh order has no file_path, so get_order returns it whole: pending, no file, no payment |
| Orders.WithUpload | app.py:191-196 | the six upload fields are set (flag, path, name, size, time, status "file_uploaded"); every other field is kept |
| Orders.UploadKeepsConsistent | app.py:191-196 | an upload keeps the lifecycle invariant, before or after payment |
| Orders.UploadedPathStaysHidden | app.py:191-225 | after an upload the path is stored but absent from the get_order copy, which still shows the original file name |
| Orders.PaymentIntent | app.py:249-250 | the request's payment_intent_id, present exactly when the request has one |
| Orders.WithPayment | app.py:244-250 | payment flag, status "paid" and payment time are set; the intent id is overwritten only when given, else kept; every other field is kept |
| Orders.PaymentKeepsBaseFields | app.py:244-250 | a payment keeps every creation field and the file flag |
| Orders.PaymentKeepsFileMetadata | app.py:244-250 | a payment leaves the file metadata as it was |
| Orders.PaymentKeepsConsistent | app.py:244-250 | a payment keeps the lifecycle invariant, with or without an intent id |
| Orders.PaymentIsIdempotent | app.py:244-250 | paying twice with the same request equals paying once at the later time |
| Orders.RepeatedPaymentKeepsIntent | app.py:249-250 | a second payment without an intent id keeps the flag, the status and the earlier intent id |
| Orders.UploadAfterPaymentRegressesStatus | app.py:191-245 | an upload after payment sets status back to "file_uploaded" while payment_completed stays true |
| Orders.Sanitized | app.py:223-225 | exactly the key file_path is removed; every other field is equal |
| Orders.Summary | app.py:277-284 | copies order_id, customer_email, status and created_at; each flag reads as stored when present and as false when missing |
| Orders.SummaryOfConsistent | app.py:277-284 | for a consistent record, the summary's flags are the stored booleans |
| Store.FirstMissingField | app.py:64-67 | None iff all four required fields are present; otherwise the first missing one in checking order |
| Store.FirstMissingIsUnique | app.py:64-67 | only one field can be the first missing one |
| Store.FilingKeepsAllFiled | app.py:33-38 | saving a well-formed record under its own id keeps every entry well-formed |
| Store.OrderStore.constructor | app.py:23-24 | the store starts empty and valid |
| Store.OrderStore.Load | app.py:40-46 | the entry under the id, or None exactly when there is none |
| Store.OrderStore.Save | app.py:33-38 | replaces the whole entry under the record's own order_id; no other entry changes |
| Store.OrderStore.CreateOrder | app.py:57-96 | 200 iff there is a body holding all four required fields, and then the fresh order is stored under its generated id; 500 with no change when there is no body; 400 with no change iff a required field is missing, naming the first; the store stays valid |
| Store.UploadOutcome | app.py:150-212 | 404 iff the order is missing or empty, checked before the file; then 400 iff a file check fails; then 500 iff the sanitized name has no '.'; only success yields a new record, the upload update of the loaded one |
| Store.UploadKeepsFiled | app.py:191-198 | an upload keeps a record filed under its own id |
| Store.OrderStore.UploadFile | app.py:150-212 | 404 iff the id is unknown; the response is UploadOutcome's; the store changes only on success, and then only at that id; the store stays valid |
| Store.OrderStore.GetOrder | app.py:214-231 | 404 iff the id is absent or its document empty; otherwise the stored keys minus file_path, with equal values; reads only |
| Store.PaymentKeepsFiled | app.py:244-252 | a payment keeps a record filed under its own id |
| Store.OrderStore.PaymentSuccess | app.py:233-264 | 404 with no change iff the id is unknown; otherwise only that entry changes, to the payment update, and the store stays valid |
| Store.JsonStem | app.py:272-273 | a name ending in ".json" gives the name without it; any other name gives None |
| Store.ListedIds | app.py:271-275 | every reported id is a stored, non-empty order whose file the listing names |
| Store.ListedIdsCover | app.py:271-275 | every stored, non-empty order whose file is listed is reported |
| Store.ListedIdsDistinct | app.py:271-275 | a listing without repeated names reports no order twice |
| Store.Summaries | app.py:277-285 | one summary per reported id, in order |
| Store.ListingCoversOrders | app.py:270-285 | for a listing that names every stored order, each order's summary is in the result |
| Store.ListingNamesDistinctOrders | app.py:270-285 | with no repeated names in the listing, two summaries never share an order_id |
| Store.ListingCountsOrders | app.py:270-285 | with every order listed once, there are exactly as many summaries as stored orders |
| Store.OrderStore.ListOrders | app.py:266-291 | the loop over the listing returns the summaries of the reported orders, in listing order |

## Left out

- Flask routing, `jsonify`, CORS, logging, the health and test endpoints and the `__main__` runner: framework glue with no logic of its own.
- File I/O. `open`, `json.dump` and `json.load` become the `orders` map. `os.makedirs` and `file.save` are not modelled. The size from `seek`/`tell` is a parameter.
- The orders directory is assumed to hold only what these handlers wrote, which is what `Valid` states.
- `os.listdir` is a parameter. The counting properties are proved for a listing that names every stored order once; the listing's order is not fixed.
- `uuid.uuid4()` is a parameter, so global uniqueness of ids is not modelled. If a generated id collides with a stored one, `CreateOrder` overwrites it, as `save_order` does.
- `datetime.now().isoformat()` is a string parameter.
- `secure_filename` is a function parameter with no assumed property, since its body is not part of this model. When its result has no '.', `rsplit('.', 1)[1]` raises and the catch-all answers 500; the model includes that outcome.
- The catch-all 500 responses for I/O failures are not modelled. Only two 500s are: the missing '.' case above, and `create_order` with no JSON body.
- JSON request bodies that are not objects (a list, a string) are not modelled: the model's bodies are always objects.
- Fractional JSON numbers are not modelled: `Json.Num` holds integers.
- Text.Lower: ASCII only, where Python's `str.lower()` also maps non-ASCII letters.
- Text.Upper: ASCII only, like `Lower`.
- `os.path.join(UPLOAD_FOLDER, name)` is modelled as `"uploads/" + name`. Its special case for an absolute second argument cannot arise: the name starts with a uuid or a URL path segment, and Flask's default converter excludes '/'.
- Store.OrderStore.Save requires the record's order_id to be a string, since it names the file. Every stored record meets this under `Valid`.
- Store.OrderStore.ListOrders returns the list of summaries; the `{"orders": [...]}` wrapper around it is not modelled.
- Concurrency is not modelled. Each handler is one atomic load-update-save step on the store. In the source, two requests on the same id can interleave without locking: both load, and the later `save_order` discards the other's update (app.py:155 and 198, app.py:237 and 252). Such lost updates are not modelled.
