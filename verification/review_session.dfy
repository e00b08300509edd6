/**
 The state the review page keeps between reruns: the processed receipts and
 the index of the one on screen. Covers the batch that fills the list, the
 Previous/Next buttons and the edits of the receipt on screen; widgets and
 rendering are left out, and what the user types comes in as parameters.
 */
module ReviewSession {
  import opened Py
  import opened Json
  import opened ReceiptEntry

  /** `st.session_state.results` and `st.session_state.current_index`. */
  datatype Session = Session(results: seq<Entry>, cursor: nat)

  /** The cursor points at a receipt whenever there is one. */
  predicate Valid(s: Session) {
    |s.results| == 0 || s.cursor < |s.results|
  }

  // ---------------------------------------------------------------------
  // Navigation

  /** The Previous button: shown only with receipts, and it moves back one
      place unless the first receipt is on screen. */
  function Previous(s: Session): (r: Session)
    ensures r.results == s.results
    ensures |s.results| == 0 || s.cursor == 0 ==> r == s
    ensures |s.results| > 0 && s.cursor > 0 ==> r.cursor == s.cursor - 1
  {
    if |s.results| > 0 && s.cursor > 0 then s.(cursor := s.cursor - 1) else s
  }

  /** The Next button: moves forward one place unless the last receipt is
      on screen; there is no wrap-around. */
  function Next(s: Session): (r: Session)
    ensures r.results == s.results
    ensures |s.results| == 0 || s.cursor >= |s.results| - 1 ==> r == s
    ensures |s.results| > 0 && s.cursor < |s.results| - 1 ==> r.cursor == s.cursor + 1
  {
    if |s.results| > 0 && s.cursor < |s.results| - 1 then s.(cursor := s.cursor + 1) else s
  }

  /** Neither button can move a valid cursor off the list. */
  lemma {:induction false} NavigationKeepsValid(s: Session)
    requires Valid(s)
    ensures Valid(Previous(s)) && Valid(Next(s))
  {
  }

  /** Previous undoes Next, and Next undoes Previous, wherever the button
      moved at all. */
  lemma {:induction false} NavigationInverse(s: Session)
    requires Valid(s)
    ensures Next(s) != s ==> Previous(Next(s)) == s
    ensures Previous(s) != s ==> Next(Previous(s)) == s
  {
  }

  datatype Press = PressPrevious | PressNext

  /** The session after a series of button presses, one per rerun: the
      receipts stay as they are and only the cursor moves. */
  function Navigate(s: Session, presses: seq<Press>): (r: Session)
    ensures r.results == s.results
    decreases |presses|
  {
    if |presses| == 0 then s
    else Navigate(if presses[0] == PressPrevious then Previous(s) else Next(s), presses[1..])
  }

  /** Any series of presses keeps a valid cursor valid. */
  lemma {:induction false} NavigateKeepsValid(s: Session, presses: seq<Press>)
    requires Valid(s)
    ensures Valid(Navigate(s, presses))
    decreases |presses|
  {
    if |presses| > 0 {
      NavigationKeepsValid(s);
      NavigateKeepsValid(if presses[0] == PressPrevious then Previous(s) else Next(s), presses[1..]);
    }
  }

  /** Pressing only Next stops at the last receipt: the cursor moves on by
      the number of presses, clamped to the end of the list. */
  lemma {:induction false} NextStopsAtLast(s: Session, presses: seq<Press>)
    requires Valid(s) && |s.results| > 0
    requires forall i :: 0 <= i < |presses| ==> presses[i] == PressNext
    ensures Navigate(s, presses).cursor
         == if s.cursor + |presses| < |s.results| then s.cursor + |presses| else |s.results| - 1
    decreases |presses|
  {
    if |presses| > 0 {
      NextStopsAtLast(Next(s), presses[1..]);
    }
  }

  // ---------------------------------------------------------------------
  // Processing a batch of uploads

  /** Where an upload is written before it is processed. */
  function TempPath(name: string): (p: string)
    ensures |p| == |name| + 5 && p[5..] == name && StartsWith(p, "temp_")
  {
    "temp_" + name
  }

  /** The receipts the upload loop collects, in upload order, and the error
      that ends it early: a file whose processing raises stops the loop. */
  datatype Collected = Collected(entries: seq<Entry>, raised: Option<Error>)

  /** One file of the uploader: its name and its bytes. */
  datatype Upload = Upload(name: string, content: seq<bv8>)

  /** The OCR backend as the batch drives it: the path it is handed and the
      bytes the batch has just written there. */
  type Backend = (string, seq<bv8>) -> Result<Value>

  /** One pass of the loop body: the upload's bytes are written to its
      temporary path, and `process_image` reads them from there. */
  function ProcessUpload(u: Upload, ocr: Backend,
                         classify: Value -> Prediction): Result<Option<Entry>>
  {
    ProcessImage(TempPath(u.name), p => ocr(p, u.content), classify)
  }

  /** An upload is processed from the bytes written to `temp_<name>`: an
      error the backend raises on them propagates, the pass yields `None`
      exactly when the backend finds nothing in them, and a receipt is the
      classified reply with the picture read from that path. */
  lemma {:induction false} UploadOutcome(u: Upload, ocr: Backend, classify: Value -> Prediction)
    ensures var reply, r := ocr(TempPath(u.name), u.content), ProcessUpload(u, ocr, classify);
      && (reply.Err? ==> r == Err(reply.error))
      && (r == Ok(None) <==> reply == Ok(Null))
      && (r.Ok? && r.value.Some? ==>
            && reply.Ok?
            && ClassifyItems(reply.value, classify) == Ok(r.value.value.receiptData)
            && LoadPicture(TempPath(u.name)) == Ok(r.value.value.image))
  {
    var p := TempPath(u.name);
    var read := q => ocr(q, u.content);
    assert read(p) == ocr(p, u.content);
    assert ProcessUpload(u, ocr, classify) == ProcessImage(p, read, classify);
  }

  /** The position of the first upload whose processing raises, if any. */
  function FirstFailure(uploads: seq<Upload>, ocr: Backend,
                        classify: Value -> Prediction): (r: Option<nat>)
    ensures r.None? <==> forall i :: 0 <= i < |uploads| ==> ProcessUpload(uploads[i], ocr, classify).Ok?
    ensures r.Some? ==> r.value < |uploads| && ProcessUpload(uploads[r.value], ocr, classify).Err?
    ensures r.Some? ==> forall i :: 0 <= i < r.value ==> ProcessUpload(uploads[i], ocr, classify).Ok?
    decreases |uploads|
  {
    if |uploads| == 0 then None
    else
      assert forall i :: 1 <= i < |uploads| ==> uploads[i] == uploads[1..][i - 1];
      if ProcessUpload(uploads[0], ocr, classify).Err? then Some(0)
      else
        match FirstFailure(uploads[1..], ocr, classify)
        case None => None
        case Some(j) => Some(j + 1)
  }

  /** The upload loop as written: `None` results are skipped, and the first
      upload that raises ends the loop. What was collected before it is
      kept, in upload order, and its exception is the one raised. */
  function CollectAsWritten(uploads: seq<Upload>, ocr: Backend,
                            classify: Value -> Prediction): (r: Collected)
    ensures FirstFailure(uploads, ocr, classify).None? ==> r == Collected(Collect(uploads, ocr, classify), None)
    ensures FirstFailure(uploads, ocr, classify).Some? ==>
      var j := FirstFailure(uploads, ocr, classify).value;
      r == Collected(Collect(uploads[..j], ocr, classify), Some(ProcessUpload(uploads[j], ocr, classify).error))
    decreases |uploads|
  {
    if |uploads| == 0 then Collected([], None)
    else
      var rest := CollectAsWritten(uploads[1..], ocr, classify);
      assert uploads[..0] == [];
      match ProcessUpload(uploads[0], ocr, classify)
      case Err(e) => Collected([], Some(e))
      case Ok(None) =>
        CollectUnfold(uploads, ocr, classify);
        PrefixUnfold(uploads, FirstFailure(uploads, ocr, classify), ocr, classify);
        rest
      case Ok(Some(entry)) =>
        CollectUnfold(uploads, ocr, classify);
        PrefixUnfold(uploads, FirstFailure(uploads, ocr, classify), ocr, classify);
        Collected([entry] + rest.entries, rest.raised)
  }

  /** Collecting a list of uploads collects the first and then the rest. */
  lemma {:induction false} CollectUnfold(uploads: seq<Upload>, ocr: Backend,
                                         classify: Value -> Prediction)
    requires |uploads| > 0
    ensures Collect(uploads, ocr, classify) == Contribution(uploads[0], ocr, classify) + Collect(uploads[1..], ocr, classify)
  {
    assert [] + Collect(uploads[1..], ocr, classify) == Collect(uploads[1..], ocr, classify);
  }

  /** When the first upload does not raise, the first failure of the list is
      one place after that of the rest, and the receipts before it are the
      first upload's followed by those the rest collects before its own. */
  lemma {:induction false} PrefixUnfold(uploads: seq<Upload>, first: Option<nat>, ocr: Backend,
                                        classify: Value -> Prediction)
    requires |uploads| > 0 && ProcessUpload(uploads[0], ocr, classify).Ok?
    requires first == FirstFailure(uploads, ocr, classify)
    ensures first.None? <==> FirstFailure(uploads[1..], ocr, classify).None?
    ensures first.Some? ==>
      && first.value > 0 && first.value - 1 == FirstFailure(uploads[1..], ocr, classify).value
      && uploads[first.value] == uploads[1..][first.value - 1]
      && Collect(uploads[..first.value], ocr, classify)
         == Contribution(uploads[0], ocr, classify) + Collect(uploads[1..][..first.value - 1], ocr, classify)
  {
    if first.Some? {
      var j := first.value;
      assert uploads[..j][1..] == uploads[1..][..j - 1];
      CollectUnfold(uploads[..j], ocr, classify);
    }
  }

  /** The outcome of pressing "Process Uploaded Files". */
  datatype BatchRun = BatchRun(session: Session, raised: Option<Error>)

  /** The batch as written: the list is emptied, filled, and the cursor is
      reset to 0 only after the loop, which an exception skips. */
  function ProcessBatchAsWritten(s: Session, uploads: seq<Upload>, ocr: Backend,
                                 classify: Value -> Prediction): (r: BatchRun)
    ensures |uploads| == 0 ==> r == BatchRun(s, None)
    ensures |uploads| > 0 ==> r.session.results == CollectAsWritten(uploads, ocr, classify).entries
    ensures |uploads| > 0 ==> r.raised == CollectAsWritten(uploads, ocr, classify).raised
    ensures r.raised.None? && |uploads| > 0 ==> r.session.cursor == 0
    ensures r.raised.Some? ==> r.session.cursor == s.cursor
    ensures r.raised.None? ==> r.session == ProcessBatch(s, uploads, ocr, classify)
  {
    if |uploads| == 0 then BatchRun(s, None)
    else
      var c := CollectAsWritten(uploads, ocr, classify);
      if c.raised.None? then BatchRun(Session(c.entries, 0), None)
      else BatchRun(Session(c.entries, s.cursor), c.raised)
  }

  /** The upload loop as intended: a file that fails is skipped and the
      batch goes on. At most one receipt is kept per upload, and none is
      dropped when every upload produces one. */
  function Collect(uploads: seq<Upload>, ocr: Backend,
                   classify: Value -> Prediction): (r: seq<Entry>)
    ensures |r| <= |uploads|
    ensures (forall i :: 0 <= i < |uploads| ==> Produces(uploads[i], ocr, classify)) ==> |r| == |uploads|
    decreases |uploads|
  {
    if |uploads| == 0 then []
    else
      var rest := Collect(uploads[1..], ocr, classify);
      assert forall i :: 1 <= i < |uploads| ==> uploads[i] == uploads[1..][i - 1];
      match ProcessUpload(uploads[0], ocr, classify)
      case Ok(Some(entry)) => [entry] + rest
      case _ => rest
  }

  /** The upload is processed without raising and yields a receipt. */
  predicate Produces(u: Upload, ocr: Backend, classify: Value -> Prediction) {
    ProcessUpload(u, ocr, classify).Ok? && ProcessUpload(u, ocr, classify).value.Some?
  }

  /** What one upload contributes: its entry if it produced one. */
  function Contribution(u: Upload, ocr: Backend,
                        classify: Value -> Prediction): seq<Entry>
  {
    match ProcessUpload(u, ocr, classify)
    case Ok(Some(entry)) => [entry]
    case _ => []
  }

  /** The collected receipts are the uploads' contributions in upload
      order: collecting a concatenation concatenates the collections. */
  lemma {:induction false} CollectConcat(a: seq<Upload>, b: seq<Upload>, ocr: Backend,
                                         classify: Value -> Prediction)
    ensures Collect(a + b, ocr, classify) == Collect(a, ocr, classify) + Collect(b, ocr, classify)
  {
    if |a| > 0 {
      assert (a + b)[1..] == a[1..] + b;
      CollectConcat(a[1..], b, ocr, classify);
    } else {
      assert a + b == b;
    }
  }

  lemma {:induction false} CollectOne(u: Upload, ocr: Backend, classify: Value -> Prediction)
    ensures Collect([u], ocr, classify) == Contribution(u, ocr, classify)
  {
    assert [u][1..] == [];
  }

  /** The corrected batch: results are emptied, refilled with every upload
      that produced a receipt, and the cursor goes back to the first. */
  function ProcessBatch(s: Session, uploads: seq<Upload>, ocr: Backend,
                        classify: Value -> Prediction): (r: Session)
    ensures |uploads| == 0 ==> r == s
    ensures |uploads| > 0 ==> r.cursor == 0 && r.results == Collect(uploads, ocr, classify)
    ensures |uploads| > 0 ==> |r.results| <= |uploads|
    ensures Valid(s) ==> Valid(r)
  {
    if |uploads| == 0 then s else Session(Collect(uploads, ocr, classify), 0)
  }

  /** Whatever state the page was in, a batch leaves a valid cursor. */
  lemma {:induction false} BatchRestoresValid(s: Session, uploads: seq<Upload>, ocr: Backend,
                           classify: Value -> Prediction)
    requires |uploads| > 0
    ensures Valid(ProcessBatch(s, uploads, ocr, classify))
  {
  }

  // ---------------------------------------------------------------------
  // Editing the receipt on screen

  /** One rerun of the main area with receipts: the receipt at the cursor is
      looked up, its `items` read for the boxes, and the shop name, total,
      payment mode and items replaced by what the widgets hold. `items` is
      the data editor's rows. With no receipts nothing happens. */
  function EditCurrent(s: Session, shopName: string, total: string, paymentMode: string,
                       items: seq<Value>): (r: Result<Session>)
    ensures |s.results| == 0 ==> r == Ok(s)
    ensures |s.results| > 0 && s.cursor >= |s.results| ==> r == Err(IndexError)
    ensures r.Ok? <==> (|s.results| == 0 || Editable(s))
    ensures r.Ok? ==> r.value.cursor == s.cursor && |r.value.results| == |s.results|
    ensures r.Ok? ==> forall k :: 0 <= k < |s.results| && k != s.cursor ==> r.value.results[k] == s.results[k]
    ensures r.Ok? && |s.results| > 0 ==>
      var before := s.results[s.cursor];
      var after := r.value.results[s.cursor];
      && after.image == before.image
      && after.receiptData.Obj?
      && after.receiptData.fields.Keys == before.receiptData.fields.Keys + {"total_amount", "payment_mode"}
      && after.receiptData.fields["shop_name"] == Str(shopName)
      && after.receiptData.fields["total_amount"] == Str(total)
      && after.receiptData.fields["payment_mode"] == Str(paymentMode)
      && after.receiptData.fields["items"] == Arr(items)
      && forall k :: k in before.receiptData.fields && k !in EditedKeys ==>
           after.receiptData.fields[k] == before.receiptData.fields[k]
  {
    if |s.results| == 0 then Ok(s)
    else if s.cursor >= |s.results| then Err(IndexError)
    else
      var current := s.results[s.cursor];
      var data := current.receiptData;
      var _ :- Subscript(data, "items");
      var _ :- Subscript(data, "shop_name");
      var edited := Obj(data.fields["shop_name" := Str(shopName)]["total_amount" := Str(total)]
                                   ["payment_mode" := Str(paymentMode)]["items" := Arr(items)]);
      Ok(s.(results := s.results[s.cursor := Entry(current.image, edited)]))
  }

  /** The receipt on screen exists and has the two fields the main area
      reads unconditionally. */
  predicate Editable(s: Session) {
    && s.cursor < |s.results|
    && s.results[s.cursor].receiptData.Obj?
    && "items" in s.results[s.cursor].receiptData.fields
    && "shop_name" in s.results[s.cursor].receiptData.fields
  }

  /** The four fields the main area writes back. */
  const EditedKeys := {"shop_name", "total_amount", "payment_mode", "items"}

  /** Rerunning with the same widget contents changes nothing more. */
  lemma {:induction false} EditIdempotent(s: Session, shopName: string, total: string, paymentMode: string, items: seq<Value>)
    requires EditCurrent(s, shopName, total, paymentMode, items).Ok?
    ensures var once := EditCurrent(s, shopName, total, paymentMode, items).value;
      EditCurrent(once, shopName, total, paymentMode, items) == Ok(once)
  {
    if |s.results| > 0 {
      var once := EditCurrent(s, shopName, total, paymentMode, items).value;
      var data := once.results[s.cursor].receiptData;
      assert data.fields["shop_name" := Str(shopName)]["total_amount" := Str(total)]
                        ["payment_mode" := Str(paymentMode)]["items" := Arr(items)] == data.fields;
      assert once.results[s.cursor := once.results[s.cursor]] == once.results;
    }
  }

  /** Widgets left as they were prefilled write back the same record, once
      the text fields hold strings and `total_amount` and `payment_mode`
      exist. */
  lemma {:induction false} UntouchedEditIsNoOp(s: Session)
    requires Valid(s) && |s.results| > 0
    requires var d := s.results[s.cursor].receiptData;
      && d.Obj? && "items" in d.fields && d.fields["items"].Arr?
      && "shop_name" in d.fields && d.fields["shop_name"].Str?
      && "total_amount" in d.fields && d.fields["total_amount"].Str?
      && "payment_mode" in d.fields && d.fields["payment_mode"].Str?
    ensures var d := s.results[s.cursor].receiptData.fields;
      EditCurrent(s, d["shop_name"].s, d["total_amount"].s, d["payment_mode"].s, d["items"].elems) == Ok(s)
  {
    var d := s.results[s.cursor].receiptData.fields;
    var r := EditCurrent(s, d["shop_name"].s, d["total_amount"].s, d["payment_mode"].s, d["items"].elems).value;
    assert r.results[s.cursor].receiptData.fields == d;
    assert r.results == s.results;
  }

  // ---------------------------------------------------------------------
  // The stale cursor after an aborted batch

  /** A receipt with no items, as the backend might return it. */
  const EmptyReceipt := Obj(map["items" := Arr([])])

  /** A backend that reads `temp_a.png` and fails on everything else. */
  function FlakyOcr(path: string, content: seq<bv8>): Result<Value> {
    if path == "temp_a.png" then Ok(EmptyReceipt) else Err(Raised("remote call failed"))
  }

  /** The two uploads of the batch: one the backend reads, one it fails on. */
  const UploadA := Upload("a.png", [])
  const UploadB := Upload("b.png", [])

  /** The entry the good upload produces. */
  function EntryA(): Entry {
    Entry(Decoded("temp_a.png"), EmptyReceipt)
  }

  lemma {:induction false} EmptyReceiptClassified(classify: Value -> Prediction)
    ensures ClassifyItems(EmptyReceipt, classify) == Ok(EmptyReceipt)
  {
    assert EmptyReceipt.fields["items" := Arr([])] == EmptyReceipt.fields;
  }

  lemma {:induction false} PngLoads()
    ensures LoadPicture("temp_a.png") == Ok(Decoded("temp_a.png"))
  {
    PngSuffix();
  }

  lemma {:induction false} PngSuffix()
    ensures EndsWith(Lower("temp_a.png"), ".png")
  {
    var p := "temp_a.png";
    assert p[6..] == ".png";
    LowerKeepsLowerSuffix(p, ".png");
  }

  lemma {:induction false} GoodUpload(classify: Value -> Prediction)
    ensures ProcessUpload(UploadA, FlakyOcr, classify) == Ok(Some(EntryA()))
  {
    var p := TempPath("a.png");
    TempPathOfA();
    EmptyReceiptClassified(classify);
    PngLoads();
    ProcessImageSucceeds(p, q => FlakyOcr(q, []), classify, EmptyReceipt, Decoded(p));
  }

  lemma {:induction false} TempPathOfA()
    ensures TempPath("a.png") == "temp_a.png"
    ensures FlakyOcr(TempPath("a.png"), []) == Ok(EmptyReceipt)
  {
    assert TempPath("a.png") == "temp_a.png";
  }

  lemma {:induction false} FailingUpload(classify: Value -> Prediction)
    ensures ProcessUpload(UploadB, FlakyOcr, classify) == Err(Raised("remote call failed"))
  {
    var p := TempPath("b.png");
    assert p[5] != "temp_a.png"[5];
    var ocr := q => FlakyOcr(q, UploadB.content);
    assert ocr(p) == Err(Raised("remote call failed"));
    assert ProcessUpload(UploadB, FlakyOcr, classify) == ProcessImage(p, ocr, classify);
  }

  /** A backend that finds nothing in an empty file and fails on any other. */
  function BytesOcr(path: string, content: seq<bv8>): Result<Value> {
    if |content| == 0 then Ok(Null) else Err(Raised("not a receipt"))
  }

  /** Two uploads of the same name are each processed from their own bytes,
      since each is written to `temp_<name>` just before it is read. */
  lemma {:induction false} SameNameOwnBytes(classify: Value -> Prediction)
    ensures ProcessUpload(Upload("a.png", []), BytesOcr, classify) == Ok(None)
    ensures ProcessUpload(Upload("a.png", [0]), BytesOcr, classify) == Err(Raised("not a receipt"))
  {
    var p := TempPath("a.png");
    var empty := q => BytesOcr(q, []);
    var full := q => BytesOcr(q, [0]);
    assert empty(p) == Ok(Null);
    assert full(p) == Err(Raised("not a receipt"));
    assert ProcessUpload(Upload("a.png", []), BytesOcr, classify) == ProcessImage(p, empty, classify);
    assert ProcessUpload(Upload("a.png", [0]), BytesOcr, classify) == ProcessImage(p, full, classify);
  }

  /** Three receipts on screen with the third shown; the next batch has a
      good upload followed by one the backend fails on. The batch as written
      leaves one receipt with the cursor still at 2, so the main area's
      lookup raises `IndexError` on every rerun until Previous has been
      pressed twice. The corrected batch keeps the good receipt and points
      at it. */
  lemma {:induction false} StaleCursorAfterAbortedBatch(e: Entry, classify: Value -> Prediction)
    ensures var s := Session([e, e, e], 2);
      var run := ProcessBatchAsWritten(s, [UploadA, UploadB], FlakyOcr, classify);
      && Valid(s)
      && run.raised.Some?
      && |run.session.results| == 1 && run.session.cursor == 2
      && !Valid(run.session)
      && EditCurrent(run.session, "", "", "", []) == Err(IndexError)
      && |ProcessBatch(s, [UploadA, UploadB], FlakyOcr, classify).results| == 1
      && Valid(ProcessBatch(s, [UploadA, UploadB], FlakyOcr, classify))
  {
    AbortedLoop(classify);
    SkippingLoop(classify);
  }

  /** The loop as written keeps the good receipt and stops at the failing upload. */
  lemma {:induction false} AbortedLoop(classify: Value -> Prediction)
    ensures CollectAsWritten([UploadA, UploadB], FlakyOcr, classify)
         == Collected([EntryA()], Some(Raised("remote call failed")))
  {
    var uploads := [UploadA, UploadB];
    assert uploads[1..] == [UploadB];
    AbortedAtFailure(classify);
    GoodUpload(classify);
  }

  lemma {:induction false} AbortedAtFailure(classify: Value -> Prediction)
    ensures CollectAsWritten([UploadB], FlakyOcr, classify) == Collected([], Some(Raised("remote call failed")))
  {
    FailingUpload(classify);
  }

  /** The corrected loop keeps the good receipt and skips the failing upload. */
  lemma {:induction false} SkippingLoop(classify: Value -> Prediction)
    ensures Collect([UploadA, UploadB], FlakyOcr, classify) == [EntryA()]
  {
    assert [UploadA, UploadB] == [UploadA] + [UploadB];
    CollectConcat([UploadA], [UploadB], FlakyOcr, classify);
    CollectOne(UploadA, FlakyOcr, classify);
    CollectOne(UploadB, FlakyOcr, classify);
    GoodUpload(classify);
    FailingUpload(classify);
  }
}
