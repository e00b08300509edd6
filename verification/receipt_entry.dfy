/**
 The helpers of the receipt-entry web script, without the rendering:
 choosing the OCR backend, classifying the items of a record, turning one
 uploaded file into a session entry, and the two exports (JSON and CSV).
 The classifier and the OCR backend are parameters.
 */
module ReceiptEntry {
  import opened Py
  import opened Json

  // ---------------------------------------------------------------------
  // Backend selection

  datatype Backend = OpenAi | Gpt4Vision | Gemini

  /** `OCR_MODEL` 1, 2 and 3 select a backend; any other value stops the
      script with an error message. */
  function SelectBackend(ocrModel: int): (r: Option<Backend>)
    ensures r.Some? <==> 1 <= ocrModel <= 3
    ensures r == Some(Gemini) <==> ocrModel == 3
    ensures r == Some(OpenAi) <==> ocrModel == 1
  {
    if ocrModel == 1 then Some(OpenAi)
    else if ocrModel == 2 then Some(Gpt4Vision)
    else if ocrModel == 3 then Some(Gemini)
    else None
  }

  // ---------------------------------------------------------------------
  // Classification

  /** What `lcf_classifier.predict` returns for an item description. */
  datatype Prediction = Prediction(code: Value, prob: Value)

  /** `after` is the item `before` with `code` and `prob` set from `p` and
      every other field as it was. */
  predicate StampedWith(before: Value, after: Value, p: Prediction) {
    && before.Obj? && after.Obj?
    && after.fields.Keys == before.fields.Keys + {"code", "prob"}
    && after.fields["code"] == p.code
    && after.fields["prob"] == p.prob
    && forall k :: k in before.fields && k != "code" && k != "prob" ==> after.fields[k] == before.fields[k]
  }

  /** An item the classification loop can handle: a dict with a `name`. */
  predicate HasName(item: Value) {
    item.Obj? && "name" in item.fields
  }

  /** The body of the loop in `classify_items` for one item. */
  function ClassifyItem(item: Value, classify: Value -> Prediction): (r: Result<Value>)
    ensures r.Ok? <==> HasName(item)
    ensures r.Ok? ==> StampedWith(item, r.value, classify(item.fields["name"]))
    ensures item.Obj? && "name" !in item.fields ==> r == Err(KeyError("name"))
    ensures !item.Obj? ==> r == Err(TypeError)
  {
    var name :- Subscript(item, "name");
    var p := classify(name);
    Ok(Obj(item.fields["code" := p.code]["prob" := p.prob]))
  }

  /** The loop of `classify_items` over a list of items, stopping at the
      first item that raises. */
  function ClassifyAll(items: seq<Value>, classify: Value -> Prediction): (r: Result<seq<Value>>)
    ensures r.Ok? <==> forall i :: 0 <= i < |items| ==> HasName(items[i])
    ensures r.Ok? ==> |r.value| == |items|
    ensures r.Ok? ==> forall i :: 0 <= i < |items| ==>
      StampedWith(items[i], r.value[i], classify(items[i].fields["name"]))
  {
    if |items| == 0 then Ok([])
    else
      var first :- ClassifyItem(items[0], classify);
      var rest :- ClassifyAll(items[1..], classify);
      assert forall i :: 1 <= i < |items| ==> items[i] == items[1..][i - 1];
      Ok([first] + rest)
  }

  /** `classify_items(receipt_data)` succeeds on a dict whose `items` can be
      looped over and holds only dicts with a `name`. */
  predicate Classifiable(data: Value) {
    && data.Obj? && "items" in data.fields
    && IterItems(data.fields["items"]).Ok?
    && forall i :: 0 <= i < |IterItems(data.fields["items"]).value| ==>
         HasName(IterItems(data.fields["items"]).value[i])
  }

  /** `classify_items(receipt_data)`: every item gets the classifier's code
      and probability for its name, items keep their number and order, and
      nothing else in the record changes. */
  function ClassifyItems(data: Value, classify: Value -> Prediction): (r: Result<Value>)
    ensures r.Ok? <==> Classifiable(data)
    ensures !data.Obj? ==> r == Err(TypeError)
    ensures data.Obj? && "items" !in data.fields ==> r == Err(KeyError("items"))
    ensures r.Ok? ==> r.value.Obj? && r.value.fields.Keys == data.fields.Keys
    ensures r.Ok? ==> forall k :: k in data.fields && k != "items" ==> r.value.fields[k] == data.fields[k]
    ensures r.Ok? && data.fields["items"].Arr? ==>
      var before := data.fields["items"].elems;
      && r.value.fields["items"].Arr?
      && |r.value.fields["items"].elems| == |before|
      && forall i :: 0 <= i < |before| ==>
           StampedWith(before[i], r.value.fields["items"].elems[i], classify(before[i].fields["name"]))
    ensures r.Ok? && !data.fields["items"].Arr? ==> r.value == data
  {
    var items :- Subscript(data, "items");
    var elems :- IterItems(items);
    var stamped :- ClassifyAll(elems, classify);
    if items.Arr? then Ok(Obj(data.fields["items" := Arr(stamped)])) else Ok(data)
  }

  /** Classifying again with the same classifier changes nothing more. */
  lemma {:induction false} ClassifyItemsIdempotent(data: Value, classify: Value -> Prediction)
    requires ClassifyItems(data, classify).Ok?
    ensures ClassifyItems(ClassifyItems(data, classify).value, classify)
         == ClassifyItems(data, classify)
  {
    var once := ClassifyItems(data, classify).value;
    if data.fields["items"].Arr? {
      var before := data.fields["items"].elems;
      assert ClassifyAll(before, classify).Ok?;
      var after := ClassifyAll(before, classify).value;
      assert once == Obj(data.fields["items" := Arr(after)]);
      ClassifyAllIdempotent(before, classify);
      assert once.fields["items" := Arr(after)] == once.fields;
    }
  }

  /** The item loop, run a second time, finds every item already stamped
      and leaves the list as it is. */
  lemma {:induction false} ClassifyAllIdempotent(items: seq<Value>, classify: Value -> Prediction)
    requires ClassifyAll(items, classify).Ok?
    ensures ClassifyAll(ClassifyAll(items, classify).value, classify) == ClassifyAll(items, classify)
  {
    var once := ClassifyAll(items, classify).value;
    forall i | 0 <= i < |once| ensures HasName(once[i]) {
      assert StampedWith(items[i], once[i], classify(items[i].fields["name"]));
    }
    var twice := ClassifyAll(once, classify).value;
    forall i | 0 <= i < |once| ensures twice[i] == once[i] {
      StampAgainIsNoOp(items[i], once[i], twice[i], classify);
    }
    assert twice == once;
  }

  /** Stamping an already stamped item with the prediction for its own
      name gives the same item back. */
  lemma {:induction false} StampAgainIsNoOp(before: Value, after: Value, again: Value,
                                            classify: Value -> Prediction)
    requires HasName(before)
    requires StampedWith(before, after, classify(before.fields["name"]))
    requires HasName(after) && StampedWith(after, again, classify(after.fields["name"]))
    ensures again == after
  {
    assert after.fields["name"] == before.fields["name"];
    assert again.fields == after.fields;
  }

  // ---------------------------------------------------------------------
  // One uploaded file

  /** The image shown next to the extracted data; its pixels are not
      modelled. */
  datatype Picture = Decoded(path: string) | MergedPages(path: string)

  /** One element of the session's result list: `{"image", "receipt_data"}`. */
  datatype Entry = Entry(image: Picture, receiptData: Value)

  /** A lower-cased suffix `cv2.imread` is used for. */
  predicate ImageSuffix(path: string) {
    EndsWith(Lower(path), ".png") || EndsWith(Lower(path), ".jpg") || EndsWith(Lower(path), ".jpeg")
  }

  /** The image reading of `process_image`, by the lower-cased suffix: the
      three image suffixes are decoded, otherwise `.pdf` has its pages
      merged, and a path with none of the four leaves `original_image`
      unbound. */
  function LoadPicture(path: string): (r: Result<Picture>)
    ensures ImageSuffix(path) ==> r == Ok(Decoded(path))
    ensures !ImageSuffix(path) && EndsWith(Lower(path), ".pdf") ==> r == Ok(MergedPages(path))
    ensures r.Ok? <==> ImageSuffix(path) || EndsWith(Lower(path), ".pdf")
    ensures r.Err? ==> r.error == UnboundLocalError
  {
    if ImageSuffix(path) then Ok(Decoded(path))
    else if EndsWith(Lower(path), ".pdf") then Ok(MergedPages(path))
    else Err(UnboundLocalError)
  }

  /** `process_image(image_path)`: run the OCR backend, give up quietly when
      it returns `None` (a JSON `null` is that same `None`), classify the
      items, then read the image. `ocr` is the backend's `process_receipt`.
      Whatever the backend, the classification or the image reading raises
      propagates. */
  function ProcessImage(path: string, ocr: string -> Result<Value>,
                        classify: Value -> Prediction): (r: Result<Option<Entry>>)
    ensures ocr(path).Err? ==> r == Err(ocr(path).error)
    ensures r == Ok(None) <==> ocr(path) == Ok(Null)
    ensures ocr(path).Ok? && ocr(path).value != Null && ClassifyItems(ocr(path).value, classify).Err?
      ==> r == Err(ClassifyItems(ocr(path).value, classify).error)
    ensures ocr(path).Ok? && ocr(path).value != Null && ClassifyItems(ocr(path).value, classify).Ok? && LoadPicture(path).Err?
      ==> r == Err(LoadPicture(path).error)
    ensures r.Ok? && r.value.Some? ==>
      && ocr(path).Ok? && ocr(path).value != Null
      && ClassifyItems(ocr(path).value, classify) == Ok(r.value.value.receiptData)
      && LoadPicture(path) == Ok(r.value.value.image)
  {
    var data :- ocr(path);
    if data == Null then Ok(None)
    else
      var classified :- ClassifyItems(data, classify);
      var picture :- LoadPicture(path);
      Ok(Some(Entry(picture, classified)))
  }

  /** When the backend returns a record, the record classifies and the
      image loads, the entry holds the image and the classified record. */
  lemma {:induction false} ProcessImageSucceeds(path: string, ocr: string -> Result<Value>,
                                                classify: Value -> Prediction, data: Value, picture: Picture)
    requires ocr(path) == Ok(data) && data != Null
    requires ClassifyItems(data, classify).Ok? && LoadPicture(path) == Ok(picture)
    ensures ProcessImage(path, ocr, classify) == Ok(Some(Entry(picture, ClassifyItems(data, classify).value)))
  {
  }

  // ---------------------------------------------------------------------
  // JSON export

  /** `save_to_json`'s list: one `{"receipt_data": ...}` per result, in
      order, and nothing else (the image is dropped). */
  function SaveToJson(results: seq<Entry>): (r: seq<Value>)
    ensures |r| == |results|
    ensures forall k :: 0 <= k < |r| ==>
      r[k].Obj? && r[k].fields.Keys == {"receipt_data"} && r[k].fields["receipt_data"] == results[k].receiptData
  {
    seq(|results|, k requires 0 <= k < |results| => Obj(map["receipt_data" := results[k].receiptData]))
  }

  /** Reads the records back out of an exported list. */
  function LoadFromJson(exported: seq<Value>): seq<Value> {
    seq(|exported|, k requires 0 <= k < |exported| =>
      if exported[k].Obj? && "receipt_data" in exported[k].fields then exported[k].fields["receipt_data"] else Null)
  }

  function RecordsOf(results: seq<Entry>): seq<Value> {
    seq(|results|, k requires 0 <= k < |results| => results[k].receiptData)
  }

  /** Reading an export back gives every record, field for field, in order. */
  lemma {:induction false} JsonExportRoundTrip(results: seq<Entry>)
    ensures LoadFromJson(SaveToJson(results)) == RecordsOf(results)
  {
  }

  /** The export keeps the records and only the records: two result lists
      export the same list exactly when their records agree, whatever their
      images are. */
  lemma {:induction false} JsonExportKeepsOnlyRecords(a: seq<Entry>, b: seq<Entry>)
    ensures SaveToJson(a) == SaveToJson(b) <==> RecordsOf(a) == RecordsOf(b)
  {
    if SaveToJson(a) == SaveToJson(b) {
      JsonExportRoundTrip(a);
      JsonExportRoundTrip(b);
    }
    if RecordsOf(a) == RecordsOf(b) {
      assert |a| == |RecordsOf(a)|;
      forall k | 0 <= k < |a|
        ensures SaveToJson(a)[k] == SaveToJson(b)[k]
      {
        assert RecordsOf(a)[k] == RecordsOf(b)[k];
        assert SaveToJson(a)[k].fields == SaveToJson(b)[k].fields;
      }
    }
  }

  // ---------------------------------------------------------------------
  // CSV export

  /** One CSV row, in the column order of the file. */
  datatype CsvRow = CsvRow(item: Value, code: Value, price: Value, prob: Value,
                           shopName: Value, imagePath: Value, paymentMode: Value)

  /** The keys of the dict literal built for each row, in the order they
      are written; pandas makes them the columns, in that order. */
  const CsvHeader: seq<string> := ["item", "code", "price", "prob", "shop_name", "image_path", "payment_mode"]

  /** The dict literal appended for one row. */
  function RowDict(row: CsvRow): map<string, Value> {
    map["item" := row.item, "code" := row.code, "price" := row.price, "prob" := row.prob,
        "shop_name" := row.shopName, "image_path" := row.imagePath, "payment_mode" := row.paymentMode]
  }

  /** The cells of one row, in column order. */
  function CsvLine(row: CsvRow): seq<Value> {
    [row.item, row.code, row.price, row.prob, row.shopName, row.imagePath, row.paymentMode]
  }

  /** What `df.to_csv(file_path, index=False)` writes: a header of column
      names and one line of cells per row. */
  datatype CsvFile = CsvFile(header: seq<string>, lines: seq<seq<Value>>)

  /** `pd.DataFrame(rows).to_csv(file_path, index=False)`. The columns are
      the rows' dict keys in insertion order, and every cell is its row's
      value under its column's key; a frame built from no rows has no
      columns and writes no lines. */
  function WriteCsv(rows: seq<CsvRow>): (f: CsvFile)
    ensures |rows| == 0 <==> f.header == []
    ensures |rows| > 0 ==> f.header == CsvHeader
    ensures |f.lines| == |rows|
    ensures forall k :: 0 <= k < |rows| ==> f.lines[k] == CsvLine(rows[k])
    ensures forall k :: 0 <= k < |rows| ==> |f.lines[k]| == |f.header|
    ensures forall k, c :: 0 <= k < |rows| && 0 <= c < |f.header| ==>
      f.header[c] in RowDict(rows[k]) && f.lines[k][c] == RowDict(rows[k])[f.header[c]]
  {
    if |rows| == 0 then CsvFile([], [])
    else
      CsvHeaderCellsAll();
      CsvFile(CsvHeader, seq(|rows|, k requires 0 <= k < |rows| => CsvLine(rows[k])))
  }

  /** Column `c` of a line holds the row's value under the header's key `c`. */
  predicate CsvHeaderCells(row: CsvRow) {
    forall c :: 0 <= c < |CsvHeader| ==> CsvHeader[c] in RowDict(row) && RowDict(row)[CsvHeader[c]] == CsvLine(row)[c]
  }

  lemma {:induction false} CsvHeaderCellsAll()
    ensures forall row :: CsvHeaderCells(row)
  {
    forall row ensures CsvHeaderCells(row) {
      CsvHeaderIsRowKeys(row);
    }
  }

  /** The header names every key of a row's dict exactly once, and each
      column holds the value stored under its name. */
  lemma {:induction false} CsvHeaderIsRowKeys(row: CsvRow)
    ensures CsvHeaderCells(row)
    ensures forall key :: key in RowDict(row) ==> key in CsvHeader
    ensures forall i, j :: 0 <= i < j < |CsvHeader| ==> CsvHeader[i] != CsvHeader[j]
  {
    var d := RowDict(row);
    assert d["item"] == row.item;
    assert d["code"] == row.code;
    assert d["price"] == row.price;
    assert d["prob"] == row.prob;
    assert d["shop_name"] == row.shopName;
    assert d["image_path"] == row.imagePath;
    assert d["payment_mode"] == row.paymentMode;
  }

  /** An item that yields a row: a dict with `name`, `code`, `price` and
      `prob`. */
  predicate RowReady(item: Value) {
    item.Obj? && "name" in item.fields && "code" in item.fields
    && "price" in item.fields && "prob" in item.fields
  }

  /** `row` is the CSV row of `item` on the receipt `data`. */
  predicate RowOf(data: map<string, Value>, item: Value, row: CsvRow) {
    && RowReady(item) && "shop_name" in data
    && row.item == item.fields["name"]
    && row.code == item.fields["code"]
    && row.price == item.fields["price"]
    && row.prob == item.fields["prob"]
    && row.shopName == data["shop_name"]
    && row.imagePath == Get(data, "receipt_pathfile", Str(""))
    && row.paymentMode == Get(data, "payment_mode", Str(""))
  }

  /** The dict literal built for one item, evaluated left to right. */
  function ItemRow(data: map<string, Value>, item: Value): (r: Result<CsvRow>)
    ensures r.Ok? <==> RowReady(item) && "shop_name" in data
    ensures r.Ok? ==> RowOf(data, item, r.value)
  {
    var name :- Subscript(item, "name");
    var code :- Subscript(item, "code");
    var price :- Subscript(item, "price");
    var prob :- Subscript(item, "prob");
    var shop :- Subscript(Obj(data), "shop_name");
    Ok(CsvRow(name, code, price, prob, shop,
              Get(data, "receipt_pathfile", Str("")), Get(data, "payment_mode", Str(""))))
  }

  /** The inner loop: one row per item of one receipt. */
  function ItemRows(data: map<string, Value>, items: seq<Value>): (r: Result<seq<CsvRow>>)
    ensures r.Ok? <==> (forall i :: 0 <= i < |items| ==> RowReady(items[i])) && (|items| > 0 ==> "shop_name" in data)
    ensures r.Ok? ==> |r.value| == |items| && forall i :: 0 <= i < |items| ==> RowOf(data, items[i], r.value[i])
  {
    if |items| == 0 then Ok([])
    else
      var first :- ItemRow(data, items[0]);
      var rest :- ItemRows(data, items[1..]);
      assert forall i :: 1 <= i < |items| ==> items[i] == items[1..][i - 1];
      Ok([first] + rest)
  }

  /** The items the export loops over for one record (none when the record
      cannot be looped over). */
  function ItemsOf(data: Value): seq<Value> {
    if data.Obj? && "items" in data.fields && IterItems(data.fields["items"]).Ok?
    then IterItems(data.fields["items"]).value
    else []
  }

  /** A record the CSV export gets through. */
  predicate CsvReady(data: Value) {
    && data.Obj? && "items" in data.fields && IterItems(data.fields["items"]).Ok?
    && (forall i :: 0 <= i < |ItemsOf(data)| ==> RowReady(ItemsOf(data)[i]))
    && (|ItemsOf(data)| > 0 ==> "shop_name" in data.fields)
  }

  /** The rows of one record. */
  function ReceiptRows(data: Value): (r: Result<seq<CsvRow>>)
    ensures r.Ok? <==> CsvReady(data)
    ensures r.Ok? ==> |r.value| == |ItemsOf(data)|
  {
    var items :- Subscript(data, "items");
    var elems :- IterItems(items);
    ItemRows(data.fields, elems)
  }

  /** Row `i` of a record is the row of its item `i`. */
  lemma {:induction false} ReceiptRowAt(data: Value, i: nat)
    requires ReceiptRows(data).Ok? && i < |ItemsOf(data)|
    ensures RowOf(data.fields, ItemsOf(data)[i], ReceiptRows(data).value[i])
  {
    assert ReceiptRows(data) == ItemRows(data.fields, ItemsOf(data));
  }

  /** `save_to_csv`'s rows: receipt by receipt, item by item; the first
      record that cannot be exported raises. */
  function CsvRows(results: seq<Entry>): (r: Result<seq<CsvRow>>)
    ensures r.Ok? <==> forall k :: 0 <= k < |results| ==> CsvReady(results[k].receiptData)
  {
    if |results| == 0 then Ok([])
    else
      var first :- ReceiptRows(results[0].receiptData);
      var rest :- CsvRows(results[1..]);
      assert forall k :: 1 <= k < |results| ==> results[k] == results[1..][k - 1];
      Ok(first + rest)
  }

  /** `save_to_csv(results, file_path)`: the file it writes, with one line
      per item across all results and the seven columns whenever there is
      an item, or the error the row loop raises first. */
  function SaveToCsv(results: seq<Entry>): (r: Result<CsvFile>)
    ensures r.Ok? <==> forall k :: 0 <= k < |results| ==> CsvReady(results[k].receiptData)
    ensures r.Ok? ==> |r.value.lines| == TotalItems(results)
    ensures r.Ok? ==> LinesByReceipt(results, r.value.lines)
    ensures r.Ok? ==> (r.value.header == [] <==> TotalItems(results) == 0)
    ensures r.Ok? && TotalItems(results) > 0 ==> r.value.header == CsvHeader
  {
    var rows :- CsvRows(results);
    CsvRowCount(results);
    WrittenLinesByReceipt(results);
    Ok(WriteCsv(rows))
  }

  /** Line `ItemsBefore(results, k) + i` holds the cells of the row built
      from item `i` of receipt `k`: lines follow the results, and within a
      result its items. */
  predicate LinesByReceipt(results: seq<Entry>, lines: seq<seq<Value>>) {
    forall k, i :: 0 <= k < |results| && 0 <= i < |ItemsOf(results[k].receiptData)| ==> LineOfItem(results, lines, k, i)
  }

  lemma {:induction false} WrittenLinesByReceipt(results: seq<Entry>)
    requires CsvRows(results).Ok?
    ensures LinesByReceipt(results, WriteCsv(CsvRows(results).value).lines)
  {
    var lines := WriteCsv(CsvRows(results).value).lines;
    forall k, i | 0 <= k < |results| && 0 <= i < |ItemsOf(results[k].receiptData)|
      ensures LineOfItem(results, lines, k, i)
    {
      WrittenLineAt(results, k, i);
    }
  }

  /** The line for item `i` of receipt `k` is where `LinesByReceipt` says. */
  predicate LineOfItem(results: seq<Entry>, lines: seq<seq<Value>>, k: nat, i: nat)
    requires k < |results|
  {
    && ReceiptRows(results[k].receiptData).Ok?
    && i < |ReceiptRows(results[k].receiptData).value|
    && ItemsBefore(results, k) + i < |lines|
    && RowOf(results[k].receiptData.fields, ItemsOf(results[k].receiptData)[i],
             ReceiptRows(results[k].receiptData).value[i])
    && lines[ItemsBefore(results, k) + i] == CsvLine(ReceiptRows(results[k].receiptData).value[i])
  }

  lemma {:induction false} WrittenLineAt(results: seq<Entry>, k: nat, i: nat)
    requires CsvRows(results).Ok?
    requires k < |results| && i < |ItemsOf(results[k].receiptData)|
    ensures LineOfItem(results, WriteCsv(CsvRows(results).value).lines, k, i)
  {
    var rows := CsvRows(results).value;
    assert CsvReady(results[k].receiptData);
    RowsOfReceiptAt(results, k, i);
    ReceiptRowAt(results[k].receiptData, i);
    var n := ItemsBefore(results, k) + i;
    assert WriteCsv(rows).lines[n] == CsvLine(rows[n]);
  }

  /** How many rows the receipts before `k` contribute. */
  function ItemsBefore(results: seq<Entry>, k: nat): nat
    requires k <= |results|
  {
    if k == 0 then 0 else |ItemsOf(results[0].receiptData)| + ItemsBefore(results[1..], k - 1)
  }

  /** The number of items across all results. */
  function TotalItems(results: seq<Entry>): nat {
    ItemsBefore(results, |results|)
  }

  /** There is one CSV row per item across all results. */
  lemma {:induction false} CsvRowCount(results: seq<Entry>)
    requires CsvRows(results).Ok?
    ensures |CsvRows(results).value| == TotalItems(results)
  {
    if |results| > 0 {
      CsvRowCount(results[1..]);
    }
  }

  /** Item `i` of receipt `k` is row `ItemsBefore(results, k) + i`: rows are
      ordered by receipt and then by item, and each row carries its
      receipt's shop name, path and payment mode. */
  lemma {:induction false} CsvRowAt(results: seq<Entry>, k: nat, i: nat)
    requires CsvRows(results).Ok?
    requires k < |results| && i < |ItemsOf(results[k].receiptData)|
    ensures ItemsBefore(results, k) + i < |CsvRows(results).value|
    ensures RowOf(results[k].receiptData.fields, ItemsOf(results[k].receiptData)[i],
                  CsvRows(results).value[ItemsBefore(results, k) + i])
  {
    assert CsvReady(results[k].receiptData);
    RowsOfReceiptAt(results, k, i);
    ReceiptRowAt(results[k].receiptData, i);
  }

  /** The rows of receipt `k` stand in the export from `ItemsBefore(results, k)` on. */
  lemma {:induction false} RowsOfReceiptAt(results: seq<Entry>, k: nat, i: nat)
    requires CsvRows(results).Ok?
    requires k < |results| && ReceiptRows(results[k].receiptData).Ok?
    requires i < |ReceiptRows(results[k].receiptData).value|
    ensures ItemsBefore(results, k) + i < |CsvRows(results).value|
    ensures CsvRows(results).value[ItemsBefore(results, k) + i] == ReceiptRows(results[k].receiptData).value[i]
  {
    var blocks := Blocks(results);
    CsvRowsFlatten(results);
    OffsetIsItemsBefore(results, k);
    FlattenAt(blocks, k, i);
  }

  /** Each record's rows, or none for a record that cannot be exported. */
  function Blocks(results: seq<Entry>): (b: seq<seq<CsvRow>>)
    ensures |b| == |results|
  {
    seq(|results|, k requires 0 <= k < |results| =>
      match ReceiptRows(results[k].receiptData)
      case Ok(rows) => rows
      case Err(_) => [])
  }

  function Flatten(blocks: seq<seq<CsvRow>>): seq<CsvRow> {
    if |blocks| == 0 then [] else blocks[0] + Flatten(blocks[1..])
  }

  /** How many rows the blocks before `k` hold. */
  function Offset(blocks: seq<seq<CsvRow>>, k: nat): nat
    requires k <= |blocks|
  {
    if k == 0 then 0 else |blocks[0]| + Offset(blocks[1..], k - 1)
  }

  /** Row `i` of block `k` sits at `Offset(blocks, k) + i` in the
      concatenation. */
  lemma {:induction false} FlattenAt(blocks: seq<seq<CsvRow>>, k: nat, i: nat)
    requires k < |blocks| && i < |blocks[k]|
    ensures Offset(blocks, k) + i < |Flatten(blocks)|
    ensures Flatten(blocks)[Offset(blocks, k) + i] == blocks[k][i]
  {
    var rest := Flatten(blocks[1..]);
    assert Flatten(blocks) == blocks[0] + rest;
    if k > 0 {
      assert blocks[1..][k - 1] == blocks[k];
      FlattenAt(blocks[1..], k - 1, i);
    }
  }

  /** An export that goes through is the concatenation of the records' rows. */
  lemma {:induction false} CsvRowsFlatten(results: seq<Entry>)
    requires CsvRows(results).Ok?
    ensures CsvRows(results).value == Flatten(Blocks(results))
    decreases |results|
  {
    if |results| > 0 {
      BlocksTail(results);
      CsvRowsFlatten(results[1..]);
    }
  }

  /** Dropping the first record drops the first block. */
  lemma BlocksTail(results: seq<Entry>)
    requires |results| > 0
    ensures Blocks(results)[1..] == Blocks(results[1..])
  {
    var b, t := Blocks(results), Blocks(results[1..]);
    forall j | 0 <= j < |t|
      ensures b[1..][j] == t[j]
    {
      assert results[1..][j] == results[j + 1];
    }
  }

  /** The first block holds one row per item of the first record. */
  lemma {:induction false} FirstBlockSize(results: seq<Entry>)
    requires |results| > 0 && CsvReady(results[0].receiptData)
    ensures |Blocks(results)[0]| == |ItemsOf(results[0].receiptData)|
  {
    assert ReceiptRows(results[0].receiptData).Ok?;
  }

  /** Block offsets count the items of the records before. */
  lemma {:induction false} OffsetIsItemsBefore(results: seq<Entry>, k: nat)
    requires CsvRows(results).Ok? && k <= |results|
    ensures Offset(Blocks(results), k) == ItemsBefore(results, k)
    decreases k
  {
    if k > 0 {
      BlocksTail(results);
      FirstBlockSize(results);
      OffsetIsItemsBefore(results[1..], k - 1);
    }
  }
}
