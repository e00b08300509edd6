/**
 `LCFReceiptProcessGemini.process_receipt`: choose how to load the file from
 its guessed MIME type, send it to the remote model, cut the JSON candidate
 out of the free-text reply, parse it, and stamp the record with the file's
 path. The MIME guess, what loading the file yields, the model's reply
 and `json.loads` are parameters.
 */
module GeminiReceipt {
  import opened Py
  import opened Json
  import opened ScannerUtils

  /** How the file becomes an image. */
  datatype Loader = MergePdfPages | OpenImage

  const PdfMime := "application/pdf"
  const ImageMimePrefix := "image/"

  /** The MIME dispatch: a PDF is merged page by page, any type under `image/` is
      opened directly, and anything else, including a type `mimetypes`
      could not guess, raises `ValueError`. */
  function ChooseLoader(fileType: Option<string>): (r: Result<Loader>)
    ensures r == Ok(MergePdfPages) <==> fileType == Some(PdfMime)
    ensures r == Ok(OpenImage) <==> fileType.Some? && StartsWith(fileType.value, ImageMimePrefix)
    ensures r.Err? <==> fileType.None? || (fileType.value != PdfMime && !StartsWith(fileType.value, ImageMimePrefix))
    ensures r.Err? ==> r.error == ValueError
  {
    assert !StartsWith(PdfMime, ImageMimePrefix) by { assert PdfMime[0] != ImageMimePrefix[0]; }
    if fileType == Some(PdfMime) then Ok(MergePdfPages)
    else if fileType.Some? && StartsWith(fileType.value, ImageMimePrefix) then Ok(OpenImage)
    else Err(ValueError)
  }

  // ---------------------------------------------------------------------
  // Cutting the JSON candidate out of the reply

  /** Lines 76-79 of the processor, with Python's `find`/`rfind` returning -1
      and slicing with a negative start counting from the end. */
  function SliceJson(text: string): (r: string)
    ensures |r| == 0 || (r[0] == '{' && r[|r| - 1] == '}') || r == "}"
  {
    var lpos := Find(text, '{');
    var tail := SliceFrom(text, lpos);
    var rpos := RFind(tail, '}');
    SliceTo(tail, rpos + 1)
  }

  /** `i` is where the first `{` of `text` stands. */
  predicate FirstOpenAt(text: string, i: nat) {
    i < |text| && text[i] == '{' && '{' !in text[..i]
  }

  /** With the first `{` at `i` and the last `}` at `j >= i`, the candidate
      is exactly `text[i..j]`, both braces included, whatever lies between,
      two braced fragments and the prose between them included. */
  lemma {:induction false} SliceBetweenBraces(text: string, i: nat, j: nat)
    requires FirstOpenAt(text, i)
    requires i <= j < |text| && text[j] == '}' && '}' !in text[j + 1..]
    ensures SliceJson(text) == text[i..j + 1]
    ensures SliceJson(text)[0] == '{' && SliceJson(text)[j - i] == '}'
  {
    FindIs(text, '{', i);
    var tail := SliceFrom(text, i);
    assert tail == text[i..];
    LastCloseInTail(text, i, j);
    assert SliceTo(tail, j - i + 1) == text[i..j + 1];
  }

  /** Past the first `{`, the last `}` stands `i` places earlier. */
  lemma {:induction false} LastCloseInTail(text: string, i: nat, j: nat)
    requires i <= j < |text| && text[j] == '}' && '}' !in text[j + 1..]
    ensures RFind(text[i..], '}') == j - i
  {
    var tail := text[i..];
    assert tail[j - i + 1..] == text[j + 1..];
    RFindIs(tail, '}', j - i);
  }

  /** When no `}` follows the first `{`, the candidate is empty. */
  lemma {:induction false} SliceWithoutClosingBrace(text: string, i: nat)
    requires FirstOpenAt(text, i)
    requires '}' !in text[i..]
    ensures SliceJson(text) == ""
  {
    assert Find(text, '{') == i;
  }

  /** Without any `{`, `find` gives -1 and `text[-1:]` keeps only the last
      character: the candidate is `"}"` when the reply ends with `}` and
      empty otherwise (and for an empty reply). */
  lemma {:induction false} SliceWithoutOpeningBrace(text: string)
    requires '{' !in text
    ensures SliceJson(text) == (if |text| > 0 && text[|text| - 1] == '}' then "}" else "")
  {
    if |text| > 0 {
      assert SliceFrom(text, -1) == [text[|text| - 1]];
    }
  }

  /** The candidate is always one contiguous piece of the reply. */
  lemma {:induction false} SliceIsSubstring(text: string) returns (a: nat, b: nat)
    ensures a <= b <= |text| && SliceJson(text) == text[a..b]
  {
    var lpos := Find(text, '{');
    var start := SliceBound(|text|, lpos);
    var tail := text[start..];
    var rpos := RFind(tail, '}');
    var stop := SliceBound(|tail|, rpos + 1);
    assert SliceJson(text) == tail[..stop];
    a, b := start, start + stop;
  }

  /** Cutting the candidate out of a candidate changes nothing. */
  lemma {:induction false} SliceIdempotent(text: string)
    ensures SliceJson(SliceJson(text)) == SliceJson(text)
  {
    var r := SliceJson(text);
    if |r| > 0 && r[0] == '{' {
      SliceBraced(r);
    } else {
      SliceShort(r);
    }
  }

  /** The two candidates without a `{` are their own candidates. */
  lemma {:induction false} SliceShort(r: string)
    requires |r| == 0 || r == "}"
    ensures SliceJson(r) == r
  {
    assert '{' !in r;
    SliceWithoutOpeningBrace(r);
  }

  /** A reply that starts with `{` and ends with `}` is its own candidate. */
  lemma {:induction false} SliceBraced(r: string)
    requires |r| > 0 && r[0] == '{' && r[|r| - 1] == '}'
    ensures SliceJson(r) == r
  {
    assert FirstOpenAt(r, 0);
    assert r[|r|..] == [];
    SliceBetweenBraces(r, 0, |r| - 1);
    assert r[0..|r|] == r;
  }

  /** A braced candidate framed by prose without `{` before it and without
      `}` after it comes out on its own. */
  lemma {:induction false} SliceFramed(pre: string, body: string, post: string)
    requires '{' !in pre && '}' !in post
    requires |body| >= 2 && body[0] == '{' && body[|body| - 1] == '}'
    ensures SliceJson(pre + body + post) == body
  {
    var text := pre + body + post;
    var i, j := |pre|, |pre| + |body| - 1;
    assert text[..i] == pre;
    assert text[j + 1..] == post;
    assert text[i..j + 1] == body;
    SliceBetweenBraces(text, i, j);
  }

  /** The common case: JSON surrounded by prose comes out on its own. */
  lemma {:induction false} NoisyReplyExample()
    ensures SliceJson("noise " + "{\"shop_name\":\"A\"}" + " trailing") == "{\"shop_name\":\"A\"}"
  {
    SliceFramed("noise ", "{\"shop_name\":\"A\"}", " trailing");
  }

  /** The boundary case: two braced fragments are merged into one
      candidate, prose between them included. */
  lemma {:induction false} TwoFragmentsExample()
    ensures SliceJson("a " + "{\"x\":1} b {\"y\":2}" + " c") == "{\"x\":1} b {\"y\":2}"
  {
    SliceFramed("a ", "{\"x\":1} b {\"y\":2}", " c");
  }

  // ---------------------------------------------------------------------
  // Loading the file

  /** What loading the file raises, if anything. `merge_pdf_pages` raises
      whatever rasterising the PDF raises (`pdfPages` is what
      `pdf2image.convert_from_path` returns or raises), and `max()` over no
      pages raises `ValueError`, as in `MergeLayout`. `Image.open` raises
      `imageOpen`, if anything. */
  function LoadError(loader: Loader, pdfPages: Result<seq<Size>>, imageOpen: Option<Error>): (e: Option<Error>)
    ensures loader == MergePdfPages ==> (e.None? <==> pdfPages.Ok? && |pdfPages.value| > 0)
    ensures loader == MergePdfPages && pdfPages.Err? ==> e == Some(pdfPages.error)
    ensures loader == MergePdfPages && pdfPages == Ok([]) ==> e == Some(ValueError)
    ensures loader == OpenImage ==> e == imageOpen
  {
    match loader
    case MergePdfPages =>
      (match pdfPages
       case Err(err) => Some(err)
       case Ok(pages) => if |pages| == 0 then Some(ValueError) else None)
    case OpenImage => imageOpen
  }

  /** The file has a supported type and loads without raising. */
  predicate Loads(fileType: Option<string>, pdfPages: Result<seq<Size>>, imageOpen: Option<Error>) {
    ChooseLoader(fileType).Ok? && LoadError(ChooseLoader(fileType).value, pdfPages, imageOpen).None?
  }

  // ---------------------------------------------------------------------
  // The whole processor

  /** `process_receipt(file_path)`. `fileType` is what `mimetypes.guess_type`
      reports for the path, `pdfPages` and `imageOpen` what loading the file
      meets, `reply` the text the model returns for the image and prompt,
      and `parse` stands for `json.loads` (`None` when it raises
      `JSONDecodeError`). */
  function ProcessReceipt(filePath: string, fileType: Option<string>, pdfPages: Result<seq<Size>>,
                          imageOpen: Option<Error>, reply: string,
                          parse: string -> Option<Value>): (r: Result<Value>)
    ensures ChooseLoader(fileType).Err? ==> r == Err(ValueError)
    ensures ChooseLoader(fileType).Ok? && LoadError(ChooseLoader(fileType).value, pdfPages, imageOpen).Some?
      ==> r == Err(LoadError(ChooseLoader(fileType).value, pdfPages, imageOpen).value)
    ensures Loads(fileType, pdfPages, imageOpen) && parse(SliceJson(reply)).None? ==> r == Err(JsonDecodeError)
    ensures Loads(fileType, pdfPages, imageOpen) && parse(SliceJson(reply)).Some? && !parse(SliceJson(reply)).value.Obj?
      ==> r == Err(TypeError)
    ensures r.Ok? <==> Loads(fileType, pdfPages, imageOpen) && parse(SliceJson(reply)).Some?
                       && parse(SliceJson(reply)).value.Obj?
    ensures r.Ok? ==>
      var parsed := parse(SliceJson(reply)).value;
      && r.value.Obj?
      && r.value.fields.Keys == parsed.fields.Keys + {"receipt_pathfile"}
      && r.value.fields["receipt_pathfile"] == Str(filePath)
      && (forall k :: k in parsed.fields && k != "receipt_pathfile" ==> r.value.fields[k] == parsed.fields[k])
  {
    var loader :- ChooseLoader(fileType);
    match LoadError(loader, pdfPages, imageOpen)
    case Some(e) => Err(e)
    case None =>
      (match parse(SliceJson(reply))
       case None => Err(JsonDecodeError)
       case Some(parsed) => SetKey(parsed, "receipt_pathfile", Str(filePath)))
  }
}
