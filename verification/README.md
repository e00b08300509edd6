# Receipt scanner core, modelled in Dafny

The receipt scanner reads photos and PDFs of shopping receipts. It has a
remote vision model turn each receipt into a JSON record (shop name, items
with prices, total, payment mode), stamps every item with a classification
code and probability from a text classifier, and shows the receipts on a
review page. There the user can page through them, correct them, and export
them to JSON or CSV. A configuration singleton, loaded from a dotenv-style
`config.txt`, decides the backend and the model paths.

This project models that core:

- `Py` (`py_semantics.dfy`) holds the Python behaviour the code relies on. That is `str.find`/`rfind`, slicing with negative bounds, `strip` over Python's whitespace set, ASCII `lower`, and `int()` on strings with a sign, surrounding whitespace and `_` digit separators.
- `Json` (`json_value.dfy`) holds JSON values with Python's dict behaviour: `KeyError` and `TypeError` on subscripts, and how `for item in v` behaves on each kind of value.
- `GeminiReceipt` (`receipt_gemini.dfy`) models `process_receipt`: the MIME dispatch, the brace slicing of the model's reply, the JSON parse and the `receipt_pathfile` stamp.
- `ScannerUtils` (`scanner_utils.dfy`) models `read_api_key`, the page layout of `merge_pdf_pages` and `estimate_image_tokens_openai`.
- `ReceiptEntry` (`receipt_entry.dfy`) models the helpers of the review script: backend selection, `classify_items`, `process_image`, `save_to_json` and `save_to_csv`.
- `ReviewSession` (`review_session.dfy`) models the review page's state: the upload batch, the Previous/Next buttons and the edits to the receipt on screen.
- `AppConfig` (`app_config.dfy`) models `load_config`, the `Config` singleton, its ten properties and the global instance.

Several inputs the real code gets from outside are parameters of the model:

- the remote model's reply text;
- `mimetypes.guess_type`;
- `json.loads`, as a function returning `None` when the text is not JSON;
- what loading the receipt file raises in `process_receipt`: the pages `pdf2image` returns or its error, and the error of `Image.open`;
- the dotenv parser, which sees the file's text and the process environment;
- the OCR backend, returning a JSON value in which `Null` stands for Python's `None`; in the upload batch it is handed the temporary path together with the bytes just written there;
- the classifier.

Files are a map from path to `Readable(content)`, `Undecodable` (it exists but its bytes are not valid text) or `Unreadable`. A PDF page is its size only.

## Model

| member | source | states |
|---|---|---|
| Py.Find | src/scannerai/ocr/lcf_receipt_process_gemini.py:76 | `find` gives -1 exactly when the character is absent, otherwise the index of its first occurrence |
| Py.RFind | src/scannerai/ocr/lcf_receipt_process_gemini.py:78 | `rfind` gives -1 exactly when the character is absent, otherwise the index of its last occurrence |
| Py.FindIs | src/scannerai/ocr/lcf_receipt_process_gemini.py:76 | an index holding the character with no earlier occurrence is what `find` returns |
| Py.RFindIs | src/scannerai/ocr/lcf_receipt_process_gemini.py:78 | an index holding the character with no later occurrence is what `rfind` returns |
| Py.Strip | src/scannerai/utils/scanner_utils.py:13 | over Python's `str.isspace` set (`StrSpace`), `strip` returns a string with no whitespace at either end, and it is the input with whitespace-only runs cut from both ends; with the narrower set `int()` skips (`IntSpace`) the same holds |
| Py.SliceFrom | src/scannerai/ocr/lcf_receipt_process_gemini.py:77 | `s[i:]` is a suffix of `s`: it drops the first `i` characters for `i >= 0`, keeps the last `-i` for negative `i`, and is clamped to the whole string or nothing |
| Py.SliceTo | src/scannerai/ocr/lcf_receipt_process_gemini.py:79 | `s[:j]` is a prefix of `s`: it keeps the first `j` characters for `j >= 0`, drops the last `-j` for negative `j`, and is clamped to the whole string or nothing |
| Py.StripPadded | src/scannerai/utils/scanner_utils.py:13 | a trimmed core padded with whitespace on both sides strips back to the core |
| Py.StripIdempotent | src/scannerai/utils/scanner_utils.py:13 | stripping twice is stripping once |
| Py.Lower | src/scannerai/_config/config.py:23 | `lower()` keeps the length and lowers each character on its own, leaving everything but the capitals unchanged |
| Py.LowerIsTrueIff | src/scannerai/_config/config.py:23 | `s.lower() == "true"` holds exactly for the sixteen case spellings of "true" |
| Py.LowerKeepsLowerSuffix | scripts/lcf_receipt_entry_streamlit.py:71-74 | a path ending in a suffix without capitals still ends in it after `lower()`, whatever capitals the rest of the name has |
| Py.ParseInt | src/scannerai/_config/config.py:35 | `int()` succeeds exactly on an optional sign and `_`-separated digits of at most 4300 digits, surrounded by the whitespace `int()` skips (which leaves out U+001C to U+001F); the value is the digits' value with that sign; anything else raises `ValueError` |
| Py.ParseIntOfString | src/scannerai/_config/config.py:35 | `int()` reads every integer of at most 4300 digits back from its decimal spelling, and raises `ValueError` on a longer one |
| Py.ParseIntSignedDigits | src/scannerai/_config/config.py:35 | `int()` of a non-empty run of at most 4300 digits with an optional minus sign is its value with that sign; more digits raise `ValueError` |
| Json.Subscript | scripts/lcf_receipt_entry_streamlit.py:52-56 | `d[key]` succeeds exactly on a dict holding the key and gives its value; a missing key raises `KeyError(key)` and a non-dict raises `TypeError` |
| Json.SetKey | src/scannerai/ocr/lcf_receipt_process_gemini.py:87 | `d[key] = x` succeeds exactly on a dict; the key then maps to `x`, the keys are the old ones plus `key`, and every other key keeps its value; a non-dict raises `TypeError` |
| Json.IterItems | scripts/lcf_receipt_entry_streamlit.py:95-106 | `for item in v` visits a list's elements; an empty string or dict visits nothing; `None`, a boolean or a number raises `TypeError`, and so does a non-empty string or dict, whose first element the callers subscript with a string key |
| ScannerUtils.ReadApiKey | src/scannerai/utils/scanner_utils.py:9-19 | `None` comes back exactly for a missing or unreadable file; a file that exists but does not decode raises `UnicodeDecodeError`, which neither handler catches; otherwise the key is the file's text with the `str.isspace` whitespace stripped from both ends |
| ScannerUtils.ReadApiKeyPadded | src/scannerai/utils/scanner_utils.py:9-19 | a key file holding the key with whitespace padding yields exactly the key |
| ScannerUtils.MergeLayout | src/scannerai/utils/scanner_utils.py:23-40 | no pages raise `ValueError`; otherwise the canvas is as wide as the widest page and as tall as all pages together, and page `k` is pasted at x = 0 and y = the total height of the pages before it |
| ScannerUtils.PagesTileCanvas | src/scannerai/utils/scanner_utils.py:35-38 | pages pasted at the cumulative offsets lie inside the canvas, each one below the one before, with no overlap |
| ScannerUtils.SumHeightsMonotone | src/scannerai/utils/scanner_utils.py:29 | a longer prefix of pages is never less tall |
| ScannerUtils.TilesAlong | src/scannerai/utils/scanner_utils.py:56-57 | `(extent + 511) // 512` is the fewest 512-pixel tiles covering the extent |
| ScannerUtils.EstimateImageTokens | src/scannerai/utils/scanner_utils.py:51-63 | the estimate is 85 plus a multiple of 170; it is exactly 85 for an image with a zero side and at least 255 otherwise |
| ScannerUtils.TilesAlongIsLeast | src/scannerai/utils/scanner_utils.py:56-57 | any least covering tile count is the one computed |
| ScannerUtils.EstimateByTileGrid | src/scannerai/utils/scanner_utils.py:51-63 | the estimate is 85 + 170 × the tiles of the least grid covering the image |
| ScannerUtils.EstimateMonotone | src/scannerai/utils/scanner_utils.py:51-63 | a larger image never gets a smaller estimate |
| GeminiReceipt.ChooseLoader | src/scannerai/ocr/lcf_receipt_process_gemini.py:35-44 | a PDF is merged page by page and any `image/` type is opened directly; any other type, including one that could not be guessed, raises `ValueError` |
| GeminiReceipt.SliceJson | src/scannerai/ocr/lcf_receipt_process_gemini.py:75-79 | the JSON candidate is empty, is `}` alone, or starts with `{` and ends with `}` |
| GeminiReceipt.SliceBetweenBraces | src/scannerai/ocr/lcf_receipt_process_gemini.py:76-79 | with the first `{` before the last `}`, the candidate is everything from the one to the other, both included |
| GeminiReceipt.SliceWithoutClosingBrace | src/scannerai/ocr/lcf_receipt_process_gemini.py:76-79 | when no `}` follows the first `{`, the candidate is empty |
| GeminiReceipt.SliceWithoutOpeningBrace | src/scannerai/ocr/lcf_receipt_process_gemini.py:76-79 | without any `{`, `find` gives -1 and `[-1:]` keeps only the last character, so the candidate is `}` if the reply ends with one and empty otherwise |
| GeminiReceipt.SliceIsSubstring | src/scannerai/ocr/lcf_receipt_process_gemini.py:75-79 | the candidate is always one contiguous piece of the reply |
| GeminiReceipt.SliceBraced | src/scannerai/ocr/lcf_receipt_process_gemini.py:75-79 | a candidate that starts with `{` and ends with `}` is its own candidate |
| GeminiReceipt.SliceIdempotent | src/scannerai/ocr/lcf_receipt_process_gemini.py:75-79 | cutting the candidate out of a candidate changes nothing |
| GeminiReceipt.SliceFramed | src/scannerai/ocr/lcf_receipt_process_gemini.py:75-79 | a braced body with no `{` in the prose before it and no `}` in the prose after it comes out exactly |
| GeminiReceipt.NoisyReplyExample | src/scannerai/ocr/lcf_receipt_process_gemini.py:75-79 | a JSON object surrounded by prose without braces comes out on its own |
| GeminiReceipt.TwoFragmentsExample | src/scannerai/ocr/lcf_receipt_process_gemini.py:75-79 | two braced fragments come out as one candidate, with the prose between them included |
| GeminiReceipt.LoadError | src/scannerai/ocr/lcf_receipt_process_gemini.py:37-44 | a PDF loads exactly when rasterising succeeds with at least one page; a rasterising error propagates and no pages raise `ValueError` from `max()`; an image loads unless `Image.open` raises |
| GeminiReceipt.ProcessReceipt | src/scannerai/ocr/lcf_receipt_process_gemini.py:32-89 | an unsupported type raises `ValueError`; a loading error propagates; unparsable text raises `JSONDecodeError`; non-object JSON raises `TypeError` on the stamp; it succeeds exactly when the file loads and the reply parses to an object, and a success is that object plus `receipt_pathfile` = the path, with every other field kept |
| ReceiptEntry.SelectBackend | scripts/lcf_receipt_entry_streamlit.py:22-42 | `OCR_MODEL` 1, 2 and 3 select OpenAI, GPT-4 Vision and Gemini; any other value stops the script |
| ReceiptEntry.ClassifyItem | scripts/lcf_receipt_entry_streamlit.py:52-56 | an item succeeds exactly when it is a dict with `name`; it gains `code` and `prob` from the prediction for its name and keeps everything else; a missing `name` raises `KeyError('name')` and a non-dict raises `TypeError` |
| ReceiptEntry.ClassifyAll | scripts/lcf_receipt_entry_streamlit.py:52-56 | the loop succeeds exactly when every item has a name; items keep their number and order, and each is stamped from its own name |
| ReceiptEntry.ClassifyItems | scripts/lcf_receipt_entry_streamlit.py:50-57 | succeeds exactly on a dict whose `items` can be looped over and holds only named dicts; a non-dict raises `TypeError` and a missing `items` raises `KeyError`; fields other than `items` are unchanged and each listed item is stamped in place |
| ReceiptEntry.ClassifyItemsIdempotent | scripts/lcf_receipt_entry_streamlit.py:50-57 | classifying a classified record again with the same classifier changes nothing |
| ReceiptEntry.ClassifyAllIdempotent | scripts/lcf_receipt_entry_streamlit.py:52-56 | running the item loop twice gives what running it once gives |
| ReceiptEntry.LoadPicture | scripts/lcf_receipt_entry_streamlit.py:71-78 | a lower-cased suffix of `.png`, `.jpg` or `.jpeg` decodes the image; otherwise `.pdf` merges its pages; any other suffix leaves `original_image` unbound and raises `UnboundLocalError` at the return |
| ReceiptEntry.ProcessImage | scripts/lcf_receipt_entry_streamlit.py:60-78 | the result is `None` exactly when the backend returns `None`; a backend error, then a classification error, then an image-reading error propagates; an entry holds the classified record and the image read from the same path |
| ReceiptEntry.ProcessImageSucceeds | scripts/lcf_receipt_entry_streamlit.py:60-78 | when the backend returns a record other than `None`, the record classifies and the image loads, the entry is that image with the classified record |
| ReceiptEntry.SaveToJson | scripts/lcf_receipt_entry_streamlit.py:81-85 | the export holds one `{"receipt_data": ...}` per result, in order, with the image dropped |
| ReceiptEntry.JsonExportKeepsOnlyRecords | scripts/lcf_receipt_entry_streamlit.py:81-85 | two result lists export the same list exactly when their records agree in order, whatever their images are |
| ReceiptEntry.ItemRow | scripts/lcf_receipt_entry_streamlit.py:96-106 | a row is built exactly when the item has `name`, `code`, `price` and `prob` and the receipt has `shop_name`; it copies those, plus the path and payment mode, which default to "" |
| ReceiptEntry.ItemRows | scripts/lcf_receipt_entry_streamlit.py:95-106 | one row per item, in item order, each the row of its own item |
| ReceiptEntry.ReceiptRows | scripts/lcf_receipt_entry_streamlit.py:94-106 | a record's rows are built exactly when it is exportable, one per item |
| ReceiptEntry.ReceiptRowAt | scripts/lcf_receipt_entry_streamlit.py:95-106 | row `i` of a record is built from item `i` |
| ReceiptEntry.CsvRows | scripts/lcf_receipt_entry_streamlit.py:90-106 | the export goes through exactly when every record is exportable |
| ReceiptEntry.CsvRowCount | scripts/lcf_receipt_entry_streamlit.py:90-106 | there is one CSV row per item across all results |
| ReceiptEntry.CsvRowAt | scripts/lcf_receipt_entry_streamlit.py:90-106 | item `i` of receipt `k` is the row after all rows of earlier receipts plus `i`, and it carries that receipt's shop name, path and payment mode |
| ReceiptEntry.RowsOfReceiptAt | scripts/lcf_receipt_entry_streamlit.py:93-106 | receipt `k`'s rows stand in the export right after the rows of the receipts before it |
| ReceiptEntry.CsvRowsFlatten | scripts/lcf_receipt_entry_streamlit.py:93-106 | the export is the concatenation of every record's rows, in result order |
| ReceiptEntry.OffsetIsItemsBefore | scripts/lcf_receipt_entry_streamlit.py:93-106 | the rows before receipt `k` number the items of the receipts before it |
| ReceiptEntry.WriteCsv | scripts/lcf_receipt_entry_streamlit.py:97-108 | the file has one line per row; with no rows it has no columns, otherwise its header is the seven keys in the order the row dict lists them, and each cell is the row's value under its column |
| ReceiptEntry.CsvHeaderIsRowKeys | scripts/lcf_receipt_entry_streamlit.py:97-107 | the header's seven names are distinct, are exactly the keys of every row dict, and each picks out the cell the CSV line holds in its column |
| ReceiptEntry.SaveToCsv | scripts/lcf_receipt_entry_streamlit.py:90-108 | the export is written exactly when every record is exportable; it has one line per item across all results, ordered by result and then by item, and the line of item `i` of result `k` holds the cells of the row built from that item; the seven-column header comes exactly when there is an item |
| ReviewSession.Previous | scripts/lcf_receipt_entry_streamlit.py:157-167 | Previous moves back one place unless the first receipt is on screen, and never touches the receipts |
| ReviewSession.Next | scripts/lcf_receipt_entry_streamlit.py:157-174 | Next moves forward one place unless the last receipt is on screen; there is no wrap-around |
| ReviewSession.NavigationKeepsValid | scripts/lcf_receipt_entry_streamlit.py:157-174 | neither button moves a valid cursor off the list |
| ReviewSession.NavigationInverse | scripts/lcf_receipt_entry_streamlit.py:157-174 | Previous undoes Next and Next undoes Previous whenever the button moved |
| ReviewSession.Navigate | scripts/lcf_receipt_entry_streamlit.py:157-174 | a series of button presses never changes the receipts |
| ReviewSession.NavigateKeepsValid | scripts/lcf_receipt_entry_streamlit.py:157-174 | any series of presses keeps a valid cursor valid |
| ReviewSession.NextStopsAtLast | scripts/lcf_receipt_entry_streamlit.py:169-174 | pressing only Next advances by the number of presses, clamped at the last receipt |
| ReviewSession.TempPath | scripts/lcf_receipt_entry_streamlit.py:138 | an upload is written to its name prefixed with `temp_` |
| ReviewSession.UploadOutcome | scripts/lcf_receipt_entry_streamlit.py:137-143 | one pass of the loop body processes the bytes written to `temp_<name>`: a backend error on them propagates, the pass yields `None` exactly when the backend finds nothing in them, and a receipt is the classified reply with the picture read from that path |
| ReviewSession.SameNameOwnBytes | scripts/lcf_receipt_entry_streamlit.py:136-143 | two uploads with the same name are each processed from their own bytes, so a backend can treat them differently |
| ReviewSession.Collect | scripts/lcf_receipt_entry_streamlit.py:136-145 | the corrected loop collects at most one receipt per upload, and exactly one per upload when every upload produces a receipt |
| ReviewSession.FirstFailure | scripts/lcf_receipt_entry_streamlit.py:136-149 | there is no failing upload exactly when every upload processes without raising; otherwise it is the first upload that raises |
| ReviewSession.CollectAsWritten | scripts/lcf_receipt_entry_streamlit.py:136-149 | with no failing upload the loop as written collects what the corrected loop does; otherwise it keeps exactly the receipts of the uploads before the first failing one and raises that upload's error |
| ReviewSession.ProcessBatchAsWritten | scripts/lcf_receipt_entry_streamlit.py:131-154 | a non-empty batch replaces the results with what the loop collected and raises exactly what the loop raised; the cursor goes back to 0 only when the loop finished, and an exception leaves it where it was; a batch that does not raise is the corrected batch |
| ReviewSession.ProcessBatch | scripts/lcf_receipt_entry_streamlit.py:131-154 | the corrected batch replaces the results with every receipt produced and resets the cursor, so a valid session stays valid |
| ReviewSession.CollectConcat | scripts/lcf_receipt_entry_streamlit.py:136-145 | collecting a concatenation of uploads concatenates their collections, so receipts keep upload order |
| ReviewSession.CollectOne | scripts/lcf_receipt_entry_streamlit.py:143-145 | a single upload contributes its receipt if it produced one, and nothing otherwise |
| ReviewSession.BatchRestoresValid | scripts/lcf_receipt_entry_streamlit.py:131-154 | after a corrected batch the cursor is valid, whatever state came before |
| ReviewSession.EditCurrent | scripts/lcf_receipt_entry_streamlit.py:188-249 | with no receipts nothing happens; a stale cursor raises `IndexError`; otherwise only the receipt on screen changes, with shop name, total, payment mode and items set from the widgets and every other field kept |
| ReviewSession.EditIdempotent | scripts/lcf_receipt_entry_streamlit.py:188-249 | a rerun with the same widget contents changes nothing more |
| ReviewSession.UntouchedEditIsNoOp | scripts/lcf_receipt_entry_streamlit.py:218-249 | when shop name, total and payment mode are strings, and the data editor hands the items back unchanged, widgets left at their prefilled values write back the same record (the pandas round trip of the items, which can add NaN for missing keys or turn int prices into floats, is left out); a number such as the prompt's `27.83` total is shown as its text and so comes back as a string on the first rerun |
| ReviewSession.StaleCursorAfterAbortedBatch | scripts/lcf_receipt_entry_streamlit.py:136-154 | an upload that raises mid-batch leaves partial results and the old cursor, so the next rerun's lookup raises `IndexError`; the corrected batch keeps the good receipt with a valid cursor |
| AppConfig.Flag | src/scannerai/_config/config.py:23-33 | a flag is on exactly when its variable is set and spells "true" in any mix of cases; an unset flag is off |
| AppConfig.PathSetting | src/scannerai/_config/config.py:37-43 | a path is the variable's value, or `None` when the variable is unset |
| AppConfig.LoadDotenv | src/scannerai/_config/config.py:17-19 | loading the file adds its variables, but a variable already set in the process keeps its value |
| AppConfig.ReadSettings | src/scannerai/_config/config.py:21-44 | only `int()` of `OCR_MODEL` (default "3") can fail, with `ValueError`; a success holds the parsed model number |
| AppConfig.LoadConfig | src/scannerai/_config/config.py:9-53 | a missing file raises `FileNotFoundError`; an unreadable file raises its read error and an undecodable one `UnicodeDecodeError`, neither caught; otherwise the settings come from the process environment merged with the file, as the parser reads it against that environment |
| AppConfig.DefaultsWhenUnset | src/scannerai/_config/config.py:23-43 | an unset `OCR_MODEL` selects 3, each of the four flags is off when its variable is unset, and each of the five paths is `None` when its variable is unset |
| AppConfig.OcrModelRoundTrip | src/scannerai/_config/config.py:35 | any integer of at most 4300 digits written out in `OCR_MODEL` is read back as itself; a longer one makes loading raise `ValueError` |
| AppConfig.ProcessEnvironmentWins | src/scannerai/_config/config.py:19-43 | a variable set in the process beats the same variable in the file, for flags and paths alike |
| AppConfig.New | src/scannerai/_config/config.py:63-68 | with an instance present nothing happens; otherwise the instance is set before loading, so a failed load leaves it half built and raises the load's error |
| AppConfig.LaterConstructionsIgnored | src/scannerai/_config/config.py:63-68 | once an instance exists, any number of further constructions change nothing |
| AppConfig.FirstConstructionWins | src/scannerai/_config/config.py:63-68 | after several constructions the class holds what the first one produced, including a broken half-built instance |
| AppConfig.Accessor | src/scannerai/_config/config.py:70-119 | a property works exactly on a built instance and raises `TypeError` on a half-built one; each property returns its own setting's kind |
| AppConfig.AccessorsReportEnvironment | src/scannerai/_config/config.py:70-119 | after a successful first construction each property reports its own variable from the loaded environment |
| AppConfig.SettingsReportEnvironment | src/scannerai/_config/config.py:21-44 | each property of the loaded settings is what the environment says about its variable |
| AppConfig.BrokenAfterFailedLoad | src/scannerai/_config/config.py:63-73 | for the class on its own, after a failed first load every property of every later instance raises `TypeError`; at import (line 123) the failed load discards the module, so importers never see such an instance |
| AppConfig.ImportConfig | src/scannerai/_config/config.py:122-123 | importing the module succeeds exactly when `config.txt` loads, leaves a built instance when it does, and raises `FileNotFoundError` when the file is missing |

## Left out

- The remote model call, its prompt, `genai.configure` and the processor's `__init__` are not modelled. They need the network and an API key. The reply text is a parameter.
- The printing guarded by `enable_price_count` in `process_receipt` is not modelled; it is output only.
- GeminiReceipt.ProcessReceipt: the `debug_mode` branch at lines 46-50 is not modelled. It is not output only: `np.array(image)[:, :, ::-1]` raises `IndexError` on a single-channel or palette image, whose array has two dimensions, and `cv2.waitKey(0)` stops the program until a key is pressed. With `debug_mode` on, `process_receipt` can therefore raise on such an image where the model succeeds.
- `json.loads` is a parameter that returns `None` for invalid JSON. The model only distinguishes objects from other values.
- `mimetypes.guess_type` is a parameter. Its lookup table is not part of this model.
- `merge_pdf_pages` is modelled on page sizes only. Rasterising the PDF, the RGB canvas and the pixel copying are not modelled. With no pages, `max()` raises `ValueError`; `MergeLayout` returns that error, and so does `process_receipt` through `GeminiReceipt.LoadError`.
- `count_tokens_openai` is not modelled. It calls the `tiktoken` encoder.
- `read_api_key` writes error messages to the console. They are not modelled; only the `None` result is.
- `cv2.imread`, `cvtColor` and the bounding-box drawing at lines 199-212 of the review script are not modelled. They touch pixels, and a picture is its path.
- ReceiptEntry.LoadPicture: reading the picture is taken to succeed. In the script `cvtColor` raises on an image `cv2.imread` could not read, and `merge_pdf_pages` raises on a PDF with no pages; those errors are not part of its result.
- ReviewSession.EditCurrent: models the drawing loop only as far as the `items` lookup, and does not model `pd.DataFrame(receipt_data["items"])` at line 236. Its success condition is therefore weaker than the script's. An `items` value that cannot be looped over, or an item that does not support `in`, raises in the drawing loop. `pd.DataFrame` raises `ValueError` on a string `items` or a dict of scalars, by which time lines 230-232 have already written the shop name, total and payment mode into the shared record. That includes the empty string, which `classify_items` accepts as a list of no items, so a batch holding a reply such as `{"shop_name": "s", "items": ""}` makes every later rerun raise at line 236, where the model succeeds.
- Streamlit widgets, layout, messages and the progress bar are not modelled. Widget values are parameters.
- Writing uploads to disk, `os.remove` and writing the export files are not modelled. The model builds what would be written.
- The export-format selectbox (lines 176-186) is not modelled. Each export is modelled on its own.
- The pandas round trip of the items table (`DataFrame` and `to_dict("records")`) is not modelled. The edited rows are a parameter.
- `load_dotenv` is modelled by its precedence rule. Its parser is a parameter that receives the file's text and the process environment, since python-dotenv expands `${VAR}` references from `os.environ` while parsing; the expansion rules themselves are not modelled. `load_dotenv` also changes `os.environ` as a side effect. That is not modelled beyond the settings read from the merged environment: `LoadConfig` and `New` return only the settings, and later `os.getenv` calls that would see the file's variables are not part of this model.
- The classifier behind `lcf_classifier.predict` is a parameter. Its model and label encoder files are not read.
- `Py.ParseInt` accepts only ASCII digits. Python's `int()` also accepts other Unicode decimal digits, which no configuration file of this project is expected to hold. The 4300-digit limit is Python's default `sys.get_int_max_str_digits()`; a program that changes it is not modelled.
- `Py.Lower` lowers only ASCII letters. Python also lowers other alphabets, but no non-ASCII letter lowers to a letter of "true" or of the four file suffixes, so the results the code compares are the same.
- Item dicts are shared in the real program: `classify_items` mutates the items it loops over, and the review page edits the record in place. The model returns new values, so aliasing between the same dict reached twice is not modelled.
- `ReviewSession.EditCurrent` takes what the text inputs hold as string parameters. `st.text_input` shows a prefilled value that is not a string as its `str()` text; that conversion is not modelled, which is why `UntouchedEditIsNoOp` asks for string fields.
- `to_csv` is modelled by the header and cells it writes. How pandas prints each cell (quoting, number formatting, the line terminator) is not modelled.

## Findings

| source | as written | input that shows it | evidently intended | confidence | as-written member | corrected member |
|---|---|---|---|---|---|---|
| scripts/lcf_receipt_entry_streamlit.py:136-154 | an exception from `process_image` leaves the upload loop before line 154. The results hold only the receipts collected so far, and `current_index` keeps its old value. The next rerun then indexes past the end at line 190 and raises `IndexError`. | three receipts on screen with the third shown, then a batch of `a.png` (processes) and `b.png` (the backend raises) | a failing upload is skipped, the rest of the batch goes on, and the cursor goes back to the first receipt | not executed | ReviewSession.CollectAsWritten, ReviewSession.ProcessBatchAsWritten, ReviewSession.StaleCursorAfterAbortedBatch | ReviewSession.ProcessBatch, ReviewSession.BatchRestoresValid |
