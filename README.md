# Multilingual OCR pipeline: a Dafny model

This project models the sequential core of a document-OCR tool:

- **Document dispatch.** `process_document` and `advanced_qa_search` turn a PDF, a DOCX or a raster image into an ordered list of page-image paths:
  - `.pdf` and `.docx` are matched as case-sensitive suffixes;
  - `.png`, `.jpg` and `.jpeg` are matched after lower-casing the path;
  - a PDF renders at most `max_pages` pages, named `page_1.png … page_n.png`;
  - a DOCX gives one image per paragraph, with no cap.
- **Record pipelines.** These build one `{page, text}` record per page image, in order.
  - `process_document` first checks that a model is loaded. It then dispatches on the extraction mode (`english`, `hindi`, `multilingual`) inside the per-page loop.
  - `advanced_qa_search` asks a question of every page.
- **Basic search.** `basic_ocr_search` walks the records and dispatches on the search type (`exact`, `fuzzy`, `case-insensitive`, `wildcard`, `regex`).
  - For every matching record it appends `Page <page>: <whole page text>`.
  - When nothing matched, or the search type is unknown, it returns `["No results found."]`.
- **Text combination.** `combine_texts` writes every page text followed by a blank line, the last page included.

Every loop of the source is a `method` with a `while` loop. Each method is proved against a specification function (`Search`, `Combined`, `PageImages`), and the properties of those functions are proved as lemmas.

The collaborators appear as parameters:
- the PDF renderer's page count and the DOCX reader's paragraphs (`Documents`);
- the three extractors (`Extractors`);
- the similarity scorer and the regular-expression search (`Matchers`);
- the answer generator.

A record is `Entry(page: Option<string>, text: Option<string>)`. A missing dictionary key is `None`, and it reads as `""` exactly as `dict.get(key, "")` does. Exceptions become `Result` values: `Records.Error` names each one by the condition that raises it.

The model follows the code as written:
- each result carries the whole page text;
- a fuzzy hit needs a score strictly above 75;
- an unknown search type returns the "No results found." sentinel and raises nothing;
- `advanced_qa_search` generates an answer on every page image;
- `advanced_qa_search` has no model guard.

Files: `text.dfy` (string helpers), `records.dfy`, `document_processing.dfy` (main.py), `qa_search.dfy` (qa_search.py), `postprocessing.dfy` (postprocessing.py).

## Model

| member | source | states |
|---|---|---|
| QaSearch.BasicOcrSearch | qa_search.py:54-86 | The loop over the records returns exactly `Search`: the formatted matching records in order, or the sentinel. |
| QaSearch.Search | qa_search.py:86 | The result is never empty. |
| QaSearch.SearchSentinelIff | qa_search.py:55-86 | The result is `["No results found."]` if and only if no record matches. No real result can be mistaken for the sentinel. |
| QaSearch.UnknownSearchTypeFindsNothing | qa_search.py:62-86 | A search type other than the five returns the sentinel. |
| QaSearch.MatchesAppend | qa_search.py:58-84 | Searching a concatenation gives the results of the first part followed by those of the second, so input order is kept. |
| QaSearch.MatchesContents | qa_search.py:58-84 | There is at most one result per record. Every result is `"Page " + page + ": " + text` of a matching record, and every matching record contributes its result. |
| QaSearch.MatchesEmptyIff | qa_search.py:58-84 | The list of matches is empty exactly when no record matches. |
| QaSearch.ExactIsCaseInsensitive | qa_search.py:63-73 | `exact` and `case-insensitive` return equal lists on every input. |
| QaSearch.EmptyQueryMatchesAll | qa_search.py:63-73 | In `exact` and `case-insensitive` mode an empty query matches every record, in order. |
| QaSearch.MissingTextMatchesOnlyEmptyQuery | qa_search.py:59-63 | A record without `text` matches in `exact` or `case-insensitive` mode if and only if the query is empty. |
| QaSearch.FuzzyHit | qa_search.py:67-69 | A fuzzy hit needs a similarity score strictly greater than 75, computed on the lower-cased query and text. |
| QaSearch.WildcardToRegexCharwise | qa_search.py:77 | The two successive `replace` calls equal the character-by-character translation `*`→`.*`, `?`→`.`. |
| QaSearch.TranslateWildcardShape | qa_search.py:77 | The pattern contains no `?`. Its length is the query's length plus the number of `*`. |
| QaSearch.TranslateWildcardIdentity | qa_search.py:77 | A query without `*` or `?` is left unchanged. |
| QaSearch.TranslateWildcardAppend | qa_search.py:77 | The translation works piecewise over concatenation, so each character is translated in place. |
| QaSearch.WildcardIsRegex | qa_search.py:76-84 | A wildcard hit is exactly a regex hit for the translated query. |
| QaSearch.WildcardExample | qa_search.py:77-83 | `key*rd` translates to `key.*rd`, and the wildcard search equals the regex search for `key.*rd`. |
| QaSearch.KeywordScenario | test_qa_search.py:28-35 | For the three test pages, the default (`exact`) search for `keyword` returns exactly one result, for the second page. |
| QaSearch.AdvancedQaSearch | qa_search.py:16-52 | Covers the file-type dispatch and one record per page image, in order. Each record's page is the image path and its text is the generated answer (budget 1000). An unsupported suffix gives ValueError. An image input yields one record for the path itself. An absent model fails only once there is a page. |
| QaSearch.AsWrittenWildcardRaises | qa_search.py:75-84 | As written, a wildcard or regex search over at least one record raises NameError. |
| QaSearch.AsWrittenAgreesOtherwise | qa_search.py:54-86 | As written, every other search, and any search over no records, returns what the intended search returns. |
| DocumentProcessing.ProcessDocument | main.py:49-85 | The extraction mode defaults to `english`. An absent model is a RuntimeError, checked before the file type. An unsupported suffix is a ValueError. Otherwise there is one record per page image, in order, whose text comes from the selected extractor. An unknown mode is a ValueError only when there is at least one image; with none the result is `[]`. |
| DocumentProcessing.ImageConversion | main.py:26-34 | Returns `folder/page_i.png` for i = 1..n, where n is min(PDF pages, max_pages). |
| DocumentProcessing.DocxToImages | main.py:36-47 | Returns one `os.path.join(folder, page_i.png)` per paragraph, with no cap. |
| DocumentProcessing.MaterializePages | main.py:62-69 | The suffix dispatch yields `PageImages`: the PDF pages, the DOCX pages, the image itself, or nothing for any other suffix. |
| DocumentProcessing.Transcribe | main.py:74-81 | The extraction mode yields a text if and only if it is `english`, `hindi` or `multilingual`. |
| DocumentProcessing.UpperCasePdfRejected | main.py:62-69 | A path ending in `.PDF` is rejected. |
| DocumentProcessing.UpperCasePngAccepted | main.py:62-69 | A path ending in `.PNG` is accepted as an image. |
| DocumentProcessing.LowerCaseDocumentsAccepted | main.py:62-65 | Paths ending in `.pdf` and `.docx` select the PDF and DOCX renderers. |
| DocumentProcessing.PagePathInjective | main.py:31 | Different page ordinals give different file names. |
| DocumentProcessing.PageNamingAgrees | main.py:31-44 | For a non-empty folder without a trailing slash (the output folder is one), the f-string names and the POSIX `os.path.join` names coincide. |
| DocumentProcessing.PageImagesShape | main.py:26-69 | A PDF yields pages 1..n with n ≤ max_pages. A DOCX yields one page per paragraph. An image yields itself. All names are distinct. |
| Text.NatToStringInjective | main.py:31 | Distinct ordinals have distinct decimal spellings. |
| Postprocessing.CombineTexts | postprocessing.py:3-8 | The accumulating loop returns `Combined`: each text followed by `"\n\n"`, in order. |
| Postprocessing.CombinedAppend | postprocessing.py:3-8 | Combining distributes over list concatenation. |
| Postprocessing.CombinedLength | postprocessing.py:5-7 | The length is the sum of the text lengths plus 2·n. |
| Postprocessing.CombinedEnding | postprocessing.py:3-8 | The result is `""` exactly for no records. Otherwise it ends with `"\n\n"`, after the last page too. |
| Postprocessing.MissingTextContributesSeparator | postprocessing.py:6-7 | A record with no `text` key contributes just `"\n\n"`. |
| Postprocessing.PostprocessTexts | postprocessing.py:18-21 | Returns the combined text whatever the output format. |

## Findings

| source | as written | input that shows it | evidently intended | confidence | as-written member | corrected member |
|---|---|---|---|---|---|---|
| qa_search.py:78-83 | `re.search` is called, but `re` is never imported | any non-empty record list with `search_type` `"wildcard"` or `"regex"`: the first record raises NameError | `import re`, so that both modes search | not executed | QaSearch.AsWrittenWildcardRaises | QaSearch.BasicOcrSearch |

The rest of the model uses the corrected search (`IsHit`, `Search`). `QaSearch.WildcardIsRegex` states the intended wildcard behaviour. `QaSearch.AsWrittenAgreesOtherwise` shows that the two versions differ only in this respect.

## Left out

- app.py, the Streamlit interface, and test_qa_search.py, the test script, are the callers of the pipeline; neither is modelled beyond the one test scenario in `QaSearch.KeywordScenario`.
- text_extraction.py is not part of this model. Its effect is modelled as three opaque extractors. The prompts, the 2000/2000/500 token budgets and the trimming of the echoed prompt tokens are not modelled.
- load_model is modelled only as the boolean `modelLoaded`. GPU detection and weight loading are left out.
- File I/O is left out: PDF rendering, DOCX drawing, image saves, `os.makedirs` of the output folder, and `save_output`'s file and JSON writing.
- The PDF renderer is modelled only by the page count it reports. Rendering pages 1..max_pages then gives min(page count, max_pages) images.
- Each extractor and the answer generator are modelled as functions of the image path. They read the image stored there.
- `fuzz.partial_ratio` and the regular-expression engine are parameters (`Matchers`). The model does not constrain the scorer to 0..100.
- Lower-casing is ASCII-only. Python's Unicode `str.lower` is not modelled.
- AdvancedQaSearch: the prompt message construction, `process_vision_info`, the processor call, the device transfer and batch decoding are folded into the opaque generator. An absent processor is modelled as one error condition, raised at the first page.
- Errors raised inside the libraries (a missing file, a corrupt PDF) are not modelled.
- The `convert_pdf_to_images` helper of the test file is not modelled. The scenario lemma takes the three page names as parameters.
- `os.path.join` is modelled for POSIX only (`Text.PathJoin`); on another path separator the two page-naming schemes of `DocumentProcessing.PageNamingAgrees` need not agree.
- AdvancedQaSearch: unlike `process_document` (main.py:59-60), `advanced_qa_search` never creates `output_images`, so a PDF or DOCX query in a fresh working directory would fail when the first image is saved (main.py:32, main.py:45); directory state is not modelled, so the model does not show this failure.
