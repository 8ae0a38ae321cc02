# universal_doc_rag ingestion core, modelled in Dafny

This project models the ingestion side of universal_doc_rag, a document question-answering
service. It covers:

- the **table extractor**: it routes a file by its lower-cased extension to a PDF, DOCX, PPTX,
  XLSX, CSV or text reader. The PDF, DOCX, PPTX and text readers turn the cell grids their
  library returns (or the text's pipe lines) into tables, and guess whether the first row holds
  column names. The XLSX and CSV frames come straight from pandas.
- the **image extractor**: it names and saves the images found in PDF, DOCX and PPTX files, and
  copies plain image files.
- the **common ingestor**:
  - the fallback FAISS index manager, with its load-or-create and add-documents rules;
  - the chat ingestor's session index directory and retriever;
  - the PDF handler's session path, its upload file-type check, and the page-by-page text it
    reads.
- the **model loader**: how the embedding model and the chat model are chosen from the
  configuration dictionary, and which error is raised when the choice fails.

Supporting modules:

- `Strings` models, as pure sequence functions, the Python builtins the code relies on:
  `str.strip`, `lower`, `split`, `join`, `splitlines`, `endswith`, `in`, and decimal formatting
  in f-strings.
- `Paths` models pathlib's `PurePosixPath`: parsing, `str()`, `/`, and `name`, `suffix` and
  `stem`.
- `Seqs` holds the list a nested loop accumulates.

The parsing libraries are not modelled: pdfplumber, PyMuPDF, python-docx, python-pptx, Pillow,
pandas, LangChain's FAISS and the embedding and chat clients. What they return for a file is an
input of the model.

- Where the code changes things step by step, the model is a method with a loop, proved equal to
  a specification function. This covers every reader loop and `read_pdf`.
- `build_retriever` is a method that drives the index manager and returns the retriever together
  with the disk as the call leaves it. It reads neither `uploaded_files` nor `use_session_dirs`,
  so the model has no such parameters.
- The index manager, whose methods update its fields, is a class. Its invariant says that a
  loaded store always equals what is on disk.
- The model loader is pure functions over a `Value` type that stands for Python's dictionaries,
  lists and scalars.

The model follows the code where the code and the tests that accompany it disagree:

- `FaissManager.add_documents` keeps no record of what it has ingested. Adding the same
  documents twice returns `len(docs)` both times (`AddTwice`), although `tests/test_faiss.py`
  expects 0 the second time and an `ingested_meta.json` file.
- `ChatIngestor` has no `temp_dir` or `faiss_dir` attribute, although
  `tests/test_chat_ingestor_path.py` reads them. The model states what the code does: the index
  directory is `faiss_base / session_id`. `SessionIndexDir` proves that this directory's name is
  the session id.

## Model

| member | source | states |
|---|---|---|
| TableExtractor.Route | ingestor/table_extractor.py:30-47 | an extension gets no reader exactly when it is outside SUPPORTED; each reader is chosen exactly for its own extensions, with ".txt" and ".md" both going to the text heuristic |
| TableExtractor.Extract | ingestor/table_extractor.py:26-47 | an unsupported lower-cased suffix gives no table; each supported one gives exactly what its reader returns (pages, DOCX tables, PPTX slides, the Excel sheets, the single CSV frame, the text heuristic) |
| TableExtractor.UpperCaseExtension | ingestor/table_extractor.py:27-35 | a path whose suffix is ".PDF" is read by the PDF reader: the suffix is lower-cased before dispatch |
| TableExtractor.PdfNameRoutesToPdf | ingestor/table_extractor.py:27-35 | a file named <stem>.pdf, in any directory, is read by the PDF reader |
| TableExtractor.HeaderGuess | ingestor/table_extractor.py:83-88 | a first row with an empty cell gives a headerless table of the rows after it; a filled first row names the columns of the rows after it unless pandas refuses the construction, and then every row, the first included, forms a headerless table; on a grid of one width the filled first row is never refused |
| TableExtractor.MaxWidth | ingestor/table_extractor.py:80 | the result is the width of some row and no row is wider |
| TableExtractor.PadRow | ingestor/table_extractor.py:81 | a padded row reaches the given width, starts with the row's own cells and adds only empty cells |
| TableExtractor.PadToMaxWidth | ingestor/table_extractor.py:78-81 | padding to the widest row gives one width throughout, keeps every row's cells as a prefix, and fills the rest with "" |
| TableExtractor.PadUniform | ingestor/table_extractor.py:78-81 | a grid whose rows already share one width is left unchanged by the padding |
| TableExtractor.PipeLines | ingestor/table_extractor.py:134 | a line is kept exactly when it holds '\|': every kept line holds '\|' and is one of the text's lines, and every line holding '\|' is kept |
| TableExtractor.PipeLinesAppend | ingestor/table_extractor.py:134 | the filter keeps order: the kept lines of two parts of a text are those of the first part, then those of the second |
| TableExtractor.CellGrid | ingestor/table_extractor.py:134-137 | one row per kept pipe line, in order, each the stripped split of that line |
| TableExtractor.PipeLinesEmpty | ingestor/table_extractor.py:134-136 | no line is kept exactly when no line holds '\|' |
| TableExtractor.SplitCells | ingestor/table_extractor.py:137 | a row has one cell per piece of its split on '\|', and each cell is that piece stripped |
| TableExtractor.TextWithoutPipeHasNoTable | ingestor/table_extractor.py:132-136 | the text heuristic finds a table exactly when the text holds a '\|' somewhere (both directions) |
| TableExtractor.TextTableShape | ingestor/table_extractor.py:137-145 | with a '\|' there is exactly one table over the padded pipe lines: uniform width, each line's stripped cells kept in order and padded with "", columns being row 0 exactly when all its cells are filled |
| TableExtractor.LeadingPipeMeansNoHeader | ingestor/table_extractor.py:137-143 | a first pipe line starting with '\|' has an empty first cell, so the table gets no column names |
| TableExtractor.LeadingPipeCell | ingestor/table_extractor.py:137 | a line starting with '\|' splits into an empty first cell |
| TableExtractor.StripGrid | ingestor/table_extractor.py:75 | the grid has the shape of the document table and each entry is its cell's text stripped |
| TableExtractor.DocxTableShape | ingestor/table_extractor.py:75-89 | a DOCX table with rows yields one table over a uniform grid of the widest row's width; a non-ragged table keeps its stripped cells; the header rule is the all-filled first row |
| TableExtractor.DocxSkipsEmptyTable | ingestor/table_extractor.py:76-77 | a table without rows contributes nothing wherever it stands |
| TableExtractor.FromDocx | ingestor/table_extractor.py:71-91 | the loop's frames are, in order, those of every table with rows (DocxTables) |
| TableExtractor.CellTexts | ingestor/table_extractor.py:102-104 | the grid has the table's shape and each entry is its cell's stripped text, "" for a cell without text frame |
| TableExtractor.PptxSkipsNonTable | ingestor/table_extractor.py:97-106 | a shape that is not a table, or a table without rows, adds no frame wherever it stands on the slide |
| TableExtractor.PptxWideRowDropsHeader | ingestor/table_extractor.py:107-112 | a table with a filled first row but a wider later row falls back to one headerless frame of all its rows |
| TableExtractor.SlideFrames | ingestor/table_extractor.py:97-113 | one slide's frames are those of its table shapes with rows, in shape order |
| TableExtractor.FromPptx | ingestor/table_extractor.py:93-115 | the frames are all slides' table frames, slide by slide (PptxTables) |
| TableExtractor.PdfFrame | ingestor/table_extractor.py:61-64 | a None-free first row becomes the column names with the rest as body; an empty table or a first row with None gives the whole grid headerless; only a refused header yields no frame, and a grid of one width is never refused |
| TableExtractor.PageTablesPrefix | ingestor/table_extractor.py:57-67 | a page yields the frames of its tables in order up to, not including, the first table pandas refuses; without a refusal, one frame per table |
| TableExtractor.PdfSkipsUnreadablePage | ingestor/table_extractor.py:57-67 | a page whose extract_tables raises is skipped: the pages around it yield their tables unchanged |
| TableExtractor.PdfPageOrder | ingestor/table_extractor.py:56-65 | tables come in page order: a document's tables are its first pages' tables, then the rest's |
| TableExtractor.PageFrames | ingestor/table_extractor.py:58-65 | the try block over one page collects exactly PageTables, stopping at the first refusal |
| TableExtractor.FromPdf | ingestor/table_extractor.py:53-69 | the loop over pages collects exactly PdfTables of the pages |
| ImageExtractor.Tag | ingestor/image_extractor.py:35 | a non-empty prefix names the files, otherwise the file's stem |
| ImageExtractor.PictureExt | ingestor/image_extractor.py:116 | the picture's extension is used when present, "png" otherwise; never empty |
| ImageExtractor.SavedPaths | ingestor/image_extractor.py:71-85 | the returned paths are out_dir / name for the saves before the first failing one, in order; a failing save ends the pass |
| ImageExtractor.AllSaved | ingestor/image_extractor.py:75-83 | when every save succeeds, every attempted file is returned, in order |
| ImageExtractor.FromPdf | ingestor/image_extractor.py:54-88 | no image when PyMuPDF cannot open the file; otherwise the images page by page, named {tag}_p{page}_{index}.png from 1, up to the first failing save |
| ImageExtractor.FromDocx | ingestor/image_extractor.py:90-107 | only relationships whose target contains "image" are saved, named by their position among all relationships, up to the first failing save |
| ImageExtractor.FromPptx | ingestor/image_extractor.py:109-121 | every picture shape of every slide is written, named {tag}_s{slide}_{shape}.{ext or png}, slide by slide and shape by shape |
| ImageExtractor.SlidePictureCount | ingestor/image_extractor.py:112-119 | a slide yields exactly one file per picture shape |
| ImageExtractor.CopyImageName | ingestor/image_extractor.py:123-126 | a copied image lands directly in out_dir, named tag plus the lower-cased suffix |
| ImageExtractor.Extract | ingestor/image_extractor.py:28-48 | unsupported extensions give no image; PDF, DOCX and PPTX go to their readers with the tag; every other supported file is copied once |
| ImageExtractor.PdfNameInjective | ingestor/image_extractor.py:77 | two PDF images get the same file name only when they have the same page and image numbers |
| ImageExtractor.DocxNameInjective | ingestor/image_extractor.py:100 | two DOCX relationships get the same file name only when they are at the same position |
| ImageExtractor.PptxNameInjective | ingestor/image_extractor.py:116 | two PPTX pictures get the same file name only when slide, shape and extension agree |
| ImageExtractor.PdfImageInOutDir | ingestor/image_extractor.py:77-78 | with a tag free of '/', a PDF image's path is directly inside out_dir and its name is the generated name |
| ImageExtractor.StemHasNoSlash | ingestor/image_extractor.py:35 | a path's stem never holds '/', so a tag taken from the stem is a plain file-name prefix |
| CommonIngestor.IndexFiles | ingestor/common_ingestor.py:22-24 | index.faiss and index.pkl are two different files directly inside the index directory |
| CommonIngestor.FromTexts | ingestor/common_ingestor.py:32 | the new store holds one document per text, in order, each with the metadata at the same position |
| CommonIngestor.FaissManager.constructor | ingestor/common_ingestor.py:15-20 | a new manager has nothing loaded and keeps the given disk state |
| CommonIngestor.FaissManager.SaveLocal | ingestor/common_ingestor.py:33 | saving writes both index files, which then hold the store, so the index exists |
| CommonIngestor.FaissManager.LoadOrCreate | ingestor/common_ingestor.py:26-34 | an existing index is loaded whatever the texts; without one, missing or empty texts raise and change nothing, so do texts whose metadata list (`metadatas or []`) has another length; other texts build the store and save it; the loaded store always equals what is on disk |
| CommonIngestor.FaissManager.AddDocuments | ingestor/common_ingestor.py:36-43 | refused, with nothing changed, before a store is loaded; otherwise returns len(docs) (0 for None or empty), appends the documents in order, and saves only when something was added |
| CommonIngestor.AddTwice | ingestor/common_ingestor.py:36-43 | adding the same documents twice reports len(docs) both times and stores them twice |
| CommonIngestor.SessionId | ingestor/common_ingestor.py:51 | the given id when non-empty, otherwise "session"; never empty |
| CommonIngestor.NewChatIngestor | ingestor/common_ingestor.py:47-51 | given bases are the parsed paths, and left-out ones are the relative paths data and faiss_index; use_session_dirs defaults to True; the session id is SessionId of the given one |
| CommonIngestor.DefaultIndexDir | ingestor/common_ingestor.py:47-61 | with every argument left out, the index directory is faiss_index/session |
| CommonIngestor.BuildRetriever | ingestor/common_ingestor.py:56-63 | the loaded configuration decides the embeddings; the call fails exactly when they cannot be loaded, with that error and the disk unchanged; otherwise a similarity retriever with the given k (5 when left out) over faiss_base / session_id; an index on disk is loaded and the disk kept, and without one a single "placeholder" document is stored and both index files are written |
| CommonIngestor.BuildRetrieverTwice | ingestor/common_ingestor.py:56-63 | a second build for the same session finds the index the first one left and serves the same store, the placeholder when there was no index before |
| CommonIngestor.SessionIndexDir | ingestor/common_ingestor.py:61 | a session id free of '/' gives the index its own sub-directory of faiss_base, named after the session |
| CommonIngestor.NewDocHandler | ingestor/common_ingestor.py:76-79 | the session path is Path(data_dir or cwd/data/document_analysis) / session id |
| CommonIngestor.OsJoinStr | ingestor/common_ingestor.py:77 | os.path.join of an absolute directory's text and a plain component is the text of the longer path |
| CommonIngestor.DefaultSessionPath | ingestor/common_ingestor.py:77-79 | without data_dir the session directory is <cwd>/data/document_analysis/<session id> |
| CommonIngestor.SavePdf | ingestor/common_ingestor.py:86-95 | refused exactly when the upload's base name does not end in ".pdf" in any letter case; otherwise the file goes to session_path / name |
| CommonIngestor.SavedPdfInSession | ingestor/common_ingestor.py:86-95 | an accepted upload is stored directly inside the session directory under its base name, whatever directories its name held |
| CommonIngestor.DefaultUploadName | ingestor/common_ingestor.py:86 | an upload without a name is saved as uploaded.pdf |
| CommonIngestor.FileNameChecked | ingestor/common_ingestor.py:86-88 | a plain file name is kept as it is and accepted exactly when it ends in ".pdf" ignoring case |
| CommonIngestor.PageBlocks | ingestor/common_ingestor.py:102 | one block per page |
| CommonIngestor.ReadPdf | ingestor/common_ingestor.py:97-103 | the text is the page blocks, pages numbered from 1, joined with "\n" |
| CommonIngestor.ReadPdfHasPages | ingestor/common_ingestor.py:100-103 | every page's text stands in the result right after its "--- Page n ---" header, and each block starts one "\n" after the previous one ends, so pages appear in order |
| ModelLoader.Section | utils/model_loader.py:36 | a missing section reads as {}; a present section is usable exactly when it is a dictionary |
| ModelLoader.ProviderName | utils/model_loader.py:37 | a missing or falsy provider reads as ""; a string provider is lower-cased; any other truthy value has no .lower() |
| ModelLoader.LoadEmbeddings | utils/model_loader.py:32-53 | the provider is read first, then a falsy model name is refused whatever the provider; huggingface, hf and local give HuggingFace, google gives Google when importable and ImportError otherwise, any other provider a ValueError |
| ModelLoader.LoadLlm | utils/model_loader.py:56-67 | a falsy model name is refused; otherwise Groq with the section's temperature and max_output_tokens, defaulting to 0 and 2048 |
| ModelLoader.ProviderIgnoresCase | utils/model_loader.py:37-53 | providers equal up to letter case choose the same model or error |
| ModelLoader.UpperCaseProvider | utils/model_loader.py:37-44 | "HuggingFace" selects HuggingFace embeddings |
| ModelLoader.ModelNameCheckedFirst | utils/model_loader.py:38-41 | without a model name the result is the missing-name error, whatever string provider is configured |
| ModelLoader.UnknownProviderRaisesValueError | utils/model_loader.py:53 | the configuration with provider "??" raises a ValueError naming that provider |
| ModelLoader.LlmIgnoresProvider | utils/model_loader.py:58-67 | the chat model does not depend on the section's provider entry |
| ModelLoader.LlmDefaults | utils/model_loader.py:63-64 | a section holding only a model name gets temperature 0 and 2048 tokens |
| Strings.Strip | ingestor/table_extractor.py:75 | str.strip(): the result neither starts nor ends with whitespace and is the slice of the input between its leading and trailing whitespace |
| Strings.SplitJoin | ingestor/table_extractor.py:137 | splitting the join of pieces free of the separator gives the pieces back |
| Strings.JoinSplit | ingestor/table_extractor.py:137 | joining the pieces of a split with the separator gives the text back |
| Strings.SplitLinesHaveNoBreaks | ingestor/table_extractor.py:132 | no line of splitlines() holds a line-boundary character |
| Strings.SplitLinesKeepChar | ingestor/table_extractor.py:132 | a character that is not a line boundary is in the text exactly when it is in one of its lines |
| Strings.NatToString | ingestor/image_extractor.py:77 | an f-string number is at least one digit and nothing else, with no leading zero |
| Strings.NatToStringRoundTrip | ingestor/image_extractor.py:77 | the decimal text of a number reads back as that number: int(str(n)) == n |
| Strings.NatToStringInjective | ingestor/image_extractor.py:77 | different numbers get different decimal texts |
| Strings.JoinHasParts | ingestor/common_ingestor.py:103 | each part stands in the joined text at its offset, followed by the separator unless it is last |
| Paths.Parse | ingestor/table_extractor.py:27 | Path(s) keeps only real components and is absolute exactly when s starts with '/' |
| Paths.ParseStr | ingestor/common_ingestor.py:95 | parsing the text of a path gives the same path back |
| Paths.NameOfDiv | ingestor/common_ingestor.py:89 | joining a plain file name to a directory appends it as the last component, which is then the name |
| Paths.Suffix | ingestor/table_extractor.py:28 | a suffix is empty or a '.' followed by at least one character and no further '.', and the name ends with it; it is non-empty exactly when the name does not end in '.' and has a '.' after its first character |
| Paths.SuffixOfExtension | ingestor/table_extractor.py:28 | a non-empty stem followed by an extension that starts with its only '.' has that extension as its suffix |
| Paths.StemAndSuffix | ingestor/image_extractor.py:35 | stem followed by suffix is the name, and a non-empty suffix leaves a non-empty stem |

## Left out

- The parsing and imaging libraries are left out: pdfplumber, PyMuPDF, python-docx,
  python-pptx, Pillow and pandas' CSV and Excel readers. What they return is an input of the
  model. The input types are `TableSources` and `ImageSources`: pages, tables as cells,
  relationships, slides, and whether each save succeeds.
- TableExtractor.FromTextLike takes the decoded text as input. Reading the file with
  `read_text(encoding="utf-8", errors="ignore")`, and dropping the bytes that do not decode,
  happen outside the model.
- `_from_xlsx` and the `.csv` reader are not modelled beyond dispatch. Their sheets and frame
  are inputs of `Extract`, because they only call pandas.
- TableExtractor.HeaderGuess does not model how `pd.DataFrame` validates its input. The model
  assumes construction fails exactly when column names are given, the body has rows, and its
  widest row has another width than the names (`ConstructionFails`). The None cells pandas uses
  to pad short rows are not modelled: a frame holds the rows as they were given.
- TableExtractor.Extract does not model the wrapping of every exception into
  `DocumentPortalException`, nor the file-open failures of the readers.
- The pdfplumber image pass in `_from_pdf` is left out, because it saves nothing and changes
  nothing.
- ImageExtractor.FromPdf does not tell a failing `get_images` apart from a failing save. Both
  end the pass, and the input marks only the save.
- ImageExtractor.Extract does not model the failures that `extract` wraps into
  `DocumentPortalException`: `DocxDocument(...)` or `Presentation(...)` failing to open the file,
  which happens outside any inner try, and a failing copy. The model returns the paths only.
- ImageExtractor.FromPptx does not model a failing write. Such a write raises out of `extract`
  instead of being caught.
- ImageExtractor's readers take the output directory as a parsed path. The `out_dir`
  default "data/extracted_images" of `ImageExtractor.__init__` and the directory it creates are
  not modelled.
- ImageExtractor.CopyImageName does not model the copy itself (`shutil.copy2`).
- The `media_dir` cache directory of `_from_docx` is left out, because it is created and never
  used.
- Directory creation (`mkdir`) and file writes are left out. So are the bytes written by
  `save_pdf` and the PDF parsing of `read_pdf`: page texts are an input.
- The embeddings and the FAISS vector arithmetic are left out. A store is modelled by the
  documents it holds, and a retriever by its directory, store, search type and k.
- CommonIngestor.FromTexts does not model the ids LangChain assigns to documents.
- CommonIngestor.FaissManager.LoadOrCreate assumes that langchain_community's `FAISS.from_texts`
  raises ValueError when a metadata list's length differs from the number of texts. LangChain's
  code is not part of this model; `MetadataMismatch` stands for that error.
- CommonIngestor.FaissManager.constructor takes the embeddings already loaded. It does not model
  the `model_loader or ModelLoader()` default, nor a `load_embeddings()` that raises inside
  `__init__`.
- CommonIngestor.BuildRetriever calls `load_embeddings` once. The code calls it twice, once
  itself and once inside `FaissManager`, and the second call gives the same answer for the same
  configuration.
- The `ingested_meta.json` manifest and the `temp_dir`/`faiss_dir` attributes are left out,
  because the code does not have them.
- `load_dotenv`, the YAML file read by `load_config`, the loggers and the exception module are
  left out. The loaded configuration is a parameter of `EffectiveConfig` and `BuildRetriever`.
- Strings.Lower models `str.lower()` on ASCII letters only. Other characters are kept as they
  are.
- Paths.Parse does not give a leading "//" its special POSIX meaning. pathlib keeps the two
  slashes; the model treats them as one root.
