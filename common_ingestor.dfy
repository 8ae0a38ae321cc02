/**
  The ingestion helpers: the FAISS index manager (whether an index is on disk, loading or creating
  the store, adding documents), the chat ingestor's session directory and retriever, and the PDF
  handler's session path, file-name check and page-text formatting. The vector store is modelled
  by the documents it holds; the disk by the set of files present and what the last save wrote.
 */
module CommonIngestor {
  import opened Wrappers
  import opened Strings
  import opened Paths
  import opened Seqs
  import ModelLoader

  /** A LangChain Document: its text and metadata. */
  datatype Doc = Doc(content: string, metadata: map<string, string>)

  /** The errors the index manager raises. */
  datatype IndexError =
    | NoIndexNoData  // ValueError: no index on disk and no texts to build one
    | NotLoaded      // RuntimeError: add_documents before load_or_create
    | MetadataMismatch  // ValueError from FAISS.from_texts: not one metadata dict per text

  /** index_dir / "index.faiss" */
  function FaissFile(dir: PurePath): PurePath
  {
    Div(dir, "index.faiss")
  }

  /** index_dir / "index.pkl" */
  function PklFile(dir: PurePath): PurePath
  {
    Div(dir, "index.pkl")
  }

  /** The two index files are different files directly inside the index directory. */
  lemma IndexFiles(dir: PurePath)
    ensures FaissFile(dir) == PurePath(dir.absolute, dir.parts + ["index.faiss"])
    ensures PklFile(dir) == PurePath(dir.absolute, dir.parts + ["index.pkl"])
    ensures FaissFile(dir) != PklFile(dir)
  {
    NameOfDiv(dir, "index.faiss");
    NameOfDiv(dir, "index.pkl");
  }

  /** metadatas or []: what load_or_create hands to FAISS.from_texts. */
  function MetadataList(metadatas: Option<seq<map<string, string>>>): seq<map<string, string>>
  {
    if metadatas.Some? then metadatas.value else []
  }

  /**
    FAISS.from_texts(texts, metadatas=...) once the lengths agree (it raises otherwise): one
    document per text, in order, each with the metadata at the same position.
   */
  function FromTexts(texts: seq<string>, metadatas: seq<map<string, string>>): (docs: seq<Doc>)
    requires |metadatas| == |texts|
    ensures |docs| == |texts|
    ensures forall k :: 0 <= k < |texts| ==> docs[k] == Doc(texts[k], metadatas[k])
  {
    if texts == [] then [] else [Doc(texts[0], metadatas[0])] + FromTexts(texts[1..], metadatas[1..])
  }

  /** The FAISS index manager of one index directory (the class defined when the self-import fails). */
  class FaissManager {
    const indexDir: PurePath
    const emb: ModelLoader.Embeddings
    /** The files present on disk. */
    var files: set<PurePath>
    /** The documents the index files on disk hold, as the last save_local wrote them. */
    var persisted: seq<Doc>
    /** The loaded vector store: None until load_or_create succeeds. */
    var vs: Option<seq<Doc>>

    /** _exists(): both index.faiss and index.pkl are present in the index directory. */
    predicate Exists()
      reads this
    {
      FaissFile(indexDir) in files && PklFile(indexDir) in files
    }

    /** A loaded store is always the one on disk: every change to it is saved. */
    predicate Valid()
      reads this
    {
      vs.Some? ==> Exists() && persisted == vs.value
    }

    /** __init__ with the embeddings already loaded: nothing is loaded yet. */
    constructor(indexDir: PurePath, emb: ModelLoader.Embeddings, files: set<PurePath>, persisted: seq<Doc>)
      ensures this.indexDir == indexDir && this.emb == emb
      ensures this.files == files && this.persisted == persisted && vs.None?
      ensures Valid()
    {
      this.indexDir := indexDir;
      this.emb := emb;
      this.files := files;
      this.persisted := persisted;
      this.vs := None;
    }

    /** save_local(index_dir): both index files are written and hold the store. */
    method SaveLocal(store: seq<Doc>)
      modifies this
      ensures files == old(files) + {FaissFile(indexDir), PklFile(indexDir)}
      ensures persisted == store && vs == old(vs)
      ensures Exists()
    {
      files := files + {FaissFile(indexDir), PklFile(indexDir)};
      persisted := store;
    }

    /**
      load_or_create(texts, metadatas): an index on disk is loaded whatever the texts are; without
      one, missing or empty texts raise and change nothing, so do texts that do not have one
      metadata dict each (metadatas or [] is checked against them), and other texts build a new
      store that is saved, so the index then exists.
     */
    method LoadOrCreate(texts: Option<seq<string>>, metadatas: Option<seq<map<string, string>>>) returns (r: Result<seq<Doc>, IndexError>)
      requires Valid()
      modifies this
      ensures Valid()
      ensures old(Exists()) ==>
        r == Ok(old(persisted)) && vs == Some(old(persisted)) && files == old(files) && persisted == old(persisted)
      ensures !old(Exists()) && (texts.None? || texts.value == []) ==>
        r == Err(NoIndexNoData) && vs == old(vs) && files == old(files) && persisted == old(persisted)
      ensures !old(Exists()) && texts.Some? && texts.value != [] && |MetadataList(metadatas)| != |texts.value| ==>
        r == Err(MetadataMismatch) && vs == old(vs) && files == old(files) && persisted == old(persisted)
      ensures !old(Exists()) && texts.Some? && texts.value != [] && |MetadataList(metadatas)| == |texts.value| ==>
        var store := FromTexts(texts.value, MetadataList(metadatas));
        r == Ok(store) && vs == Some(store) && persisted == store
        && files == old(files) + {FaissFile(indexDir), PklFile(indexDir)} && Exists()
    {
      if Exists() {
        vs := Some(persisted);
        return Ok(persisted);
      }
      if texts.None? || texts.value == [] {
        return Err(NoIndexNoData);
      }
      var mds := MetadataList(metadatas);
      if |mds| != |texts.value| {
        return Err(MetadataMismatch);
      }
      var store := FromTexts(texts.value, mds);
      vs := Some(store);
      SaveLocal(store);
      r := Ok(store);
    }

    /**
      add_documents(docs): refused before a store is loaded, with nothing changed; otherwise the
      count is len(docs) (0 for None or []), the documents are appended in order, and the store is
      saved only when the count is not zero. Documents already in the store are added again.
     */
    method AddDocuments(docs: Option<seq<Doc>>) returns (r: Result<nat, IndexError>)
      requires Valid()
      modifies this
      ensures Valid()
      ensures old(vs).None? ==> r == Err(NotLoaded) && vs == old(vs) && files == old(files) && persisted == old(persisted)
      ensures old(vs).Some? ==>
        var added := if docs.Some? then docs.value else [];
        && r == Ok(|added|)
        && vs == Some(old(vs).value + added)
        && (|added| > 0 ==> files == old(files) + {FaissFile(indexDir), PklFile(indexDir)})
        && (|added| == 0 ==> files == old(files) && persisted == old(persisted))
    {
      if vs.None? {
        return Err(NotLoaded);
      }
      var added := if docs.Some? && docs.value != [] then |docs.value| else 0;
      if added > 0 {
        vs := Some(vs.value + docs.value);
        SaveLocal(vs.value);
      } else {
        assert vs.value + [] == vs.value;
      }
      r := Ok(added);
    }
  }

  /**
    Adding the same documents twice: both calls report len(docs) and the store holds them twice.
    The code keeps no record of what was ingested, so the second call is not reported as 0.
   */
  method AddTwice(fm: FaissManager, docs: seq<Doc>) returns (n1: Result<nat, IndexError>, n2: Result<nat, IndexError>)
    requires fm.Valid() && fm.vs.Some?
    modifies fm
    ensures n1 == Ok(|docs|) && n2 == Ok(|docs|)
    ensures fm.vs == Some(old(fm.vs.value) + docs + docs)
    ensures fm.Valid()
  {
    n1 := fm.AddDocuments(Some(docs));
    n2 := fm.AddDocuments(Some(docs));
  }

  // ---------- ChatIngestor ----------

  /** session_id or "session" */
  function SessionId(given: Option<string>): (id: string)
    ensures id != ""
    ensures given.Some? && given.value != "" ==> id == given.value
    ensures given.None? || given.value == "" ==> id == "session"
  {
    if given.Some? && given.value != "" then given.value else "session"
  }

  datatype ChatIngestor = ChatIngestor(tempBase: PurePath, faissBase: PurePath, useSession: bool, sessionId: string)

  /**
    ChatIngestor.__init__, each argument None when the caller leaves it out: temp_base defaults to
    "data", faiss_base to "faiss_index" and use_session_dirs to True (the directories it creates
    are not modelled).
   */
  function NewChatIngestor(tempBase: Option<string>, faissBase: Option<string>, useSessionDirs: Option<bool>,
                           sessionId: Option<string>): (ci: ChatIngestor)
    ensures tempBase.Some? ==> ci.tempBase == Parse(tempBase.value)
    ensures tempBase.None? ==> ci.tempBase == PurePath(false, ["data"])
    ensures faissBase.Some? ==> ci.faissBase == Parse(faissBase.value)
    ensures faissBase.None? ==> ci.faissBase == PurePath(false, ["faiss_index"])
    ensures ci.useSession == (useSessionDirs.None? || useSessionDirs.value)
    ensures ci.sessionId == SessionId(sessionId)
  {
    DefaultBases();
    ChatIngestor(Parse(if tempBase.Some? then tempBase.value else "data"),
                 Parse(if faissBase.Some? then faissBase.value else "faiss_index"),
                 if useSessionDirs.Some? then useSessionDirs.value else true,
                 SessionId(sessionId))
  }

  /** Path("data") and Path("faiss_index") are relative paths of one component each. */
  lemma DefaultBases()
    ensures Parse("data") == PurePath(false, ["data"])
    ensures Parse("faiss_index") == PurePath(false, ["faiss_index"])
  {
    assert forall k :: 0 <= k < 4 ==> "data"[k] != '/';
    assert forall k :: 0 <= k < 11 ==> "faiss_index"[k] != '/';
    ParseComponent("data");
    ParseComponent("faiss_index");
  }

  /** vs.as_retriever(search_type="similarity", search_kwargs={"k": k}) over the store of index_dir. */
  datatype Retriever = Retriever(indexDir: PurePath, store: seq<Doc>, searchType: string, k: int)

  datatype RetrieverError = EmbeddingsFailed(cause: ModelLoader.LoaderError)

  /** The store build_retriever seeds a new index with: one "placeholder" text with metadata {}. */
  const Placeholder: seq<Doc> := [Doc("placeholder", map[])]

  /**
    build_retriever: ModelLoader() is built without a configuration, so the configuration loaded
    from file decides the embeddings (and their error, if any, is raised before the disk is
    touched); the index directory is faiss_base / session_id; an index found there is loaded and
    the disk is left as it was, and otherwise a store seeded with the placeholder text is created
    and saved there, so the empty-data error never arises. The disk after the call is returned as
    files' and persisted'. k is None when the caller leaves it out, and then 5. uploaded_files
    and use_session_dirs are not read by the code.
   */
  method BuildRetriever(ci: ChatIngestor, loaded: map<string, ModelLoader.Value>, googleAvailable: bool,
                        files: set<PurePath>, persisted: seq<Doc>, k: Option<int>)
    returns (r: Result<Retriever, RetrieverError>, files': set<PurePath>, persisted': seq<Doc>)
    ensures ModelLoader.LoadEmbeddings(loaded, googleAvailable).Err? ==>
      r == Err(EmbeddingsFailed(ModelLoader.LoadEmbeddings(loaded, googleAvailable).error))
      && files' == files && persisted' == persisted
    ensures ModelLoader.LoadEmbeddings(loaded, googleAvailable).Ok? ==> r.Ok?
    ensures r.Ok? ==> var dir := Div(ci.faissBase, ci.sessionId);
      && r.value.indexDir == dir && r.value.k == (if k.Some? then k.value else 5) && r.value.searchType == "similarity"
      && FaissFile(dir) in files' && PklFile(dir) in files' && persisted' == r.value.store
      && (FaissFile(dir) in files && PklFile(dir) in files ==>
            r.value.store == persisted && files' == files && persisted' == persisted)
      && (!(FaissFile(dir) in files && PklFile(dir) in files) ==>
            r.value.store == Placeholder && files' == files + {FaissFile(dir), PklFile(dir)})
  {
    var config := ModelLoader.EffectiveConfig(None, loaded);
    var emb := ModelLoader.LoadEmbeddings(config, googleAvailable);
    if emb.Err? {
      return Err(EmbeddingsFailed(emb.error)), files, persisted;
    }
    var dir := Div(ci.faissBase, ci.sessionId);
    var fm := new FaissManager(dir, emb.value, files, persisted);
    var vs := fm.LoadOrCreate(Some(["placeholder"]), Some([map[]]));
    assert vs.Ok?;
    r := Ok(Retriever(dir, vs.value, "similarity", if k.Some? then k.value else 5));
    files', persisted' := fm.files, fm.persisted;
  }

  /**
    A second build_retriever for the same session finds the index the first one saved: it loads
    the same store and writes nothing.
   */
  method BuildRetrieverTwice(ci: ChatIngestor, loaded: map<string, ModelLoader.Value>, googleAvailable: bool,
                             files: set<PurePath>, persisted: seq<Doc>, k: Option<int>)
    returns (r1: Result<Retriever, RetrieverError>, r2: Result<Retriever, RetrieverError>)
    requires ModelLoader.LoadEmbeddings(loaded, googleAvailable).Ok?
    ensures r1.Ok? && r2.Ok? && r2.value.store == r1.value.store
    ensures !(FaissFile(Div(ci.faissBase, ci.sessionId)) in files && PklFile(Div(ci.faissBase, ci.sessionId)) in files) ==>
      r2.value.store == Placeholder
  {
    var f1, p1, f2, p2;
    r1, f1, p1 := BuildRetriever(ci, loaded, googleAvailable, files, persisted, k);
    r2, f2, p2 := BuildRetriever(ci, loaded, googleAvailable, f1, p1, k);
  }

  /** With a session id free of '/', the index lives in its own sub-directory of faiss_base, named after the session. */
  lemma SessionIndexDir(faissBase: string, sessionId: Option<string>)
    requires IsComponent(SessionId(sessionId))
    ensures var ci := NewChatIngestor(None, Some(faissBase), None, sessionId);
      && Div(ci.faissBase, ci.sessionId) == PurePath(ci.faissBase.absolute, ci.faissBase.parts + [SessionId(sessionId)])
      && Name(Div(ci.faissBase, ci.sessionId)) == SessionId(sessionId)
  {
    NameOfDiv(Parse(faissBase), SessionId(sessionId));
  }

  /** With every argument left out, build_retriever's index directory is faiss_index/session. */
  lemma DefaultIndexDir()
    ensures var ci := NewChatIngestor(None, None, None, None);
      Div(ci.faissBase, ci.sessionId) == PurePath(false, ["faiss_index", "session"])
  {
    assert forall k :: 0 <= k < 7 ==> "session"[k] != '/';
    NameOfDiv(PurePath(false, ["faiss_index"]), "session");
  }

  // ---------- DocHandler ----------

  /** os.path.join(a, b) on POSIX: an absolute b replaces a, otherwise a separator is added unless a is empty or ends with one. */
  function OsJoin(a: string, b: string): string
  {
    if |b| > 0 && b[0] == '/' then b
    else if a == "" || a[|a| - 1] == '/' then a + b
    else a + "/" + b
  }

  datatype DocHandler = DocHandler(sessionId: string, sessionPath: PurePath)

  /** DocHandler.__init__: data_dir or <cwd>/data/document_analysis, then the session's directory below it. */
  function NewDocHandler(dataDir: Option<string>, sessionId: Option<string>, cwd: string): (h: DocHandler)
    ensures h.sessionId == SessionId(sessionId)
    ensures dataDir.Some? && dataDir.value != "" ==> h.sessionPath == Div(Parse(dataDir.value), h.sessionId)
    ensures dataDir.None? || dataDir.value == "" ==>
      h.sessionPath == Div(Parse(OsJoin(OsJoin(cwd, "data"), "document_analysis")), h.sessionId)
  {
    var base := if dataDir.Some? && dataDir.value != "" then dataDir.value else OsJoin(OsJoin(cwd, "data"), "document_analysis");
    DocHandler(SessionId(sessionId), Div(Parse(base), SessionId(sessionId)))
  }

  /** Joining a relative component onto the text of an absolute path is the text of the longer path. */
  lemma OsJoinStr(p: PurePath, x: string)
    requires p.absolute && IsNormal(p) && IsComponent(x)
    ensures OsJoin(Str(p), x) == Str(PurePath(true, p.parts + [x]))
  {
    assert x[0] in x;
    if p.parts == [] {
      assert Str(p) == "/";
      assert p.parts + [x] == [x];
      assert Str(PurePath(true, [x])) == "/" + x;
    } else {
      var j := JoinWith("/", p.parts);
      var last := p.parts[|p.parts| - 1];
      assert IsComponent(last);
      assert last[|last| - 1] in last;
      JoinEndsWithLast(p.parts);
      assert j[|j| - 1] == last[|last| - 1];
      assert Str(p) == "/" + j;
      assert Str(p)[|Str(p)| - 1] == j[|j| - 1];
      JoinSnoc("/", p.parts, x);
      AppendAssoc("/", j + "/", x);
      AppendAssoc("/", j, "/");
    }
  }

  /** The joined text ends with the last part. */
  lemma {:induction false} JoinEndsWithLast(parts: seq<string>)
    requires |parts| >= 1
    ensures EndsWith(JoinWith("/", parts), parts[|parts| - 1])
  {
    if |parts| > 1 {
      JoinEndsWithLast(parts[1..]);
      assert parts[1..][|parts| - 2] == parts[|parts| - 1];
    }
  }

  /**
    Without a data directory, and with the working directory an absolute path as os.getcwd()
    returns it, the session directory is <cwd>/data/document_analysis/<session id>.
   */
  lemma DefaultSessionPath(cwd: PurePath, sessionId: Option<string>)
    requires cwd.absolute && IsNormal(cwd) && IsComponent(SessionId(sessionId))
    ensures NewDocHandler(None, sessionId, Str(cwd)).sessionPath
      == PurePath(true, cwd.parts + ["data", "document_analysis", SessionId(sessionId)])
  {
    var p1 := PurePath(true, cwd.parts + ["data"]);
    var p2 := PurePath(true, cwd.parts + ["data", "document_analysis"]);
    OsJoinStr(cwd, "data");
    OsJoinStr(p1, "document_analysis");
    assert p1.parts + ["document_analysis"] == p2.parts;
    ParseStr(p2);
    NameOfDiv(p2, SessionId(sessionId));
    assert p2.parts + [SessionId(sessionId)] == cwd.parts + ["data", "document_analysis", SessionId(sessionId)];
  }

  datatype PdfError = InvalidFileType  // ValueError: only PDFs are allowed

  /** Path(getattr(uploaded_file, "name", "uploaded.pdf")).name */
  function UploadName(name: Option<string>): string
  {
    Name(Parse(if name.Some? then name.value else "uploaded.pdf"))
  }

  /**
    save_pdf: the upload's base name (default "uploaded.pdf") is accepted only when it ends in
    ".pdf" in any letter case, and the file goes to session_path / name. Writing the bytes is not modelled.
   */
  function SavePdf(h: DocHandler, name: Option<string>): (r: Result<string, PdfError>)
    ensures r.Err? <==> !EndsWith(Lower(UploadName(name)), ".pdf")
    ensures r.Ok? ==> r.value == Str(Div(h.sessionPath, UploadName(name)))
  {
    var filename := UploadName(name);
    if !EndsWith(Lower(filename), ".pdf") then Err(InvalidFileType)
    else Ok(Str(Div(h.sessionPath, filename)))
  }

  /** An accepted upload is stored directly in the session directory, under its base name, whatever directories its name held. */
  lemma SavedPdfInSession(h: DocHandler, name: Option<string>)
    requires IsNormal(h.sessionPath)
    requires SavePdf(h, name).Ok?
    ensures Parse(SavePdf(h, name).value) == PurePath(h.sessionPath.absolute, h.sessionPath.parts + [UploadName(name)])
    ensures Name(Parse(SavePdf(h, name).value)) == UploadName(name)
  {
    var filename := UploadName(name);
    var p := Parse(if name.Some? then name.value else "uploaded.pdf");
    assert filename != "";
    assert IsComponent(filename) by {
      assert p.parts != [];
      assert IsComponent(p.parts[|p.parts| - 1]);
    }
    NameOfDiv(h.sessionPath, filename);
    ParseStr(Div(h.sessionPath, filename));
  }

  /** An upload without a name is saved as uploaded.pdf. */
  lemma DefaultUploadName(h: DocHandler)
    ensures SavePdf(h, None) == Ok(Str(Div(h.sessionPath, "uploaded.pdf")))
  {
    var n := "uploaded.pdf";
    assert IsComponent(n) by {
      assert forall k :: 0 <= k < |n| ==> n[k] != '/';
    }
    assert EndsWith(Lower(n), ".pdf") by {
      var l := Lower(n);
      assert |l| == 12;
      assert l[8] == '.' && l[9] == 'p' && l[10] == 'd' && l[11] == 'f';
      assert l[8..] == ".pdf";
    }
    FileNameChecked(h, n);
  }

  /** A plain file name is kept as it is and accepted exactly when it ends in ".pdf", ".PDF", ".Pdf" and so on. */
  lemma FileNameChecked(h: DocHandler, x: string)
    requires IsComponent(x)
    ensures UploadName(Some(x)) == x
    ensures SavePdf(h, Some(x)).Ok? <==> EndsWith(Lower(x), ".pdf")
  {
    ParseComponent(x);
  }

  /** The header read_pdf puts before page n's text. */
  function PageHeader(n: nat): string
  {
    "\n--- Page " + NatToString(n) + " ---\n"
  }

  /** f"\n--- Page {n} ---\n{text}" */
  function PageBlock(n: nat, text: string): string
  {
    PageHeader(n) + text
  }

  /** The blocks of read_pdf, one per page, pages numbered from 1. */
  function PageBlocks(pages: seq<string>): (blocks: seq<string>)
    ensures |blocks| == |pages|
  {
    seq(|pages|, i requires 0 <= i < |pages| => PageBlock(i + 1, pages[i]))
  }

  /** read_pdf over the texts PyMuPDF returns for the pages: one block per page, in page order, joined with "\n". */
  method ReadPdf(pages: seq<string>) returns (text: string)
    ensures text == JoinWith("\n", PageBlocks(pages))
  {
    var chunks: seq<string> := [];
    for i := 0 to |pages|
      invariant chunks == PageBlocks(pages[..i])
    {
      assert PageBlocks(pages[..i + 1]) == PageBlocks(pages[..i]) + [PageBlock(i + 1, pages[i])];
      chunks := chunks + [PageBlock(i + 1, pages[i])];
    }
    assert pages[..|pages|] == pages;
    text := JoinWith("\n", chunks);
  }

  /**
    Each page's text stands in the result right after its "--- Page n ---" header, and each page's
    block starts one "\n" after the previous block ends, so pages appear in order.
   */
  lemma ReadPdfHasPages(pages: seq<string>, k: nat)
    requires k < |pages|
    ensures var blocks := PageBlocks(pages); var text := JoinWith("\n", blocks); var at := JoinOffset("\n", blocks, k);
      && OccursAt(text, PageHeader(k + 1) + pages[k], at)
      && OccursAt(text, pages[k], at + |PageHeader(k + 1)|)
      && (k + 1 < |pages| ==> JoinOffset("\n", blocks, k + 1) == at + |PageHeader(k + 1)| + |pages[k]| + 1)
  {
    var blocks := PageBlocks(pages);
    var text := JoinWith("\n", blocks);
    var at := JoinOffset("\n", blocks, k);
    var h := PageHeader(k + 1);
    assert blocks[k] == h + pages[k];
    JoinHasParts("\n", blocks, k);
    OccursInside(text, h, pages[k], at);
    if k + 1 < |pages| {
      JoinOffsetStep("\n", blocks, k);
    }
  }
}
