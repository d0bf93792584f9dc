/**
 * What the Word-compatible reconstructor adds to the shared builders: the
 * namespace declarations of its `document.xml` root, the content-types
 * dictionary it reads from the template, and the choice of archive parts it
 * writes (generated numbering and document, every other template entry
 * copied). Reading and writing the archives is not modelled: the template is
 * its list of (entry name, bytes) pairs, the output the list of parts written.
 */
module WordCompatibleReconstructor {
  import opened Wrappers
  import opened Paragraphs
  import opened Xml
  import opened Seqs
  import opened XmlReconstructor

  /** The five prefixes the Word-compatible document root declares, in order. */
  const WordNamespaces: seq<(string, string)> := [("w", WordMainNs), ("w14", W14Ns), ("w15", W15Ns), ("mc", McNs), ("r", RelNs)]

  /**
   * `create_document_xml` of the Word-compatible reconstructor: the shared
   * document tree with the five declarations w, w14, w15, mc and r.
   */
  method CreateWordDocumentXml(paragraphs: seq<ParagraphData>) returns (document: Element)
    ensures document.tag == "w:document"
    ensures document.attrs == [("xmlns:w", WordMainNs), ("xmlns:w14", W14Ns), ("xmlns:w15", W15Ns), ("xmlns:mc", McNs), ("xmlns:r", RelNs)]
    ensures |document.children| == 2 && document.children[0] == IgnorableElement
    ensures var body := document.children[1]; var kept := KeptIndices(paragraphs, NonBlank);
      body.tag == "w:body"
      && |body.children| == Count(paragraphs, NonBlank) == |kept|
      && forall k :: 0 <= k < |body.children| ==>
           kept[k] < |paragraphs| && body.children[k] == ParagraphElement(paragraphs[kept[k]])
  {
    document := CreateDocumentXml(WordNamespaces, paragraphs);
    var a := document.attrs;
    assert |a| == 5;
    assert a[0] == ("xmlns:" + "w", WordMainNs) && "xmlns:" + "w" == "xmlns:w";
    assert a[1] == ("xmlns:" + "w14", W14Ns) && "xmlns:" + "w14" == "xmlns:w14";
    assert a[2] == ("xmlns:" + "w15", W15Ns) && "xmlns:" + "w15" == "xmlns:w15";
    assert a[3] == ("xmlns:" + "mc", McNs) && "xmlns:" + "mc" == "xmlns:mc";
    assert a[4] == ("xmlns:" + "r", RelNs) && "xmlns:" + "r" == "xmlns:r";
  }

  // ---------------------------------------------------------------------
  // _parse_content_types
  // ---------------------------------------------------------------------

  /** A dictionary filled by `d[k] = v` for each pair in turn. */
  function DictOf<V>(pairs: seq<(string, V)>): map<string, V>
    decreases |pairs|
  {
    if pairs == [] then map[]
    else DictOf(pairs[..|pairs| - 1])[pairs[|pairs| - 1].0 := pairs[|pairs| - 1].1]
  }

  /** The dictionary holds, for each key, the value of the last pair with that key. */
  lemma {:induction false} DictOfIsLookupLast<V>(pairs: seq<(string, V)>, k: string)
    ensures k in DictOf(pairs) <==> LookupLast(pairs, k).Some?
    ensures k in DictOf(pairs) ==> DictOf(pairs)[k] == LookupLast(pairs, k).value
    decreases |pairs|
  {
    if pairs != [] {
      DictOfIsLookupLast(pairs[..|pairs| - 1], k);
    }
  }

  lemma DictOfSnoc<V>(pairs: seq<(string, V)>, extra: seq<(string, V)>)
    requires |extra| <= 1
    ensures DictOf(pairs + extra) == if extra == [] then DictOf(pairs) else DictOf(pairs)[extra[0].0 := extra[0].1]
  {
    if extra != [] {
      assert (pairs + extra)[..|pairs|] == pairs;
    } else {
      assert pairs + extra == pairs;
    }
  }

  /**
   * The dictionary entry one element contributes: its key attribute behind the
   * prefix, mapped to its `ContentType`, or nothing when either attribute is
   * missing or empty.
   */
  function KeyedEntry(e: Element, keyAttr: string, prefix: string): (r: seq<(string, string)>)
    ensures |r| <= 1
  {
    var key := Attr(e, keyAttr).GetOr("");
    var contentType := Attr(e, "ContentType").GetOr("");
    if key != "" && contentType != "" then [(prefix + key, contentType)] else []
  }

  /** The entries of a list of elements, in document order. */
  function KeyedEntries(es: seq<Element>, keyAttr: string, prefix: string): (r: seq<(string, string)>)
    ensures forall j :: 0 <= j < |r| ==>
      |r[j].0| > |prefix| && r[j].0[..|prefix|] == prefix && r[j].1 != ""
    decreases |es|
  {
    if es == [] then []
    else KeyedEntries(es[..|es| - 1], keyAttr, prefix) + KeyedEntry(es[|es| - 1], keyAttr, prefix)
  }

  lemma KeyedEntriesStep(es: seq<Element>, i: nat, keyAttr: string, prefix: string)
    requires i < |es|
    ensures KeyedEntries(es[..i + 1], keyAttr, prefix) == KeyedEntries(es[..i], keyAttr, prefix) + KeyedEntry(es[i], keyAttr, prefix)
  {
    assert es[..i + 1][..i] == es[..i];
  }

  /** The Default entries keyed "*." + Extension, then the Override entries keyed by PartName. */
  function ContentTypeEntries(root: Element): seq<(string, string)> {
    KeyedEntries(FindAll(root, "Default"), "Extension", "*.")
    + KeyedEntries(FindAll(root, "Override"), "PartName", "")
  }

  /**
   * `_parse_content_types` on a parsed tree: every Default element with a
   * non-empty Extension and ContentType adds "*." + Extension, then every
   * Override element with a non-empty PartName and ContentType adds its
   * PartName, each assignment overwriting an earlier one for the same key.
   */
  method ParseContentTypes(root: Element) returns (contentTypes: map<string, string>)
    ensures contentTypes == DictOf(ContentTypeEntries(root))
  {
    var defaults := FindAll(root, "Default");
    contentTypes := AddEntries(map[], [], defaults, "Extension", "*.");
    assert [] + KeyedEntries(defaults, "Extension", "*.") == KeyedEntries(defaults, "Extension", "*.");
    var overrides := FindAll(root, "Override");
    contentTypes := AddEntries(contentTypes, KeyedEntries(defaults, "Extension", "*."), overrides, "PartName", "");
  }

  /**
   * One loop of `_parse_content_types`: each element with a non-empty key
   * attribute and ContentType sets prefix + key to its ContentType.
   */
  method AddEntries(contentTypes: map<string, string>, ghost before: seq<(string, string)>, es: seq<Element>, keyAttr: string, prefix: string)
    returns (result: map<string, string>)
    requires contentTypes == DictOf(before)
    ensures result == DictOf(before + KeyedEntries(es, keyAttr, prefix))
  {
    result := contentTypes;
    assert before + KeyedEntries(es[..0], keyAttr, prefix) == before;
    for i := 0 to |es|
      invariant result == DictOf(before + KeyedEntries(es[..i], keyAttr, prefix))
    {
      var key := Attr(es[i], keyAttr).GetOr("");
      var contentType := Attr(es[i], "ContentType").GetOr("");
      ghost var done := before + KeyedEntries(es[..i], keyAttr, prefix);
      ghost var extra := KeyedEntry(es[i], keyAttr, prefix);
      KeyedEntriesStep(es, i, keyAttr, prefix);
      assert before + KeyedEntries(es[..i + 1], keyAttr, prefix) == done + extra;
      DictOfSnoc(done, extra);
      if key != "" && contentType != "" {
        result := result[prefix + key := contentType];
      }
    }
    assert es[..|es|] == es;
  }

  /**
   * A key is in the content-types dictionary exactly when some Default or
   * Override element contributes it, and its value is the one the last such
   * element gives; every key is "*." + a non-empty extension or a non-empty
   * part name, and no value is empty.
   */
  lemma ContentTypesMeaning(root: Element, k: string)
    ensures var entries := ContentTypeEntries(root);
      (k in DictOf(entries) <==> exists j :: 0 <= j < |entries| && entries[j].0 == k)
      && (k in DictOf(entries) ==> LookupLast(entries, k).Some? && DictOf(entries)[k] == LookupLast(entries, k).value && DictOf(entries)[k] != "")
  {
    var entries := ContentTypeEntries(root);
    DictOfIsLookupLast(entries, k);
    LookupLastFound(entries, k);
    if k in DictOf(entries) {
      LookupLastValue(entries, k);
    }
  }

  lemma {:induction false} LookupLastValue(pairs: seq<(string, string)>, k: string)
    requires LookupLast(pairs, k).Some?
    ensures exists j :: 0 <= j < |pairs| && pairs[j] == (k, LookupLast(pairs, k).value)
    decreases |pairs|
  {
    if pairs[|pairs| - 1].0 != k {
      var init := pairs[..|pairs| - 1];
      LookupLastValue(init, k);
      var j :| 0 <= j < |init| && init[j] == (k, LookupLast(init, k).value);
      assert pairs[j] == init[j];
    }
  }

  /**
   * Override elements are read after the Default ones, so an Override entry
   * that no later Override repeats decides its key.
   */
  lemma OverrideWins(root: Element, j: nat)
    requires var ov := KeyedEntries(FindAll(root, "Override"), "PartName", "");
      j < |ov| && forall i :: j < i < |ov| ==> ov[i].0 != ov[j].0
    ensures var ov := KeyedEntries(FindAll(root, "Override"), "PartName", "");
      ov[j].0 in DictOf(ContentTypeEntries(root)) && DictOf(ContentTypeEntries(root))[ov[j].0] == ov[j].1
  {
    var defs := KeyedEntries(FindAll(root, "Default"), "Extension", "*.");
    var ov := KeyedEntries(FindAll(root, "Override"), "PartName", "");
    SuffixEntryWins(defs, ov, j);
  }

  /** A pair of the second half whose key no later pair repeats decides that key. */
  lemma SuffixEntryWins(first: seq<(string, string)>, second: seq<(string, string)>, j: nat)
    requires j < |second| && forall i :: j < i < |second| ==> second[i].0 != second[j].0
    ensures second[j].0 in DictOf(first + second) && DictOf(first + second)[second[j].0] == second[j].1
  {
    var entries := first + second;
    var at := |first| + j;
    assert entries[at] == second[j];
    forall i | at < i < |entries| ensures entries[i].0 != entries[at].0 {
      assert entries[i] == second[i - |first|];
    }
    LookupLastAt(entries, at);
    DictOfIsLookupLast(entries, second[j].0);
  }

  // ---------------------------------------------------------------------
  // Template-part selection in create_word_document_xml
  // ---------------------------------------------------------------------

  type Bytes = seq<bv8>

  /** What an output archive entry holds. */
  datatype PartContent = Copied(bytes: Bytes) | GeneratedDocument(document: Element) | GeneratedNumbering(numbering: Element)

  const DocumentPart := "word/document.xml"
  const NumberingPart := "word/numbering.xml"

  /** Writing a file at this name opens a directory: the empty name or one ending in '/'. */
  predicate NamesDirectory(name: string) {
    name == "" || name[|name| - 1] == '/'
  }

  /** Directory d lies on the path of a file: the path goes on past d with a '/'. */
  predicate IsAncestor(d: string, path: string) {
    |d| < |path| && path[|d|] == '/' && path[..|d|] == d
  }

  /** The names of the first i template entries. */
  function NamesOf(entries: seq<(string, Bytes)>, i: nat): set<string>
    requires i <= |entries|
  {
    set k | 0 <= k < i :: entries[k].0
  }

  /** The files in the working directory once the first i entries are copied. */
  function WrittenUpTo(entries: seq<(string, Bytes)>, i: nat): set<string>
    requires i <= |entries|
  {
    NamesOf(entries, i) + {DocumentPart, NumberingPart}
  }

  /** The template entries that are copied rather than generated. */
  predicate Copies(name: string) {
    name != DocumentPart && name != NumberingPart
  }

  /**
   * The directories made before anything is written: `word`, `word/theme`
   * when the template has a theme, and `docProps` when it has document
   * properties.
   */
  function InitialDirs(templateFiles: set<string>): set<string> {
    {"word"}
      + (if "word/theme/theme1.xml" in templateFiles then {"word/theme"} else {})
      + (if "docProps/core.xml" in templateFiles || "docProps/app.xml" in templateFiles then {"docProps"} else {})
  }

  /** One file name is a directory on the path of another. */
  ghost predicate Clash(files: set<string>) {
    exists a, b :: a in files && b in files && IsAncestor(a, b)
  }

  /**
   * Packaging fails when a template entry names a directory, or when one
   * name written into the working directory is a directory on the path of
   * another: whichever is written first, making the directories for the
   * other or opening the other as a file then fails.
   */
  ghost predicate PackagingFails(entries: seq<(string, Bytes)>) {
    (exists k :: 0 <= k < |entries| && NamesDirectory(entries[k].0))
    || Clash(WrittenUpTo(entries, |entries|))
  }

  /** Some write among the first i copies has failed. */
  ghost predicate PrefixFails(entries: seq<(string, Bytes)>, i: nat)
    requires i <= |entries|
  {
    (exists k :: 0 <= k < i && NamesDirectory(entries[k].0))
    || (exists k :: 0 <= k < i && Copies(entries[k].0) && entries[k].0 in InitialDirs(NamesOf(entries, |entries|)))
    || Clash(WrittenUpTo(entries, i))
  }

  /** The two generated names are file names, in directory `word`, and neither lies on the path of the other. */
  lemma GeneratedAreFiles()
    ensures !NamesDirectory(DocumentPart) && !NamesDirectory(NumberingPart)
    ensures IsAncestor("word", DocumentPart)
    ensures !Clash({DocumentPart, NumberingPart})
  {
    assert DocumentPart[..4] == "word";
    assert NumberingPart[|DocumentPart|] == 'l';
  }

  /** The files after copying entry i. */
  lemma WrittenStep(entries: seq<(string, Bytes)>, i: nat)
    requires i < |entries|
    ensures WrittenUpTo(entries, i + 1) == WrittenUpTo(entries, i) + {entries[i].0}
    ensures !Copies(entries[i].0) ==> WrittenUpTo(entries, i + 1) == WrittenUpTo(entries, i)
  {
    assert NamesOf(entries, i + 1) == NamesOf(entries, i) + {entries[i].0};
  }

  /** A clash after adding one file either was there before or involves that file. */
  lemma ClashStep(before: set<string>, name: string)
    ensures Clash(before + {name}) <==>
      Clash(before)
      || (exists f :: f in before && IsAncestor(f, name))
      || (exists f :: f in before && IsAncestor(name, f))
  {
    var after := before + {name};
    if Clash(after) && !Clash(before) {
      var a, b :| a in after && b in after && IsAncestor(a, b);
      assert a == name || b == name;
    }
    if Clash(before) {
      var a, b :| a in before && b in before && IsAncestor(a, b);
      assert a in after && b in after;
    }
    if exists f :: f in before && IsAncestor(f, name) {
      var f :| f in before && IsAncestor(f, name);
      assert f in after && name in after;
    }
    if exists f :: f in before && IsAncestor(name, f) {
      var f :| f in before && IsAncestor(name, f);
      assert f in after && name in after;
    }
  }

  /** Copying entry i fails exactly on the clashes it adds to those of the earlier copies. */
  lemma PrefixStep(entries: seq<(string, Bytes)>, i: nat)
    requires i < |entries|
    ensures var name := entries[i].0; var before := WrittenUpTo(entries, i);
      PrefixFails(entries, i + 1) <==>
        PrefixFails(entries, i)
        || (Copies(name) &&
              (NamesDirectory(name) || name in InitialDirs(NamesOf(entries, |entries|))
               || (exists f :: f in before && IsAncestor(f, name))
               || (exists f :: f in before && IsAncestor(name, f))))
  {
    var name := entries[i].0;
    var dirs := InitialDirs(NamesOf(entries, |entries|));
    GeneratedAreFiles();
    WrittenStep(entries, i);
    ClashStep(WrittenUpTo(entries, i), name);
    assert (exists k :: 0 <= k < i + 1 && NamesDirectory(entries[k].0)) <==>
      (exists k :: 0 <= k < i && NamesDirectory(entries[k].0)) || NamesDirectory(name);
    assert (exists k :: 0 <= k < i + 1 && Copies(entries[k].0) && entries[k].0 in dirs) <==>
      (exists k :: 0 <= k < i && Copies(entries[k].0) && entries[k].0 in dirs) || (Copies(name) && name in dirs);
  }

  /** The files of a prefix are among the files of the whole packaging. */
  lemma WrittenGrows(entries: seq<(string, Bytes)>, i: nat)
    requires i <= |entries|
    ensures Clash(WrittenUpTo(entries, i)) ==> Clash(WrittenUpTo(entries, |entries|))
  {
    var all := WrittenUpTo(entries, |entries|);
    if Clash(WrittenUpTo(entries, i)) {
      var a, b :| a in WrittenUpTo(entries, i) && b in WrittenUpTo(entries, i) && IsAncestor(a, b);
      assert a in all && b in all;
    }
  }

  /** Every directory made up front lies on the path of a file that is written. */
  lemma InitialDirClash(entries: seq<(string, Bytes)>, d: string)
    requires d in InitialDirs(NamesOf(entries, |entries|)) && d in WrittenUpTo(entries, |entries|)
    ensures Clash(WrittenUpTo(entries, |entries|))
  {
    var names := NamesOf(entries, |entries|);
    var all := WrittenUpTo(entries, |entries|);
    if d == "word" {
      GeneratedAreFiles();
      assert DocumentPart in all;
    } else if d == "word/theme" {
      var t := "word/theme/theme1.xml";
      assert t[..10] == "word/theme";
      assert t in all && IsAncestor(d, t);
    } else {
      var t := if "docProps/core.xml" in names then "docProps/core.xml" else "docProps/app.xml";
      assert t[..8] == "docProps";
      assert t in all && IsAncestor(d, t);
    }
  }

  /** A failure among the first i copies is a failure of the whole packaging, and conversely at the end. */
  lemma PrefixFailsAll(entries: seq<(string, Bytes)>, i: nat)
    requires i <= |entries|
    ensures PrefixFails(entries, i) ==> PackagingFails(entries)
    ensures PackagingFails(entries) ==> PrefixFails(entries, |entries|)
  {
    WrittenGrows(entries, i);
    if exists k :: 0 <= k < i && NamesDirectory(entries[k].0) {
      var k :| 0 <= k < i && NamesDirectory(entries[k].0);
      assert k < |entries|;
    }
    if exists k :: 0 <= k < i && Copies(entries[k].0) && entries[k].0 in InitialDirs(NamesOf(entries, |entries|)) {
      var k :| 0 <= k < i && Copies(entries[k].0) && entries[k].0 in InitialDirs(NamesOf(entries, |entries|));
      assert entries[k].0 in NamesOf(entries, |entries|);
      InitialDirClash(entries, entries[k].0);
    }
  }

  /**
   * Packaging fails on a file named like a directory made up front, on a
   * file beside another inside a directory of its name, and on the empty
   * name.
   */
  lemma PackagingFailsExamples()
    ensures PackagingFails([("word", [])])
    ensures PackagingFails([("a", []), ("a/b", [])])
    ensures PackagingFails([("", [])])
  {
    GeneratedAreFiles();
    var one: seq<(string, Bytes)> := [("word", [])];
    NothingFailsAtStart(one);
    WrittenStep(one, 0);
    assert "word" in WrittenUpTo(one, 1) && DocumentPart in WrittenUpTo(one, 1);
    var two: seq<(string, Bytes)> := [("a", []), ("a/b", [])];
    NothingFailsAtStart(two);
    WrittenStep(two, 0);
    WrittenStep(two, 1);
    assert "a" in WrittenUpTo(two, 2) && "a/b" in WrittenUpTo(two, 2) && IsAncestor("a", "a/b");
    var empty: seq<(string, Bytes)> := [("", [])];
    assert NamesDirectory(empty[0].0);
  }

  /** A template with one ordinary part beside the generated ones packages. */
  lemma OrdinaryTemplatePackages()
    ensures !PackagingFails([("word/styles.xml", [])])
  {
    GeneratedAreFiles();
    var ok: seq<(string, Bytes)> := [("word/styles.xml", [])];
    NothingFailsAtStart(ok);
    WrittenStep(ok, 0);
    var files := WrittenUpTo(ok, 1);
    assert files == {"word/styles.xml", DocumentPart, NumberingPart};
    forall a, b | a in files && b in files
      ensures !IsAncestor(a, b)
    {
      assert "word/styles.xml"[4] == '/' && "word/styles.xml"[|"word/styles.xml"|..] == "";
    }
  }

  /**
   * The content written for a template entry name: the generated parts for
   * the two generated names, otherwise what reading the name from the
   * template gives (the last entry with that name).
   */
  function PartFor(entries: seq<(string, Bytes)>, name: string, document: Element, numbering: Element): PartContent
    requires LookupLast(entries, name).Some?
  {
    if name == DocumentPart then GeneratedDocument(document)
    else if name == NumberingPart then GeneratedNumbering(numbering)
    else Copied(LookupLast(entries, name).value)
  }

  /**
   * The part selection of `create_word_document_xml`: the working directory
   * starts with the generated numbering and document and the directories made
   * up front; every other template entry is copied there, making its
   * directories and then opening it as a file; then each template entry
   * name, in template order, is written from the working directory.
   */
  method SelectDocumentParts(entries: seq<(string, Bytes)>, document: Element, numbering: Element)
    returns (r: Result<seq<(string, PartContent)>, string>)
    ensures r.Failure? <==> PackagingFails(entries)
    ensures r.Success? ==> |r.value| == |entries|
    ensures r.Success? ==> forall k :: 0 <= k < |entries| ==>
      LookupLast(entries, entries[k].0).Some? && r.value[k] == (entries[k].0, PartFor(entries, entries[k].0, document, numbering))
  {
    var templateFiles := set k | 0 <= k < |entries| :: entries[k].0;
    assert templateFiles == NamesOf(entries, |entries|);
    var written: map<string, PartContent> := map[NumberingPart := GeneratedNumbering(numbering)];
    written := written[DocumentPart := GeneratedDocument(document)];
    NothingFailsAtStart(entries);
    for i := 0 to |entries|
      invariant written.Keys == WrittenUpTo(entries, i)
      invariant !PrefixFails(entries, i)
      invariant WrittenParts(entries, written, document, numbering)
    {
      var ok;
      ok, written := CopyEntry(entries, i, templateFiles, written, document, numbering);
      if !ok {
        PrefixFailsAll(entries, i + 1);
        return Failure("cannot write the template entry " + entries[i].0);
      }
    }
    PrefixFailsAll(entries, |entries|);
    var parts := ReadParts(entries, written, document, numbering);
    r := Success(parts);
  }

  /** Before any copy, the working directory holds the two generated parts and nothing has failed. */
  lemma NothingFailsAtStart(entries: seq<(string, Bytes)>)
    ensures WrittenUpTo(entries, 0) == {NumberingPart, DocumentPart}
    ensures !PrefixFails(entries, 0)
  {
    GeneratedAreFiles();
    assert NamesOf(entries, 0) == {};
  }

  /** Each template entry name, in template order, read back from the working directory. */
  method ReadParts(entries: seq<(string, Bytes)>, written: map<string, PartContent>, document: Element, numbering: Element)
    returns (parts: seq<(string, PartContent)>)
    requires written.Keys == WrittenUpTo(entries, |entries|)
    requires WrittenParts(entries, written, document, numbering)
    ensures |parts| == |entries|
    ensures forall k :: 0 <= k < |entries| ==>
      LookupLast(entries, entries[k].0).Some? && parts[k] == (entries[k].0, PartFor(entries, entries[k].0, document, numbering))
  {
    parts := [];
    for i := 0 to |entries|
      invariant |parts| == i
      invariant forall k :: 0 <= k < i ==>
        LookupLast(entries, entries[k].0).Some? && parts[k] == (entries[k].0, PartFor(entries, entries[k].0, document, numbering))
    {
      var name := entries[i].0;
      LookupLastFound(entries, name);
      assert name in NamesOf(entries, |entries|);
      parts := parts + [(name, written[name])];
    }
  }

  /** The working directory holds the generated parts and, for every other file, the content chosen for its name. */
  predicate WrittenParts(entries: seq<(string, Bytes)>, written: map<string, PartContent>, document: Element, numbering: Element) {
    DocumentPart in written && written[DocumentPart] == GeneratedDocument(document)
    && NumberingPart in written && written[NumberingPart] == GeneratedNumbering(numbering)
    && forall name :: name in written && Copies(name) ==>
         LookupLast(entries, name).Some? && written[name] == PartFor(entries, name, document, numbering)
  }

  /**
   * The body of the copy loop for entry i. A generated name is skipped.
   * Otherwise the directories on its path are made, which fails when one of
   * them is a file already written; then it is opened as a file, which fails
   * when it names a directory: one made up front or one on the path of a
   * file already written.
   */
  method CopyEntry(entries: seq<(string, Bytes)>, i: nat, templateFiles: set<string>,
                   written: map<string, PartContent>, document: Element, numbering: Element)
    returns (ok: bool, written': map<string, PartContent>)
    requires i < |entries| && templateFiles == NamesOf(entries, |entries|)
    requires written.Keys == WrittenUpTo(entries, i)
    requires !PrefixFails(entries, i)
    requires WrittenParts(entries, written, document, numbering)
    ensures ok <==> !PrefixFails(entries, i + 1)
    ensures ok ==> written'.Keys == WrittenUpTo(entries, i + 1)
    ensures ok ==> WrittenParts(entries, written', document, numbering)
  {
    var name := entries[i].0;
    PrefixStep(entries, i);
    WrittenStep(entries, i);
    written' := written;
    if !Copies(name) {
      return true, written';
    }
    if exists f :: f in written && IsAncestor(f, name) {
      return false, written';
    }
    if NamesDirectory(name) || name in InitialDirs(templateFiles) || exists f :: f in written && IsAncestor(name, f) {
      return false, written';
    }
    LookupLastFound(entries, name);
    written' := written[name := Copied(LookupLast(entries, name).value)];
    ok := true;
  }

  /**
   * Every template entry other than the two generated parts is copied byte
   * for byte: from the last template entry with its name, as reading an
   * archive by name does.
   */
  lemma CopiedVerbatim(entries: seq<(string, Bytes)>, j: nat, document: Element, numbering: Element)
    requires j < |entries| && entries[j].0 != DocumentPart && entries[j].0 != NumberingPart
    requires forall i :: j < i < |entries| ==> entries[i].0 != entries[j].0
    ensures LookupLast(entries, entries[j].0).Some?
    ensures PartFor(entries, entries[j].0, document, numbering) == Copied(entries[j].1)
  {
    LookupLastAt(entries, j);
  }
}
