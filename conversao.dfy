/** The file converters of `GeradorPDF` and the module-level dispatcher
    `converter_arquivo_para_pdf`: default output names, the spreadsheet grid,
    the joined word-processing text, and routing by extension. */
module Conversao {
  import opened Wrappers
  import opened Story
  import opened Gerador
  import PyStr

  /** `arquivo.replace(ext, '.pdf')`: the output name used when none is given. */
  function DefaultOutputName(arquivo: string, ext: string): string
    requires ext != ""
  {
    PyStr.ReplaceAll(arquivo, ext, ".pdf")
  }

  /** `nome_pdf`, or the default name when it is None. */
  function OutputName(arquivo: string, nomePdf: Option<string>, ext: string): string
    requires ext != ""
  {
    if nomePdf.None? then DefaultOutputName(arquivo, ext) else nomePdf.value
  }

  /** The extensions whose occurrences the converters replace. */
  predicate ConvertedExtension(ext: string) {
    ext == ".txt" || ext == ".csv" || ext == ".docx"
  }

  /** The default name differs from the input name exactly when the input
      name contains the extension somewhere (not only at its end). */
  lemma DefaultNameUnchangedIffAbsent(arquivo: string, ext: string)
    requires ConvertedExtension(ext)
    ensures DefaultOutputName(arquivo, ext) == arquivo <==> !PyStr.Occurs(arquivo, ext)
  {
    PyStr.ReplaceUnchangedIffAbsent(arquivo, ext, ".pdf");
  }

  /** Replacing ".txt" or ".csv" keeps the name's length. */
  lemma DefaultNameKeepsLength(arquivo: string, ext: string)
    requires ext == ".txt" || ext == ".csv"
    ensures |DefaultOutputName(arquivo, ext)| == |arquivo|
  {
    PyStr.ReplaceSameLength(arquivo, ext, ".pdf");
  }

  /** No occurrence of the extension survives in the default name: every
      one is replaced, not only a trailing one. */
  lemma DefaultNameLeavesNoOccurrence(arquivo: string, ext: string)
    requires ConvertedExtension(ext)
    ensures !PyStr.Occurs(DefaultOutputName(arquivo, ext), ext)
  {
    assert PyStr.DotExtension(".pdf");
    assert PyStr.DotExtension(ext) && ext[1] != 'p';
    PyStr.ReplaceLeavesNoOccurrence(arquivo, ext, ".pdf");
  }

  /** Every occurrence is replaced, not only the trailing one. */
  lemma DefaultNameReplacesEveryOccurrence()
    ensures DefaultOutputName("a.txt.txt", ".txt") == "a.pdf.pdf"
  {
    var s := "a.txt.txt";
    assert !(".txt" <= s);
    assert s[1..] == ".txt.txt" && ".txt" <= s[1..];
    assert s[1..][4..] == ".txt" && ".txt" <= s[1..][4..];
    assert s[1..][4..][4..] == "";
  }

  /** The grid of a spreadsheet: `[df.columns.tolist()] + df.values.tolist()`. */
  function CsvGrid(csv: Csv): seq<seq<string>> {
    [csv.header] + csv.rows
  }

  /** The text of a word-processing document: `'\n'.join(paragraph texts)`. */
  function DocxText(paragraphs: seq<string>): string {
    PyStr.Join(paragraphs, '\n')
  }

  /** What `converter_txt_para_pdf(arquivo, nome_pdf)` hands to the layout
      engine; None when the file cannot be read. */
  function TxtDocument(env: Env, arquivo: string, nomePdf: Option<string>): Option<Document> {
    match env.readText(arquivo)
    case None => None
    case Some(conteudo) =>
      Some(Document(OutputName(arquivo, nomePdf, ".txt"), TextStory(conteudo, Some("Documento Convertido"))))
  }

  /** What `converter_csv_para_pdf(arquivo, nome_pdf)` hands to the layout
      engine; None when the file cannot be parsed. */
  function CsvDocument(env: Env, arquivo: string, nomePdf: Option<string>): Option<Document> {
    match env.readCsv(arquivo)
    case None => None
    case Some(csv) =>
      Some(Document(OutputName(arquivo, nomePdf, ".csv"), TableStory(CsvGrid(csv), "Dados do CSV")))
  }

  /** What `converter_docx_para_pdf(arquivo, nome_pdf)` hands to the layout
      engine; None when the file is not a readable word-processing document. */
  function DocxDocument(env: Env, arquivo: string, nomePdf: Option<string>): Option<Document> {
    match env.readDocx(arquivo)
    case None => None
    case Some(paragraphs) =>
      Some(Document(OutputName(arquivo, nomePdf, ".docx"), TextStory(DocxText(paragraphs), Some("Documento Word Convertido"))))
  }

  /** The boolean a converter returns: false when reading failed, otherwise
      whether the layout engine built the document. */
  predicate Succeeded(env: Env, doc: Option<Document>) {
    doc.Some? && Built(env, doc.value)
  }

  method ConverterTxtParaPdf(env: Env, arquivoTxt: string, nomePdf: Option<string>)
    returns (ok: bool, doc: Option<Document>)
    ensures doc == TxtDocument(env, arquivoTxt, nomePdf)
    ensures ok == Succeeded(env, doc)
  {
    var nome := if nomePdf.None? then PyStr.ReplaceAll(arquivoTxt, ".txt", ".pdf") else nomePdf.value;
    var conteudo := env.readText(arquivoTxt);
    if conteudo.None? {
      return false, None;
    }
    var built;
    ok, built := GerarPdfTexto(env, conteudo.value, nome, Some("Documento Convertido"));
    doc := Some(built);
  }

  method ConverterCsvParaPdf(env: Env, arquivoCsv: string, nomePdf: Option<string>)
    returns (ok: bool, doc: Option<Document>)
    ensures doc == CsvDocument(env, arquivoCsv, nomePdf)
    ensures ok == Succeeded(env, doc)
  {
    var nome := if nomePdf.None? then PyStr.ReplaceAll(arquivoCsv, ".csv", ".pdf") else nomePdf.value;
    var df := env.readCsv(arquivoCsv);
    if df.None? {
      return false, None;
    }
    var dados := [df.value.header] + df.value.rows;
    var built;
    ok, built := GerarPdfTabela(env, dados, nome, Some("Dados do CSV"));
    assert built.story == TableStory(dados, "Dados do CSV");
    doc := Some(built);
  }

  method ConverterDocxParaPdf(env: Env, arquivoDocx: string, nomePdf: Option<string>)
    returns (ok: bool, doc: Option<Document>)
    ensures doc == DocxDocument(env, arquivoDocx, nomePdf)
    ensures ok == Succeeded(env, doc)
  {
    var nome := if nomePdf.None? then PyStr.ReplaceAll(arquivoDocx, ".docx", ".pdf") else nomePdf.value;
    var paragrafos := env.readDocx(arquivoDocx);
    if paragrafos.None? {
      return false, None;
    }
    var conteudo := PyStr.Join(paragrafos.value, '\n');
    var built;
    ok, built := GerarPdfTexto(env, conteudo, nome, Some("Documento Word Convertido"));
    doc := Some(built);
  }

  /** A spreadsheet's table is its header row followed by its data rows, so
      it has one row more than the data. */
  lemma CsvTable(env: Env, arquivo: string, nomePdf: Option<string>)
    requires env.readCsv(arquivo).Some?
    ensures var csv := env.readCsv(arquivo).value;
      var story := CsvDocument(env, arquivo, nomePdf).value.story;
      && |story| == 3 && story[2].Table?
      && |story[2].grid| == 1 + |csv.rows|
      && story[2].grid[0] == csv.header && story[2].grid[1..] == csv.rows
  {
  }

  /** Header ["Name","Age"] with rows ["Ana","25"] and ["Pedro","30"]. */
  lemma CsvGridExample()
    ensures CsvGrid(Csv(["Name", "Age"], [["Ana", "25"], ["Pedro", "30"]]))
         == [["Name", "Age"], ["Ana", "25"], ["Pedro", "30"]]
  {
  }

  /** Joining paragraphs that hold no line break and splitting the result
      again gives back the paragraphs: a word-processing document becomes one
      story element per paragraph. */
  lemma DocxParagraphsSurvive(paragraphs: seq<string>, titulo: Option<string>)
    requires |paragraphs| >= 1
    requires forall i :: 0 <= i < |paragraphs| ==> '\n' !in paragraphs[i]
    ensures PyStr.Split(DocxText(paragraphs), '\n') == paragraphs
    ensures TextStory(DocxText(paragraphs), titulo) == TitleBlock(titulo) + Body(paragraphs)
  {
    PyStr.SplitJoin(paragraphs, '\n');
  }

  /** A document without paragraphs still yields one spacer after the title:
      the empty text splits into one empty line. */
  lemma DocxWithoutParagraphs()
    ensures TextStory(DocxText([]), Some("Documento Word Convertido"))
         == [Paragraph("Documento Word Convertido", Titulo), Spacer(12), Spacer(6)]
  {
    assert PyStr.Split("", '\n') == [""];
    assert PyStr.Strip("") == "";
  }

  /** Two lines around an empty one split into three pieces. */
  lemma BlankLineSplit(a: string, b: string)
    requires '\n' !in a && '\n' !in b
    ensures PyStr.Split(a + "\n\n" + b, '\n') == [a, "", b]
  {
    var lines := [a, "", b];
    assert PyStr.Join(lines, '\n') == a + "\n\n" + b by {
      assert lines[1..] == ["", b] && lines[1..][1..] == [b];
      assert PyStr.Join(["", b], '\n') == "" + ['\n'] + b;
      assert PyStr.Join(lines, '\n') == a + ['\n'] + ("" + ['\n'] + b);
    }
    PyStr.SplitJoin(lines, '\n');
  }

  /** Two non-blank lines separated by an empty one become the first line,
      a 6-point spacer, and the second line, after the title block. */
  lemma BlankLineBecomesSpacer(a: string, b: string, titulo: Option<string>)
    requires '\n' !in a && '\n' !in b
    requires !PyStr.IsBlank(a) && !PyStr.IsBlank(b)
    ensures TextStory(a + "\n\n" + b, titulo)
         == TitleBlock(titulo) + [Paragraph(a, Custom), Spacer(6), Paragraph(b, Custom)]
  {
    var lines := [a, "", b];
    BlankLineSplit(a, b);
    assert LineElement(a) == Paragraph(a, Custom) by {
      PyStr.StripEmptyIffBlank(a);
    }
    assert LineElement(b) == Paragraph(b, Custom) by {
      PyStr.StripEmptyIffBlank(b);
    }
    assert LineElement("") == Spacer(6) by {
      PyStr.StripEmptyIffBlank("");
    }
    assert Body(lines) == [LineElement(a), LineElement(""), LineElement(b)];
  }

  // ---------------------------------------------------------------------
  // converter_arquivo_para_pdf

  datatype Converter = TxtConverter | CsvConverter | DocxConverter | Unsupported

  /** The lower-cased type override, or else the lower-cased text after the
      last '.' of the name (the whole name when it has none). */
  function Extension(arquivoOrigem: string, tipoArquivo: Option<string>): string {
    PyStr.Lower(if tipoArquivo.None? then PyStr.LastSegment(arquivoOrigem, '.') else tipoArquivo.value)
  }

  function Route(extensao: string): Converter {
    if extensao == "txt" then TxtConverter
    else if extensao == "csv" then CsvConverter
    else if extensao == "docx" then DocxConverter
    else Unsupported
  }

  /** A name's extension is the lower-cased text after its last dot. */
  lemma ExtensionAfterLastDot(stem: string, ext: string)
    requires '.' !in ext
    ensures Extension(stem + "." + ext, None) == PyStr.Lower(ext)
  {
    PyStr.LastSegmentAfterSep(stem, ext, '.');
  }

  /** A name without a dot is its own (lower-cased) extension. */
  lemma ExtensionWithoutDot(name: string)
    requires '.' !in name
    ensures Extension(name, None) == PyStr.Lower(name)
  {
    PyStr.LastSegmentWithoutSep(name, '.');
  }

  /** Lower-casing leaves the supported extensions as they are. */
  lemma SupportedExtensionsAreLowerCase()
    ensures PyStr.Lower("txt") == "txt" && PyStr.Lower("csv") == "csv" && PyStr.Lower("docx") == "docx"
  {
  }

  /** Upper- and mixed-case spellings of the supported extensions. */
  lemma UpperCaseExtensionsLower()
    ensures PyStr.Lower("TXT") == "txt" && PyStr.Lower("Txt") == "txt"
    ensures PyStr.Lower("CSV") == "csv" && PyStr.Lower("DOCX") == "docx"
  {
  }

  /** The type override is routed case-insensitively, whatever the name says. */
  lemma OverrideRoutes(arquivoOrigem: string)
    ensures Route(Extension(arquivoOrigem, Some("DOCX"))) == DocxConverter
    ensures Route(Extension(arquivoOrigem, Some("Txt"))) == TxtConverter
  {
    UpperCaseExtensionsLower();
  }

  /** An unknown type override is refused, whatever the name says. */
  lemma UnknownOverrideRefused(arquivoOrigem: string)
    ensures Route(Extension(arquivoOrigem, Some("xyz"))) == Unsupported
  {
    assert PyStr.Lower("xyz") == "xyz";
  }

  /** Routing by name is case-insensitive. */
  lemma UpperCaseNameRoutes(stem: string)
    ensures Route(Extension(stem + ".CSV", None)) == CsvConverter
  {
    assert Extension(stem + ".CSV", None) == PyStr.Lower("CSV") by {
      assert stem + ".CSV" == stem + "." + "CSV";
      ExtensionAfterLastDot(stem, "CSV");
    }
    UpperCaseExtensionsLower();
  }

  /** Only the text after the last dot counts: "relatorio.txt.docx" is a
      word-processing document. */
  lemma LastDotRoutes(stem: string)
    ensures Route(Extension(stem + ".txt.docx", None)) == DocxConverter
  {
    assert Extension(stem + ".txt.docx", None) == PyStr.Lower("docx") by {
      assert stem + ".txt.docx" == (stem + ".txt") + "." + "docx";
      ExtensionAfterLastDot(stem + ".txt", "docx");
    }
    SupportedExtensionsAreLowerCase();
  }

  /** ".xyz" is not supported. */
  lemma UnknownExtensionRefused(stem: string)
    ensures Route(Extension(stem + ".xyz", None)) == Unsupported
  {
    assert Extension(stem + ".xyz", None) == PyStr.Lower("xyz") by {
      assert stem + ".xyz" == stem + "." + "xyz";
      ExtensionAfterLastDot(stem, "xyz");
    }
    assert PyStr.Lower("xyz") == "xyz";
  }

  /** A name without a dot is routed to a converter exactly when the whole
      name, lower-cased, is a supported extension. */
  lemma NameWithoutDotRoutes(name: string)
    requires '.' !in name
    ensures Route(Extension(name, None)) != Unsupported <==> PyStr.Lower(name) in {"txt", "csv", "docx"}
  {
    ExtensionWithoutDot(name);
  }

  /** An upper-case ".TXT" is routed to the text converter. */
  lemma UpperCaseTxtRoutes(stem: string)
    ensures Route(Extension(stem + ".TXT", None)) == TxtConverter
  {
    assert Extension(stem + ".TXT", None) == PyStr.Lower("TXT") by {
      assert stem + ".TXT" == stem + "." + "TXT";
      ExtensionAfterLastDot(stem, "TXT");
    }
    UpperCaseExtensionsLower();
  }

  /** ".txt" does not occur in a dot-free stem followed by ".TXT". */
  lemma LowerTxtAbsent(stem: string)
    requires '.' !in stem
    ensures !PyStr.Occurs(stem + ".TXT", ".txt")
  {
    var name := stem + ".TXT";
    forall i: nat | i <= |name| ensures !PyStr.OccursAt(name, ".txt", i) {
      if i + 4 <= |name| {
        var window := name[i..i + 4];
        if i < |stem| {
          assert window[0] == stem[i] != '.';
        } else {
          assert i == |stem| && window[1] == name[|stem| + 1] == ".TXT"[1];
        }
        assert window != ".txt" by {
          assert window[0] != ".txt"[0] || window[1] != ".txt"[1];
        }
      }
    }
  }

  /** `replace` is case-sensitive, so the default output name of an
      upper-case ".TXT" file is the input name itself: the document would be
      written over its source. */
  lemma UpperCaseTxtKeepsName(env: Env, stem: string)
    requires '.' !in stem
    requires env.readText(stem + ".TXT").Some?
    ensures TxtDocument(env, stem + ".TXT", None).value.path == stem + ".TXT"
  {
    LowerTxtAbsent(stem);
    DefaultNameUnchangedIffAbsent(stem + ".TXT", ".txt");
  }

  /** `converter_arquivo_para_pdf`: routes by extension to one converter with
      the default output name; any other extension returns false and hands
      nothing to the layout engine. */
  method ConverterArquivoParaPdf(env: Env, arquivoOrigem: string, tipoArquivo: Option<string>)
    returns (ok: bool, doc: Option<Document>)
    ensures Route(Extension(arquivoOrigem, tipoArquivo)) == Unsupported ==> !ok && doc == None
    ensures Route(Extension(arquivoOrigem, tipoArquivo)) == TxtConverter ==> doc == TxtDocument(env, arquivoOrigem, None)
    ensures Route(Extension(arquivoOrigem, tipoArquivo)) == CsvConverter ==> doc == CsvDocument(env, arquivoOrigem, None)
    ensures Route(Extension(arquivoOrigem, tipoArquivo)) == DocxConverter ==> doc == DocxDocument(env, arquivoOrigem, None)
    ensures ok == Succeeded(env, doc)
  {
    var extensao;
    if tipoArquivo.None? {
      var partes := PyStr.Split(arquivoOrigem, '.');
      extensao := PyStr.Lower(partes[|partes| - 1]);
    } else {
      extensao := PyStr.Lower(tipoArquivo.value);
    }
    if extensao == "txt" {
      ok, doc := ConverterTxtParaPdf(env, arquivoOrigem, None);
    } else if extensao == "csv" {
      ok, doc := ConverterCsvParaPdf(env, arquivoOrigem, None);
    } else if extensao == "docx" {
      ok, doc := ConverterDocxParaPdf(env, arquivoOrigem, None);
    } else {
      ok, doc := false, None;
    }
  }

}
