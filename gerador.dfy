/** The generation operations of `GeradorPDF`: each grows a local story one
    element at a time, as the source does with `story.append`, and hands it to
    the layout engine. The object's own fields (the sample stylesheet and the
    12-point body style) are fixed at construction and only read, so they
    appear here as the `Style` values of the story rather than as state. */
module Gerador {
  import opened Wrappers
  import opened Story
  import PyStr

  /** What a spreadsheet reader returns: the column names and the data rows. */
  datatype Csv = Csv(header: seq<string>, rows: seq<seq<string>>)

  /** Everything outside the generator, as values:
      `now` is `datetime.now().strftime("%d/%m/%Y %H:%M:%S")`;
      `build(path, story)` holds when building the A4 document at `path` from
      `story` raises nothing (paragraph markup, layout and writing included);
      the readers give the file's content, or None when reading it raises. */
  datatype Env = Env(
    now: string,
    build: (string, seq<FlowElement>) -> bool,
    readText: string -> Option<string>,
    readCsv: string -> Option<Csv>,
    readDocx: string -> Option<seq<string>>)

  /** What an operation hands to the layout engine: the target path and the story. */
  datatype Document = Document(path: string, story: seq<FlowElement>)

  /** The boolean an operation returns once it has handed `doc` over. */
  predicate Built(env: Env, doc: Document) {
    env.build(doc.path, doc.story)
  }

  /** The loop of `gerar_pdf_texto`: appends one element per line, in order. */
  method AppendLines(story: seq<FlowElement>, paragrafos: seq<string>)
    returns (out: seq<FlowElement>)
    ensures out == story + Body(paragrafos)
  {
    out := story;
    for i := 0 to |paragrafos|
      invariant out == story + Body(paragrafos[..i])
    {
      var paragrafo := paragrafos[i];
      BodySnoc(paragrafos, i);
      if PyStr.Strip(paragrafo) != "" {
        out := out + [Paragraph(paragrafo, Custom)];
      } else {
        out := out + [Spacer(6)];
      }
    }
    assert paragrafos[..|paragrafos|] == paragrafos;
  }

  /** `gerar_pdf_texto`: the optional title, then one element per line. */
  method GerarPdfTexto(env: Env, texto: string, nomeArquivo: string, titulo: Option<string>)
    returns (ok: bool, doc: Document)
    ensures doc == Document(nomeArquivo, TextStory(texto, titulo))
    ensures ok == Built(env, doc)
  {
    var story: seq<FlowElement> := [];
    if Truthy(titulo) {
      story := story + [Paragraph(titulo.value, Titulo)];
      story := story + [Spacer(12)];
    }
    assert story == TitleBlock(titulo);
    var paragrafos := PyStr.Split(texto, '\n');
    story := AppendLines(story, paragrafos);
    doc := Document(nomeArquivo, story);
    ok := env.build(nomeArquivo, story);
  }

  /** The loop of `gerar_pdf_cadastro`: a bold upper-cased line and a spacer
      per entry, in order. */
  method AppendRecordLines(story: seq<FlowElement>, dados: Fields)
    returns (out: seq<FlowElement>)
    ensures out == story + Pairs(RecordLines(dados), 6)
  {
    out := story;
    for i := 0 to |dados|
      invariant out == story + Pairs(RecordLines(dados[..i]), 6)
    {
      var (chave, valor) := dados[i];
      var linha := "<b>" + PyStr.Upper(chave) + ":</b> " + valor;
      RecordLinesSnoc(dados, i);
      PairsSnoc(RecordLines(dados[..i]), linha, 6);
      out := out + [Paragraph(linha, Custom)];
      out := out + [Spacer(6)];
    }
    assert dados[..|dados|] == dados;
  }

  /** `gerar_pdf_cadastro`: title, timestamp, then one bold line per entry. */
  method GerarPdfCadastro(env: Env, dados: Fields, nomeArquivo: string)
    returns (ok: bool, doc: Document)
    ensures doc == Document(nomeArquivo, RecordStory(dados, env.now))
    ensures ok == Built(env, doc)
  {
    var story: seq<FlowElement> := [];
    story := story + [Paragraph("RELATÓRIO DE CADASTRO", Title)];
    story := story + [Spacer(12)];
    story := story + [Paragraph("Gerado em: " + env.now, Normal)];
    story := story + [Spacer(20)];
    story := AppendRecordLines(story, dados);
    doc := Document(nomeArquivo, story);
    ok := env.build(nomeArquivo, story);
  }

  /** `gerar_pdf_tabela`: title, spacer, then the caller's grid unchanged as
      one table (its first row styled as header). An omitted title (None)
      is "Relatório de Dados". */
  method GerarPdfTabela(env: Env, dadosTabela: seq<seq<string>>, nomeArquivo: string, titulo: Option<string>)
    returns (ok: bool, doc: Document)
    ensures doc.path == nomeArquivo && |doc.story| == 3
    ensures titulo.Some? ==> doc.story[0] == Paragraph(titulo.value, Title)
    ensures titulo.None? ==> doc.story[0] == Paragraph("Relatório de Dados", Title)
    ensures doc.story[1] == Spacer(12) && doc.story[2] == Table(dadosTabela)
    ensures ok == Built(env, doc)
  {
    var t := if titulo.Some? then titulo.value else "Relatório de Dados";
    var story: seq<FlowElement> := [];
    story := story + [Paragraph(t, Title)];
    story := story + [Spacer(12)];
    story := story + [Table(dadosTabela)];
    doc := Document(nomeArquivo, story);
    ok := env.build(nomeArquivo, story);
  }

  /** Appends the lines of one section of the registration form: the listed
      keys in list order, skipping those the form does not have. */
  method AppendSection(story: seq<FlowElement>, campos: seq<string>, dados: Fields)
    returns (out: seq<FlowElement>)
    ensures out == story + FieldLines(campos, dados)
  {
    out := story;
    for i := 0 to |campos|
      invariant out == story + FieldLines(campos[..i], dados)
    {
      var campo := campos[i];
      assert campos[..i + 1][..i] == campos[..i];
      var found := Lookup(dados, campo);
      if found.Some? {
        var texto := "<b>" + Label(campo) + ":</b> " + found.value;
        out := out + [Paragraph(texto, Custom)];
        out := out + [Spacer(6)];
      }
    }
    assert campos[..|campos|] == campos;
  }

  /** The loop of the generic form template: every entry, in order, under its
      title-cased label, each followed by an 8-point spacer. */
  method AppendGenericLines(story: seq<FlowElement>, dados: Fields)
    returns (out: seq<FlowElement>)
    ensures out == story + Pairs(GenericLines(dados), 8)
  {
    out := story;
    for i := 0 to |dados|
      invariant out == story + Pairs(GenericLines(dados[..i]), 8)
    {
      var (chave, valor) := dados[i];
      var texto := "<b>" + Label(chave) + ":</b> " + valor;
      GenericLinesSnoc(dados, i);
      PairsSnoc(GenericLines(dados[..i]), texto, 8);
      out := out + [Paragraph(texto, Custom)];
      out := out + [Spacer(8)];
    }
    assert dados[..|dados|] == dados;
  }

  /** `gerar_pdf_formulario`: the registration template for "cadastro_pessoa",
      the generic one for any other name; both end with the dated footer. */
  method GerarPdfFormulario(env: Env, dados: Fields, nomeArquivo: string, template: string)
    returns (ok: bool, doc: Document)
    ensures doc == Document(nomeArquivo, FormStory(dados, template, env.now))
    ensures ok == Built(env, doc)
  {
    var story: seq<FlowElement> := [];
    if template == "cadastro_pessoa" {
      story := story + [Paragraph("FICHA DE CADASTRO PESSOAL", Title)];
      story := story + [Spacer(20)];
      story := story + [Paragraph("DADOS PESSOAIS", Heading2)];
      story := story + [Spacer(12)];
      ghost var heading := story;
      assert heading == [Paragraph("FICHA DE CADASTRO PESSOAL", Title), Spacer(20), Paragraph("DADOS PESSOAIS", Heading2), Spacer(12)];
      story := AppendSection(story, PersonalKeys, dados);
      ghost var personal := story;
      story := story + [Spacer(20)];
      story := story + [Paragraph("ENDEREÇO", Heading2)];
      story := story + [Spacer(12)];
      assert story == personal + [Spacer(20), Paragraph("ENDEREÇO", Heading2), Spacer(12)];
      story := AppendSection(story, AddressKeys, dados);
    } else {
      story := story + [Paragraph("RELATÓRIO DE DADOS", Title)];
      story := story + [Spacer(20)];
      assert story == [Paragraph("RELATÓRIO DE DADOS", Title), Spacer(20)];
      story := AppendGenericLines(story, dados);
    }
    ghost var body := story;
    story := story + [Spacer(30)];
    var rodape := "Documento gerado em " + env.now;
    story := story + [Paragraph(rodape, Normal)];
    assert story == body + Footer(env.now);
    doc := Document(nomeArquivo, story);
    ok := env.build(nomeArquivo, story);
  }

  /** `criar_pdf_simples`: a fresh generator's `gerar_pdf_texto`. */
  method CriarPdfSimples(env: Env, texto: string, nomeArquivo: string, titulo: Option<string>)
    returns (ok: bool, doc: Document)
    ensures doc == Document(nomeArquivo, TextStory(texto, titulo))
    ensures ok == Built(env, doc)
  {
    ok, doc := GerarPdfTexto(env, texto, nomeArquivo, titulo);
  }

  /** `salvar_cadastro_como_pdf`: a fresh generator's `gerar_pdf_cadastro`. */
  method SalvarCadastroComoPdf(env: Env, dados: Fields, nomeArquivo: string)
    returns (ok: bool, doc: Document)
    ensures doc == Document(nomeArquivo, RecordStory(dados, env.now))
    ensures ok == Built(env, doc)
  {
    ok, doc := GerarPdfCadastro(env, dados, nomeArquivo);
  }

}
