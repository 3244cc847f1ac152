/** The content sequence ("story") the generator hands to the layout engine,
    and the specification of the story each generation operation builds. */
module Story {
  import opened Wrappers
  import PyStr

  /** The paragraph styles the generator uses. */
  datatype Style =
    | Titulo    // the text document's title: Heading1 at 16 pt, centred
    | Title     // the stylesheet's 'Title'
    | Heading2  // the stylesheet's 'Heading2'
    | Normal    // the stylesheet's 'Normal'
    | Custom    // 'Custom': Normal at 12 pt with 12 pt after

  /** One flowable. A spacer is always one unit wide, so only its height is
      kept; a table always carries the same fixed table style. */
  datatype FlowElement =
    | Paragraph(text: string, style: Style)
    | Spacer(height: nat)
    | Table(grid: seq<seq<string>>)

  /** A dictionary as its `items()`: key and `str(value)`, in insertion order. */
  type Fields = seq<(string, string)>

  // ---------------------------------------------------------------------
  // Plain text: gerar_pdf_texto

  /** The title argument is truthy: given and not empty. */
  predicate Truthy(titulo: Option<string>) {
    titulo.Some? && titulo.value != ""
  }

  function TitleBlock(titulo: Option<string>): seq<FlowElement> {
    if Truthy(titulo) then [Paragraph(titulo.value, Titulo), Spacer(12)] else []
  }

  /** A line with visible text becomes a paragraph, any other a small spacer. */
  function LineElement(line: string): FlowElement {
    if PyStr.Strip(line) != "" then Paragraph(line, Custom) else Spacer(6)
  }

  /** The body of a text document: one element per line, in order. */
  function Body(lines: seq<string>): (r: seq<FlowElement>)
    ensures |r| == |lines|
    ensures forall i :: 0 <= i < |lines| ==> r[i] == LineElement(lines[i])
  {
    if lines == [] then []
    else
      var n := |lines| - 1;
      var init := Body(lines[..n]);
      assert forall i :: 0 <= i < n ==> lines[..n][i] == lines[i];
      init + [LineElement(lines[n])]
  }

  /** Extending the lines by one extends the body by that line's element. */
  lemma BodySnoc(lines: seq<string>, i: nat)
    requires i < |lines|
    ensures Body(lines[..i + 1]) == Body(lines[..i]) + [LineElement(lines[i])]
  {
    assert lines[..i + 1][..i] == lines[..i];
  }

  /** The story of `gerar_pdf_texto(texto, _, titulo)`. */
  function TextStory(texto: string, titulo: Option<string>): seq<FlowElement> {
    TitleBlock(titulo) + Body(PyStr.Split(texto, '\n'))
  }

  /** A text story is the optional title and its spacer, then exactly one
      element per line of `texto.split('\n')`: the line as a paragraph when it
      has a non-whitespace character, a 6-point spacer when it has none. */
  lemma TextStoryShape(texto: string, titulo: Option<string>)
    ensures var lines := PyStr.Split(texto, '\n');
      var k := if Truthy(titulo) then 2 else 0;
      var r := TextStory(texto, titulo);
      && |r| == k + |lines|
      && (Truthy(titulo) ==> r[0] == Paragraph(titulo.value, Titulo) && r[1] == Spacer(12))
      && (forall i :: 0 <= i < |lines| ==>
            r[k + i] == if PyStr.IsBlank(lines[i]) then Spacer(6) else Paragraph(lines[i], Custom))
  {
    var lines := PyStr.Split(texto, '\n');
    var k := if Truthy(titulo) then 2 else 0;
    var b := Body(lines);
    var r := TextStory(texto, titulo);
    assert r == TitleBlock(titulo) + b;
    forall i | 0 <= i < |lines|
      ensures r[k + i] == if PyStr.IsBlank(lines[i]) then Spacer(6) else Paragraph(lines[i], Custom)
    {
      assert r[k + i] == b[i] == LineElement(lines[i]);
      PyStr.StripEmptyIffBlank(lines[i]);
    }
  }

  function ParagraphCount(story: seq<FlowElement>): nat {
    if story == [] then 0
    else ParagraphCount(story[..|story| - 1]) + if story[|story| - 1].Paragraph? then 1 else 0
  }

  function SpacerCount(story: seq<FlowElement>): nat {
    if story == [] then 0
    else SpacerCount(story[..|story| - 1]) + if story[|story| - 1].Spacer? then 1 else 0
  }

  function NonBlankCount(lines: seq<string>): nat {
    if lines == [] then 0
    else NonBlankCount(lines[..|lines| - 1]) + if PyStr.IsBlank(lines[|lines| - 1]) then 0 else 1
  }

  /** N non-blank and M blank lines give N paragraphs and M spacers. */
  lemma {:induction false} BodyCounts(lines: seq<string>)
    ensures ParagraphCount(Body(lines)) == NonBlankCount(lines)
    ensures SpacerCount(Body(lines)) == |lines| - NonBlankCount(lines)
  {
    if lines != [] {
      var n := |lines| - 1;
      BodyCounts(lines[..n]);
      assert Body(lines)[..n] == Body(lines[..n]);
      PyStr.StripEmptyIffBlank(lines[n]);
    }
  }

  // ---------------------------------------------------------------------
  // Paragraph-and-spacer pairs, shared by records and forms

  /** Each text as a body paragraph followed by a spacer of height `gap`. */
  function Pairs(texts: seq<string>, gap: nat): (r: seq<FlowElement>)
    ensures |r| == 2 * |texts|
    ensures forall j :: 0 <= j < |texts| ==> r[2 * j] == Paragraph(texts[j], Custom) && r[2 * j + 1] == Spacer(gap)
  {
    if texts == [] then []
    else Pairs(texts[..|texts| - 1], gap) + [Paragraph(texts[|texts| - 1], Custom), Spacer(gap)]
  }

  lemma PairsSnoc(texts: seq<string>, x: string, gap: nat)
    ensures Pairs(texts + [x], gap) == Pairs(texts, gap) + [Paragraph(x, Custom), Spacer(gap)]
  {
    assert (texts + [x])[..|texts|] == texts;
  }

  // ---------------------------------------------------------------------
  // Records: gerar_pdf_cadastro

  /** `f"<b>{chave.upper()}:</b> {valor}"` */
  function RecordLine(key: string, value: string): string {
    "<b>" + PyStr.Upper(key) + ":</b> " + value
  }

  function RecordLines(fields: Fields): seq<string> {
    seq(|fields|, i requires 0 <= i < |fields| => RecordLine(fields[i].0, fields[i].1))
  }

  lemma RecordLinesSnoc(fields: Fields, i: nat)
    requires i < |fields|
    ensures RecordLines(fields[..i + 1]) == RecordLines(fields[..i]) + [RecordLine(fields[i].0, fields[i].1)]
  {
  }

  /** The story of `gerar_pdf_cadastro(fields, _)` generated at time `now`:
      four fixed elements, then a line and a spacer per entry, in order. */
  function RecordStory(fields: Fields, now: string): (r: seq<FlowElement>)
    ensures |r| == 4 + 2 * |fields|
    ensures r[0] == Paragraph("RELATÓRIO DE CADASTRO", Title) && r[1] == Spacer(12)
    ensures r[2] == Paragraph("Gerado em: " + now, Normal) && r[3] == Spacer(20)
    ensures forall j :: 0 <= j < |fields| ==>
      && r[4 + 2 * j] == Paragraph("<b>" + PyStr.Upper(fields[j].0) + ":</b> " + fields[j].1, Custom)
      && r[5 + 2 * j] == Spacer(6)
  {
    [Paragraph("RELATÓRIO DE CADASTRO", Title), Spacer(12), Paragraph("Gerado em: " + now, Normal), Spacer(20)]
      + Pairs(RecordLines(fields), 6)
  }

  // ---------------------------------------------------------------------
  // Forms: gerar_pdf_formulario

  const PersonalKeys: seq<string> := ["nome", "cpf", "rg", "data_nascimento", "email", "telefone"]
  const AddressKeys: seq<string> := ["endereco", "cidade", "estado", "cep"]

  /** `key in fields` and `fields[key]`: the value of the first entry with that key. */
  function Lookup(fields: Fields, key: string): (r: Option<string>)
    ensures r.None? <==> forall i :: 0 <= i < |fields| ==> fields[i].0 != key
    ensures r.Some? ==> exists i :: 0 <= i < |fields| && fields[i] == (key, r.value)
  {
    if fields == [] then None
    else if fields[0].0 == key then Some(fields[0].1)
    else
      var r := Lookup(fields[1..], key);
      assert forall i :: 1 <= i < |fields| ==> fields[i] == fields[1..][i - 1];
      r
  }

  /** `key.replace('_', ' ').title()` */
  function Label(key: string): string {
    PyStr.Title(PyStr.ReplaceChar(key, '_', ' '))
  }

  /** `f"<b>{label}:</b> {value}"` */
  function FormLine(key: string, value: string): string {
    "<b>" + Label(key) + ":</b> " + value
  }

  /** The two elements a present key contributes to the registration form;
      nothing for an absent key. */
  function KeyBlock(key: string, fields: Fields): seq<FlowElement> {
    match Lookup(fields, key)
    case Some(v) => [Paragraph(FormLine(key, v), Custom), Spacer(6)]
    case None => []
  }

  /** The field lines of one section of the registration form. */
  function FieldLines(keys: seq<string>, fields: Fields): seq<FlowElement> {
    if keys == [] then []
    else FieldLines(keys[..|keys| - 1], fields) + KeyBlock(keys[|keys| - 1], fields)
  }

  function GenericLines(fields: Fields): seq<string> {
    seq(|fields|, i requires 0 <= i < |fields| => FormLine(fields[i].0, fields[i].1))
  }

  lemma GenericLinesSnoc(fields: Fields, i: nat)
    requires i < |fields|
    ensures GenericLines(fields[..i + 1]) == GenericLines(fields[..i]) + [FormLine(fields[i].0, fields[i].1)]
  {
  }

  function Footer(now: string): seq<FlowElement> {
    [Spacer(30), Paragraph("Documento gerado em " + now, Normal)]
  }

  /** The story of `gerar_pdf_formulario(fields, _, template)` at time `now`. */
  function FormStory(fields: Fields, template: string, now: string): (r: seq<FlowElement>)
    ensures |r| >= 4
    ensures r[|r| - 2] == Spacer(30) && r[|r| - 1] == Paragraph("Documento gerado em " + now, Normal)
  {
    if template == "cadastro_pessoa" then
      [Paragraph("FICHA DE CADASTRO PESSOAL", Title), Spacer(20), Paragraph("DADOS PESSOAIS", Heading2), Spacer(12)]
        + FieldLines(PersonalKeys, fields)
        + [Spacer(20), Paragraph("ENDEREÇO", Heading2), Spacer(12)]
        + FieldLines(AddressKeys, fields)
        + Footer(now)
    else
      [Paragraph("RELATÓRIO DE DADOS", Title), Spacer(20)] + Pairs(GenericLines(fields), 8) + Footer(now)
  }

  /** Field lines of consecutive key lists are consecutive. */
  lemma {:induction false} FieldLinesAppend(a: seq<string>, b: seq<string>, fields: Fields)
    ensures FieldLines(a + b, fields) == FieldLines(a, fields) + FieldLines(b, fields)
    decreases |b|
  {
    if b != [] {
      var n := |b| - 1;
      assert (a + b)[..|a + b| - 1] == a + b[..n];
      assert (a + b)[|a + b| - 1] == b[n];
      assert FieldLines(a + b, fields) == FieldLines(a + b[..n], fields) + KeyBlock(b[n], fields);
      FieldLinesAppend(a, b[..n], fields);
      assert FieldLines(b, fields) == FieldLines(b[..n], fields) + KeyBlock(b[n], fields);
    } else {
      assert a + b == a;
    }
  }

  /** Key `keys[i]` contributes its line (when present) exactly between the
      lines of the keys listed before it and those listed after it. */
  lemma FieldLinesAt(keys: seq<string>, fields: Fields, i: nat)
    requires i < |keys|
    ensures FieldLines(keys, fields)
         == FieldLines(keys[..i], fields) + KeyBlock(keys[i], fields) + FieldLines(keys[i + 1..], fields)
  {
    assert keys == keys[..i] + [keys[i]] + keys[i + 1..];
    FieldLinesAppend(keys[..i] + [keys[i]], keys[i + 1..], fields);
    FieldLinesAppend(keys[..i], [keys[i]], fields);
    assert FieldLines([keys[i]], fields) == KeyBlock(keys[i], fields) by {
      assert [keys[i]][..0] == [];
    }
  }

  /** A section has no field line exactly when none of its keys is present. */
  lemma {:induction false} FieldLinesEmptyIffNoKey(keys: seq<string>, fields: Fields)
    ensures FieldLines(keys, fields) == [] <==> forall k :: k in keys ==> Lookup(fields, k).None?
  {
    if keys != [] {
      var n := |keys| - 1;
      FieldLinesEmptyIffNoKey(keys[..n], fields);
      assert forall k :: k in keys <==> k in keys[..n] || k == keys[n] by {
        assert keys == keys[..n] + [keys[n]];
      }
      assert KeyBlock(keys[n], fields) == [] <==> Lookup(fields, keys[n]).None?;
    }
  }

  /** Entries whose keys a section does not list do not affect it. */
  lemma {:induction false} FieldLinesIgnoreOtherKeys(keys: seq<string>, f1: Fields, f2: Fields)
    requires forall k :: k in keys ==> Lookup(f1, k) == Lookup(f2, k)
    ensures FieldLines(keys, f1) == FieldLines(keys, f2)
  {
    if keys != [] {
      var n := |keys| - 1;
      assert keys[n] in keys;
      FieldLinesIgnoreOtherKeys(keys[..n], f1, f2);
    }
  }

  /** A registration form without any recognised key still has both section
      headings, and no field line under either. */
  lemma PersonFormWithoutKnownKeys(fields: Fields, now: string)
    requires forall k :: k in PersonalKeys + AddressKeys ==> Lookup(fields, k).None?
    ensures FormStory(fields, "cadastro_pessoa", now)
         == [Paragraph("FICHA DE CADASTRO PESSOAL", Title), Spacer(20), Paragraph("DADOS PESSOAIS", Heading2), Spacer(12),
             Spacer(20), Paragraph("ENDEREÇO", Heading2), Spacer(12),
             Spacer(30), Paragraph("Documento gerado em " + now, Normal)]
  {
    FieldLinesEmptyIffNoKey(PersonalKeys, fields);
    FieldLinesEmptyIffNoKey(AddressKeys, fields);
  }

  /** The registration form depends only on the recognised keys. */
  lemma PersonFormIgnoresOtherKeys(f1: Fields, f2: Fields, now: string)
    requires forall k :: k in PersonalKeys + AddressKeys ==> Lookup(f1, k) == Lookup(f2, k)
    ensures FormStory(f1, "cadastro_pessoa", now) == FormStory(f2, "cadastro_pessoa", now)
  {
    FieldLinesIgnoreOtherKeys(PersonalKeys, f1, f2);
    FieldLinesIgnoreOtherKeys(AddressKeys, f1, f2);
  }

  /** Any other template name renders every entry, in order, under a title-cased
      label, each followed by an 8-point spacer. */
  lemma GenericFormShape(fields: Fields, template: string, now: string)
    requires template != "cadastro_pessoa"
    ensures var r := FormStory(fields, template, now);
      && |r| == 4 + 2 * |fields|
      && r[0] == Paragraph("RELATÓRIO DE DADOS", Title) && r[1] == Spacer(20)
      && forall j :: 0 <= j < |fields| ==>
           && r[2 + 2 * j] == Paragraph("<b>" + Label(fields[j].0) + ":</b> " + fields[j].1, Custom)
           && r[3 + 2 * j] == Spacer(8)
  {
    var p := Pairs(GenericLines(fields), 8);
    var r := FormStory(fields, template, now);
    assert r == [Paragraph("RELATÓRIO DE DADOS", Title), Spacer(20)] + p + Footer(now);
    forall j | 0 <= j < |fields|
      ensures r[2 + 2 * j] == p[2 * j] && r[3 + 2 * j] == p[2 * j + 1]
    {
    }
  }

  /** A label has no underscore: each becomes a space, and the label keeps the
      key's length. */
  lemma LabelShape(key: string)
    ensures |Label(key)| == |key| && '_' !in Label(key)
    ensures forall i :: 0 <= i < |key| && key[i] == '_' ==> Label(key)[i] == ' '
  {
    var spaced := PyStr.ReplaceChar(key, '_', ' ');
    var l := PyStr.TitleFrom(spaced, false);
    forall i | 0 <= i < |key| ensures l[i] != '_' && (key[i] == '_' ==> l[i] == ' ') {
      assert spaced[i] != '_';
      assert l[i] == if (if i == 0 then false else PyStr.IsCased(spaced[i - 1])) then PyStr.LowerChar(spaced[i]) else PyStr.UpperChar(spaced[i]);
    }
  }

  // ---------------------------------------------------------------------
  // Tables: gerar_pdf_tabela

  /** The story of `gerar_pdf_tabela(grid, _, titulo)`. */
  function TableStory(grid: seq<seq<string>>, titulo: string): seq<FlowElement> {
    [Paragraph(titulo, Title), Spacer(12), Table(grid)]
  }

}
