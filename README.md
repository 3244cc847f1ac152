# GeradorPDF in Dafny

`gerador_pdf.py` turns plain text, registration records, form data and tables
into PDF documents. Each operation of its `GeradorPDF` class fills a content
list (the *story*) element by element and hands it to reportlab's
`SimpleDocTemplate.build`. The file converters read a `.txt`, `.csv` or `.docx`
file, choose a default output name, and call one of those operations.
`converter_arquivo_para_pdf` picks the converter from the file's extension.

This project models everything up to the hand-over. It covers what each
operation puts in the story, in which order and with which styles, and which
path the document is written to.

- `wrappers.dfy` (`Wrappers`): `Option`, which stands for Python's `None`.
- `pystr.dfy` (`PyStr`): the Python `str` operations the generator uses, over
  `seq<char>`. These are:
  - `split` and `join` on one character;
  - `strip`, with Python's whitespace set;
  - `replace`;
  - `upper`, `lower` and `title`, for ASCII and Latin-1.
- `story.dfy` (`Story`): the story elements (`Paragraph`, `Spacer`, `Table`)
  and the paragraph styles. It also holds the specification of each story as
  a function (`TextStory`, `RecordStory`, `FormStory`, `TableStory`) and the
  lemmas about them.
- `gerador.dfy` (`Gerador`): the generation operations. Each is a method that
  grows a local story with loops, as the source does. Each is proved to hand
  over exactly the story its specification function describes.
- `conversao.dfy` (`Conversao`): the converters, the default output names and
  the dispatcher.

Everything outside the generator is passed in as an `Env` value:
- the timestamp string;
- whether `doc.build` succeeds for a path and a story;
- what each file reader returns, or `None` when reading raises.

An operation's boolean result is whether the build succeeded. A converter
returns false when reading failed, and then builds nothing. A dictionary is
modelled as its `items()`: a sequence of (key, `str(value)`) pairs in
insertion order.

The default output name comes from a case-sensitive `replace`. So a name
whose extension is upper-case (`NOTAS.TXT`, `DADOS.CSV`, `CARTA.DOCX`) keeps
its name: the dispatcher still routes it by its lower-cased extension, and
the PDF is written to the path of the file it was read from. The same
happens to any name routed only by a type override when the name does not
contain the extension. `DefaultNameUnchangedIffAbsent` states when this
happens, and `UpperCaseTxtKeepsName` shows one case.

## Model

| member | source | states |
|---|---|---|
| PyStr.LeadingSpaces | gerador_pdf.py:55 | The count of leading whitespace is at most the length. Every character before it is whitespace, and the one at it is not. |
| PyStr.TrailingSpaces | gerador_pdf.py:55 | The same for trailing whitespace. |
| PyStr.StripEmptyIffBlank | gerador_pdf.py:55 | `line.strip()` is empty exactly when every character of the line is whitespace. |
| PyStr.Split | gerador_pdf.py:53 | `split(sep)` gives one more piece than there are separators, and no piece contains the separator. |
| PyStr.SplitAppend | gerador_pdf.py:53 | Splitting `a + sep + b` gives the pieces of `a` followed by the pieces of `b`. |
| PyStr.SplitWithoutSep | gerador_pdf.py:53 | A string without the separator splits into itself alone. |
| PyStr.SplitExtendsFirst | gerador_pdf.py:53 | Prepending a non-separator character extends the first piece by it. |
| PyStr.JoinCons | gerador_pdf.py:196 | Joining a part before a non-empty list puts the separator between the part and the join of the rest. |
| PyStr.JoinExtendsFirst | gerador_pdf.py:196 | Extending the first part by a character extends the joined string by that character. |
| PyStr.JoinSplitExtendsFirst | gerador_pdf.py:196 | The split/join round trip survives prepending a non-separator character. |
| PyStr.JoinSplitStartsWithSep | gerador_pdf.py:196 | The split/join round trip survives prepending the separator. |
| PyStr.JoinSplit | gerador_pdf.py:196 | Joining the pieces of a split gives back the string, for every string. |
| PyStr.SplitJoin | gerador_pdf.py:196 | Splitting the join of at least one separator-free part gives back the parts. |
| PyStr.LastSegment | gerador_pdf.py:288 | `split('.')[-1]` contains no dot. |
| PyStr.LastSegmentWithoutSep | gerador_pdf.py:288 | A name without a dot is its own last segment. |
| PyStr.LastSegmentAfterSep | gerador_pdf.py:288 | The last segment of `a + '.' + e` is `e` when `e` has no dot. |
| PyStr.ReplaceAbsent | gerador_pdf.py:150 | `replace` returns a string without the pattern unchanged. |
| PyStr.ReplaceNoLonger | gerador_pdf.py:187 | Replacing by a replacement that is no longer never lengthens the string. |
| PyStr.ReplaceSameLength | gerador_pdf.py:150 | Replacing by a replacement of the same length keeps the length. |
| PyStr.DotFreePrefixCopied | gerador_pdf.py:150 | When the replacement starts with a dot, a dot-free prefix of the result is the same prefix of the input. |
| PyStr.OccursPastPrefix | gerador_pdf.py:150 | An occurrence past a prefix is exactly an occurrence in the rest, shifted by the prefix's length. |
| PyStr.NoOccurrenceAcrossReplacement | gerador_pdf.py:150 | A dot extension does not occur in a different one followed by text that lacks it. |
| PyStr.NoOccurrenceAtCopiedStart | gerador_pdf.py:150 | Where the input does not start with the extension, the result of `replace` does not either. |
| PyStr.ReplaceLeavesNoOccurrence | gerador_pdf.py:150 | Replacing one dot extension by another whose second character differs leaves no occurrence of the first, for every input. |
| PyStr.ReplaceUnchangedIffAbsent | gerador_pdf.py:150 | With a different replacement that is no longer, the result equals the input exactly when the pattern does not occur. |
| PyStr.TitleFrom | gerador_pdf.py:228 | `title()` keeps the length. A character after a cased one is lower-cased; every other character is upper-cased. |
| PyStr.CaseMapsKeepCased | gerador_pdf.py:228 | Upper- and lower-casing keep a character's casedness, and each is idempotent. |
| Story.Body | gerador_pdf.py:53-58 | Each line contributes exactly one element, in order. A line with visible text becomes a body paragraph; any other line becomes a 6-point spacer. |
| Story.BodySnoc | gerador_pdf.py:54-58 | One more line adds exactly that line's element at the end. |
| Story.TextStoryShape | gerador_pdf.py:41-58 | A truthy title gives the title paragraph and a 12-point spacer first, and a missing or empty title gives nothing. Then one element per line follows: blank lines give 6-point spacers, all other lines give paragraphs. |
| Story.BodyCounts | gerador_pdf.py:53-58 | N non-blank and M blank lines give N paragraphs and M spacers. |
| Story.Pairs | gerador_pdf.py:92-95 | Each text gives a body paragraph followed by a spacer of the given height, in order, so the result is twice as long. |
| Story.PairsSnoc | gerador_pdf.py:249-252 | One more text adds exactly its paragraph and spacer at the end. |
| Story.RecordLinesSnoc | gerador_pdf.py:92-93 | One more entry adds exactly its `<b>KEY:</b> value` line at the end. |
| Story.RecordStory | gerador_pdf.py:81-95 | A record with n entries gives 4 + 2n elements. First come the title, a 12-point spacer, "Gerado em: " with the timestamp, and a 20-point spacer. Then entry j gives the paragraph `<b>` + upper(key) + `:</b> ` + value, followed by a 6-point spacer. |
| Story.Lookup | gerador_pdf.py:227-228 | `campo in dados` fails exactly when no entry has that key. When it holds, the value returned belongs to an entry with that key. |
| Story.GenericLinesSnoc | gerador_pdf.py:249-250 | One more entry adds exactly its labelled line at the end. |
| Story.FormStory | gerador_pdf.py:254-258 | Both templates end with a 30-point spacer and then "Documento gerado em " with the timestamp. |
| Story.FieldLinesAppend | gerador_pdf.py:225-242 | The field lines of two consecutive key lists are the lines of the first list followed by those of the second. |
| Story.FieldLinesAt | gerador_pdf.py:226-230 | A listed key's lines sit between those of the keys listed before it and those listed after it, so the output follows list order. |
| Story.FieldLinesEmptyIffNoKey | gerador_pdf.py:226-230 | A section has no field lines exactly when none of its keys is present, so absent keys are skipped. |
| Story.FieldLinesIgnoreOtherKeys | gerador_pdf.py:226-242 | A section depends only on the values of the keys it lists. |
| Story.PersonFormWithoutKnownKeys | gerador_pdf.py:216-242 | Without any recognised key, the "cadastro_pessoa" form still has both section headings and their spacers, and nothing else before the footer. |
| Story.PersonFormIgnoresOtherKeys | gerador_pdf.py:216-242 | Extra keys do not change the "cadastro_pessoa" form. |
| Story.GenericFormShape | gerador_pdf.py:244-252 | Any other template gives its title and a 20-point spacer first. Then entry j gives `<b>` + label + `:</b> ` + value and an 8-point spacer, in input order. |
| Story.LabelShape | gerador_pdf.py:228 | A label keeps the key's length and contains no underscore. Every underscore becomes a space. |
| Gerador.AppendLines | gerador_pdf.py:53-58 | The line loop appends exactly the body of the lines to the story it started from. |
| Gerador.GerarPdfTexto | gerador_pdf.py:27-66 | The document handed over is at the given path, and its story is the text story of the text and title. The result is whether it was built. |
| Gerador.AppendRecordLines | gerador_pdf.py:92-95 | The entry loop appends exactly one line and one 6-point spacer per entry, in order. |
| Gerador.GerarPdfCadastro | gerador_pdf.py:68-103 | The story handed over is the record story of the entries at the current timestamp. |
| Gerador.GerarPdfTabela | gerador_pdf.py:105-142 | The story is the title, a 12-point spacer and the caller's grid unchanged as one table. An omitted title is "Relatório de Dados". |
| Gerador.AppendSection | gerador_pdf.py:225-230 | One section's loop appends exactly the field lines of its key list. |
| Gerador.AppendGenericLines | gerador_pdf.py:249-252 | The generic template's loop appends one labelled line and one 8-point spacer per entry, in order. |
| Gerador.GerarPdfFormulario | gerador_pdf.py:203-266 | The story handed over is the form story of the entries, the template and the timestamp. |
| Gerador.CriarPdfSimples | gerador_pdf.py:270-273 | It behaves exactly like `gerar_pdf_texto`. |
| Gerador.SalvarCadastroComoPdf | gerador_pdf.py:276-279 | It behaves exactly like `gerar_pdf_cadastro`. |
| Conversao.DefaultNameUnchangedIffAbsent | gerador_pdf.py:150 | The default output name equals the input name exactly when the extension occurs nowhere in it. |
| Conversao.DefaultNameKeepsLength | gerador_pdf.py:167 | Replacing ".txt" or ".csv" by ".pdf" keeps the name's length. |
| Conversao.DefaultNameLeavesNoOccurrence | gerador_pdf.py:150 | For every input name, the default output name contains no occurrence of the extension: every occurrence is replaced, not only a trailing one. |
| Conversao.DefaultNameReplacesEveryOccurrence | gerador_pdf.py:150 | An example of the above: "a.txt.txt" becomes "a.pdf.pdf". |
| Conversao.ConverterTxtParaPdf | gerador_pdf.py:144-159 | An unreadable file gives false and nothing is built. Otherwise the file's text is rendered with the title "Documento Convertido" at the given name or the default one. |
| Conversao.ConverterCsvParaPdf | gerador_pdf.py:161-179 | An unparsable file gives false. Otherwise the table titled "Dados do CSV" holds the header row followed by the data rows. |
| Conversao.ConverterDocxParaPdf | gerador_pdf.py:181-201 | An unreadable document gives false. Otherwise the paragraphs joined by line breaks are rendered with the title "Documento Word Convertido". |
| Conversao.CsvTable | gerador_pdf.py:173 | The grid has exactly one row more than the data. Its first row is the header and the rest are the data rows. |
| Conversao.CsvGridExample | gerador_pdf.py:173 | A two-row sheet gives the header and its two rows, in order. |
| Conversao.DocxParagraphsSurvive | gerador_pdf.py:193-197 | Paragraphs without line breaks come back one per line after the join and the text builder's split. |
| Conversao.DocxWithoutParagraphs | gerador_pdf.py:196-197 | A document without paragraphs still gives one 6-point spacer after the title. |
| Conversao.BlankLineSplit | gerador_pdf.py:53 | Two lines around an empty line split into three pieces. |
| Conversao.BlankLineBecomesSpacer | gerador_pdf.py:53-58 | Two non-blank lines around an empty one give a paragraph, a 6-point spacer and a paragraph. |
| Conversao.ExtensionAfterLastDot | gerador_pdf.py:288 | A name's extension is the lower-cased text after its last dot. |
| Conversao.ExtensionWithoutDot | gerador_pdf.py:288 | A name without a dot is its own lower-cased extension. |
| Conversao.SupportedExtensionsAreLowerCase | gerador_pdf.py:292-297 | Lower-casing "txt", "csv" and "docx" leaves them as they are. |
| Conversao.UpperCaseExtensionsLower | gerador_pdf.py:290 | "TXT", "Txt", "CSV" and "DOCX" lower-case to the supported extensions. |
| Conversao.OverrideRoutes | gerador_pdf.py:289-297 | A type override is routed case-insensitively, whatever the name says. |
| Conversao.UnknownOverrideRefused | gerador_pdf.py:290-300 | An unknown override is refused even when the name has a supported extension. |
| Conversao.UpperCaseNameRoutes | gerador_pdf.py:288-295 | ".CSV" is routed to the spreadsheet converter. |
| Conversao.LastDotRoutes | gerador_pdf.py:288-297 | Only the last extension counts: ".txt.docx" goes to the word-processing converter. |
| Conversao.UnknownExtensionRefused | gerador_pdf.py:298-300 | ".xyz" is refused. |
| Conversao.NameWithoutDotRoutes | gerador_pdf.py:286-300 | A dot-free name is routed to a converter exactly when the whole name, lower-cased, is "txt", "csv" or "docx". |
| Conversao.UpperCaseTxtRoutes | gerador_pdf.py:288-293 | ".TXT" is routed to the text converter. |
| Conversao.LowerTxtAbsent | gerador_pdf.py:150 | A dot-free stem followed by ".TXT" does not contain ".txt". |
| Conversao.UpperCaseTxtKeepsName | gerador_pdf.py:149-150 | `replace` is case-sensitive, so the default output name for "stem.TXT" is the input name itself. |
| Conversao.ConverterArquivoParaPdf | gerador_pdf.py:282-300 | The extension is the lower-cased override, or else the lower-cased last dot segment. "txt", "csv" and "docx" call the matching converter with the default name and return its result. Any other extension returns false and builds nothing. |

## Left out

- reportlab rendering is not modelled. This covers `SimpleDocTemplate`, the page size, the style objects and the fixed `TableStyle`, as well as Paragraph markup parsing, fonts and pagination. `doc.build` is an opaque predicate of the path and the story, and the styles are the `Style` values.
- The constructor of `GeradorPDF` is not modelled as an object. Its two fields are set once and only read afterwards, so the operations are methods over a local story.
- File reading is not modelled: `open(...).read()`, `pd.read_csv` and `docx.Document`. Each reader is a function from the path to its content, or to `None` when it raises. Encodings, CSV dialects and pandas' typing of cells are not modelled, and spreadsheet cells are strings.
- `datetime.now().strftime(...)` is the `now` string of the environment. Two operations with the same environment therefore see the same time.
- `print` calls and the catch-all `except` are folded into the boolean result.
- Values are kept as `str(value)`, and keys as strings. The `AttributeError` that `chave.upper()` raises for a key that is not a string is not modelled.
- Dictionaries are sequences of items. Python dictionaries have distinct keys, and the model's `Lookup` returns the first entry for a key.
- Case mapping covers ASCII and Latin-1 only. The model leaves ß, µ and ÿ unchanged under `upper()` and `title()`, whereas Python maps them outside Latin-1 or, for ß, to two characters. So `PyStr.TitleFrom` and `Story.LabelShape` keep the length even where Python's `title()` would lengthen a key that starts a word with ß. Other scripts are not modelled.
- A spacer's width is always 1 in the source, so only its height is kept.
- The `__main__` example block and the unused imports (`os`, `json`, `csv`, `canvas`, `PIL`, `letter`, `inch`) are not modelled.
