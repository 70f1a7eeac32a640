# Provider-inclusion document builder, modelled in Dafny

This project models the core of a small tool. The tool reads a spreadsheet of healthcare-provider inclusion requests. It builds one `operadora` XML document from it and saves that document twice, as `.xml` and as `.rpi`. The model covers what `gerar_arquivos_do_prestador` does before anything is written:

- the table of text cells becomes one element tree, or one of two failures: the sheet is empty, or a column it reads is missing;
- `formatar_data_xml` normalises dates to `dd/mm/yyyy`.

Files and modules:

- `wrappers.dfy` (`Wrappers`): the `Option` type.
- `xml_tree.dfy` (`XmlTree`): an element as a value: tag, attributes, optional text, ordered children.
- `date_normaliser.dfy` (`DateNormaliser`): `formatar_data_xml` (`Normalise`), strftime's `%d/%m/%Y` (`FormatDate`), and a day-first reader of `dd/mm/yyyy` (`ParseDdMmYyyy`) as its inverse.
- `document_builder.dfy` (`DocumentBuilder`): the builder.
  - A row is a `map<string, string>`.
  - `Document` is the whole computation as a function.
  - `BuildDocument` and its row loop `AppendInclusions` are methods proved equal to it.
  - A KeyError is modelled as "the first column in reading order that the row lacks". `ColumnsRead` gives that order and `FirstAbsent` finds the column.
  - `FailureMessage` gives the failure texts.
- `document_properties.dfy` (`DocumentProperties`): lemmas about the shape and order of the tree and about which failure is reported.
- `scenarios.dfy` (`Scenarios`): three concrete one-row inputs and the empty frame.

The date parser (pandas' `to_datetime`) is a parameter `parse: string -> Option<Date>`. `None` stands for the ValueError/TypeError that `formatar_data_xml` catches.

Where the intended behaviour and the code differ, the model follows the code:

- **Contractual columns.** Every one of the 20 columns the builder reads (`RequiredColumns`) is meant to be required. The code reads `tipoContratualizacao` and `registroANSOperadoraIntermediaria` only for rows whose `relacaoOperadora` is `"C"`. So their absence fails the call only when such a row exists (`ContractualColumnsOnlyForC`).
- **Empty sheet.** The emptiness test is pandas' `DataFrame.empty`. It holds for a frame with no rows and also for a frame with no columns (`IsEmptyFrame`).
- **Idempotent dates.** Normalising is meant to be idempotent on `dd/mm/yyyy` text. That holds for any parser that re-reads the dates it returns: whenever it accepts some text as a date, it reads that date's `dd/mm/yyyy` rendering as the same date (`NormaliseIdempotent`). Day-first readers qualify, including one that rejects dates off the calendar such as `31/02/2024` (`DayFirstReaderQualifies`). It fails for a parser that reads ambiguous slash dates month first, as pandas' default does: `05/03/2024` becomes `03/05/2024`, and normalising that again gives `05/03/2024` (`MonthFirstNotIdempotent`).
- **Missing-column message.** The message embeds `str()` of the KeyError, which is the key's repr. The column name therefore appears in doubled quotes: `A coluna ''uf'' não foi encontrada`.

## Model

| member | source | states |
|---|---|---|
| `DateNormaliser.Pad2` | xmlquerenomeia.py:41 | a `%d`/`%m` field is two digits whose value is the day or month, zero-padded |
| `DateNormaliser.Pad4` | xmlquerenomeia.py:41 | a `%Y` field is four digits whose value is the year |
| `DateNormaliser.FormatDate` | xmlquerenomeia.py:41 | the formatted date always has the shape `dd/mm/yyyy`: ten characters, `/` at positions 2 and 5, digits elsewhere |
| `DateNormaliser.ParseFormatted` | xmlquerenomeia.py:41 | reading a formatted date day first gives back the same day, month and year |
| `DateNormaliser.FormatParsed` | xmlquerenomeia.py:41 | conversely, any `dd/mm/yyyy` text that reads as a date is exactly that date's formatting |
| `DateNormaliser.Normalise` | xmlquerenomeia.py:37-43 | the result is `""` exactly when the cell is empty or the parser rejects it; otherwise it is `dd/mm/yyyy` text that reads back as the parsed date |
| `DateNormaliser.DayFirstReaderQualifies` | xmlquerenomeia.py:41 | day-first readers meet the premise of idempotence: both the plain `dd/mm/yyyy` reader and one that also rejects dates off the Gregorian calendar re-read every date they return |
| `DateNormaliser.NormaliseIdempotent` | xmlquerenomeia.py:37-43 | normalising an already normalised value changes nothing, for any parser that re-reads the dates it returns |
| `DateNormaliser.MonthFirstNotIdempotent` | xmlquerenomeia.py:37-43 | with a parser that reads ambiguous slash dates month first, `05/03/2024` normalises to `03/05/2024`, and normalising that again gives a different value |
| `DocumentBuilder.FirstAbsent` | xmlquerenomeia.py:102-104 | the KeyError position: every column before it is present and the column at it is absent (or there is none) |
| `DocumentBuilder.IsEmptyFrame` | xmlquerenomeia.py:22 | `df.empty`: no rows, or rows without cells; no contract of its own, `EmptyInputFails` ties it to the empty-sheet failure |
| `DocumentBuilder.InclusionElement` | xmlquerenomeia.py:47-76 | one `inclusaoPrestador` for a complete row; no contract of its own, specified by `InclusionLayout`, `InclusionTrailer`, `InclusionTags` and `ContractualFieldsExactlyForC` |
| `DocumentBuilder.InclusionOf` | xmlquerenomeia.py:47-76 | the loop body for one row: its inclusion or the first absent column; no contract of its own, specified by `InclusionFailure` and the layout lemmas |
| `DocumentBuilder.Tree` | xmlquerenomeia.py:29-35 | the `operadora` root with the header leaves and `solicitacao`; no contract of its own, specified by `HeaderFromFirstRow` and `OneInclusionPerRow` |
| `DocumentBuilder.Document` | xmlquerenomeia.py:21-76 | the whole build as one value; no contract of its own, specified by `EmptyInputFails`, `HeaderFromFirstRow`, `OneInclusionPerRow`, `BuiltExactlyWhenColumnsPresent`, `MissingColumnIsFirstAbsent` and `ContractualColumnsOnlyForC`, and implemented by `BuildDocument` |
| `DocumentBuilder.KeyErrorText` | xmlquerenomeia.py:104 | `str()` of a KeyError: the column name between single quotes; no contract of its own, `FailureMessage` proves the message mentions the name |
| `DocumentBuilder.PresentInclusionColumns` | xmlquerenomeia.py:50-76 | a row passes all the lookups of the loop body exactly when it has the 14 named columns, plus the contractual pair if it is a "C" row |
| `DocumentBuilder.FailureMessage` | xmlquerenomeia.py:102-104 | an empty sheet gives the "empty or unreadable" text of line 23; a missing column gives a different text that mentions the column's name |
| `DocumentBuilder.BuildDocument` | xmlquerenomeia.py:21-76 | the step-by-step builder returns exactly the outcome `Document` defines: an empty sheet first, then the first row's header lookups, then the rows |
| `DocumentBuilder.AppendInclusions` | xmlquerenomeia.py:46-76 | the row loop yields the gathered results of the rows in order, stopping at the first KeyError |
| `DocumentBuilder.PrefixFailureIsFinal` | xmlquerenomeia.py:46-76 | once a row has failed, the rows after it cannot change the outcome |
| `DocumentBuilder.GatherInOrder` | xmlquerenomeia.py:46-47 | the loop succeeds exactly when every row does; it then yields one inclusion per row, the i-th from row i |
| `DocumentBuilder.FirstFailure` | xmlquerenomeia.py:46-76 | a failed loop reports the KeyError of the first failing row; every earlier row succeeded |
| `DocumentProperties.InclusionFailure` | xmlquerenomeia.py:50-76 | a row yields an inclusion exactly when it has every column the loop body reads; otherwise the failure names the first absent one in reading order |
| `DocumentProperties.InclusionLayout` | xmlquerenomeia.py:47-61 | an inclusion has 14 children for a "C" row and 12 otherwise; the first seven copy `classificacao` … `relacaoOperadora` verbatim; for "C" the contractual pair follows at positions 7 and 8 |
| `DocumentProperties.InclusionTrailer` | xmlquerenomeia.py:63-76 | after that come both dates, normalised and present even when `""`, then the two flags verbatim, then `vinculacao` last, with its three verbatim children: two `numeroRegistroPlanoVinculacao` tags (from two columns) and `codigoPlanoOperadoraVinculacao` |
| `DocumentProperties.InclusionTags` | xmlquerenomeia.py:47-76 | the children's tags in order are the seven columns, the pair only for "C", the two dates, the two flags, and `vinculacao`; the block's tags are the three linkage tags |
| `DocumentProperties.ContractualFieldsExactlyForC` | xmlquerenomeia.py:59-61 | `tipoContratualizacao` and `registroANSOperadoraIntermediaria` are emitted if and only if `relacaoOperadora` is exactly `"C"` |
| `DocumentProperties.EmptyInputFails` | xmlquerenomeia.py:21-23 | the call fails as empty exactly for an empty frame; in particular zero rows always give that failure and no tree |
| `DocumentProperties.HeaderFromFirstRow` | xmlquerenomeia.py:26-35 | the root is `operadora` with the schema-location attribute; its children are `registroANS`, `cnpjOperadora` and `solicitacao`; those two fields and `solicitacao`'s first two children, `nossoNumero` and `isencaoOnus`, are the first row's cells |
| `DocumentProperties.OneInclusionPerRow` | xmlquerenomeia.py:46-47 | after its two header children, `solicitacao` holds exactly one inclusion per row, the i-th built from row i |
| `DocumentProperties.BuiltExactlyWhenColumnsPresent` | xmlquerenomeia.py:21-76 | a tree is built if and only if the frame is not empty, the first row has the four header columns, and every row has every column its inclusion reads |
| `DocumentProperties.MissingColumnIsFirstAbsent` | xmlquerenomeia.py:31-76 | a missing-column failure names one of the 20 columns the builder reads, which some row lacks. It is either the first absent header column of row 0, or the first absent column of the first row that fails, with the header and all earlier rows complete |
| `DocumentProperties.ContractualColumnsOnlyForC` | xmlquerenomeia.py:59-61 | without a "C" row, the absence of the contractual columns never fails the call |
| `Scenarios.ContractualRowScenario` | xmlquerenomeia.py:56-64 | a complete "C" row with contract date `2024-03-15` gives 14 children, the contractual pair at 7 and 8, and `dataContratualizacao` reading `15/03/2024` |
| `Scenarios.OtherRowScenario` | xmlquerenomeia.py:59-64 | an "X" row with an empty date gives 12 children, no contractual tags, and both date elements reading `""` |
| `Scenarios.MissingUfScenario` | xmlquerenomeia.py:53 | a row without `uf` fails with that column, and the message mentions it |
| `Scenarios.EmptyFrameScenario` | xmlquerenomeia.py:22-23 | zero rows fail as empty, with the "empty or unreadable" message |

## Left out

- Loading the spreadsheet (`pd.read_excel(..., dtype=str).fillna("")`, line 21) is file I/O through a foreign library. The model takes the resulting table of string cells as its input.
- pandas' `to_datetime` (line 41) is a format-guessing foreign parser. It is the parameter `parse`. Exceptions it might raise other than ValueError/TypeError would reach the generic handler, and that handler is not modelled.
- `DateNormaliser.Date` does not enforce calendar validity (a 30 February is representable). It limits years to four digits, which covers pandas' timestamp range 1677-2262.
- `DateNormaliser.NormaliseIdempotent` is weaker than unconditional idempotence on `dd/mm/yyyy` text. It assumes a parser that re-reads the dates it returns (any `dd/mm/yyyy` day-first reader, calendar-checking or not), because pandas' default parser reads ambiguous slash dates month first (`MonthFirstNotIdempotent` shows the result).
- XML serialisation through lxml (the `xsi` namespace declaration, encoding, pretty-printing, the XML declaration; lines 29 and 88-93) is library output. Only the root's schema-location attribute is kept, under its lxml key.
- Writing the output (lines 79-100) is filesystem and clock I/O. This covers the `saida` directory, the timestamped base name, the two writes and the success message with absolute paths. The `(True, message)` success pair is not modelled either. As a result, the claim that both files are byte-identical is not modelled.
- The generic `except Exception` branch (lines 105-107) has no checkable meaning beyond "returns failure". One example is lxml refusing cell text with characters XML forbids.
- The Tk GUI (lines 113-179) is presentation code.
- lxml nodes are updated in place: `solicitacao` is attached to the root before its children are added, and each `inclusaoPrestador` before its fields. The model builds the same tree as values, with the row loop appending to a sequence. Nodes are never shared, so no aliasing is lost. The partial tree a KeyError leaves behind is discarded in both.
- `DocumentBuilder.KeyErrorText` models Python's repr of the key as the name between single quotes. That is exact for the 20 column names the builder reads (letters and digits only), which are the only names a failure can carry (`MissingColumnIsFirstAbsent`).
