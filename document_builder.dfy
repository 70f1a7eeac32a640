/**
 * The tree-building part of `gerar_arquivos_do_prestador`: a table of text
 * cells becomes one `operadora` document holding a header taken from the
 * first row and one `inclusaoPrestador` per row, or the call fails because
 * the table is empty or a column it reads is missing.
 *
 * A row maps column names to cells; blank cells are already "" (the
 * spreadsheet is read with `dtype=str` and `fillna("")`). Reading a column
 * a row does not have raises KeyError, which aborts the whole call, so the
 * failure names the first absent column in reading order and no tree is
 * produced.
 */
module DocumentBuilder {
  import opened Wrappers
  import opened XmlTree
  import opened DateNormaliser

  type Row = map<string, string>

  /** A row-level computation that either succeeds or hits a KeyError on `column`. */
  datatype Lookup<T> = Found(value: T) | Missing(column: string)

  /** What the builder hands to the writing phase, or why it stopped. */
  datatype Outcome = Built(document: Element) | EmptySheet | MissingColumn(column: string)

  // Element tags that are not column names
  const Operadora := "operadora"
  const Solicitacao := "solicitacao"
  const InclusaoPrestador := "inclusaoPrestador"
  const Vinculacao := "vinculacao"

  // Column names; a leaf copied from a column carries the column's name as its tag
  const RegistroAns := "registroANS"
  const CnpjOperadora := "cnpjOperadora"
  const NossoNumero := "nossoNumero"
  const IsencaoOnus := "isencaoOnus"
  const Classificacao := "classificacao"
  const CnpjCpf := "cnpjCpf"
  const Cnes := "cnes"
  const Uf := "uf"
  const CodigoMunicipioIbge := "codigoMunicipioIBGE"
  const RazaoSocial := "razaoSocial"
  const RelacaoOperadora := "relacaoOperadora"
  const TipoContratualizacao := "tipoContratualizacao"
  const RegistroAnsIntermediaria := "registroANSOperadoraIntermediaria"
  const DataContratualizacao := "dataContratualizacao"
  const DataInicioPrestacaoServico := "dataInicioPrestacaoServico"
  const DisponibilidadeServico := "disponibilidadeServico"
  const UrgenciaEmergencia := "urgenciaEmergencia"
  const NumeroRegistroPlano := "numeroRegistroPlanoVinculacao"
  const NumeroRegistroPlano1 := "numeroRegistroPlanoVinculacao1"
  const CodigoPlanoOperadora := "codigoPlanoOperadoraVinculacao"

  /** The root's schema-location attribute, in lxml's `{namespace}name` notation. */
  const SchemaLocationKey := "{http://www.w3.org/2001/XMLSchema-instance}noNamespaceSchemaLocation"
  const SchemaLocation := "SolicitacaoInclusaoPrestador.xsd"

  /** The header columns, read from the first row in this order. */
  const HeaderColumns: seq<string> := [RegistroAns, CnpjOperadora, NossoNumero, IsencaoOnus]
  /** The seven columns every inclusion copies first, in order. */
  const DirectColumns: seq<string> := [Classificacao, CnpjCpf, Cnes, Uf, CodigoMunicipioIbge, RazaoSocial, RelacaoOperadora]
  /** The two columns read and emitted only for a contractual ("C") row. */
  const ContractualColumns: seq<string> := [TipoContratualizacao, RegistroAnsIntermediaria]
  const DateColumns: seq<string> := [DataContratualizacao, DataInicioPrestacaoServico]
  const FlagColumns: seq<string> := [DisponibilidadeServico, UrgenciaEmergencia]
  /** The columns feeding the `vinculacao` block, and the tags they get there. */
  const LinkColumns: seq<string> := [NumeroRegistroPlano, NumeroRegistroPlano1, CodigoPlanoOperadora]
  const LinkTags: seq<string> := [NumeroRegistroPlano, NumeroRegistroPlano, CodigoPlanoOperadora]

  /** Every column the builder can read. */
  const RequiredColumns: seq<string> := HeaderColumns + DirectColumns + ContractualColumns + DateColumns + FlagColumns + LinkColumns

  /**
   * pandas' `DataFrame.empty`: no rows, or no columns (so every row is
   * without cells).
   */
  predicate IsEmptyFrame(t: seq<Row>)
  {
    forall i :: 0 <= i < |t| ==> t[i] == map[]
  }

  /** The row's relationship to the operator is exactly "C". */
  predicate IsContractual(row: Row)
  {
    RelacaoOperadora in row && row[RelacaoOperadora] == "C"
  }

  /** The columns one inclusion reads, in the order the loop body reads them. */
  function ColumnsRead(row: Row): seq<string>
  {
    DirectColumns + (if IsContractual(row) then ContractualColumns else []) + DateColumns + FlagColumns + LinkColumns
  }

  predicate AllPresent(row: Row, cols: seq<string>)
  {
    forall j :: 0 <= j < |cols| ==> cols[j] in row
  }

  /**
   * The position of the first column of `cols` the row lacks (|cols| when
   * there is none): where reading the columns in order raises KeyError.
   */
  function FirstAbsent(row: Row, cols: seq<string>): (k: nat)
    ensures k <= |cols|
    ensures forall j :: 0 <= j < k ==> cols[j] in row
    ensures k < |cols| ==> cols[k] !in row
  {
    if |cols| == 0 then 0
    else if cols[0] !in row then 0
    else 1 + FirstAbsent(row, cols[1..])
  }

  /** Every column an inclusion reads is present: the row can be turned into an inclusion. */
  predicate HasInclusionColumns(row: Row)
  {
    && Classificacao in row && CnpjCpf in row && Cnes in row && Uf in row
    && CodigoMunicipioIbge in row && RazaoSocial in row && RelacaoOperadora in row
    && (IsContractual(row) ==> TipoContratualizacao in row && RegistroAnsIntermediaria in row)
    && DataContratualizacao in row && DataInicioPrestacaoServico in row
    && DisponibilidadeServico in row && UrgenciaEmergencia in row
    && NumeroRegistroPlano in row && NumeroRegistroPlano1 in row && CodigoPlanoOperadora in row
  }

  /** Reading the columns in order succeeds exactly when the named columns are all there. */
  lemma PresentInclusionColumns(row: Row)
    ensures AllPresent(row, ColumnsRead(row)) <==> HasInclusionColumns(row)
  {
    var cols := ColumnsRead(row);
    var k := if IsContractual(row) then 2 else 0;
    assert cols[..7] == DirectColumns;
    assert cols[7..7 + k] == if IsContractual(row) then ContractualColumns else [];
    assert cols[7 + k..] == [DataContratualizacao, DataInicioPrestacaoServico,
                             DisponibilidadeServico, UrgenciaEmergencia, NumeroRegistroPlano, NumeroRegistroPlano1, CodigoPlanoOperadora];
    if AllPresent(row, cols) {
      assert cols[0] in row && cols[1] in row && cols[2] in row && cols[3] in row;
      assert cols[4] in row && cols[5] in row && cols[6] in row;
      assert cols[7 + k] in row && cols[8 + k] in row && cols[9 + k] in row && cols[10 + k] in row;
      assert cols[11 + k] in row && cols[12 + k] in row && cols[13 + k] in row;
      if IsContractual(row) {
        assert cols[7] in row && cols[8] in row;
      }
    }
  }

  /** The leaf `SubElement(parent, column).text = row[column]` creates. */
  function Verbatim(row: Row, column: string): Element
    requires column in row
  {
    Leaf(column, row[column])
  }

  /** The seven cells every inclusion copies first. */
  function DirectLeaves(row: Row): seq<Element>
    requires HasInclusionColumns(row)
  {
    [Verbatim(row, Classificacao), Verbatim(row, CnpjCpf), Verbatim(row, Cnes), Verbatim(row, Uf),
     Verbatim(row, CodigoMunicipioIbge), Verbatim(row, RazaoSocial), Verbatim(row, RelacaoOperadora)]
  }

  /** The contractual pair, emitted only when relacaoOperadora is "C". */
  function ContractualLeaves(row: Row): seq<Element>
    requires HasInclusionColumns(row)
  {
    if IsContractual(row) then [Verbatim(row, TipoContratualizacao), Verbatim(row, RegistroAnsIntermediaria)]
    else []
  }

  /** The two normalised dates and the two flags, always emitted. */
  function DateAndFlagLeaves(parse: string -> Option<Date>, row: Row): seq<Element>
    requires HasInclusionColumns(row)
  {
    [Leaf(DataContratualizacao, Normalise(parse, row[DataContratualizacao])),
     Leaf(DataInicioPrestacaoServico, Normalise(parse, row[DataInicioPrestacaoServico])),
     Verbatim(row, DisponibilidadeServico), Verbatim(row, UrgenciaEmergencia)]
  }

  /** The `vinculacao` block; its first two children share one tag. */
  function Linkage(row: Row): Element
    requires HasInclusionColumns(row)
  {
    Node(Vinculacao, [
      Leaf(NumeroRegistroPlano, row[NumeroRegistroPlano]),
      Leaf(NumeroRegistroPlano, row[NumeroRegistroPlano1]),
      Verbatim(row, CodigoPlanoOperadora)])
  }

  /** One `inclusaoPrestador` for a row that has every column it reads. */
  function InclusionElement(parse: string -> Option<Date>, row: Row): Element
    requires HasInclusionColumns(row)
  {
    Node(InclusaoPrestador, DirectLeaves(row) + ContractualLeaves(row) + DateAndFlagLeaves(parse, row) + [Linkage(row)])
  }

  /** The loop body for one row: its inclusion, or the first column it lacks. */
  function InclusionOf(parse: string -> Option<Date>, row: Row): Lookup<Element>
  {
    var cols := ColumnsRead(row);
    var k := FirstAbsent(row, cols);
    if k < |cols| then Missing(cols[k])
    else PresentInclusionColumns(row); Found(InclusionElement(parse, row))
  }

  /** The loop body's result for every row, in row order. */
  function RowLookups(parse: string -> Option<Date>, t: seq<Row>): seq<Lookup<Element>>
  {
    seq(|t|, i requires 0 <= i < |t| => InclusionOf(parse, t[i]))
  }

  /**
   * Running lookups one after the other: all their values in order, or the
   * KeyError of the first one that fails (later ones are never reached).
   */
  function Gather<T>(ls: seq<Lookup<T>>): Lookup<seq<T>>
    decreases |ls|
  {
    if ls == [] then Found([])
    else match Gather(ls[..|ls| - 1])
      case Missing(c) => Missing(c)
      case Found(init) =>
        match ls[|ls| - 1]
        case Missing(c) => Missing(c)
        case Found(v) => Found(init + [v])
  }

  /** The `operadora` root for header row `first` and the given inclusions. */
  function Tree(first: Row, inclusions: seq<Element>): Element
    requires AllPresent(first, HeaderColumns)
  {
    assert HeaderColumns[0] in first && HeaderColumns[1] in first;
    assert HeaderColumns[2] in first && HeaderColumns[3] in first;
    Element(Operadora, map[SchemaLocationKey := SchemaLocation], None, [
      Verbatim(first, RegistroAns),
      Verbatim(first, CnpjOperadora),
      Node(Solicitacao, [Verbatim(first, NossoNumero), Verbatim(first, IsencaoOnus)] + inclusions)])
  }

  /** Lines 21-76 with the error returns at 22-23 and 102-104, as one value. */
  function Document(parse: string -> Option<Date>, t: seq<Row>): Outcome
  {
    if IsEmptyFrame(t) then EmptySheet
    else
      var k := FirstAbsent(t[0], HeaderColumns);
      if k < |HeaderColumns| then MissingColumn(HeaderColumns[k])
      else match Gather(RowLookups(parse, t))
        case Missing(c) => MissingColumn(c)
        case Found(inclusions) => Built(Tree(t[0], inclusions))
  }

  const EmptySheetMessage := "Erro: A planilha está vazia ou não pôde ser lida."

  /** `str()` of a KeyError is the key's repr: here the name between single quotes. */
  function KeyErrorText(column: string): string
  {
    "'" + column + "'"
  }

  /** `word` occurs somewhere in `text`. */
  predicate Mentions(text: string, word: string)
  {
    exists i :: 0 <= i <= |text| - |word| && text[i..][..|word|] == word
  }

  /** The text of the `(False, message)` pair returned for each failure. */
  function FailureMessage(o: Outcome): (m: string)
    requires !o.Built?
    ensures o.EmptySheet? ==> m == EmptySheetMessage
    ensures o.MissingColumn? ==> m != EmptySheetMessage && Mentions(m, o.column)
  {
    match o
    case EmptySheet => EmptySheetMessage
    case MissingColumn(c) =>
      var m := "Erro: A coluna '" + KeyErrorText(c) + "' não foi encontrada na planilha.\n\n"
        + "Verifique se o nome da coluna está exatamente correto no arquivo Excel.";
      assert m[17..][..|c|] == c;
      assert m[8] != EmptySheetMessage[8];
      m
  }

  /**
   * `gerar_arquivos_do_prestador` step by step: reject an empty frame, read the
   * header from the first row, then run the row loop.
   */
  method BuildDocument(parse: string -> Option<Date>, t: seq<Row>) returns (out: Outcome)
    ensures out == Document(parse, t)
  {
    if IsEmptyFrame(t) {
      return EmptySheet;
    }
    var first := t[0];
    var k := FirstAbsent(first, HeaderColumns);
    if k < |HeaderColumns| {
      return MissingColumn(HeaderColumns[k]);
    }
    var rows := AppendInclusions(parse, t);
    match rows {
      case Missing(c) => out := MissingColumn(c);
      case Found(inclusions) => out := Built(Tree(first, inclusions));
    }
  }

  /** The row loop: one inclusion per row, in row order, stopping at the first KeyError. */
  method AppendInclusions(parse: string -> Option<Date>, t: seq<Row>) returns (r: Lookup<seq<Element>>)
    ensures r == Gather(RowLookups(parse, t))
  {
    ghost var lookups := RowLookups(parse, t);
    var inclusions: seq<Element> := [];
    var i := 0;
    while i < |t|
      invariant 0 <= i <= |t|
      invariant Gather(lookups[..i]) == Found(inclusions)
    {
      assert lookups[..i + 1][..i] == lookups[..i];
      var step := InclusionOf(parse, t[i]);
      assert step == lookups[i];
      if step.Missing? {
        PrefixFailureIsFinal(lookups, i + 1);
        return Missing(step.column);
      }
      inclusions := inclusions + [step.value];
      i := i + 1;
    }
    assert lookups[..|t|] == lookups;
    r := Found(inclusions);
  }

  /** Once a lookup has failed, later ones cannot change the result. */
  lemma {:induction false} PrefixFailureIsFinal<T>(ls: seq<Lookup<T>>, n: nat)
    requires n <= |ls| && Gather(ls[..n]).Missing?
    ensures Gather(ls) == Gather(ls[..n])
    decreases |ls| - n
  {
    if n == |ls| {
      assert ls[..n] == ls;
    } else {
      assert ls[..n + 1][..n] == ls[..n];
      PrefixFailureIsFinal(ls, n + 1);
    }
  }

  /** Gathering succeeds exactly when every lookup does, and then keeps their values in order. */
  lemma {:induction false} GatherInOrder<T>(ls: seq<Lookup<T>>)
    ensures Gather(ls).Found? <==> forall i :: 0 <= i < |ls| ==> ls[i].Found?
    ensures Gather(ls).Found? ==>
      |Gather(ls).value| == |ls| && forall i :: 0 <= i < |ls| ==> ls[i] == Found(Gather(ls).value[i])
    decreases |ls|
  {
    if ls != [] {
      var init := ls[..|ls| - 1];
      GatherInOrder(init);
      assert forall i :: 0 <= i < |init| ==> init[i] == ls[i];
    }
  }

  /** A failed gathering reports the first failing lookup. */
  lemma {:induction false} FirstFailure<T>(ls: seq<Lookup<T>>) returns (i: nat)
    requires Gather(ls).Missing?
    ensures i < |ls| && ls[i] == Missing(Gather(ls).column)
    ensures forall j :: 0 <= j < i ==> ls[j].Found?
    decreases |ls|
  {
    var init := ls[..|ls| - 1];
    assert forall j :: 0 <= j < |init| ==> init[j] == ls[j];
    if Gather(init).Missing? {
      i := FirstFailure(init);
    } else {
      GatherInOrder(init);
      i := |ls| - 1;
    }
  }
}
