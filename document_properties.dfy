/**
 * What the document builder promises: the shape of each inclusion, the
 * header taken from the first row, one inclusion per row in row order, and
 * which failure the call reports.
 */
module DocumentProperties {
  import opened Wrappers
  import opened XmlTree
  import opened DateNormaliser
  import opened DocumentBuilder

  /** `c` is the first column of `cols` the row lacks: where reading `cols` in order stops. */
  predicate IsFirstAbsent(row: Row, cols: seq<string>, c: string)
  {
    exists k :: 0 <= k < |cols| && cols[k] == c && c !in row && AllPresent(row, cols[..k])
  }

  /** A row turns into an inclusion exactly when it has every column read; otherwise the first absent one is reported. */
  lemma InclusionFailure(parse: string -> Option<Date>, row: Row)
    ensures InclusionOf(parse, row).Found? <==> HasInclusionColumns(row)
    ensures InclusionOf(parse, row).Missing? ==> IsFirstAbsent(row, ColumnsRead(row), InclusionOf(parse, row).column)
  {
    PresentInclusionColumns(row);
    var cols := ColumnsRead(row);
    var k := FirstAbsent(row, cols);
    if k < |cols| {
      assert AllPresent(row, cols[..k]);
    }
  }

  lemma InclusionParts(parse: string -> Option<Date>, row: Row)
    requires InclusionOf(parse, row).Found?
    ensures HasInclusionColumns(row)
    ensures InclusionOf(parse, row).value == InclusionElement(parse, row)
  {
    InclusionFailure(parse, row);
  }

  /** An inclusion's children: 12, or 14 for a "C" row, the seven verbatim cells first, then the contractual pair. */
  lemma InclusionLayout(parse: string -> Option<Date>, row: Row)
    requires InclusionOf(parse, row).Found?
    ensures HasInclusionColumns(row)
    ensures
      var e := InclusionOf(parse, row).value;
      && e.tag == InclusaoPrestador && e.text == None && e.attributes == map[]
      && |e.children| == (if IsContractual(row) then 14 else 12)
      && e.children[0] == Leaf(Classificacao, row[Classificacao])
      && e.children[1] == Leaf(CnpjCpf, row[CnpjCpf])
      && e.children[2] == Leaf(Cnes, row[Cnes])
      && e.children[3] == Leaf(Uf, row[Uf])
      && e.children[4] == Leaf(CodigoMunicipioIbge, row[CodigoMunicipioIbge])
      && e.children[5] == Leaf(RazaoSocial, row[RazaoSocial])
      && e.children[6] == Leaf(RelacaoOperadora, row[RelacaoOperadora])
      && (IsContractual(row) ==>
            e.children[7] == Leaf(TipoContratualizacao, row[TipoContratualizacao]) &&
            e.children[8] == Leaf(RegistroAnsIntermediaria, row[RegistroAnsIntermediaria]))
  {
    InclusionParts(parse, row);
    var e := InclusionOf(parse, row).value;
    var head := DirectLeaves(row) + ContractualLeaves(row);
    assert e.children == head + DateAndFlagLeaves(parse, row) + [Linkage(row)];
    assert e.children[..|head|] == head;
  }

  /** After the optional pair: both dates, normalised and always present, then the two flags, then `vinculacao`, last. */
  lemma InclusionTrailer(parse: string -> Option<Date>, row: Row)
    requires InclusionOf(parse, row).Found?
    ensures HasInclusionColumns(row)
    ensures
      var e := InclusionOf(parse, row).value;
      var k := if IsContractual(row) then 2 else 0;
      && |e.children| == 12 + k
      && e.children[7 + k] == Leaf(DataContratualizacao, Normalise(parse, row[DataContratualizacao]))
      && e.children[8 + k] == Leaf(DataInicioPrestacaoServico, Normalise(parse, row[DataInicioPrestacaoServico]))
      && e.children[9 + k] == Leaf(DisponibilidadeServico, row[DisponibilidadeServico])
      && e.children[10 + k] == Leaf(UrgenciaEmergencia, row[UrgenciaEmergencia])
      && e.children[11 + k] == Node(Vinculacao, [
           Leaf(NumeroRegistroPlano, row[NumeroRegistroPlano]),
           Leaf(NumeroRegistroPlano, row[NumeroRegistroPlano1]),
           Leaf(CodigoPlanoOperadora, row[CodigoPlanoOperadora])])
  {
    InclusionParts(parse, row);
    var e := InclusionOf(parse, row).value;
    var head := DirectLeaves(row) + ContractualLeaves(row);
    var tail := DateAndFlagLeaves(parse, row) + [Linkage(row)];
    assert e.children == head + tail;
    assert e.children[|head|..] == tail;
  }

  /** The tags of an inclusion's children and of its `vinculacao` block, in order. */
  lemma InclusionTags(parse: string -> Option<Date>, row: Row)
    requires InclusionOf(parse, row).Found?
    ensures
      var e := InclusionOf(parse, row).value;
      && Tags(e.children) == DirectColumns + (if IsContractual(row) then ContractualColumns else []) + DateColumns + FlagColumns + [Vinculacao]
      && Tags(e.children[|e.children| - 1].children) == LinkTags
  {
    InclusionParts(parse, row);
  }

  /** tipoContratualizacao and registroANSOperadoraIntermediaria are emitted exactly for "C" rows. */
  lemma ContractualFieldsExactlyForC(parse: string -> Option<Date>, row: Row)
    requires InclusionOf(parse, row).Found?
    ensures
      var tags := Tags(InclusionOf(parse, row).value.children);
      && (TipoContratualizacao in tags <==> IsContractual(row))
      && (RegistroAnsIntermediaria in tags <==> IsContractual(row))
      && |tags| == (if IsContractual(row) then 14 else 12)
  {
    InclusionTags(parse, row);
    var tags := Tags(InclusionOf(parse, row).value.children);
    if !IsContractual(row) {
      assert tags == [Classificacao, CnpjCpf, Cnes, Uf, CodigoMunicipioIbge, RazaoSocial, RelacaoOperadora,
                      DataContratualizacao, DataInicioPrestacaoServico, DisponibilidadeServico, UrgenciaEmergencia, Vinculacao];
    } else {
      assert tags[7] == TipoContratualizacao && tags[8] == RegistroAnsIntermediaria;
    }
  }

  /** A frame with no rows (or no columns) fails as empty, and only such a frame does. */
  lemma EmptyInputFails(parse: string -> Option<Date>, t: seq<Row>)
    ensures Document(parse, t) == EmptySheet <==> IsEmptyFrame(t)
    ensures |t| == 0 ==> Document(parse, t) == EmptySheet
  {
  }

  /** The root and the header fields, all taken from the first row. */
  lemma HeaderFromFirstRow(parse: string -> Option<Date>, t: seq<Row>)
    requires Document(parse, t).Built?
    ensures |t| > 0 && RegistroAns in t[0] && CnpjOperadora in t[0] && NossoNumero in t[0] && IsencaoOnus in t[0]
    ensures
      var root := Document(parse, t).document;
      && root.tag == Operadora && root.text == None
      && root.attributes == map[SchemaLocationKey := SchemaLocation]
      && Tags(root.children) == [RegistroAns, CnpjOperadora, Solicitacao]
      && root.children[0] == Leaf(RegistroAns, t[0][RegistroAns])
      && root.children[1] == Leaf(CnpjOperadora, t[0][CnpjOperadora])
      && root.children[2].text == None && root.children[2].attributes == map[]
      && |root.children[2].children| >= 2
      && root.children[2].children[0] == Leaf(NossoNumero, t[0][NossoNumero])
      && root.children[2].children[1] == Leaf(IsencaoOnus, t[0][IsencaoOnus])
  {
    assert FirstAbsent(t[0], HeaderColumns) == |HeaderColumns|;
    assert HeaderColumns[0] in t[0] && HeaderColumns[1] in t[0] && HeaderColumns[2] in t[0] && HeaderColumns[3] in t[0];
    var inclusions := Gather(RowLookups(parse, t)).value;
    assert Document(parse, t).document == Tree(t[0], inclusions);
  }

  /** `solicitacao` holds, after its two header fields, one inclusion per row, the i-th from row i. */
  lemma OneInclusionPerRow(parse: string -> Option<Date>, t: seq<Row>)
    requires Document(parse, t).Built?
    ensures
      var root := Document(parse, t).document;
      && |root.children| == 3
      && var request := root.children[2];
      && |request.children| == 2 + |t|
      && forall i :: 0 <= i < |t| ==> InclusionOf(parse, t[i]) == Found(request.children[2 + i])
  {
    var lookups := RowLookups(parse, t);
    GatherInOrder(lookups);
    var inclusions := Gather(lookups).value;
    var request := Document(parse, t).document.children[2];
    assert request.children[2..] == inclusions;
    forall i | 0 <= i < |t|
      ensures InclusionOf(parse, t[i]) == Found(request.children[2 + i])
    {
      assert request.children[2 + i] == inclusions[i];
    }
  }

  /** The call builds a document exactly when the frame is not empty and every column read is there. */
  lemma BuiltExactlyWhenColumnsPresent(parse: string -> Option<Date>, t: seq<Row>)
    ensures Document(parse, t).Built? <==>
      && !IsEmptyFrame(t)
      && AllPresent(t[0], HeaderColumns)
      && forall i :: 0 <= i < |t| ==> HasInclusionColumns(t[i])
  {
    if !IsEmptyFrame(t) {
      var lookups := RowLookups(parse, t);
      GatherInOrder(lookups);
      forall i | 0 <= i < |t|
        ensures lookups[i].Found? <==> HasInclusionColumns(t[i])
      {
        InclusionFailure(parse, t[i]);
      }
      var k := FirstAbsent(t[0], HeaderColumns);
      if k < |HeaderColumns| {
        assert HeaderColumns[k] !in t[0];
      }
    }
  }

  /**
   * A missing-column failure names a column the builder reads, that some
   * row lacks: the first absent header column of the first row, or else the
   * first absent column of the first row that cannot be turned into an
   * inclusion.
   */
  lemma MissingColumnIsFirstAbsent(parse: string -> Option<Date>, t: seq<Row>) returns (i: nat)
    requires Document(parse, t).MissingColumn?
    ensures
      var c := Document(parse, t).column;
      && i < |t| && c !in t[i] && c in RequiredColumns
      && (|| (i == 0 && IsFirstAbsent(t[0], HeaderColumns, c))
          || (&& AllPresent(t[0], HeaderColumns)
              && (forall j :: 0 <= j < i ==> HasInclusionColumns(t[j]))
              && IsFirstAbsent(t[i], ColumnsRead(t[i]), c)))
  {
    var c := Document(parse, t).column;
    var k := FirstAbsent(t[0], HeaderColumns);
    if k < |HeaderColumns| {
      i := 0;
      assert AllPresent(t[0], HeaderColumns[..k]);
      assert c == HeaderColumns[k];
    } else {
      var lookups := RowLookups(parse, t);
      i := FirstFailure(lookups);
      forall j | 0 <= j < i
        ensures HasInclusionColumns(t[j])
      {
        assert lookups[j] == InclusionOf(parse, t[j]);
        InclusionFailure(parse, t[j]);
      }
      assert lookups[i] == InclusionOf(parse, t[i]);
      InclusionFailure(parse, t[i]);
      ColumnsReadAreRequired(t[i], c);
    }
  }

  lemma ColumnsReadAreRequired(row: Row, c: string)
    requires c in ColumnsRead(row)
    ensures c in RequiredColumns
  {
  }

  /**
   * tipoContratualizacao and registroANSOperadoraIntermediaria are read only
   * for "C" rows: without such a row their absence never fails the call.
   */
  lemma ContractualColumnsOnlyForC(parse: string -> Option<Date>, t: seq<Row>)
    requires forall i :: 0 <= i < |t| ==> !IsContractual(t[i])
    ensures Document(parse, t) != MissingColumn(TipoContratualizacao)
    ensures Document(parse, t) != MissingColumn(RegistroAnsIntermediaria)
  {
    if Document(parse, t).MissingColumn? {
      var c := Document(parse, t).column;
      var i := MissingColumnIsFirstAbsent(parse, t);
      assert c in HeaderColumns || c in ColumnsRead(t[i]);
    }
  }
}
