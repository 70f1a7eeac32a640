/**
 * Three concrete one-row inputs (a contractual row with a parsable date,
 * a non-contractual row with an empty date, a row without `uf`) and the
 * empty frame.
 */
module Scenarios {
  import opened Wrappers
  import opened XmlTree
  import opened DateNormaliser
  import opened DocumentBuilder
  import opened DocumentProperties

  /** A row with every column, relationship "C" and an ISO contract date. */
  const ContractualRow: Row := map[
    RegistroAns := "123456", CnpjOperadora := "11222333000181", NossoNumero := "42", IsencaoOnus := "N",
    Classificacao := "2", CnpjCpf := "44555666000199", Cnes := "1234567", Uf := "SP",
    CodigoMunicipioIbge := "3550308", RazaoSocial := "Clinica Exemplo", RelacaoOperadora := "C",
    TipoContratualizacao := "D", RegistroAnsIntermediaria := "",
    DataContratualizacao := "2024-03-15", DataInicioPrestacaoServico := "",
    DisponibilidadeServico := "T", UrgenciaEmergencia := "S",
    NumeroRegistroPlano := "123456789", NumeroRegistroPlano1 := "", CodigoPlanoOperadora := "PLANO1"]

  /** The same row with relationship "X" and an empty contract date. */
  const OtherRow: Row := ContractualRow[RelacaoOperadora := "X"][DataContratualizacao := ""]

  lemma ContractualRowScenario(parse: string -> Option<Date>)
    requires parse("2024-03-15") == Some(Date(15, 3, 2024))
    ensures Document(parse, [ContractualRow]).Built?
    ensures
      var e := Document(parse, [ContractualRow]).document.children[2].children[2];
      && |e.children| == 14
      && e.children[7] == Leaf(TipoContratualizacao, "D")
      && e.children[8] == Leaf(RegistroAnsIntermediaria, "")
      && e.children[9] == Leaf(DataContratualizacao, "15/03/2024")
      && e.children[10] == Leaf(DataInicioPrestacaoServico, "")
  {
    var t := [ContractualRow];
    ContractualRowIsComplete();
    BuiltExactlyWhenColumnsPresent(parse, t);
    OneInclusionPerRow(parse, t);
    InclusionLayout(parse, ContractualRow);
    InclusionTrailer(parse, ContractualRow);
    IsoSampleDate();
  }

  lemma ContractualRowIsComplete()
    ensures IsContractual(ContractualRow) && HasInclusionColumns(ContractualRow)
    ensures AllPresent(ContractualRow, HeaderColumns)
    ensures ContractualRow[TipoContratualizacao] == "D" && ContractualRow[RegistroAnsIntermediaria] == ""
    ensures ContractualRow[DataContratualizacao] == "2024-03-15" && ContractualRow[DataInicioPrestacaoServico] == ""
  {
  }

  lemma IsoSampleDate()
    ensures FormatDate(Date(15, 3, 2024)) == "15/03/2024"
  {
  }

  lemma OtherRowScenario(parse: string -> Option<Date>)
    ensures Document(parse, [OtherRow]).Built?
    ensures
      var e := Document(parse, [OtherRow]).document.children[2].children[2];
      var tags := Tags(e.children);
      && |e.children| == 12
      && TipoContratualizacao !in tags && RegistroAnsIntermediaria !in tags
      && e.children[7] == Leaf(DataContratualizacao, "")
      && e.children[8] == Leaf(DataInicioPrestacaoServico, "")
  {
    var t := [OtherRow];
    assert !IsContractual(OtherRow);
    assert HasInclusionColumns(OtherRow);
    assert AllPresent(t[0], HeaderColumns);
    BuiltExactlyWhenColumnsPresent(parse, t);
    OneInclusionPerRow(parse, t);
    ContractualFieldsExactlyForC(parse, OtherRow);
    InclusionTrailer(parse, OtherRow);
  }

  lemma MissingUfScenario(parse: string -> Option<Date>)
    ensures Document(parse, [ContractualRow - {Uf}]) == MissingColumn(Uf)
    ensures Mentions(FailureMessage(MissingColumn(Uf)), Uf)
  {
    var row := ContractualRow - {Uf};
    var t := [row];
    assert AllPresent(t[0], HeaderColumns);
    assert !HasInclusionColumns(row);
    BuiltExactlyWhenColumnsPresent(parse, t);
    assert Cnes in t[0];
    var i := MissingColumnIsFirstAbsent(parse, t);
    var c := Document(parse, t).column;
    assert c in RequiredColumns && c !in row;
  }

  lemma EmptyFrameScenario(parse: string -> Option<Date>)
    ensures Document(parse, []) == EmptySheet
    ensures FailureMessage(Document(parse, [])) == EmptySheetMessage
  {
  }
}
