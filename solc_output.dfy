/**
 * The parts of the Solidity compiler's output that the extension reads,
 * and the combined artifact document it writes for each contract.
 */
module SolcOutput {

  import opened Wrappers
  import opened Diagnostics

  /** A top-level node of a source's syntax tree: its kind tag and its `attributes.name`. */
  datatype AstNode = AstNode(name: string, attributesName: string)

  /** `output.sources[source].AST`: the top-level children of one source. */
  datatype SourceUnit = SourceUnit(children: seq<AstNode>)

  /** JSON values, objects keeping the order of their fields. */
  datatype Json =
    | JNull
    | JBool(b: bool)
    | JNumber(n: int)
    | JString(s: string)
    | JArray(items: seq<Json>)
    | JObject(fields: seq<(string, Json)>)

  /** One entry of `output.contracts`. */
  datatype CompiledContract = CompiledContract(
    bytecode: string,
    interface: string,
    functionHashes: Json,
    gasEstimates: Json,
    runtimeBytecode: string)

  /**
   * The compiler's result. `NoKeys` is the empty object `{}`; otherwise the
   * optional `errors` list, the sources in key order, and the compiled
   * contracts keyed by `source + ':' + contractName`.
   */
  datatype CompilerOutput =
    | NoKeys
    | Output(errors: Option<seq<RawError>>,
             sources: seq<(string, SourceUnit)>,
             contracts: map<string, CompiledContract>)

  /** The five fields of the combined `.json` artifact. */
  datatype ContractArtifact = ContractArtifact(
    abi: string,
    bytecode: string,
    functionHashes: Json,
    gasEstimates: Json,
    runtimeBytecode: string)

  /** The field names of the `.json` artifact, in the order they are written. */
  const ArtifactFields: seq<string> := ["abi", "bytecode", "functionHashes", "gasEstimates", "runtimeBytecode"]

  /** `shortJsonOutput`: the artifact fields taken from one compiled entry. */
  function ShortJsonOutput(c: CompiledContract): ContractArtifact {
    ContractArtifact(c.interface, c.bytecode, c.functionHashes, c.gasEstimates, c.runtimeBytecode)
  }

  function Keys(fields: seq<(string, Json)>): (ks: seq<string>)
    ensures |ks| == |fields|
    ensures forall k :: 0 <= k < |fields| ==> ks[k] == fields[k].0
  {
    if fields == [] then [] else [fields[0].0] + Keys(fields[1..])
  }

  /** The value of the first field named `key`. */
  function Field(fields: seq<(string, Json)>, key: string): Option<Json> {
    if fields == [] then None
    else if fields[0].0 == key then Some(fields[0].1)
    else Field(fields[1..], key)
  }

  /** Reads an artifact back from its JSON document. */
  function FromJson(j: Json): Option<ContractArtifact> {
    if !j.JObject? then None
    else
      match (Field(j.fields, "abi"), Field(j.fields, "bytecode"), Field(j.fields, "functionHashes"),
             Field(j.fields, "gasEstimates"), Field(j.fields, "runtimeBytecode"))
      case (Some(JString(abi)), Some(JString(bytecode)), Some(hashes), Some(gas), Some(JString(runtime))) =>
        Some(ContractArtifact(abi, bytecode, hashes, gas, runtime))
      case _ => None
  }

  /**
   * The artifact as a JSON object: exactly the five artifact fields, in
   * order, from which the artifact reads back unchanged.
   */
  function ToJson(a: ContractArtifact): (j: Json)
    ensures j.JObject? && Keys(j.fields) == ArtifactFields
    ensures FromJson(j) == Some(a)
  {
    var fields := [
      ("abi", JString(a.abi)),
      ("bytecode", JString(a.bytecode)),
      ("functionHashes", a.functionHashes),
      ("gasEstimates", a.gasEstimates),
      ("runtimeBytecode", JString(a.runtimeBytecode))];
    assert fields[1..][1..] == fields[2..] && fields[2..][1..] == fields[3..] && fields[3..][1..] == fields[4..];
    assert Field(fields, "abi") == Some(JString(a.abi));
    assert Field(fields, "bytecode") == Field(fields[1..], "bytecode") == Some(JString(a.bytecode));
    assert Field(fields, "functionHashes") == Field(fields[2..], "functionHashes") == Some(a.functionHashes);
    assert Field(fields, "gasEstimates") == Field(fields[1..], "gasEstimates") == Field(fields[2..], "gasEstimates")
        == Field(fields[3..], "gasEstimates") == Some(a.gasEstimates);
    assert Field(fields, "runtimeBytecode") == Field(fields[1..], "runtimeBytecode") == Field(fields[2..], "runtimeBytecode")
        == Field(fields[3..], "runtimeBytecode") == Field(fields[4..], "runtimeBytecode") == Some(JString(a.runtimeBytecode));
    JObject(fields)
  }
}
