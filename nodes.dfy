/** The node records of the n8n catalog (`N8nNode`, `Parameter` and
    `Example` in skills/n8n-mcp-server/src/tools/search.ts) and the
    case-insensitive name test that lookup, generation and batch
    selection share. Optional fields are `Option`s; a parameter's
    `default` is `None` when it is `undefined` and `Some(JNull)` when it
    is `null`. */
module N8nNodes {
  import opened Wrappers
  import opened Text
  import opened JsonValue

  datatype ParamOption = ParamOption(name: string, value: string, description: Option<string>)

  /** `type` is `kind` here, `type` being a Dafny keyword. */
  datatype Parameter = Parameter(
    name: string,
    displayName: string,
    kind: string,
    description: Option<string>,
    required: Option<bool>,
    default: Option<Json>,
    options: Option<seq<ParamOption>>)

  datatype Example = Example(name: string, description: string, workflow: Json)

  /** `version` is a JavaScript number; only integral versions are
      modelled. */
  datatype N8nNode = N8nNode(
    name: string,
    displayName: string,
    description: string,
    category: string,
    subcategory: Option<string>,
    version: int,
    parameters: seq<Parameter>,
    credentials: Option<seq<string>>,
    documentation: Option<string>,
    examples: Option<seq<Example>>)

  /** An optional string that is truthy: present and not empty. */
  predicate Present(s: Option<string>)
  {
    s.Some? && s.value != []
  }

  /** `n.name.toLowerCase() === x.toLowerCase() ||
      n.displayName.toLowerCase() === x.toLowerCase()`. */
  predicate NamedBy(n: N8nNode, x: string)
  {
    EqualsIgnoreCase(n.name, x) || EqualsIgnoreCase(n.displayName, x)
  }

  /** `nodes.find(n => NamedBy(n, x))`, as an index. */
  function FindNamed(nodes: seq<N8nNode>, x: string): (r: Option<nat>)
    ensures r.Some? ==> r.value < |nodes| && NamedBy(nodes[r.value], x)
    ensures r.Some? ==> forall j :: 0 <= j < r.value ==> !NamedBy(nodes[j], x)
    ensures r.None? <==> forall j :: 0 <= j < |nodes| ==> !NamedBy(nodes[j], x)
  {
    if nodes == [] then None
    else if NamedBy(nodes[0], x) then Some(0)
    else
      match FindNamed(nodes[1..], x)
      case None => None
      case Some(i) => Some(i + 1)
  }

  /** The error thrown when no node has the given name. */
  function NotFoundMessage(x: string): string
  {
    "Node '" + x + "' not found. Use search_nodes to find available nodes."
  }
}
