/** The records the parser produces and the rest of the pipeline consumes: the
    dictionaries `extract_function` and `visit_ClassDef` build, the parse result,
    and the dictionary view that the template generator and the compliance
    analyzer read. */
module Records {
  import opened Wrappers

  /** One parameter: its name and annotation text (`None` when unannotated). */
  datatype Param = Param(name: string, typ: Option<string>)

  /** The record of one function or method (`extract_function`). */
  datatype FunctionInfo = FunctionInfo(
    name: string,
    owner: Option<string>,
    signature: string,
    params: seq<Param>,
    returnType: Option<string>,
    hasDocstring: bool,
    line: int,
    docstring: Option<string>,
    raises: seq<string>,
    isGenerator: bool)

  /** The record of one class (`visit_ClassDef`). */
  datatype ClassInfo = ClassInfo(
    className: string,
    hasDocstring: bool,
    docstring: Option<string>,
    attributes: seq<string>,
    methods: seq<FunctionInfo>)

  /** What `parse_file` returns: the module-level functions and the classes. */
  datatype ParsedModule = ParsedModule(functions: seq<FunctionInfo>, classes: seq<ClassInfo>)

  /** The dictionary an item is handed to the generator and the analyzer as. The
      generator reads every key with `.get`, so a key the dictionary lacks reads
      as its falsy default (`None`, `[]`, `False`); the analyzer reads
      `docstring`, `class` and `attributes` that way but subscripts `params`,
      `returns`, `raises` and `is_generator`, which every parser record holds. */
  datatype DocItem = DocItem(
    name: Option<string>,
    owner: Option<string>,
    params: seq<Param>,
    returnType: Option<string>,
    raises: seq<string>,
    isGenerator: bool,
    docstring: Option<string>,
    attributes: seq<string>)

  /** A function record seen as a dictionary: it has every key except `attributes`. */
  function ItemOf(f: FunctionInfo): DocItem {
    DocItem(Some(f.name), f.owner, f.params, f.returnType, f.raises, f.isGenerator, f.docstring, [])
  }

  /** Python truthiness of an optional string: present and non-empty. */
  predicate Truthy(s: Option<string>) {
    s.Some? && s.value != ""
  }

  /** `p['type'] or 'Any'`. */
  function TypeOrAny(p: Param): string {
    if Truthy(p.typ) then p.typ.value else "Any"
  }
}
