/** `Registry::ts_definitions` (src/registry.rs): the TypeScript module text
    describing every registered endpoint, as specification functions over the
    table. The loop that writes it is a method of `Registries.Registry`. */
module TsDefinitions {
  import opened Wrappers
  import opened JsonValues
  import opened Http
  import opened Schema
  import opened RegistryItems

  /** The fixed text before the endpoint list; `tsMethod` is the TypeScript
      of the method enumeration and `errorPayloadSrc` that of the error
      payload. */
  function Header(tsMethod: string, errorPayloadSrc: string): string {
    "/// this file is auto generated by its Rust definition, do not edit manually\n"
    + "\n"
    + "export type Method = " + tsMethod + ";\n"
    + "type _Method = Method;\n"
    + "\n"
    + "export type Empty = Record<string, never>;\n"
    + "\n"
    + "export type Endpoint<\n"
    + "  Method extends _Method,\n"
    + "  Path extends string,\n"
    + "  Params,\n"
    + "  Query,\n"
    + "  Payload,\n"
    + "  Output\n"
    + "> = {\n"
    + "  method: Method,\n"
    + "  path: Path,\n"
    + "  // this $ types are never constructed, only used as a template\n"
    + "  $params?: Params,\n"
    + "  $query?: Query,\n"
    + "  $payload?: Payload\n"
    + "  $output?: Output\n"
    + "};\n"
    + "\n"
    + "type ApiDefinition = Partial<Record<string, Partial<Record<Method, Endpoint<any, any, any, any, any, any>>>>>;\n"
    + "\n"
    + "export type ErrorPayload = " + errorPayloadSrc + ";\n"
    + "\n"
    + "export const Api = {"
  }

  const Footer := "\n} satisfies ApiDefinition;"

  /** A slot's TypeScript, `Empty` for a void slot. */
  function SlotTs(shape: Option<Shape>): string {
    match shape
    case Some(s) => s.typescript
    case None => "Empty"
  }

  /** The line of one endpoint, under its already quoted path. */
  function MethodLine(quotedPath: string, httpMethod: Method, item: RegistryItem): string {
    var qm := Quote(AsStr(httpMethod));
    "\n    " + qm + ": { method: " + qm + ", path: " + quotedPath + " } as Endpoint<"
    + qm + ", " + quotedPath + ", "
    + SlotTs(item.paramsShape) + ", " + SlotTs(item.queryShape) + ", " + SlotTs(item.payloadShape) + ", "
    + item.outputShape.typescript + ">,"
  }

  /** The pieces one after the other. */
  function Join(parts: seq<string>): string {
    if parts == [] then "" else Join(parts[..|parts| - 1]) + parts[|parts| - 1]
  }

  /** One more piece is appended at the end. */
  lemma JoinPrefix(parts: seq<string>, k: nat)
    requires k < |parts|
    ensures Join(parts[..k + 1]) == Join(parts[..k]) + parts[k]
  {
    assert parts[..k + 1][..k] == parts[..k];
  }

  function Lines(quotedPath: string, mm: MethodMap): (r: seq<string>)
    ensures |r| == |mm| && forall j :: 0 <= j < |mm| ==> r[j] == MethodLine(quotedPath, mm[j].0, mm[j].1)
  {
    seq(|mm|, j requires 0 <= j < |mm| => MethodLine(quotedPath, mm[j].0, mm[j].1))
  }

  /** The lines of a path's methods, in registration order. */
  function MethodLines(quotedPath: string, mm: MethodMap): string {
    Join(Lines(quotedPath, mm))
  }

  function BlockOpen(quotedPath: string): string {
    "\n  " + quotedPath + ": {"
  }

  const BlockClose := "\n  },"

  /** The block of one path: its quoted route template, then its methods. */
  function PathBlock(path: string, mm: MethodMap): string {
    BlockOpen(Quote(path)) + MethodLines(Quote(path), mm) + BlockClose
  }

  function Blocks(m: PathMap): (r: seq<string>)
    ensures |r| == |m| && forall i :: 0 <= i < |m| ==> r[i] == PathBlock(m[i].0, m[i].1)
  {
    seq(|m|, i requires 0 <= i < |m| => PathBlock(m[i].0, m[i].1))
  }

  /** The blocks of the paths, in registration order. */
  function PathBlocks(m: PathMap): string {
    Join(Blocks(m))
  }

  /** `ts_definitions`. */
  function TsDefinitionsText(tsMethod: string, errorPayloadSrc: string, m: PathMap): string {
    Header(tsMethod, errorPayloadSrc) + PathBlocks(m) + Footer
  }

  // ---------------------------------------------------------------------
  // Properties

  /** `part` occurs in `text`. */
  ghost predicate IsInfix(part: string, text: string) {
    exists a: string, b: string :: text == a + part + b
  }

  lemma InfixOf(a: string, part: string, b: string)
    ensures IsInfix(part, a + part + b)
  {
  }

  lemma InfixTrans(x: string, y: string, z: string)
    requires IsInfix(x, y) && IsInfix(y, z)
    ensures IsInfix(x, z)
  {
    var a, b :| y == a + x + b;
    var c, d :| z == c + y + d;
    assert z == (c + a) + x + (b + d);
  }

  /** Each piece occurs in the joined text. */
  lemma {:induction false} PartInJoin(parts: seq<string>, i: nat)
    requires i < |parts|
    ensures IsInfix(parts[i], Join(parts))
    decreases |parts|
  {
    var n := |parts| - 1;
    var init := parts[..n];
    if i == n {
      assert Join(parts) == Join(init) + parts[i] + "";
    } else {
      assert init[i] == parts[i];
      PartInJoin(init, i);
      assert Join(parts) == "" + Join(init) + parts[n];
      InfixOf("", Join(init), parts[n]);
      InfixTrans(parts[i], Join(init), Join(parts));
    }
  }

  /** Every registered endpoint has its line in the module text, under the
      block of its own path. */
  lemma EveryEndpointListed(tsMethod: string, errorPayloadSrc: string, m: PathMap, i: nat, j: nat)
    requires i < |m| && j < |m[i].1|
    ensures IsInfix(MethodLine(Quote(m[i].0), m[i].1[j].0, m[i].1[j].1), PathBlock(m[i].0, m[i].1))
    ensures IsInfix(PathBlock(m[i].0, m[i].1), TsDefinitionsText(tsMethod, errorPayloadSrc, m))
  {
    var qp := Quote(m[i].0);
    PartInJoin(Lines(qp, m[i].1), j);
    InfixOf(BlockOpen(qp), MethodLines(qp, m[i].1), BlockClose);
    InfixTrans(MethodLine(qp, m[i].1[j].0, m[i].1[j].1), MethodLines(qp, m[i].1), PathBlock(m[i].0, m[i].1));
    PartInJoin(Blocks(m), i);
    InfixOf(Header(tsMethod, errorPayloadSrc), PathBlocks(m), Footer);
    InfixTrans(PathBlock(m[i].0, m[i].1), PathBlocks(m), TsDefinitionsText(tsMethod, errorPayloadSrc, m));
  }

  /** The route template is written as a JSON string literal that reads back
      as the template itself. */
  lemma QuotedPathReadsBack(path: string)
    ensures Quote(path) == "\"" + Escape(path) + "\""
    ensures Unescape(Escape(path)) == Some(path)
  {
    UnescapeEscape(path);
  }

  /** A void slot is written `Empty`; a non-void one as its shape. */
  lemma SlotTsSpec(shape: Option<Shape>)
    ensures shape.None? ==> SlotTs(shape) == "Empty"
    ensures shape.Some? ==> SlotTs(shape) == shape.value.typescript
  {
  }
}
