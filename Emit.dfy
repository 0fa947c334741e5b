/**
 * What each item translator prints, as functions: the Zig line formats, and
 * for every translator the lines it prints (in order) and the result it
 * returns. A translator that fails part-way keeps the lines it printed before
 * the failure.
 */
module Emit {
  import opened Syntax
  import opened Text
  import opened TypeMap
  import opened UseExpansion

  // ---------------------------------------------------------------------------
  // Line formats

  /** `{vis}const {name} = {rhs};`, used by imports, constants and type aliases. */
  function ConstDecl(vis: Visibility, name: string, rhs: string): string {
    VisToZig(vis) + "const " + name + " = " + rhs + ";"
  }

  /** `const {m} = @import("{m}.zig");` */
  function ModuleImport(m: string): string {
    "const " + m + " = @import(\"" + m + ".zig\");"
  }

  /** `    {name}: {ty},`, a parameter of an extern function or a field of a struct. */
  function MemberLine(name: string, ty: string): string {
    "    " + name + ": " + ty + ","
  }

  /** `{vis}extern "{linkName}" fn {name} (` */
  function ExternHeader(vis: Visibility, linkName: string, name: string): string {
    VisToZig(vis) + "extern \"" + linkName + "\" fn " + name + " ("
  }

  /** `) callconv(.Stdcall) {ret};` */
  function ExternTrailer(ret: string): string {
    ") callconv(.Stdcall) " + ret + ";"
  }

  /** `pub const {name} = extern struct {` */
  function StructHeader(name: string): string {
    "pub const " + name + " = extern struct {"
  }

  const StructTrailer: string := "};"

  /** `pub const {o} = @Type(.Opaque);` */
  function OpaqueDecl(o: string): string {
    "pub const " + o + " = @Type(.Opaque);"
  }

  /** `pub const {h} = ?*{o};` */
  function HandleDecl(h: string, o: string): string {
    "pub const " + h + " = ?*" + o + ";"
  }

  /** `// Unhandled item: {name}` */
  function UnhandledComment(name: string): string {
    "// Unhandled item: " + name
  }

  const NyiComment: string := "// Item not yet implemented"

  /** The module the translator is configured with before the first item. */
  const DefaultLinkName: string := "user32"

  // ---------------------------------------------------------------------------
  // Emissions of translators that do not touch the import set

  /** The lines a translator prints and the result it returns. */
  datatype Emission = Emission(lines: seq<string>, status: Status)

  /**
   * A loop that runs `f` on each element in order and stops at the first
   * failure (`f(x)?` in the body): the lines of every step so far, and the
   * status of the last step run.
   */
  function Sequence<T>(xs: seq<T>, f: T --> Emission): Emission
    requires forall i :: 0 <= i < |xs| ==> f.requires(xs[i])
    decreases |xs|
  {
    if xs == [] then Emission([], Ok(()))
    else
      var front := Sequence(xs[..|xs| - 1], f);
      if front.status.Err? then front
      else
        var last := f(xs[|xs| - 1]);
        Emission(front.lines + last.lines, last.status)
  }

  /** One more step of the loop, while nothing has failed yet. */
  lemma SequenceSnoc<T>(xs: seq<T>, f: T --> Emission, k: nat)
    requires forall i :: 0 <= i < |xs| ==> f.requires(xs[i])
    requires k < |xs| && Sequence(xs[..k], f).status.Ok?
    ensures Sequence(xs[..k + 1], f)
         == Emission(Sequence(xs[..k], f).lines + f(xs[k]).lines, f(xs[k]).status)
  {
    assert xs[..k + 1][..k] == xs[..k];
  }

  /** After the first failure the loop runs no further step. */
  lemma {:induction false} SequenceStops<T>(xs: seq<T>, f: T --> Emission, k: nat)
    requires forall i :: 0 <= i < |xs| ==> f.requires(xs[i])
    requires k <= |xs| && Sequence(xs[..k], f).status.Err?
    ensures Sequence(xs, f) == Sequence(xs[..k], f)
    decreases |xs| - k
  {
    if k < |xs| {
      assert xs[..k + 1][..k] == xs[..k];
      SequenceStops(xs, f, k + 1);
    } else {
      assert xs[..k] == xs;
    }
  }

  /** The name a parameter pattern prints as: its identifier, `_` for a wildcard, otherwise nothing. */
  function PatName(pat: Pat): string {
    match pat
    case PatIdent(ident) => ident
    case PatWild => "_"
    case PatOther => ""
  }

  /** `fn_arg_to_zig`: one member line for a typed argument, nothing for a receiver. */
  function ArgEmission(arg: FnArg): Emission {
    match arg
    case Receiver => Emission([], Ok(()))
    case Typed(pat, ty) =>
      match TyToZig(ty)
      case Err(e) => Emission([], Err(e))
      case Ok(t) => Emission([MemberLine(PatName(pat), t)], Ok(()))
  }

  function ArgsEmission(args: seq<FnArg>): Emission {
    Sequence(args, ArgEmission)
  }

  /** One foreign function: header, parameters, trailer with the return type. */
  function ForeignFnEmission(linkName: string, vis: Visibility, ident: string, inputs: seq<FnArg>, output: ReturnType): Emission {
    var header := ExternHeader(vis, linkName, ident);
    var args := ArgsEmission(inputs);
    if args.status.Err? then Emission([header] + args.lines, args.status)
    else
      match RetTyToZig(output)
      case Err(e) => Emission([header] + args.lines, Err(e))
      case Ok(ret) => Emission([header] + args.lines + [ExternTrailer(ret)], Ok(()))
  }

  function ForeignItemEmission(linkName: string, item: ForeignItem): Emission {
    match item
    case ForeignFn(vis, ident, inputs, output) => ForeignFnEmission(linkName, vis, ident, inputs, output)
    case ForeignOther(dump) => Emission([dump], Ok(()))
  }

  /** The body of the loop of `foreign_mod_to_zig`, for a fixed link name. */
  function ForeignItemStep(linkName: string): ForeignItem -> Emission {
    item => ForeignItemEmission(linkName, item)
  }

  /** `foreign_mod_to_zig`. */
  function ForeignModEmission(linkName: string, items: seq<ForeignItem>): Emission {
    Sequence(items, ForeignItemStep(linkName))
  }

  /** `type_to_zig`: the type is translated before anything is printed. */
  function TypeEmission(vis: Visibility, ident: string, ty: Type): Emission {
    match TyToZig(ty)
    case Err(e) => Emission([], Err(e))
    case Ok(t) => Emission([ConstDecl(vis, ident, t)], Ok(()))
  }

  /** One field line of a `STRUCT!` body. */
  function FieldEmission(field: Field): Emission
    requires field.ident.Some?
  {
    match TyToZig(field.ty)
    case Err(e) => Emission([], Err(e))
    case Ok(t) => Emission([MemberLine(field.ident.value, t)], Ok(()))
  }

  /** `struct_macro_to_zig`: the header is printed before any field is translated. */
  function StructEmission(s: ItemStruct): Emission
    requires NamedFields(s)
  {
    var header := StructHeader(s.ident);
    var fields := Sequence(s.fields, FieldEmission);
    if fields.status.Err? then Emission([header] + fields.lines, fields.status)
    else Emission([header] + fields.lines + [StructTrailer], Ok(()))
  }

  /**
   * `declare_handle_to_zig`: the first and third tokens, the second being skipped.
   * Fewer than three tokens is `Nyi`; a non-identifier among the two prints nothing.
   */
  function DeclareHandleEmission(tokens: seq<TokenTree>): Emission {
    if |tokens| < 3 then Emission([], Err(Nyi))
    else
      match (tokens[0], tokens[2])
      case (TokIdent(h), TokIdent(o)) => Emission([OpaqueDecl(o), HandleDecl(h, o)], Ok(()))
      case _ => Emission([], Ok(()))
  }

  /** A `STRUCT!` invocation whose tokens re-parse as a struct with named fields. */
  predicate MacroWellFormed(m: ItemMacro) {
    PathAsSingleIdent(m.path) == Some("STRUCT") ==> m.parsedStruct.Some? && NamedFields(m.parsedStruct.value)
  }

  /** `macro_to_zig`. */
  function MacroEmission(m: ItemMacro): Emission
    requires MacroWellFormed(m)
  {
    match PathAsSingleIdent(m.path)
    case None => Emission([], Err(Nyi))
    case Some(id) =>
      if id == "STRUCT" then StructEmission(m.parsedStruct.value)
      else if id == "DECLARE_HANDLE" then DeclareHandleEmission(m.tokens)
      else Emission([], Err(Unhandled(id)))
  }

  // ---------------------------------------------------------------------------
  // Emissions of translators that read or update the import set

  /** Lines printed, the import set afterwards, and the result. */
  datatype Step = Step(lines: seq<string>, imports: set<string>, status: Status)

  /** One expanded path of a `use` item. */
  function UsePathEmission(vis: Visibility, path: UsePath, imports: set<string>): Step
    requires |path| > 0
  {
    var toplevel := path[0];
    if toplevel == "ctypes" then Step([], imports, Ok(()))
    else
      var moduleLines := if toplevel in imports then [] else ["", ModuleImport(toplevel)];
      Step(moduleLines + [ConstDecl(vis, path[|path| - 1], Join(path, "."))], imports + {toplevel}, Ok(()))
  }

  /** The loop of `use_to_zig` over the expanded paths. */
  function UsePathsEmission(vis: Visibility, paths: seq<UsePath>, imports: set<string>): Step
    requires forall i :: 0 <= i < |paths| ==> |paths[i]| > 0
    decreases |paths|
  {
    if paths == [] then Step([], imports, Ok(()))
    else
      var front := UsePathsEmission(vis, paths[..|paths| - 1], imports);
      var last := UsePathEmission(vis, paths[|paths| - 1], front.imports);
      Step(front.lines + last.lines, last.imports, Ok(()))
  }

  /** One more path of the loop of `use_to_zig`. */
  lemma UsePathsSnoc(vis: Visibility, paths: seq<UsePath>, imports: set<string>, k: nat)
    requires forall i :: 0 <= i < |paths| ==> |paths[i]| > 0
    requires k < |paths|
    ensures var front := UsePathsEmission(vis, paths[..k], imports);
      var last := UsePathEmission(vis, paths[k], front.imports);
      UsePathsEmission(vis, paths[..k + 1], imports) == Step(front.lines + last.lines, last.imports, Ok(()))
  {
    assert paths[..k + 1][..k] == paths[..k];
  }

  /** `use_to_zig`: the tree is expanded completely before anything is printed. */
  function UseEmission(vis: Visibility, tree: UseTree, imports: set<string>): Step {
    match Expansion(tree, [])
    case None => Step([], imports, Err(Nyi))
    case Some(paths) => UsePathsEmission(vis, paths, imports)
  }

  /** The shapes the parser can deliver: every `STRUCT!` body re-parses with named fields. */
  predicate ItemWellFormed(item: Item) {
    item.ItemMacroCall? ==> MacroWellFormed(item.mac)
  }

  predicate ItemsWellFormed(items: seq<Item>) {
    forall i :: 0 <= i < |items| ==> ItemWellFormed(items[i])
  }

  /** An emission that leaves the import set as it was. */
  function Keep(e: Emission, imports: set<string>): Step {
    Step(e.lines, imports, e.status)
  }

  /** `item_to_zig`: dispatch on the kind of item. */
  function ItemEmission(linkName: string, imports: set<string>, item: Item): Step
    requires ItemWellFormed(item)
  {
    match item
    case ItemUse(vis, tree) => UseEmission(vis, tree, imports)
    case ItemType(vis, ident, ty) => Keep(TypeEmission(vis, ident, ty), imports)
    case ItemConst(vis, ident, expr) => Step([ConstDecl(vis, ident, ExprToZig(expr))], imports, Ok(()))
    case ItemForeignMod(foreignItems) => Keep(ForeignModEmission(linkName, foreignItems), imports)
    case ItemMacroCall(m) => Keep(MacroEmission(m), imports)
    case ItemFn(ident) => Step([], imports, Err(Unhandled(ident)))
    case ItemOther(dump) => Step([dump], imports, Ok(()))
  }

  /** `wrap_item_to_zig`: the two soft errors become a comment line and success. */
  function WrapEmission(linkName: string, imports: set<string>, item: Item): Step
    requires ItemWellFormed(item)
  {
    var s := ItemEmission(linkName, imports, item);
    match s.status
    case Err(Unhandled(name)) => Step(s.lines + [UnhandledComment(name)], s.imports, Ok(()))
    case Err(Nyi) => Step(s.lines + [NyiComment], s.imports, Ok(()))
    case _ => s
  }

  /** The item loop of `try_main`: `wrap_item_to_zig(item, &mut cx)?` for each item in order. */
  function RunEmission(linkName: string, imports: set<string>, items: seq<Item>): Step
    requires ItemsWellFormed(items)
    decreases |items|
  {
    if items == [] then Step([], imports, Ok(()))
    else
      var front := RunEmission(linkName, imports, items[..|items| - 1]);
      if front.status.Err? then front
      else
        var last := WrapEmission(linkName, front.imports, items[|items| - 1]);
        Step(front.lines + last.lines, last.imports, last.status)
  }

  /** One more item of the driver loop, while nothing has failed yet. */
  lemma RunSnoc(linkName: string, imports: set<string>, items: seq<Item>, k: nat)
    requires ItemsWellFormed(items)
    requires k < |items| && RunEmission(linkName, imports, items[..k]).status.Ok?
    ensures var front := RunEmission(linkName, imports, items[..k]);
      var last := WrapEmission(linkName, front.imports, items[k]);
      RunEmission(linkName, imports, items[..k + 1]) == Step(front.lines + last.lines, last.imports, last.status)
  {
    assert items[..k + 1][..k] == items[..k];
  }

  /** After the first item that fails hard, the driver translates no further item. */
  lemma {:induction false} RunStops(linkName: string, imports: set<string>, items: seq<Item>, k: nat)
    requires ItemsWellFormed(items)
    requires k <= |items| && RunEmission(linkName, imports, items[..k]).status.Err?
    ensures RunEmission(linkName, imports, items) == RunEmission(linkName, imports, items[..k])
    decreases |items| - k
  {
    if k < |items| {
      assert items[..k + 1][..k] == items[..k];
      RunStops(linkName, imports, items, k + 1);
    } else {
      assert items[..k] == items;
    }
  }
}
