/**
 * The item translators and the driver as they run: the translation context
 * `Cx` (link name and set of imported top-level modules) together with the
 * standard output the translators print to, one line per `println!`.
 */
module Translator {
  import opened Syntax
  import opened Text
  import opened TypeMap
  import opened UseExpansion
  import opened Emit

  class Cx {
    /** The library every extern function is linked against. */
    const linkName: string
    /** The top-level modules already imported (`toplevel_imports`). */
    var toplevelImports: set<string>
    /** Standard output: the lines printed so far, in order. */
    var out: seq<string>

    constructor (linkName: string)
      ensures this.linkName == linkName && toplevelImports == {} && out == []
    {
      this.linkName := linkName;
      toplevelImports := {};
      out := [];
    }

    /** `println!`. */
    method Println(line: string)
      modifies this
      ensures out == old(out) + [line] && toplevelImports == old(toplevelImports)
    {
      out := out + [line];
    }

    /** `use_to_zig`. */
    method UseToZig(vis: Visibility, tree: UseTree) returns (r: Status)
      modifies this
      ensures var s := UseEmission(vis, tree, old(toplevelImports));
        && out == old(out) + s.lines
        && toplevelImports == s.imports
        && r == s.status
    {
      var paths :- ExpandUseTree(tree);
      assert Expansion(tree, []) == Some(paths);
      ghost var imports0, out0 := toplevelImports, out;
      for i := 0 to |paths|
        invariant out == out0 + UsePathsEmission(vis, paths[..i], imports0).lines
        invariant toplevelImports == UsePathsEmission(vis, paths[..i], imports0).imports
      {
        ghost var front := UsePathsEmission(vis, paths[..i], imports0);
        UsePathsSnoc(vis, paths, imports0, i);
        UsePathToZig(vis, paths[i]);
        AppendAssoc(out0, front.lines, UsePathEmission(vis, paths[i], front.imports).lines);
      }
      assert paths[..|paths|] == paths;
      r := Ok(());
    }

    /** The body of the loop of `use_to_zig`, for one expanded path. */
    method UsePathToZig(vis: Visibility, path: UsePath)
      requires |path| > 0
      modifies this
      ensures var s := UsePathEmission(vis, path, old(toplevelImports));
        out == old(out) + s.lines && toplevelImports == s.imports
    {
      var toplevel := path[0];
      if toplevel != "ctypes" {
        if toplevel !in toplevelImports {
          Println("");
          Println(ModuleImport(toplevel));
        }
        toplevelImports := toplevelImports + {toplevel};
        var last := path[|path| - 1];
        Println(ConstDecl(vis, last, Join(path, ".")));
      }
    }

    /** `const_to_zig`. */
    method ConstToZig(vis: Visibility, ident: string, expr: Expr)
      modifies this
      ensures out == old(out) + [ConstDecl(vis, ident, ExprToZig(expr))]
      ensures toplevelImports == old(toplevelImports)
    {
      Println(ConstDecl(vis, ident, ExprToZig(expr)));
    }

    /** `type_to_zig`. */
    method TypeToZig(vis: Visibility, ident: string, ty: Type) returns (r: Status)
      modifies this
      ensures out == old(out) + TypeEmission(vis, ident, ty).lines && r == TypeEmission(vis, ident, ty).status
      ensures toplevelImports == old(toplevelImports)
    {
      var t :- TyToZig(ty);
      Println(ConstDecl(vis, ident, t));
      r := Ok(());
    }

    /** `fn_arg_to_zig`. */
    method FnArgToZig(arg: FnArg) returns (r: Status)
      modifies this
      ensures out == old(out) + ArgEmission(arg).lines && r == ArgEmission(arg).status
      ensures toplevelImports == old(toplevelImports)
    {
      var ident := "";
      if arg.Typed? {
        match arg.pat {
          case PatIdent(i) => ident := i;
          case PatWild => ident := "_";
          case PatOther =>
        }
        var t :- TyToZig(arg.ty);
        Println(MemberLine(ident, t));
      }
      r := Ok(());
    }

    /** The parameter loop of one extern `fn`: stops at the first parameter whose type has no translation. */
    method ArgsToZig(inputs: seq<FnArg>) returns (r: Status)
      modifies this
      ensures out == old(out) + ArgsEmission(inputs).lines && r == ArgsEmission(inputs).status
      ensures toplevelImports == old(toplevelImports)
    {
      ghost var out0 := out;
      for j := 0 to |inputs|
        invariant toplevelImports == old(toplevelImports)
        invariant Sequence(inputs[..j], ArgEmission).status.Ok?
        invariant out == out0 + Sequence(inputs[..j], ArgEmission).lines
      {
        ghost var front := Sequence(inputs[..j], ArgEmission);
        SequenceSnoc(inputs, ArgEmission, j);
        var s := FnArgToZig(inputs[j]);
        AppendAssoc(out0, front.lines, ArgEmission(inputs[j]).lines);
        if s.Err? {
          SequenceStops(inputs, ArgEmission, j + 1);
          return s;
        }
      }
      assert inputs[..|inputs|] == inputs;
      r := Ok(());
    }

    /** One `fn` of an extern block. */
    method ForeignFnToZig(vis: Visibility, ident: string, inputs: seq<FnArg>, output: ReturnType) returns (r: Status)
      modifies this
      ensures var e := ForeignFnEmission(linkName, vis, ident, inputs, output);
        out == old(out) + e.lines && r == e.status
      ensures toplevelImports == old(toplevelImports)
    {
      ghost var out0 := out;
      var header := ExternHeader(vis, linkName, ident);
      Println(header);
      r := ArgsToZig(inputs);
      ghost var args := ArgsEmission(inputs);
      AppendAssoc(out0, [header], args.lines);
      if r.Err? {
        return;
      }
      var ret := RetTyToZig(output);
      if ret.Err? {
        return Err(ret.error);
      }
      Println(ExternTrailer(ret.value));
      AppendAssoc(out0, [header] + args.lines, [ExternTrailer(ret.value)]);
    }

    /** `foreign_mod_to_zig`: reads the link name, leaves the import set alone. */
    method ForeignModToZig(items: seq<ForeignItem>) returns (r: Status)
      modifies this
      ensures var e := ForeignModEmission(linkName, items);
        out == old(out) + e.lines && r == e.status
      ensures toplevelImports == old(toplevelImports)
    {
      ghost var out0 := out;
      for i := 0 to |items|
        invariant toplevelImports == old(toplevelImports)
        invariant ForeignModEmission(linkName, items[..i]).status.Ok?
        invariant out == out0 + ForeignModEmission(linkName, items[..i]).lines
      {
        ghost var front := ForeignModEmission(linkName, items[..i]);
        ghost var last := ForeignItemEmission(linkName, items[i]);
        ghost var outBefore := out;
        SequenceSnoc(items, ForeignItemStep(linkName), i);
        assert ForeignItemStep(linkName)(items[i]) == last;
        var s: Status := Ok(());
        match items[i] {
          case ForeignFn(vis, ident, inputs, output) =>
            s := ForeignFnToZig(vis, ident, inputs, output);
          case ForeignOther(dump) =>
            Println(dump);
        }
        assert out == outBefore + last.lines && s == last.status;
        AppendAssoc(out0, front.lines, last.lines);
        if s.Err? {
          SequenceStops(items, ForeignItemStep(linkName), i + 1);
          return s;
        }
      }
      assert items[..|items|] == items;
      r := Ok(());
    }

    /** The field loop of `struct_macro_to_zig`: stops at the first field whose type has no translation. */
    method FieldsToZig(fields: seq<Field>) returns (r: Status)
      requires forall i :: 0 <= i < |fields| ==> fields[i].ident.Some?
      modifies this
      ensures out == old(out) + Sequence(fields, FieldEmission).lines && r == Sequence(fields, FieldEmission).status
      ensures toplevelImports == old(toplevelImports)
    {
      ghost var out0 := out;
      for i := 0 to |fields|
        invariant toplevelImports == old(toplevelImports)
        invariant Sequence(fields[..i], FieldEmission).status.Ok?
        invariant out == out0 + Sequence(fields[..i], FieldEmission).lines
      {
        ghost var front := Sequence(fields[..i], FieldEmission);
        SequenceSnoc(fields, FieldEmission, i);
        var f := fields[i];
        var t := TyToZig(f.ty);
        if t.Err? {
          SequenceStops(fields, FieldEmission, i + 1);
          return Err(t.error);
        }
        Println(MemberLine(f.ident.value, t.value));
        AppendAssoc(out0, front.lines, [MemberLine(f.ident.value, t.value)]);
      }
      assert fields[..|fields|] == fields;
      r := Ok(());
    }

    /** `struct_macro_to_zig`, given the struct its tokens re-parse as. */
    method StructMacroToZig(s: ItemStruct) returns (r: Status)
      requires NamedFields(s)
      modifies this
      ensures out == old(out) + StructEmission(s).lines && r == StructEmission(s).status
      ensures toplevelImports == old(toplevelImports)
    {
      ghost var out0 := out;
      var header := StructHeader(s.ident);
      Println(header);
      r := FieldsToZig(s.fields);
      ghost var fields := Sequence(s.fields, FieldEmission);
      AppendAssoc(out0, [header], fields.lines);
      if r.Err? {
        return;
      }
      Println(StructTrailer);
      AppendAssoc(out0, [header] + fields.lines, [StructTrailer]);
    }

    /** `declare_handle_to_zig`: walks the tokens with an iterator, skipping the second unchecked. */
    method DeclareHandleToZig(tokens: seq<TokenTree>) returns (r: Status)
      modifies this
      ensures out == old(out) + DeclareHandleEmission(tokens).lines && r == DeclareHandleEmission(tokens).status
      ensures toplevelImports == old(toplevelImports)
    {
      var next := 0;
      if next == |tokens| {
        return Err(Nyi);
      }
      var handleId := tokens[next];
      next := next + 1;
      if next < |tokens| {
        next := next + 1;
      }
      if next == |tokens| {
        return Err(Nyi);
      }
      var opaqueId := tokens[next];
      if handleId.TokIdent? && opaqueId.TokIdent? {
        Println(OpaqueDecl(opaqueId.ident));
        Println(HandleDecl(handleId.ident, opaqueId.ident));
      }
      r := Ok(());
    }

    /** `macro_to_zig`. */
    method MacroToZig(m: ItemMacro) returns (r: Status)
      requires MacroWellFormed(m)
      modifies this
      ensures out == old(out) + MacroEmission(m).lines && r == MacroEmission(m).status
      ensures toplevelImports == old(toplevelImports)
    {
      var id := PathAsSingleIdent(m.path);
      if id.Some? {
        if id.value == "STRUCT" {
          r := StructMacroToZig(m.parsedStruct.value);
        } else if id.value == "DECLARE_HANDLE" {
          r := DeclareHandleToZig(m.tokens);
        } else {
          r := Err(Unhandled(id.value));
        }
      } else {
        r := Err(Nyi);
      }
    }

    /** `item_to_zig`. */
    method ItemToZig(item: Item) returns (r: Status)
      requires ItemWellFormed(item)
      modifies this
      ensures var s := ItemEmission(linkName, old(toplevelImports), item);
        && out == old(out) + s.lines
        && toplevelImports == s.imports
        && r == s.status
    {
      match item {
        case ItemUse(vis, tree) =>
          r := UseToZig(vis, tree);
        case ItemType(vis, ident, ty) =>
          r := TypeToZig(vis, ident, ty);
        case ItemConst(vis, ident, expr) =>
          ConstToZig(vis, ident, expr);
          r := Ok(());
        case ItemForeignMod(foreignItems) =>
          r := ForeignModToZig(foreignItems);
        case ItemMacroCall(m) =>
          r := MacroToZig(m);
        case ItemFn(ident) =>
          r := FnToZig(ident);
        case ItemOther(dump) =>
          Println(dump);
          r := Ok(());
      }
    }

    /** `wrap_item_to_zig`. */
    method WrapItemToZig(item: Item) returns (r: Status)
      requires ItemWellFormed(item)
      modifies this
      ensures var s := WrapEmission(linkName, old(toplevelImports), item);
        && out == old(out) + s.lines
        && toplevelImports == s.imports
        && r == s.status
    {
      r := ItemToZig(item);
      match r {
        case Err(Unhandled(itemName)) =>
          Println(UnhandledComment(itemName));
          return Ok(());
        case Err(Nyi) =>
          Println(NyiComment);
          return Ok(());
        case _ =>
      }
    }

    /** The item loop at the end of `try_main`. */
    method TranslateItems(items: seq<Item>) returns (r: Status)
      requires ItemsWellFormed(items)
      modifies this
      ensures var s := RunEmission(linkName, old(toplevelImports), items);
        && out == old(out) + s.lines
        && toplevelImports == s.imports
        && r == s.status
    {
      ghost var imports0, out0 := toplevelImports, out;
      for i := 0 to |items|
        invariant RunEmission(linkName, imports0, items[..i]).status.Ok?
        invariant out == out0 + RunEmission(linkName, imports0, items[..i]).lines
        invariant toplevelImports == RunEmission(linkName, imports0, items[..i]).imports
      {
        ghost var front := RunEmission(linkName, imports0, items[..i]);
        ghost var outBefore := out;
        RunSnoc(linkName, imports0, items, i);
        var s := WrapItemToZig(items[i]);
        ghost var last := WrapEmission(linkName, front.imports, items[i]);
        assert out == outBefore + last.lines;
        assert s == last.status;
        assert toplevelImports == last.imports;
        AppendAssoc(out0, front.lines, last.lines);
        if s.Err? {
          RunStops(linkName, imports0, items, i + 1);
          return s;
        }
      }
      assert items[..|items|] == items;
      r := Ok(());
    }
  }

  /** `fn_to_zig`: a plain function is never translated. */
  method FnToZig(ident: string) returns (r: Status)
    ensures r == Err(Unhandled(ident))
  {
    r := Err(Unhandled(ident));
  }
}
