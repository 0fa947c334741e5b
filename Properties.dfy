/**
 * What the item translators and the driver promise: the shape of the lines
 * each translator prints, which errors can arise, that the driver softens all
 * of them, and that every item is translated in source order.
 */
module Properties {
  import opened Syntax
  import opened Text
  import opened TypeMap
  import opened UseExpansion
  import opened Emit

  // ---------------------------------------------------------------------------
  // Loops that stop at the first failure

  /** The lines of every step, front to back, as if no step failed. */
  function AllLines<T>(xs: seq<T>, f: T --> Emission): seq<string>
    requires forall i :: 0 <= i < |xs| ==> f.requires(xs[i])
    decreases |xs|
  {
    if xs == [] then [] else f(xs[0]).lines + AllLines(xs[1..], f)
  }

  predicate AllOk<T>(xs: seq<T>, f: T --> Emission)
    requires forall i :: 0 <= i < |xs| ==> f.requires(xs[i])
  {
    forall i :: 0 <= i < |xs| ==> f(xs[i]).status == Ok(())
  }

  lemma {:induction false} AllLinesSnoc<T>(xs: seq<T>, x: T, f: T --> Emission)
    requires forall i :: 0 <= i < |xs| ==> f.requires(xs[i])
    requires f.requires(x)
    ensures AllLines(xs + [x], f) == AllLines(xs, f) + f(x).lines
    decreases |xs|
  {
    if xs == [] {
      assert [] + [x] == [x];
      assert [x][1..] == [];
    } else {
      assert (xs + [x])[0] == xs[0];
      assert (xs + [x])[1..] == xs[1..] + [x];
      AllLinesSnoc(xs[1..], x, f);
    }
  }

  /** When no step fails, the loop prints the lines of every step, in order, and succeeds. */
  lemma {:induction false} SequenceAllOk<T>(xs: seq<T>, f: T --> Emission)
    requires forall i :: 0 <= i < |xs| ==> f.requires(xs[i])
    requires AllOk(xs, f)
    ensures Sequence(xs, f) == Emission(AllLines(xs, f), Ok(()))
    decreases |xs|
  {
    if xs != [] {
      var n := |xs| - 1;
      assert AllOk(xs[..n], f) by {
        assert forall i :: 0 <= i < n ==> xs[..n][i] == xs[i];
      }
      SequenceAllOk(xs[..n], f);
      AllLinesSnoc(xs[..n], xs[n], f);
      assert xs[..n] + [xs[n]] == xs;
      assert f(xs[n]).status == Ok(());
      assert Sequence(xs, f) == Emission(Sequence(xs[..n], f).lines + f(xs[n]).lines, Ok(()));
    }
  }

  /** When step `k` is the first to fail, the loop keeps the lines printed up to and including it, and fails with its error. */
  lemma SequenceFirstFailure<T>(xs: seq<T>, f: T --> Emission, k: nat)
    requires forall i :: 0 <= i < |xs| ==> f.requires(xs[i])
    requires k < |xs| && AllOk(xs[..k], f) && f(xs[k]).status.Err?
    ensures Sequence(xs, f) == Emission(AllLines(xs[..k], f) + f(xs[k]).lines, f(xs[k]).status)
  {
    SequenceAllOk(xs[..k], f);
    SequenceSnoc(xs, f, k);
    SequenceStops(xs, f, k + 1);
  }

  /** A failing loop fails with the error of one of its steps. */
  lemma {:induction false} SequenceErrorFromStep<T>(xs: seq<T>, f: T --> Emission)
    requires forall i :: 0 <= i < |xs| ==> f.requires(xs[i])
    requires Sequence(xs, f).status.Err?
    ensures exists i :: 0 <= i < |xs| && f(xs[i]).status == Sequence(xs, f).status
    decreases |xs|
  {
    var n := |xs| - 1;
    var front := xs[..n];
    if Sequence(front, f).status.Err? {
      SequenceErrorFromStep(front, f);
      var i :| 0 <= i < |front| && f(front[i]).status == Sequence(front, f).status;
      assert front[i] == xs[i];
    } else {
      assert f(xs[n]).status == Sequence(xs, f).status;
    }
  }

  /** When every step prints exactly one line, the loop prints line `i` for step `i`. */
  lemma {:induction false} AllLinesOneEach<T>(xs: seq<T>, f: T --> Emission)
    requires forall i :: 0 <= i < |xs| ==> f.requires(xs[i])
    requires forall i :: 0 <= i < |xs| ==> |f(xs[i]).lines| == 1
    ensures |AllLines(xs, f)| == |xs|
    ensures forall i :: 0 <= i < |xs| ==> AllLines(xs, f)[i] == f(xs[i]).lines[0]
    decreases |xs|
  {
    if xs != [] {
      var rest := xs[1..];
      assert forall i :: 0 <= i < |rest| ==> rest[i] == xs[i + 1];
      AllLinesOneEach(rest, f);
      var all := AllLines(xs, f);
      assert all == f(xs[0]).lines + AllLines(rest, f);
      forall i | 0 <= i < |xs|
        ensures all[i] == f(xs[i]).lines[0]
      {
        if i > 0 {
          assert all[i] == AllLines(rest, f)[i - 1];
        }
      }
    }
  }

  // ---------------------------------------------------------------------------
  // Extern blocks

  /** Every pattern-typed parameter has a translatable type. */
  predicate ArgsTranslatable(args: seq<FnArg>) {
    forall i :: 0 <= i < |args| ==> args[i].Typed? ==> Translatable(args[i].ty)
  }

  /** The number of parameters that are not receivers. */
  function TypedCount(args: seq<FnArg>): nat {
    if args == [] then 0 else (if args[0].Typed? then 1 else 0) + TypedCount(args[1..])
  }

  lemma ArgsOk(args: seq<FnArg>)
    requires ArgsTranslatable(args)
    ensures AllOk(args, ArgEmission)
  {
    forall i | 0 <= i < |args|
      ensures ArgEmission(args[i]).status == Ok(())
    {
      if args[i].Typed? {
        TyToZigSucceedsIff(args[i].ty);
      }
    }
  }

  /** A receiver prints nothing and every typed parameter one line. */
  lemma {:induction false} ArgLinesCount(args: seq<FnArg>)
    requires ArgsTranslatable(args)
    ensures |AllLines(args, ArgEmission)| == TypedCount(args)
    decreases |args|
  {
    if args != [] {
      if args[0].Typed? {
        TyToZigSucceedsIff(args[0].ty);
      }
      assert ArgsTranslatable(args[1..]) by {
        assert forall i :: 0 <= i < |args[1..]| ==> args[1..][i] == args[i + 1];
      }
      ArgLinesCount(args[1..]);
    }
  }

  /** Without receivers, parameter `i` prints `    {name}: {type},` as line `i`. */
  lemma TypedArgLines(args: seq<FnArg>)
    requires forall i :: 0 <= i < |args| ==> args[i].Typed? && Translatable(args[i].ty)
    ensures forall i :: 0 <= i < |args| ==> TyToZig(args[i].ty).Ok?
    ensures |AllLines(args, ArgEmission)| == |args|
    ensures forall i :: 0 <= i < |args| ==>
      AllLines(args, ArgEmission)[i] == MemberLine(PatName(args[i].pat), TyToZig(args[i].ty).value)
  {
    forall i | 0 <= i < |args|
      ensures TyToZig(args[i].ty).Ok?
      ensures |ArgEmission(args[i]).lines| == 1
      ensures ArgEmission(args[i]).lines[0] == MemberLine(PatName(args[i].pat), TyToZig(args[i].ty).value)
    {
      TyToZigSucceedsIff(args[i].ty);
    }
    AllLinesOneEach(args, ArgEmission);
  }

  /**
   * A foreign function whose types all translate prints its header, one line
   * per typed parameter and its trailer, and succeeds.
   */
  lemma ForeignFnTranslated(linkName: string, vis: Visibility, ident: string, inputs: seq<FnArg>, output: ReturnType)
    requires ArgsTranslatable(inputs)
    requires output.Returns? ==> Translatable(output.ty)
    ensures var e := ForeignFnEmission(linkName, vis, ident, inputs, output);
      && e.status == Ok(())
      && RetTyToZig(output).Ok?
      && e.lines == [ExternHeader(vis, linkName, ident)] + AllLines(inputs, ArgEmission) + [ExternTrailer(RetTyToZig(output).value)]
      && |e.lines| == TypedCount(inputs) + 2
  {
    ArgsOk(inputs);
    SequenceAllOk(inputs, ArgEmission);
    ArgLinesCount(inputs);
    if output.Returns? {
      TyToZigSucceedsIff(output.ty);
    }
  }

  /**
   * When parameter `k` is the first whose type does not translate, the header
   * and the earlier parameter lines stay printed, no trailer follows, and the
   * result is `Nyi`.
   */
  lemma ForeignFnArgFails(linkName: string, vis: Visibility, ident: string, inputs: seq<FnArg>, output: ReturnType, k: nat)
    requires k < |inputs| && ArgsTranslatable(inputs[..k])
    requires inputs[k].Typed? && !Translatable(inputs[k].ty)
    ensures ForeignFnEmission(linkName, vis, ident, inputs, output)
         == Emission([ExternHeader(vis, linkName, ident)] + AllLines(inputs[..k], ArgEmission), Err(Nyi))
  {
    ArgsOk(inputs[..k]);
    TyToZigSucceedsIff(inputs[k].ty);
    SequenceFirstFailure(inputs, ArgEmission, k);
    assert AllLines(inputs[..k], ArgEmission) + [] == AllLines(inputs[..k], ArgEmission);
  }

  /** When only the return type does not translate, every parameter line is printed but no trailer. */
  lemma ForeignFnReturnFails(linkName: string, vis: Visibility, ident: string, inputs: seq<FnArg>, output: ReturnType)
    requires ArgsTranslatable(inputs)
    requires output.Returns? && !Translatable(output.ty)
    ensures ForeignFnEmission(linkName, vis, ident, inputs, output)
         == Emission([ExternHeader(vis, linkName, ident)] + AllLines(inputs, ArgEmission), Err(Nyi))
  {
    ArgsOk(inputs);
    SequenceAllOk(inputs, ArgEmission);
    TyToZigSucceedsIff(output.ty);
  }

  /** The foreign functions of a block whose types all translate. */
  predicate ForeignItemTranslatable(item: ForeignItem) {
    item.ForeignFn? ==> ArgsTranslatable(item.inputs) && (item.output.Returns? ==> Translatable(item.output.ty))
  }

  /**
   * A block whose functions all translate prints the lines of each item in
   * order (a non-`fn` item is one dump line) and succeeds.
   */
  lemma ForeignModTranslated(linkName: string, items: seq<ForeignItem>)
    requires forall i :: 0 <= i < |items| ==> ForeignItemTranslatable(items[i])
    ensures ForeignModEmission(linkName, items) == Emission(AllLines(items, ForeignItemStep(linkName)), Ok(()))
  {
    forall i | 0 <= i < |items|
      ensures ForeignItemStep(linkName)(items[i]).status == Ok(())
    {
      match items[i]
      case ForeignFn(vis, ident, inputs, output) => ForeignFnTranslated(linkName, vis, ident, inputs, output);
      case ForeignOther(_) =>
    }
    SequenceAllOk(items, ForeignItemStep(linkName));
  }

  /** A non-`fn` foreign item prints exactly its debug dump. */
  lemma ForeignOtherDump(linkName: string, dump: string)
    ensures ForeignItemEmission(linkName, ForeignOther(dump)) == Emission([dump], Ok(()))
  {
  }

  // ---------------------------------------------------------------------------
  // Macros

  predicate FieldsTranslatable(fields: seq<Field>) {
    forall i :: 0 <= i < |fields| ==> Translatable(fields[i].ty)
  }

  /**
   * A `STRUCT!` whose field types all translate prints the header, field `i`
   * as line `i + 1`, and `};`.
   */
  lemma StructTranslated(s: ItemStruct)
    requires NamedFields(s) && FieldsTranslatable(s.fields)
    ensures forall i :: 0 <= i < |s.fields| ==> TyToZig(s.fields[i].ty).Ok?
    ensures var e := StructEmission(s);
      && e.status == Ok(())
      && |e.lines| == |s.fields| + 2
      && e.lines[0] == StructHeader(s.ident)
      && (forall i :: 0 <= i < |s.fields| ==>
            e.lines[i + 1] == MemberLine(s.fields[i].ident.value, TyToZig(s.fields[i].ty).value))
      && e.lines[|e.lines| - 1] == StructTrailer
  {
    forall i | 0 <= i < |s.fields|
      ensures TyToZig(s.fields[i].ty).Ok?
      ensures FieldEmission(s.fields[i]).status == Ok(())
      ensures |FieldEmission(s.fields[i]).lines| == 1
      ensures FieldEmission(s.fields[i]).lines[0] == MemberLine(s.fields[i].ident.value, TyToZig(s.fields[i].ty).value)
    {
      TyToZigSucceedsIff(s.fields[i].ty);
    }
    SequenceAllOk(s.fields, FieldEmission);
    AllLinesOneEach(s.fields, FieldEmission);
    var e := StructEmission(s);
    assert e.lines == [StructHeader(s.ident)] + AllLines(s.fields, FieldEmission) + [StructTrailer];
  }

  /**
   * When field `k` is the first whose type does not translate, the header and
   * the earlier field lines stay printed, `};` is not, and the result is `Nyi`.
   */
  lemma StructFieldFails(s: ItemStruct, k: nat)
    requires NamedFields(s) && k < |s.fields|
    requires FieldsTranslatable(s.fields[..k]) && !Translatable(s.fields[k].ty)
    ensures StructEmission(s) == Emission([StructHeader(s.ident)] + AllLines(s.fields[..k], FieldEmission), Err(Nyi))
  {
    var front := s.fields[..k];
    forall i | 0 <= i < |front|
      ensures FieldEmission(front[i]).status == Ok(())
    {
      TyToZigSucceedsIff(front[i].ty);
    }
    TyToZigSucceedsIff(s.fields[k].ty);
    SequenceFirstFailure(s.fields, FieldEmission, k);
    assert AllLines(front, FieldEmission) + [] == AllLines(front, FieldEmission);
  }

  /**
   * `DECLARE_HANDLE!`: fewer than three tokens is `Nyi`; identifiers first and
   * third give the opaque type and the handle pointer to it, in that order;
   * otherwise nothing is printed and the call succeeds.
   */
  lemma DeclareHandleCases(tokens: seq<TokenTree>)
    ensures |tokens| < 3 ==> DeclareHandleEmission(tokens) == Emission([], Err(Nyi))
    ensures |tokens| >= 3 && tokens[0].TokIdent? && tokens[2].TokIdent? ==>
      DeclareHandleEmission(tokens)
        == Emission([OpaqueDecl(tokens[2].ident), HandleDecl(tokens[0].ident, tokens[2].ident)], Ok(()))
    ensures |tokens| >= 3 && !(tokens[0].TokIdent? && tokens[2].TokIdent?) ==>
      DeclareHandleEmission(tokens) == Emission([], Ok(()))
  {
  }

  /** The two-identifier form does not depend on the token between them. */
  lemma DeclareHandleSkipsSeparator(h: string, sep: TokenTree, o: string)
    ensures DeclareHandleEmission([TokIdent(h), sep, TokIdent(o)])
         == Emission(["pub const " + o + " = @Type(.Opaque);", "pub const " + h + " = ?*" + o + ";"], Ok(()))
  {
  }

  /**
   * Macro dispatch: a qualified or generic macro path is `Nyi`, and a single
   * identifier other than `STRUCT` and `DECLARE_HANDLE` is unhandled under its
   * own name; neither prints anything.
   */
  lemma MacroDispatch(m: ItemMacro)
    requires MacroWellFormed(m)
    ensures PathAsSingleIdent(m.path).None? ==> MacroEmission(m) == Emission([], Err(Nyi))
    ensures |m.path.segments| == 1 && !m.path.segments[0].hasArguments
         && m.path.segments[0].ident != "STRUCT" && m.path.segments[0].ident != "DECLARE_HANDLE"
         ==> MacroEmission(m) == Emission([], Err(Unhandled(m.path.segments[0].ident)))
  {
  }

  /** The struct of the `STRUCT!` example: `struct S {a: c_uchar, b: *const c_char}`. */
  function ExampleStruct(): ItemStruct {
    ItemStruct("S", [Field(Some("a"), NamedType("c_uchar")), Field(Some("b"), TypePtr(true, NamedType("c_char")))])
  }

  lemma ExampleFieldTypes()
    ensures TyToZig(NamedType("c_uchar")) == Ok("u8")
    ensures TyToZig(TypePtr(true, NamedType("c_char"))) == Ok("?*const i8")
  {
    assert TyToZig(NamedType("c_char")) == Ok("i8");
    assert "?*" + "const " + "i8" == "?*const i8";
  }

  lemma ExampleStructFields()
    ensures Sequence(ExampleStruct().fields, FieldEmission) == Emission(["    a: u8,", "    b: ?*const i8,"], Ok(()))
  {
    var a := Field(Some("a"), NamedType("c_uchar"));
    var b := Field(Some("b"), TypePtr(true, NamedType("c_char")));
    assert ExampleStruct().fields == [a, b];
    ExampleFieldTypes();
    assert MemberLine("a", "u8") == "    a: u8,";
    assert MemberLine("b", "?*const i8") == "    b: ?*const i8,";
    assert FieldEmission(a) == Emission(["    a: u8,"], Ok(()));
    assert FieldEmission(b) == Emission(["    b: ?*const i8,"], Ok(()));
    assert [a, b][..1] == [a];
    assert [a][..0] == [];
    assert Sequence([a], FieldEmission) == Emission([] + ["    a: u8,"], Ok(()));
    assert Sequence([a, b], FieldEmission) == Emission(["    a: u8,"] + ["    b: ?*const i8,"], Ok(()));
  }

  /** `STRUCT! {struct S {a: c_uchar, b: *const c_char}}` becomes an extern struct with `a: u8` and `b: ?*const i8`. */
  lemma StructExample(linkName: string, imports: set<string>, tokens: seq<TokenTree>)
    ensures var m := ItemMacro(Path([PathSegment("STRUCT", false)]), tokens, Some(ExampleStruct()));
      && MacroWellFormed(m)
      && WrapEmission(linkName, imports, ItemMacroCall(m))
         == Step(["pub const S = extern struct {", "    a: u8,", "    b: ?*const i8,", "};"], imports, Ok(()))
  {
    var m := ItemMacro(Path([PathSegment("STRUCT", false)]), tokens, Some(ExampleStruct()));
    ExampleStructLines();
    assert PathAsSingleIdent(m.path) == Some("STRUCT");
    MacroItemWrap(linkName, imports, m);
  }

  lemma ExampleStructLines()
    ensures StructEmission(ExampleStruct())
         == Emission(["pub const S = extern struct {", "    a: u8,", "    b: ?*const i8,", "};"], Ok(()))
  {
    ExampleStructFields();
    assert StructHeader("S") == "pub const S = extern struct {";
    assert ["pub const S = extern struct {"] + ["    a: u8,", "    b: ?*const i8,"] + ["};"]
        == ["pub const S = extern struct {", "    a: u8,", "    b: ?*const i8,", "};"];
  }

  /** `DECLARE_HANDLE!(HWND, HWND__)` declares the opaque `HWND__` and then `HWND` as a nullable pointer to it. */
  lemma DeclareHandleExample(linkName: string, imports: set<string>)
    ensures var m := ItemMacro(Path([PathSegment("DECLARE_HANDLE", false)]), [TokIdent("HWND"), TokPunct(','), TokIdent("HWND__")], None);
      WrapEmission(linkName, imports, ItemMacroCall(m))
        == Step(["pub const HWND__ = @Type(.Opaque);", "pub const HWND = ?*HWND__;"], imports, Ok(()))
  {
    var tokens := [TokIdent("HWND"), TokPunct(','), TokIdent("HWND__")];
    var m := ItemMacro(Path([PathSegment("DECLARE_HANDLE", false)]), tokens, None);
    ExampleHandleTokens();
    MacroItemWrap(linkName, imports, m);
  }

  lemma ExampleHandleTokens()
    ensures DeclareHandleEmission([TokIdent("HWND"), TokPunct(','), TokIdent("HWND__")])
         == Emission(["pub const HWND__ = @Type(.Opaque);", "pub const HWND = ?*HWND__;"], Ok(()))
  {
    assert OpaqueDecl("HWND__") == "pub const HWND__ = @Type(.Opaque);";
    assert HandleDecl("HWND", "HWND__") == "pub const HWND = ?*HWND__;";
  }

  /** A macro call that succeeds passes through the driver unchanged, macro dispatch included. */
  lemma MacroItemWrap(linkName: string, imports: set<string>, m: ItemMacro)
    requires MacroWellFormed(m)
    ensures PathAsSingleIdent(m.path) == Some("DECLARE_HANDLE") && DeclareHandleEmission(m.tokens).status.Ok? ==>
      WrapEmission(linkName, imports, ItemMacroCall(m)) == Step(DeclareHandleEmission(m.tokens).lines, imports, Ok(()))
    ensures PathAsSingleIdent(m.path) == Some("STRUCT") && StructEmission(m.parsedStruct.value).status.Ok? ==>
      WrapEmission(linkName, imports, ItemMacroCall(m)) == Step(StructEmission(m.parsedStruct.value).lines, imports, Ok(()))
  {
  }

  // ---------------------------------------------------------------------------
  // Items and the driver

  /** A constant always prints exactly one line, `pub ` first exactly when it is public, and succeeds. */
  lemma ConstItem(linkName: string, imports: set<string>, vis: Visibility, ident: string, expr: Expr)
    ensures var rhs := if expr.ExprLit? && expr.lit.LitInt? then expr.lit.text else "???";
      ItemEmission(linkName, imports, ItemConst(vis, ident, expr))
        == Step([(if vis.Public? then "pub " else "") + "const " + ident + " = " + rhs + ";"], imports, Ok(()))
  {
  }

  /** A type alias prints its one line when its type translates, and otherwise nothing and `Nyi`. */
  lemma TypeItem(linkName: string, imports: set<string>, vis: Visibility, ident: string, ty: Type)
    ensures Translatable(ty) <==> TyToZig(ty).Ok?
    ensures Translatable(ty) ==>
      ItemEmission(linkName, imports, ItemType(vis, ident, ty)) == Step([ConstDecl(vis, ident, TyToZig(ty).value)], imports, Ok(()))
    ensures !Translatable(ty) ==>
      ItemEmission(linkName, imports, ItemType(vis, ident, ty)) == Step([], imports, Err(Nyi))
  {
    TyToZigSucceedsIff(ty);
  }

  lemma ArgErrorsNyi(args: seq<FnArg>)
    ensures ArgsEmission(args).status.Err? ==> ArgsEmission(args).status.error == Nyi
  {
    if ArgsEmission(args).status.Err? {
      SequenceErrorFromStep(args, ArgEmission);
    }
  }

  lemma ForeignModErrorsNyi(linkName: string, items: seq<ForeignItem>)
    ensures ForeignModEmission(linkName, items).status.Err? ==> ForeignModEmission(linkName, items).status.error == Nyi
  {
    if ForeignModEmission(linkName, items).status.Err? {
      SequenceErrorFromStep(items, ForeignItemStep(linkName));
      var i :| 0 <= i < |items| && ForeignItemStep(linkName)(items[i]).status == ForeignModEmission(linkName, items).status;
      match items[i]
      case ForeignFn(_, _, inputs, _) => ArgErrorsNyi(inputs);
      case ForeignOther(_) =>
    }
  }

  lemma MacroErrorsSoft(m: ItemMacro)
    requires MacroWellFormed(m)
    ensures MacroEmission(m).status.Err? ==> IsSoft(MacroEmission(m).status.error)
  {
    var id := PathAsSingleIdent(m.path);
    if id == Some("STRUCT") {
      var s := m.parsedStruct.value;
      if Sequence(s.fields, FieldEmission).status.Err? {
        SequenceErrorFromStep(s.fields, FieldEmission);
      }
    }
  }

  /** Every error any item translator returns is `Unhandled` or `Nyi`. */
  lemma ItemErrorsSoft(linkName: string, imports: set<string>, item: Item)
    requires ItemWellFormed(item)
    ensures ItemEmission(linkName, imports, item).status.Err? ==> IsSoft(ItemEmission(linkName, imports, item).status.error)
  {
    match item
    case ItemForeignMod(foreignItems) => ForeignModErrorsNyi(linkName, foreignItems);
    case ItemMacroCall(m) => MacroErrorsSoft(m);
    case _ =>
  }

  /**
   * The driver's soft-failure policy: an `Unhandled(n)` item gets exactly one
   * more line `// Unhandled item: n`, a `Nyi` item `// Item not yet
   * implemented`, and the wrapped translation of an item always succeeds.
   */
  lemma WrapNeverFails(linkName: string, imports: set<string>, item: Item)
    requires ItemWellFormed(item)
    ensures var inner := ItemEmission(linkName, imports, item);
      var w := WrapEmission(linkName, imports, item);
      && w.status == Ok(())
      && w.imports == inner.imports
      && (inner.status.Ok? ==> w.lines == inner.lines)
      && (inner.status.Err? && inner.status.error.Unhandled? ==>
            w.lines == inner.lines + [UnhandledComment(inner.status.error.itemName)])
      && (inner.status == Err(Nyi) ==> w.lines == inner.lines + [NyiComment])
  {
    ItemErrorsSoft(linkName, imports, item);
  }

  /** A plain function never aborts the run: its whole output is one comment naming it. */
  lemma FnItemComment(linkName: string, imports: set<string>, ident: string)
    ensures WrapEmission(linkName, imports, ItemFn(ident)) == Step(["// Unhandled item: " + ident], imports, Ok(()))
  {
  }

  /** A macro with an unrecognised name never aborts the run: its whole output is one comment naming it. */
  lemma UnknownMacroComment(linkName: string, imports: set<string>, m: ItemMacro)
    requires MacroWellFormed(m)
    requires |m.path.segments| == 1 && !m.path.segments[0].hasArguments
    requires m.path.segments[0].ident != "STRUCT" && m.path.segments[0].ident != "DECLARE_HANDLE"
    ensures WrapEmission(linkName, imports, ItemMacroCall(m))
         == Step(["// Unhandled item: " + m.path.segments[0].ident], imports, Ok(()))
  {
    assert [] + [UnhandledComment(m.path.segments[0].ident)] == [UnhandledComment(m.path.segments[0].ident)];
  }

  /** Every item translated in source order, front to back, with the import set threaded through. */
  function TranslateAll(linkName: string, imports: set<string>, items: seq<Item>): (lines: seq<string>)
    requires ItemsWellFormed(items)
    decreases |items|
  {
    if items == [] then []
    else
      var first := WrapEmission(linkName, imports, items[0]);
      first.lines + TranslateAll(linkName, first.imports, items[1..])
  }

  /** The import set after every item, front to back. */
  function ImportsAfter(linkName: string, imports: set<string>, items: seq<Item>): set<string>
    requires ItemsWellFormed(items)
    decreases |items|
  {
    if items == [] then imports
    else ImportsAfter(linkName, WrapEmission(linkName, imports, items[0]).imports, items[1..])
  }

  lemma {:induction false} TranslateAllSnoc(linkName: string, imports: set<string>, items: seq<Item>, item: Item)
    requires ItemsWellFormed(items) && ItemWellFormed(item)
    ensures ItemsWellFormed(items + [item])
    ensures var last := WrapEmission(linkName, ImportsAfter(linkName, imports, items), item);
      && TranslateAll(linkName, imports, items + [item]) == TranslateAll(linkName, imports, items) + last.lines
      && ImportsAfter(linkName, imports, items + [item]) == last.imports
    decreases |items|
  {
    var all := items + [item];
    assert ItemsWellFormed(all) by {
      assert forall i :: 0 <= i < |items| ==> all[i] == items[i];
    }
    if items != [] {
      assert all[0] == items[0];
      assert all[1..] == items[1..] + [item];
      assert ItemsWellFormed(items[1..]) by {
        assert forall i :: 0 <= i < |items[1..]| ==> items[1..][i] == items[i + 1];
      }
      var first := WrapEmission(linkName, imports, items[0]);
      TranslateAllSnoc(linkName, first.imports, items[1..], item);
      var last := WrapEmission(linkName, ImportsAfter(linkName, imports, items), item);
      AppendAssoc(first.lines, TranslateAll(linkName, first.imports, items[1..]), last.lines);
    } else {
      assert all == [item];
      assert all[1..] == [];
    }
  }

  /**
   * The item loop never aborts: it succeeds, and its output is that of every
   * item in source order, each translated with the import set left by the
   * items before it.
   */
  lemma {:induction false} RunNeverAborts(linkName: string, imports: set<string>, items: seq<Item>)
    requires ItemsWellFormed(items)
    ensures RunEmission(linkName, imports, items)
         == Step(TranslateAll(linkName, imports, items), ImportsAfter(linkName, imports, items), Ok(()))
    decreases |items|
  {
    if items != [] {
      var n := |items| - 1;
      assert ItemsWellFormed(items[..n]) by {
        assert forall i :: 0 <= i < n ==> items[..n][i] == items[i];
      }
      RunNeverAborts(linkName, imports, items[..n]);
      WrapNeverFails(linkName, ImportsAfter(linkName, imports, items[..n]), items[n]);
      TranslateAllSnoc(linkName, imports, items[..n], items[n]);
      assert items[..n] + [items[n]] == items;
    }
  }
}
