/**
 * The leaf mappers of the translator: Rust types to Zig type text, visibility
 * to a keyword prefix, constant initialisers to literal text.
 */
module TypeMap {
  import opened Syntax
  import opened Text

  /** The identifier of a one-segment path without generic arguments. */
  function PathAsSingleIdent(path: Path): (r: Option<string>)
    ensures r.Some? <==> |path.segments| == 1 && !path.segments[0].hasArguments
    ensures r.Some? ==> r.value == path.segments[0].ident
  {
    if |path.segments| == 1 then
      var seg := path.segments[0];
      if !seg.hasArguments then Some(seg.ident) else None
    else
      None
  }

  /** The C character and integer aliases that Zig spells differently, as a table. */
  const CScalarRenames: map<string, string> :=
    map["c_uchar" := "u8", "c_char" := "i8", "c_schar" := "i8", "__uint64" := "u64", "__int64" := "i64"]

  /** The type written as the bare name `name`. */
  function NamedType(name: string): Type {
    TypePath(Path([PathSegment(name, false)]))
  }

  /** Zig text of a Rust type; only plain names and raw pointers have one. */
  function TyToZig(ty: Type): (r: Result<string>)
    ensures r.Err? ==> r.error == Nyi
  {
    match ty
    case TypePath(path) =>
      if |path.segments| == 1 && !path.segments[0].hasArguments then
        var ident := path.segments[0].ident;
        if ident == "c_uchar" then Ok("u8")
        else if ident == "c_char" || ident == "c_schar" then Ok("i8")
        else if ident == "__uint64" then Ok("u64")
        else if ident == "__int64" then Ok("i64")
        else Ok(ident)
      else
        Err(Nyi)
    case TypePtr(isConst, elem) =>
      var mutStr := if isConst then "const " else "";
      var pointee :- TyToZig(elem);
      Ok("?*" + mutStr + pointee)
    case TypeOther =>
      Err(Nyi)
  }

  /** Zig text of a return type; an absent return type is the empty string. */
  function RetTyToZig(output: ReturnType): (r: Result<string>)
    ensures output.Default? ==> r == Ok("")
    ensures output.Returns? ==> r == TyToZig(output.ty)
  {
    match output
    case Returns(t) => TyToZig(t)
    case Default => Ok("")
  }

  /** The keyword prefix of a visibility. */
  function VisToZig(v: Visibility): (r: string)
    ensures r == "pub " <==> v.Public?
    ensures !v.Public? ==> r == ""
  {
    if v.Public? then "pub " else ""
  }

  /** The text of a constant initialiser: an integer literal's own text, otherwise a placeholder. */
  function ExprToZig(e: Expr): (r: string)
    ensures e.ExprLit? && e.lit.LitInt? ==> r == e.lit.text
    ensures !(e.ExprLit? && e.lit.LitInt?) ==> r == "???"
  {
    match e
    case ExprLit(LitInt(text)) => text
    case _ => "???"
  }

  /** The types `TyToZig` translates: a chain of raw pointers ending in a plain name. */
  predicate Translatable(ty: Type) {
    match ty
    case TypePath(path) => PathAsSingleIdent(path).Some?
    case TypePtr(_, elem) => Translatable(elem)
    case TypeOther => false
  }

  /** Every path segment in the type is an identifier, as the parser guarantees. */
  predicate WellNamed(ty: Type) {
    match ty
    case TypePath(path) => forall i :: 0 <= i < |path.segments| ==> IsIdent(path.segments[i].ident)
    case TypePtr(_, elem) => WellNamed(elem)
    case TypeOther => true
  }

  /** Plain names follow the rename table; every name not in it passes through unchanged. */
  lemma ScalarRenaming(name: string)
    ensures TyToZig(NamedType(name)) == Ok(if name in CScalarRenames then CScalarRenames[name] else name)
  {
  }

  /** A path with several segments or with generic arguments has no translation. */
  lemma QualifiedPathFails(path: Path)
    requires |path.segments| != 1 || path.segments[0].hasArguments
    ensures TyToZig(TypePath(path)) == Err(Nyi)
  {
  }

  /** Translation succeeds exactly on the translatable types, and fails with `Nyi` otherwise. */
  lemma {:induction false} TyToZigSucceedsIff(ty: Type)
    ensures TyToZig(ty).Ok? <==> Translatable(ty)
    ensures !Translatable(ty) ==> TyToZig(ty) == Err(Nyi)
  {
    match ty
    case TypePath(_) =>
    case TypePtr(_, elem) => TyToZigSucceedsIff(elem);
    case TypeOther =>
  }

  /** A pointer is `?*`, then `const ` for `*const`, then its pointee; it fails exactly when the pointee does. */
  lemma PointerTranslation(isConst: bool, elem: Type)
    ensures TyToZig(TypePtr(isConst, elem)).Ok? <==> TyToZig(elem).Ok?
    ensures TyToZig(elem).Ok? ==>
      TyToZig(TypePtr(isConst, elem)).value == "?*" + (if isConst then "const " else "") + TyToZig(elem).value
  {
  }

  /** The translation of a well-named type never begins with `const `. */
  lemma {:induction false} NoLeadingConst(ty: Type)
    requires WellNamed(ty) && TyToZig(ty).Ok?
    ensures var s := TyToZig(ty).value; !(|s| >= 6 && s[..6] == "const ")
  {
    var s := TyToZig(ty).value;
    match ty
    case TypePath(path) =>
      var ident := path.segments[0].ident;
      assert IsIdent(ident);
      if |s| >= 6 {
        assert s == ident;
        assert s[5] in ident;
      }
    case TypePtr(_, _) =>
      assert s[0] == '?';
  }

  /** In a well-named pointer type, `const ` follows the `?*` marker exactly when the pointer is `*const`. */
  lemma PointerConstMarker(isConst: bool, elem: Type)
    requires WellNamed(elem) && TyToZig(elem).Ok?
    ensures var s := TyToZig(TypePtr(isConst, elem)).value;
      && s[..2] == "?*"
      && (isConst <==> (|s| >= 8 && s[2..8] == "const "))
  {
    var s := TyToZig(TypePtr(isConst, elem)).value;
    var p := TyToZig(elem).value;
    if isConst {
      assert s == "?*" + "const " + p;
      assert s[2..8] == "const ";
    } else {
      assert s == "?*" + p;
      assert s[2..] == p;
      NoLeadingConst(elem);
      if |s| >= 8 {
        assert s[2..8] == p[..6];
      }
    }
  }
}
