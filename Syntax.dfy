/**
 * The parts of the `syn` / `proc_macro2` syntax trees that the item translator
 * of winapi-zig looks at, together with its error type.
 *
 * Only the shapes the translator distinguishes are represented; every shape it
 * does not look into is a single catch-all constructor. Text produced by
 * foreign `Debug` formatting (`{:?}`, `{:#?}`) is carried by the node as an
 * opaque `dump` string.
 */
module Syntax {

  datatype Option<+T> = None | Some(value: T)

  /** The translator's error type (`enum Error`). The three I/O kinds carry no payload here. */
  datatype Error = IncorrectUsage | ReadFile | ParseFile | Unhandled(itemName: string) | Nyi

  /** The errors the driver turns into a comment line and then carries on. */
  predicate IsSoft(e: Error) {
    e.Unhandled? || e.Nyi?
  }

  /** `Result<T, Error>`, usable with `:-` like Rust's `?`. */
  datatype Result<+T> = Ok(value: T) | Err(error: Error) {
    predicate IsFailure() {
      Err?
    }

    function PropagateFailure<U>(): Result<U>
      requires Err?
    {
      Err(error)
    }

    function Extract(): T
      requires Ok?
    {
      value
    }
  }

  /** `Result<(), Error>`, what every item translator returns. */
  type Status = Result<()>

  /** One path segment; `hasArguments` is false exactly when its `PathArguments` is `None`. */
  datatype PathSegment = PathSegment(ident: string, hasArguments: bool)

  datatype Path = Path(segments: seq<PathSegment>)

  /** `syn::Type`: paths, raw pointers (`*const T` / `*mut T`) and everything else. */
  datatype Type =
    | TypePath(path: Path)
    | TypePtr(isConst: bool, elem: Type)
    | TypeOther

  /** `syn::ReturnType`: absent (`Default`) or `-> T`. */
  datatype ReturnType = Default | Returns(ty: Type)

  datatype Visibility = Public | Restricted | Inherited

  datatype Lit = LitInt(text: string) | LitOther

  datatype Expr = ExprLit(lit: Lit) | ExprOther

  /** `syn::UseTree`. */
  datatype UseTree =
    | UsePath(ident: string, tree: UseTree)
    | UseName(ident: string)
    | UseGroup(items: seq<UseTree>)
    | UseRename(ident: string, rename: string)
    | UseGlob

  datatype Pat = PatIdent(ident: string) | PatWild | PatOther

  /** A function input: `self` in any form, or `pattern: Type`. */
  datatype FnArg = Receiver | Typed(pat: Pat, ty: Type)

  /** An item of an `extern` block: a function signature, or anything else (shown by its debug dump). */
  datatype ForeignItem =
    | ForeignFn(vis: Visibility, ident: string, inputs: seq<FnArg>, output: ReturnType)
    | ForeignOther(dump: string)

  /** A top-level `proc_macro2::TokenTree`. */
  datatype TokenTree =
    | TokIdent(ident: string)
    | TokPunct(ch: char)
    | TokLiteral(text: string)
    | TokGroup(stream: seq<TokenTree>)

  /** A struct field; `ident` is `None` for a tuple-struct field. */
  datatype Field = Field(ident: Option<string>, ty: Type)

  datatype ItemStruct = ItemStruct(ident: string, fields: seq<Field>)

  /**
   * A macro invocation in item position. `parsedStruct` is what re-parsing
   * `tokens` as a struct definition gives (`syn::parse2::<ItemStruct>`), `None`
   * when the tokens are not a struct.
   */
  datatype ItemMacro = ItemMacro(path: Path, tokens: seq<TokenTree>, parsedStruct: Option<ItemStruct>)

  /** `syn::Item`, with the kinds the translator has no rule for collapsed into `ItemOther`. */
  datatype Item =
    | ItemUse(vis: Visibility, tree: UseTree)
    | ItemType(vis: Visibility, ident: string, ty: Type)
    | ItemConst(vis: Visibility, ident: string, expr: Expr)
    | ItemForeignMod(foreignItems: seq<ForeignItem>)
    | ItemMacroCall(mac: ItemMacro)
    | ItemFn(ident: string)
    | ItemOther(dump: string)

  /** Every field of a struct has a name, so `f.ident.unwrap()` does not panic. */
  predicate NamedFields(s: ItemStruct) {
    forall i :: 0 <= i < |s.fields| ==> s.fields[i].ident.Some?
  }
}
