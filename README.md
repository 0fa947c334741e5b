# winapi-zig item translator, modelled in Dafny

winapi-zig reads a Rust source file of Windows FFI declarations and prints the
same declarations as Zig source text. This project models the translation
engine of `src/main.rs`. Its input is the already parsed syntax tree, and its
output is the sequence of printed lines. The model covers:

- **The leaf mappers** (`TypeMap`): Rust types become Zig type text. The C
  character and 64-bit integer aliases are renamed, other plain names pass
  through, and raw pointers become `?*` or `?*const `. Visibility becomes
  `pub ` or nothing. A constant initialiser becomes its integer literal's
  text, or `???` for anything else.
- **The use-tree expander** (`UseExpansion`): a nested and grouped `use` tree
  is flattened into a list of paths, left to right and depth first. A glob or
  a rename anywhere in the tree makes the whole expansion `Nyi`.
- **The line formats and the output of every translator, as functions**
  (`Emit`): the lines an item prints and the status it returns.
  - Loops that stop at the first failing step (the `?` inside `for`) are one
    generic function, `Sequence`.
  - The `use` translator also threads the set of imported top-level modules.
- **The translators as they run** (`Translator`): the context `Cx` is a class.
  - It holds the link name, the import set and the standard output `out`.
    Every `println!` appends one line to `out`.
  - Each translator is a method that loops, prints and updates the set.
  - Each method is proved to print exactly the lines of its function in
    `Emit`, return the same status, and leave the import set as that function
    says.
- **The driver** (`Translator.Cx.TranslateItems`, `Driver.Translate`): the
  item loop of `try_main`, starting with link name `user32` and an empty set.
- **What the code promises** (`Properties`, `Imports`):
  - the exact shape of each translator's output, on success and on each
    failure;
  - that every error is one of the two soft kinds, so the driver never aborts
    and translates every item in source order;
  - that over a run of `use` items each top-level module's import line
    appears at most once.

Four behaviours of the code are worth knowing:

- **No error aborts a run.** The only errors the translators can return are
  `Nyi` and `Unhandled`. `wrap_item_to_zig` turns both into a comment line.
  So the loop at `src/main.rs:307-309` never stops early, not even for a
  struct field whose type has no translation. This is proved in
  `Properties.ItemErrorsSoft`, `Properties.WrapNeverFails` and
  `Properties.RunNeverAborts`.
- **Partial output stays printed.** A struct prints its header before
  translating its fields. An extern function prints its header before its
  parameters. If a later field or parameter fails, the lines already printed
  stay. This is proved in `Properties.StructFieldFails` and
  `Properties.ForeignFnArgFails`.
- **Expansion keeps duplicates.** `use a::{b, b};` expands to the path `a.b`
  twice (`UseExpansion.DuplicateLeaves`). The import set still prints the
  module import only once.
- **Unexpected `DECLARE_HANDLE` tokens are not an error.** If the first or
  the third token is not an identifier, the macro prints nothing and returns
  success. It is not treated as a failure.

## Model

| member | source | states |
|---|---|---|
| `TypeMap.PathAsSingleIdent` | src/main.rs:55-63 | The result is present exactly when the path has one segment without generic arguments, and it is then that segment's identifier. |
| `TypeMap.TyToZig` | src/main.rs:65-95 | Translating a type can only fail with `Nyi`. |
| `TypeMap.ScalarRenaming` | src/main.rs:73-80 | A plain name becomes its entry in the table `c_uchar`→`u8`, `c_char`/`c_schar`→`i8`, `__uint64`→`u64`, `__int64`→`i64`. Every other name is returned unchanged. |
| `TypeMap.QualifiedPathFails` | src/main.rs:67-83 | A path with several segments, or with generic arguments, has no translation (`Nyi`). |
| `TypeMap.TyToZigSucceedsIff` | src/main.rs:65-95 | Translation succeeds exactly on chains of raw pointers ending in a plain name. Every other type fails with `Nyi`. |
| `TypeMap.PointerTranslation` | src/main.rs:84-91 | A pointer translates exactly when its pointee does. It is then `?*`, plus `const ` for `*const`, plus the pointee's text. |
| `TypeMap.NoLeadingConst` | src/main.rs:65-95 | The translation of any type whose names are identifiers never begins with `const `. |
| `TypeMap.PointerConstMarker` | src/main.rs:84-91 | A translated pointer starts with `?*`. `const ` follows exactly when the pointer is `*const`, so the mutability can be read back from the text. |
| `TypeMap.RetTyToZig` | src/main.rs:97-102 | An absent return type is the empty string. A present one is translated like any type. |
| `TypeMap.VisToZig` | src/main.rs:104-110 | The prefix is `pub ` exactly for public items, and empty otherwise. |
| `TypeMap.ExprToZig` | src/main.rs:112-121 | An integer literal gives its own text. Anything else gives `???`. It never fails. |
| `UseExpansion.Expansion` | src/main.rs:127-147 | Every expanded path is strictly longer than the prefix it was expanded under, and starts with that prefix. |
| `UseExpansion.GroupExpansion` | src/main.rs:139-143 | Same as above, for the trees of a group. |
| `UseExpansion.GroupExpansionFails` | src/main.rs:139-143 | Once one tree of a group fails, the whole group fails. |
| `UseExpansion.ExpandRec` | src/main.rs:127-147 | The recursive, accumulating expander appends exactly the tree's expansion to the buffer. When the tree has a glob or rename it returns `Nyi` instead. |
| `UseExpansion.ExpandUseTree` | src/main.rs:126-151 | The result is all the paths of the tree, or `Nyi` with no partial result. |
| `UseExpansion.ExpansionSucceedsIff` | src/main.rs:127-147 | Expansion succeeds exactly when the tree has no glob and no rename. It then yields exactly one path per `Name` leaf. |
| `UseExpansion.GroupExpansionSucceedsIff` | src/main.rs:139-143 | Same as above, for a group. |
| `UseExpansion.UngroupedExpansion` | src/main.rs:129-138 | A supported tree without groups yields exactly one path: the prefix followed by the segments along the tree. |
| `UseExpansion.PathNodeExpansion` | src/main.rs:129-133 | A path node adds its segment to the prefix of everything below it. |
| `UseExpansion.GroupNodeExpansion` | src/main.rs:139-143 | A group adds no segment. Its paths are those of its trees, in order. |
| `UseExpansion.ExpansionIdents` | src/main.rs:129-138 | A tree whose names are identifiers expands to paths made of identifiers. |
| `UseExpansion.GroupExpansionIdents` | src/main.rs:139-143 | Same as above, for a group. |
| `UseExpansion.DuplicateLeaves` | src/main.rs:139-143 | `a::{b, b}` expands to the path `a.b` twice. Expansion does not remove duplicates. |
| `Text.Join` | src/main.rs:164 | `path.join(".")`: the parts in order with the separator between consecutive ones. No ensures; `Text.JoinAvoids` and `Imports.NoAtInAlias` state what the alias line relies on. |
| `Emit.ArgEmission` | src/main.rs:185-197 | The output of one parameter. A receiver prints nothing and succeeds. A typed parameter prints `    {name}: {type},`, or, when its type fails, nothing and `Nyi`. |
| `Emit.ForeignFnEmission` | src/main.rs:203-210 | The output of one extern function. The header comes first. The parameter loop follows and stops at its first failure. The trailer `) callconv(.Stdcall) {ret};` is printed only when the return type translates. |
| `Emit.ForeignModEmission` | src/main.rs:199-215 | The output of an extern block. Its items are in order, and it stops at the first failing function. |
| `Emit.TypeEmission` | src/main.rs:177-183 | The output of a type alias. It prints `{vis}const {name} = {type};` when the type translates, and otherwise nothing, with the type's error. |
| `Emit.StructEmission` | src/main.rs:217-226 | The output of `STRUCT!`. The header comes first. The field loop follows and stops at its first failure. `};` is printed only when every field translates. |
| `Emit.DeclareHandleEmission` | src/main.rs:228-239 | The output of `DECLARE_HANDLE!`. Fewer than three tokens give `Nyi`. Identifiers first and third give the opaque type and the handle. Any other tokens give nothing and success. |
| `Emit.MacroEmission` | src/main.rs:241-251 | The output of a macro call. `STRUCT` and `DECLARE_HANDLE` go to their translators. Another single name gives `Unhandled(name)`, and a qualified path gives `Nyi`. |
| `Emit.UsePathEmission` | src/main.rs:155-166 | Output and new import set for one expanded path. A `ctypes` path gives nothing. Otherwise a blank line and the module import come first when the module is new, and the alias line `{vis}const {last} = {joined};` comes last. |
| `Emit.UsePathsEmission` | src/main.rs:154-167 | The paths of one `use` item, in order, threading the import set through. |
| `Emit.UseEmission` | src/main.rs:153-169 | A `use` item. A failed expansion gives `Nyi`, with nothing printed and the imports unchanged. Otherwise it gives the output of its paths. |
| `Emit.ItemEmission` | src/main.rs:257-268 | Output, import set and status of one item. It dispatches on the item kind. A plain function is `Unhandled`, and an unrecognised kind prints its debug dump. |
| `Emit.WrapEmission` | src/main.rs:270-284 | The item's output followed by the comment line for a soft error, which then becomes success. Any other status is kept. |
| `Emit.RunEmission` | src/main.rs:307-309 | The driver loop over the items in order, threading the import set and stopping at the first hard failure. |
| `Emit.SequenceStops` | src/main.rs:206-208 | After the first failing step, a `?`-loop runs no further step. |
| `Emit.RunStops` | src/main.rs:307-309 | After an item fails hard, the driver loop translates no further item. |
| `Translator.Cx.constructor` | src/main.rs:303-306 | A fresh context has the given link name, an empty import set and no output. |
| `Translator.Cx.Println` | src/main.rs:165 | It appends exactly one line to the output and changes nothing else. |
| `Translator.Cx.UseToZig` | src/main.rs:153-169 | It prints exactly the lines of `UseEmission(u.vis, u.tree, imports)`, returns its status and leaves the import set as it says. A failed expansion prints nothing. |
| `Translator.Cx.UsePathToZig` | src/main.rs:155-166 | One expanded path prints the lines of `UsePathEmission(vis, path, imports)` and leaves the import set as it says. |
| `Translator.Cx.ConstToZig` | src/main.rs:171-175 | It prints exactly one line, `{vis}const {name} = {expr};`, and leaves the import set alone. |
| `Translator.Cx.TypeToZig` | src/main.rs:177-183 | It prints the alias line when the type translates. Otherwise it prints nothing and returns `Nyi`. |
| `Translator.Cx.FnArgToZig` | src/main.rs:185-197 | A receiver prints nothing. A typed parameter prints its member line, or fails with nothing printed. |
| `Translator.Cx.ArgsToZig` | src/main.rs:206-208 | The parameter loop prints the lines of the parameters up to the first failure. |
| `Translator.Cx.ForeignFnToZig` | src/main.rs:203-210 | It prints the header, the parameter lines and the trailer of `ForeignFnEmission(linkName, …)`, using the context's link name, and returns its status. The import set is unchanged. |
| `Translator.Cx.ForeignModToZig` | src/main.rs:199-215 | It prints each foreign item of the block in order, stops at the first failure, and does not modify the import set. |
| `Translator.Cx.FieldsToZig` | src/main.rs:221-223 | The field loop prints one member line per field up to the first field whose type fails. |
| `Translator.Cx.StructMacroToZig` | src/main.rs:217-226 | It prints the header, then the field lines, then `};` on success. On failure the header stays printed and `};` is not printed. |
| `Translator.Cx.DeclareHandleToZig` | src/main.rs:228-239 | Its behaviour on input `tokens` follows `DeclareHandleEmission(tokens)`, walking the tokens as the iterator does. |
| `Translator.Cx.MacroToZig` | src/main.rs:241-251 | Its output and status follow `MacroEmission(m)`. |
| `Translator.Cx.ItemToZig` | src/main.rs:257-268 | It dispatches each item kind to its translator. Other items print their debug dump. |
| `Translator.Cx.WrapItemToZig` | src/main.rs:270-284 | The item's translation followed by the comment for a soft error. |
| `Translator.Cx.TranslateItems` | src/main.rs:307-309 | The output, import set and status of the whole item loop are those of `RunEmission`. |
| `Translator.FnToZig` | src/main.rs:253-255 | A plain function is always `Unhandled` under its own name. |
| `Driver.Translate` | src/main.rs:303-309 | On a fresh `user32` context, the run succeeds. Its output is every item's translation in source order, each item seeing the import set left by the ones before it. |
| `Properties.SequenceAllOk` | src/main.rs:206-208 | When no step fails, a `?`-loop prints the lines of all steps, in order, and succeeds. |
| `Properties.SequenceFirstFailure` | src/main.rs:206-208 | When step `k` fails first, a `?`-loop keeps the lines of the steps before it and fails with step `k`'s error. |
| `Properties.SequenceErrorFromStep` | src/main.rs:206-208 | A `?`-loop fails only with the error of one of its steps. |
| `Properties.ArgLinesCount` | src/main.rs:185-197 | When all parameter types translate, the parameters print one line per non-receiver parameter. |
| `Properties.TypedArgLines` | src/main.rs:185-197 | Without receivers, parameter `i` prints line `i`: its pattern name (identifier, `_` or empty) and its type. |
| `Properties.ForeignFnTranslated` | src/main.rs:203-210 | When all types translate, the output is the header, the parameter lines and `) callconv(.Stdcall) {ret};`, and it succeeds. |
| `Properties.ForeignFnArgFails` | src/main.rs:205-208 | When parameter `k` fails first, the header and the earlier parameter lines stay, no trailer is printed, and the result is `Nyi`. |
| `Properties.ForeignFnReturnFails` | src/main.rs:209 | When only the return type fails, every parameter line is printed, no trailer is printed, and the result is `Nyi`. |
| `Properties.ForeignModTranslated` | src/main.rs:199-215 | A block whose functions all translate prints each item's lines in order and succeeds. |
| `Properties.ForeignOtherDump` | src/main.rs:211 | A non-`fn` foreign item prints exactly its debug dump. |
| `Properties.StructTranslated` | src/main.rs:217-226 | It prints `fields + 2` lines: the header, field `i` as line `i + 1`, and `};` last. It succeeds. |
| `Properties.StructFieldFails` | src/main.rs:220-223 | When field `k` fails first, the header and the earlier fields stay printed, `};` is not printed, and the result is `Nyi`. |
| `Properties.DeclareHandleCases` | src/main.rs:228-239 | Fewer than three tokens: `Nyi`, with nothing printed. Identifiers first and third: the opaque type, then the handle pointer to it. Otherwise nothing is printed, with success. |
| `Properties.DeclareHandleSkipsSeparator` | src/main.rs:231-236 | The second token is skipped unchecked. |
| `Properties.MacroDispatch` | src/main.rs:241-251 | A qualified or generic macro path is `Nyi`. Any single name other than `STRUCT` and `DECLARE_HANDLE` is `Unhandled` under that name. Neither prints anything. |
| `Properties.MacroItemWrap` | src/main.rs:263 | A successful `STRUCT` or `DECLARE_HANDLE` call passes through the driver unchanged. |
| `Properties.StructExample` | src/main.rs:217-226 | `STRUCT! {struct S {a: c_uchar, b: *const c_char}}` prints the header, `a: u8`, `b: ?*const i8` and `};`. |
| `Properties.DeclareHandleExample` | src/main.rs:228-239 | `DECLARE_HANDLE!(HWND, HWND__)` declares the opaque `HWND__` and then `HWND` as a nullable pointer to it. |
| `Properties.ConstItem` | src/main.rs:171-175 | A constant prints exactly one line, beginning with `pub ` exactly when it is public, and always succeeds. |
| `Properties.TypeItem` | src/main.rs:177-183 | A type alias prints its one line exactly when its type translates. Otherwise it prints nothing and returns `Nyi`. |
| `Properties.ArgErrorsNyi` | src/main.rs:185-197 | The parameter loop can only fail with `Nyi`. |
| `Properties.ForeignModErrorsNyi` | src/main.rs:199-215 | An extern block can only fail with `Nyi`. |
| `Properties.MacroErrorsSoft` | src/main.rs:241-251 | A macro call can only fail with `Nyi` or `Unhandled`. |
| `Properties.ItemErrorsSoft` | src/main.rs:257-268 | Every error of every item translator is `Nyi` or `Unhandled`. |
| `Properties.WrapNeverFails` | src/main.rs:270-284 | The wrapped translation always succeeds. `Unhandled(n)` adds exactly `// Unhandled item: n`, `Nyi` adds exactly `// Item not yet implemented`, and success adds nothing. |
| `Properties.FnItemComment` | src/main.rs:253-255 | A plain function's whole output is one comment naming it, and the run goes on. |
| `Properties.UnknownMacroComment` | src/main.rs:246 | A macro with an unrecognised name outputs exactly one comment naming it, and the run goes on. |
| `Properties.RunNeverAborts` | src/main.rs:307-309 | The item loop always succeeds. Its output equals a front-to-back translation of every item in source order, with the import set threaded through. |
| `Imports.CtypesSkipped` | src/main.rs:155-156 | A path into `ctypes` prints nothing and leaves the import set unchanged. |
| `Imports.UsePathLines` | src/main.rs:155-166 | Any other path always prints its alias line last. A blank line and the module import come first exactly when the module was not yet imported. The module is in the set afterwards. |
| `Imports.UseStatus` | src/main.rs:153-154 | A `use` item succeeds exactly when its tree has no glob and no rename. Otherwise it prints nothing, leaves the import set unchanged and returns `Nyi`. |
| `Imports.UseImportsGrow` | src/main.rs:161 | The import set grows by exactly the top-level modules of the paths not into `ctypes`. |
| `Imports.AliasEmitted` | src/main.rs:162-165 | Every path not into `ctypes` gets its alias line, whether its module was new or not. |
| `Imports.ModuleImportInjective` | src/main.rs:159 | Distinct module identifiers give distinct import lines. |
| `Imports.AliasIsNotImport` | src/main.rs:159-165 | An alias line is never an import line. |
| `Imports.PathImportCount` | src/main.rs:155-166 | One path prints the import line of `m` exactly once if it brings `m` into the set, otherwise not at all. |
| `Imports.PathsImportCount` | src/main.rs:154-167 | Same as above, for all paths of one `use` item. |
| `Imports.UseImportCount` | src/main.rs:153-169 | Same as above, for one `use` item. |
| `Imports.UseItemWrap` | src/main.rs:259 | The driver passes a `use` item's output through unchanged, or adds only the `Nyi` comment. |
| `Imports.UseItemImportCount` | src/main.rs:259 | Same count, for a wrapped `use` item. |
| `Imports.RunImportCount` | src/main.rs:303-309 | Over a run of `use` items the set only grows. Each module's import line appears once if the run imported it, never otherwise, and never twice. |

## Left out

- `main`, argument handling, file reading and the exit code (src/main.rs:48-53, 286-302) are I/O. The link name is the constructor's parameter, and standard output is the `out` sequence.
- The parser (`syn::parse_file`, src/main.rs:296) is not modelled. Items arrive as the datatypes in `Syntax.dfy`, which keep only the shapes the translators look at.
- The re-parse of a `STRUCT!` body (`syn::parse2`, src/main.rs:218) is given as the parsed struct carried by the macro item. The source panics through `unwrap` when the body does not parse or a field has no name (src/main.rs:222). Those cases are excluded by the preconditions `MacroWellFormed` and `NamedFields`.
- The `{:?}` and `{:#?}` debug dumps (src/main.rs:211, 265) are foreign formatting. Each is one opaque line of text carried by the item.
- `Ident::to_string` and `LitInt::to_string` are foreign. Identifiers and literal text are given strings.
- `Display for Error` (src/main.rs:34-46) and the payloads of `ReadFile` and `ParseFile` belong to the I/O error report. They are not modelled.
- The `HashSet` is a Dafny `set<string>`. Its hashing and iteration order are irrelevant here, because the code only tests membership and inserts.
- A type path's qualified-self part (`<T as Trait>::X`) is not represented. The source ignores it as well and looks only at the segments.
- `Imports.RunImportCount`: stated only for runs made of `use` items. The debug dump of an unrecognised item is opaque text that could coincide with an import line. It also requires the names to be identifiers, meaning text free of whitespace and of the punctuation in `Text.NonIdentChars`. Every Rust identifier qualifies, raw (`r#type`) and non-ASCII ones included (`Text.RawIdent`, `Text.UnicodeIdent`).
- `Imports.PathImportCount`: stated for identifier segments only, in the same sense.
