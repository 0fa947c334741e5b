/** The driver of `try_main`, after parsing: one context, every item in turn. */
module Driver {
  import opened Syntax
  import opened Emit
  import opened Properties
  import opened Translator

  /**
   * The item loop of `try_main` on a fresh context linked against `user32`
   * with nothing imported: it never fails, and prints the translation of every
   * item in source order.
   */
  method Translate(items: seq<Item>) returns (r: Status, lines: seq<string>)
    requires ItemsWellFormed(items)
    ensures r == Ok(())
    ensures lines == TranslateAll(DefaultLinkName, {}, items)
  {
    var cx := new Cx(DefaultLinkName);
    r := cx.TranslateItems(items);
    RunNeverAborts(DefaultLinkName, {}, items);
    lines := cx.out;
  }
}
