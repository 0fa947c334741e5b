/** String helpers: `[String]::join` and the characters of Rust identifiers. */
module Text {

  /** `parts.join(sep)`: the parts with `sep` between consecutive ones. */
  function Join(parts: seq<string>, sep: string): string {
    if |parts| == 0 then ""
    else if |parts| == 1 then parts[0]
    else parts[0] + sep + Join(parts[1..], sep)
  }

  /**
   * The characters an identifier's text may contain: everything except whitespace and the
   * punctuation that makes up the Zig lines printed around identifiers. Rust identifiers,
   * non-ASCII (`café`) and raw (`r#type`) ones included, never contain any of these.
   */
  const NonIdentChars: set<char> :=
    {' ', '\t', '\n', '\r', '"', '\'', '.', ',', ';', ':', '=', '@', '/', '\\', '(', ')', '[', ']',
     '{', '}', '<', '>', '*', '?', '!', '&', '|', '+', '-', '%', '^', '~', '`', '$'}

  predicate IsIdentChar(c: char) {
    c !in NonIdentChars
  }

  /** A non-empty string of identifier characters; the text of every `Ident` is one. */
  predicate IsIdent(s: string) {
    |s| > 0 && forall c | c in s :: IsIdentChar(c)
  }

  /** A raw identifier is an identifier. */
  lemma RawIdent()
    ensures IsIdent("r#type")
  {
    var s := "r#type";
    assert forall k | 0 <= k < |s| :: s[k] in {'r', '#', 't', 'y', 'p', 'e'};
  }

  /** A non-ASCII identifier is an identifier. */
  lemma UnicodeIdent()
    ensures IsIdent("caf\U{e9}")
  {
    var s := "caf\U{e9}";
    assert forall k | 0 <= k < |s| :: s[k] in {'c', 'a', 'f', '\U{e9}'};
  }

  /** A dotted path and a spaced phrase are not identifiers. */
  lemma NotIdents()
    ensures !IsIdent("a.b") && !IsIdent("const x") && !IsIdent("")
  {
    var dotted, spaced := "a.b", "const x";
    assert dotted[1] in dotted && !IsIdentChar(dotted[1]);
    assert spaced[5] in spaced && !IsIdentChar(spaced[5]);
  }

  /** A character that is neither an identifier character nor in the separator never occurs in a joined path of identifiers. */
  lemma {:induction false} JoinAvoids(parts: seq<string>, sep: string, c: char)
    requires forall i :: 0 <= i < |parts| ==> IsIdent(parts[i])
    requires !IsIdentChar(c) && c !in sep
    ensures c !in Join(parts, sep)
  {
    if |parts| > 1 {
      assert IsIdent(parts[0]);
      assert forall i :: 0 <= i < |parts[1..]| ==> parts[1..][i] == parts[i + 1];
      JoinAvoids(parts[1..], sep, c);
      assert Join(parts, sep) == parts[0] + sep + Join(parts[1..], sep);
    } else if |parts| == 1 {
      assert IsIdent(parts[0]);
    }
  }

  /** Concatenation regroups freely; stated once so that loops appending output need not re-derive it. */
  lemma AppendAssoc<T>(a: seq<T>, b: seq<T>, c: seq<T>)
    ensures a + (b + c) == a + b + c
  {
  }
}
