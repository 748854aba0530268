/** Shell quoting as the dump strategies use it: PHP's `escapeshellarg` on a
    POSIX system, and the word splitting and quote removal a POSIX shell
    applies to the resulting command line (blanks, single quotes and
    backslashes only, which is all the commands built here contain). */
module Shell {
  import opened Strings

  /** The inside of a single-quoted argument: each `'` is written `'\''`
      (close the quote, an escaped quote, reopen the quote). */
  function QuoteBody(s: string): string
  {
    if s == [] then [] else (if s[0] == '\'' then "'\\''" else [s[0]]) + QuoteBody(s[1..])
  }

  /** PHP `escapeshellarg` on POSIX: the argument in single quotes. */
  function EscapeShellArg(s: string): (q: string)
    ensures |q| >= 2 && q[0] == '\'' && q[|q| - 1] == '\''
  {
    "'" + QuoteBody(s) + "'"
  }

  /** A character the word splitter below copies literally outside quotes. */
  predicate IsLiteral(c: char) {
    c != ' ' && c != '\'' && c != '\\'
  }

  predicate AllLiteral(s: string) {
    forall i :: 0 <= i < |s| ==> IsLiteral(s[i])
  }

  /** A word the shell reads as itself: no blank, quote, escape, expansion,
      glob, redirection or control character. A program name given to a dump
      strategy is put into the command line unquoted, so only such a name
      reaches the shell intact. */
  predicate IsPlainWord(w: string) {
    |w| > 0 && forall i :: 0 <= i < |w| ==> w[i] !in " \t\n'\"\\$`;|&<>()*?[]#~{}"
  }

  /** Word splitting and quote removal: `word` is the word being built and
      `inWord` says whether one has been started. Blanks end a word; a quoted
      run and a backslash-escaped character are copied literally. */
  function Scan(s: string, word: string, inWord: bool): seq<string>
    decreases |s|
  {
    if s == [] then (if inWord then [word] else [])
    else if s[0] == ' ' then
      if inWord then [word] + Scan(s[1..], "", false) else Scan(s[1..], "", false)
    else if s[0] == '\'' then ScanQuoted(s[1..], word)
    else if s[0] == '\\' && |s| > 1 then Scan(s[2..], word + [s[1]], true)
    else Scan(s[1..], word + [s[0]], true)
  }

  /** Inside single quotes: every character up to the closing quote belongs
      to the word; an unterminated quote runs to the end of the text. */
  function ScanQuoted(s: string, word: string): seq<string>
    decreases |s|
  {
    if s == [] then [word]
    else if s[0] == '\'' then Scan(s[1..], word, true)
    else ScanQuoted(s[1..], word + [s[0]])
  }

  /** The words a command line stands for. Redirection operators written as
      separate tokens (`>`, `<`) come out as words of their own. */
  function Words(s: string): seq<string>
  {
    Scan(s, "", false)
  }

  /** One word of a command line as it is written: a literal word such as a
      program name or `>`, or a literal prefix such as `--host=` followed by
      an escaped value. Each is written after a blank. */
  datatype Item = Lit(word: string) | Arg(prefix: string, value: string)

  function ItemText(it: Item): string {
    match it
    case Lit(w) => " " + w
    case Arg(p, v) => " " + p + EscapeShellArg(v)
  }

  function ItemsText(items: seq<Item>): string {
    if items == [] then "" else ItemText(items[0]) + ItemsText(items[1..])
  }

  /** The word the shell passes on for an item: the prefix and the value joined. */
  function ItemWord(it: Item): string {
    match it
    case Lit(w) => w
    case Arg(p, v) => p + v
  }

  function ItemsWords(items: seq<Item>): (ws: seq<string>)
    ensures |ws| == |items|
    ensures forall i :: 0 <= i < |items| ==> ws[i] == ItemWord(items[i])
  {
    if items == [] then [] else [ItemWord(items[0])] + ItemsWords(items[1..])
  }

  /** Items the shell reads back unchanged: literal words are non-empty and
      plain, prefixes are plain. */
  predicate Readable(it: Item) {
    match it
    case Lit(w) => w != [] && AllLiteral(w)
    case Arg(p, _) => AllLiteral(p)
  }

  predicate AllReadable(items: seq<Item>) {
    forall i :: 0 <= i < |items| ==> Readable(items[i])
  }

  lemma {:induction false} QuoteBodyConcat(a: string, b: string)
    ensures QuoteBody(a + b) == QuoteBody(a) + QuoteBody(b)
  {
    if a != [] {
      assert (a + b)[0] == a[0];
      assert (a + b)[1..] == a[1..] + b;
      QuoteBodyConcat(a[1..], b);
      var h := if a[0] == '\'' then "'\\''" else [a[0]];
      assert QuoteBody(a + b) == h + (QuoteBody(a[1..]) + QuoteBody(b));
      assert QuoteBody(a) == h + QuoteBody(a[1..]);
    } else {
      assert a + b == b;
    }
  }

  lemma {:induction false} QuoteBodyNoQuote(s: string)
    requires '\'' !in s
    ensures QuoteBody(s) == s
  {
    if s != [] {
      QuoteBodyNoQuote(s[1..]);
    }
  }

  /** Literal text extends the current word. */
  lemma {:induction false} ScanLiteral(p: string, rest: string, word: string, inWord: bool)
    requires AllLiteral(p)
    ensures Scan(p + rest, word, inWord)
         == if p == [] then Scan(rest, word, inWord) else Scan(rest, word + p, true)
  {
    if p != [] {
      var s := p + rest;
      assert s[0] == p[0] && IsLiteral(p[0]);
      assert s[1..] == p[1..] + rest;
      assert Scan(s, word, inWord) == Scan(p[1..] + rest, word + [p[0]], true);
      ScanLiteral(p[1..], rest, word + [p[0]], true);
      if p[1..] == [] {
        assert p == [p[0]];
      } else {
        assert p == [p[0]] + p[1..];
        assert word + [p[0]] + p[1..] == word + p;
      }
    } else {
      assert p + rest == rest;
    }
  }

  /** A blank ends the word being built. */
  lemma ScanBlank(rest: string, word: string, inWord: bool)
    ensures Scan(" " + rest, word, inWord)
         == if inWord then [word] + Scan(rest, "", false) else Scan(rest, "", false)
  {
    assert (" " + rest)[0] == ' ' && (" " + rest)[1..] == rest;
  }

  /** A single-quoted run without quotes inside is copied into the word. */
  lemma ScanQuotedRun(u: string, t: string, word: string, inWord: bool)
    requires '\'' !in u
    ensures Scan("'" + u + "'" + t, word, inWord) == Scan(t, word + u, true)
  {
    var s := "'" + u + "'" + t;
    assert s[0] == '\'' && s[1..] == u + "'" + t;
    ScanQuotedTo(u, t, word);
  }

  lemma {:induction false} ScanQuotedTo(u: string, t: string, word: string)
    requires '\'' !in u
    ensures ScanQuoted(u + "'" + t, word) == Scan(t, word + u, true)
  {
    var s := u + "'" + t;
    if u == [] {
      assert s == "'" + t && s[0] == '\'' && s[1..] == t;
      assert word + u == word;
    } else {
      assert s[0] == u[0] && u[0] != '\'';
      assert s[1..] == u[1..] + "'" + t;
      ScanQuotedTo(u[1..], t, word + [u[0]]);
      assert word + [u[0]] + u[1..] == word + u;
    }
  }

  /** A backslash keeps the next character literally. */
  lemma ScanBackslash(c: char, t: string, word: string, inWord: bool)
    ensures Scan("\\" + [c] + t, word, inWord) == Scan(t, word + [c], true)
  {
    var s := "\\" + [c] + t;
    assert s[0] == '\\' && |s| > 1 && s[1] == c && s[2..] == t;
  }

  /** How `escapeshellarg` writes an argument around its first quote. */
  lemma {:induction false} EscapeAtQuote(u: string, v: string)
    requires '\'' !in u
    ensures EscapeShellArg(u + "'" + v) == "'" + u + "'" + "\\'" + EscapeShellArg(v)
  {
    var q := QuoteBody(v);
    assert QuoteBody("'") == "'\\''" by {
      assert "'"[1..] == [];
    }
    QuoteBodyConcat("'", v);
    QuoteBodyConcat(u, "'" + v);
    QuoteBodyNoQuote(u);
    assert u + "'" + v == u + ("'" + v);
    assert QuoteBody(u + "'" + v) == u + ("'\\''" + q);
    SplitQuote(u, q);
  }

  /** Regrouping of the quoted text around an escaped quote. */
  lemma SplitQuote(u: string, q: string)
    ensures "'" + (u + ("'\\''" + q)) + "'" == "'" + u + "'" + "\\'" + ("'" + q + "'")
  {
    var a := "'" + (u + ("'\\''" + q)) + "'";
    var b := "'" + u + "'" + "\\'" + ("'" + q + "'");
    assert |a| == |b|;
    forall i | 0 <= i < |a| ensures a[i] == b[i] {
      if i == 0 {
      } else if i <= |u| {
        assert a[i] == u[i - 1] == b[i];
      } else if i < |u| + 5 {
      } else if i < |u| + 5 + |q| {
        assert a[i] == q[i - |u| - 5] == b[i];
      }
    }
  }

  /** An escaped argument contributes exactly the original text to the current
      word: quoting is undone by the shell, whatever the argument contains. */
  lemma {:induction false} ScanEscaped(x: string, rest: string, word: string, inWord: bool)
    ensures Scan(EscapeShellArg(x) + rest, word, inWord) == Scan(rest, word + x, true)
    decreases |x|
  {
    if '\'' !in x {
      QuoteBodyNoQuote(x);
      assert EscapeShellArg(x) + rest == "'" + x + "'" + rest;
      ScanQuotedRun(x, rest, word, inWord);
    } else {
      var k := IndexOf(x, '\'');
      var u, v := x[..k], x[k + 1..];
      assert x == u + "'" + v;
      EscapeAtQuote(u, v);
      var t := "\\" + "'" + (EscapeShellArg(v) + rest);
      assert EscapeShellArg(x) + rest == "'" + u + "'" + t;
      ScanQuotedRun(u, t, word, inWord);
      ScanBackslash('\'', EscapeShellArg(v) + rest, word + u, true);
      ScanEscaped(v, rest, word + u + "'", true);
      assert word + u + "'" + v == word + x;
    }
  }

  /** An item after a blank: it makes one word. */
  lemma ScanItem(it: Item, z: string, word: string, inWord: bool)
    requires Readable(it)
    ensures Scan(ItemText(it) + z, word, inWord)
         == if inWord then [word] + Scan(z, ItemWord(it), true) else Scan(z, ItemWord(it), true)
  {
    match it
    case Lit(w) =>
      assert ItemText(it) + z == " " + (w + z);
      ScanBlank(w + z, word, inWord);
      ScanLiteral(w, z, "", false);
      assert "" + w == w;
    case Arg(p, v) =>
      var e := EscapeShellArg(v);
      assert ItemText(it) + z == " " + (p + (e + z));
      ScanBlank(p + (e + z), word, inWord);
      ScanLiteral(p, e + z, "", false);
      if p == [] {
        ScanEscaped(v, z, "", false);
        assert "" + v == p + v;
      } else {
        assert "" + p == p;
        ScanEscaped(v, z, p, true);
      }
  }

  /** The end of the text or a blank finishes the word being built. */
  lemma ScanEndWord(tail: string, word: string)
    requires tail == [] || tail[0] == ' '
    ensures Scan(tail, word, true) == [word] + Scan(tail, "", false)
  {
    if tail != [] {
      assert tail == " " + tail[1..];
      ScanBlank(tail[1..], word, true);
      ScanBlank(tail[1..], "", false);
    }
  }

  /** Readable items make one word each, after the word being built. */
  lemma {:induction false} ScanItems(items: seq<Item>, tail: string, word: string, inWord: bool)
    requires AllReadable(items)
    requires tail == [] || tail[0] == ' '
    ensures Scan(ItemsText(items) + tail, word, inWord)
         == if inWord then [word] + (ItemsWords(items) + Scan(tail, "", false))
            else ItemsWords(items) + Scan(tail, "", false)
  {
    if items == [] {
      ScanNoItems(items, tail, word, inWord);
    } else {
      var it, more := items[0], items[1..];
      var z := ItemsText(more) + tail;
      var after := Scan(tail, "", false);
      assert Readable(it);
      assert AllReadable(more) by {
        forall i | 0 <= i < |more| ensures Readable(more[i]) {
          assert more[i] == items[i + 1];
        }
      }
      assert ItemsText(items) + tail == ItemText(it) + z;
      var rest := ItemsWords(more) + after;
      ScanItems(more, tail, ItemWord(it), true);
      ScanItemsStep(it, z, word, inWord, rest);
      assert ItemsWords(items) == [ItemWord(it)] + ItemsWords(more);
      WordsRegroup(ItemWord(it), ItemsWords(more), after);
    }
  }

  lemma WordsRegroup(w: string, more: seq<string>, after: seq<string>)
    ensures ([w] + more) + after == [w] + (more + after)
  {
  }

  lemma ScanNoItems(items: seq<Item>, tail: string, word: string, inWord: bool)
    requires items == []
    requires tail == [] || tail[0] == ' '
    ensures Scan(ItemsText(items) + tail, word, inWord)
         == if inWord then [word] + (ItemsWords(items) + Scan(tail, "", false))
            else ItemsWords(items) + Scan(tail, "", false)
  {
    assert ItemsText(items) + tail == tail;
    if inWord {
      ScanEndWord(tail, word);
    }
  }

  /** One item in front of the rest, given the words of the rest. */
  lemma ScanItemsStep(it: Item, z: string, word: string, inWord: bool, rest: seq<string>)
    requires Readable(it)
    requires Scan(z, ItemWord(it), true) == [ItemWord(it)] + rest
    ensures Scan(ItemText(it) + z, word, inWord)
         == if inWord then [word] + ([ItemWord(it)] + rest) else [ItemWord(it)] + rest
  {
    ScanItem(it, z, word, inWord);
  }

  lemma {:induction false} ItemsTextConcat(a: seq<Item>, b: seq<Item>)
    ensures ItemsText(a + b) == ItemsText(a) + ItemsText(b)
  {
    if a == [] {
      assert a + b == b;
    } else {
      assert (a + b)[0] == a[0] && (a + b)[1..] == a[1..] + b;
      ItemsTextConcat(a[1..], b);
    }
  }

  /** A command line written as readable items, its leading blank dropped,
      is read back as exactly the items' words. */
  lemma WordsOfItems(s: string, items: seq<Item>)
    requires AllReadable(items)
    requires " " + s == ItemsText(items)
    ensures Words(s) == ItemsWords(items)
  {
    calc {
      Words(s);
      { ScanBlank(s, "", false); }
      Scan(" " + s, "", false);
      { assert " " + s == ItemsText(items) + ""; }
      Scan(ItemsText(items) + "", "", false);
      { ScanItems(items, "", "", false); }
      ItemsWords(items) + Scan("", "", false);
    }
  }

  /** The same when one extra blank separates two groups of items. */
  lemma WordsOfItemsGap(s: string, a: seq<Item>, b: seq<Item>)
    requires AllReadable(a) && AllReadable(b)
    requires " " + s == ItemsText(a) + " " + ItemsText(b)
    ensures Words(s) == ItemsWords(a) + ItemsWords(b)
  {
    var ta, tb := ItemsText(a), " " + ItemsText(b);
    TextRegroup(ta, ItemsText(b));
    WordsAfterBlank(s, ta + tb);
    ScanItems(a, tb, "", false);
    ScanBlankItems(b);
  }

  lemma TextRegroup(ta: string, tb: string)
    ensures ta + " " + tb == ta + (" " + tb)
  {
  }

  lemma WordsAfterBlank(s: string, t: string)
    requires " " + s == t
    ensures Words(s) == Scan(t, "", false)
  {
    ScanBlank(s, "", false);
  }

  lemma ScanBlankItems(b: seq<Item>)
    requires AllReadable(b)
    ensures Scan(" " + ItemsText(b), "", false) == ItemsWords(b)
  {
    ScanBlank(ItemsText(b), "", false);
    ScanItems(b, "", "", false);
    assert ItemsText(b) + "" == ItemsText(b);
  }

  /** `escapeshellarg` is undone by the shell: the escaped text is one word
      equal to the original argument. */
  lemma EscapeRoundTrip(x: string)
    ensures Words(EscapeShellArg(x)) == [x]
  {
    ScanEscaped(x, "", "", false);
    assert EscapeShellArg(x) + "" == EscapeShellArg(x);
    assert Scan("", "" + x, true) == ["" + x];
    assert "" + x == x;
  }

  lemma PlainWordIsLiteral(w: string)
    requires IsPlainWord(w)
    ensures AllLiteral(w) && w != []
  {
  }
}
