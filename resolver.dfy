/**
 * The decision part of `figlet` (goscript/Loki/cmd/root.go): from the output
 * name and the --language token to the registered language and the final file
 * name, or to one of the three exit codes.
 */
module Resolver {
  import opened Text
  import opened Registry

  /** The outcome of resolution: `os.Exit(n)` becomes `ExitN`. */
  datatype Resolution = Resolved(key: string, fileName: string) | Exit1 | Exit2 | Exit3

  /** The text before the first '.' of the output name (`name[0]`): a dot-free prefix of
      the output, the whole output when it has no '.', and otherwise followed by the
      first '.'. */
  function Stem(output: string): (r: string)
    ensures '.' !in r && r <= output
    ensures r == output <==> '.' !in output
    ensures '.' in output ==> |r| < |output| && output[|r|] == '.'
  {
    SplitFirst(output, '.');
    Split(output, '.')[0]
  }

  /** The text between the first and the second '.' (`name[1]`), when there is a '.':
      a dot-free piece that follows the stem and its dot and runs to the end of the
      output or to the second '.'; empty when there is no '.'. */
  function Suffix(output: string): (r: string)
    ensures '.' !in r
    ensures '.' !in output ==> r == ""
    ensures '.' in output ==> Stem(output) + "." + r <= output
    ensures '.' in output ==>
              Stem(output) + "." + r == output || Stem(output) + "." + r + "." <= output
  {
    var name := Split(output, '.');
    SplitFirst(output, '.');
    if |name| > 1 then
      SuffixFollowsStem(output);
      name[1]
    else ""
  }

  /** The second piece of a split with a '.' sits right after the first piece and its dot. */
  lemma SuffixFollowsStem(output: string)
    requires '.' in output
    ensures var name := Split(output, '.');
      |name| > 1 && name[0] + "." + name[1] <= output
    ensures var name := Split(output, '.');
      name[0] + "." + name[1] == output || name[0] + "." + name[1] + "." <= output
  {
    var name := Split(output, '.');
    SplitFirst(output, '.');
    var rest := name[1..];
    if |rest| > 1 {
      assert rest[1..] == name[2..];
      assert Join(rest, '.') == name[1] + ['.'] + Join(name[2..], '.');
      assert name[0] + "." + name[1] + "." <= output;
    } else {
      assert Join(rest, '.') == name[1];
      assert name[0] + "." + name[1] == output;
    }
    assert name[1] <= Join(rest, '.');
  }

  /**
   * figlet, lines 131-150. `o1` and `o2` are the orders in which the two
   * extolan calls visit the map. Every success names a registered language and
   * gives the stem plus that language's extension; exit 1 needs a missing
   * language and exit 2 a given one.
   */
  function Resolve(output: string, lang: string, o1: seq<string>, o2: seq<string>): (r: Resolution)
    ensures r.Resolved? ==> r.key in LanguageMap && r.fileName == Stem(output) + "." + LanguageMap[r.key].extension
    ensures r == Exit1 ==> lang == "" && '.' !in output
    ensures r == Exit2 ==> lang != "" && '.' in output
  {
    var name := Split(output, '.');
    SplitFirst(output, '.');
    if |name| > 1 && lang == "" then Lookup(name[0], KeyFor(name[1], o1), o2)
    else if |name| > 1 && lang != "" then Exit2
    else if |name| == 1 && lang == "" then Exit1
    else Lookup(name[0], lang, o2)
  }

  /** Lines 141-150: canonicalise a token that is an extension, look it up, build the name.
      The result is a success with a registered language, or exit 3; a token that is some
      language's extension becomes that language, and the file gets the token as its
      extension. */
  function Lookup(stem: string, lang: string, o2: seq<string>): (r: Resolution)
    ensures r.Resolved? || r == Exit3
    ensures r.Resolved? ==> r.key in LanguageMap && r.fileName == stem + "." + LanguageMap[r.key].extension
    ensures lang in LanguageMap && KeyFor(lang, o2) !in LanguageMap ==> r == Resolved(lang, stem + "." + LanguageMap[lang].extension)
    ensures lang !in LanguageMap && KeyFor(lang, o2) !in LanguageMap ==> r == Exit3
    ensures KeyFor(lang, o2) != NotFound ==> r == Resolved(KeyFor(lang, o2), stem + "." + lang)
  {
    var realan := KeyFor(lang, o2);
    var lang' := if realan != NotFound then realan else lang;
    NotFoundUnregistered();
    var (ex, _, _) := HandleLanguage(lang');
    if ex == NotFound then Exit3 else Resolved(lang', stem + "." + ex)
  }

  /** Exit 2 exactly when the output has a '.' and a token is given; exit 1 exactly when
      it has neither. Both are decided before any lookup. */
  lemma ResolveExits(output: string, lang: string, o1: seq<string>, o2: seq<string>)
    ensures Resolve(output, lang, o1, o2) == Exit2 <==> '.' in output && lang != ""
    ensures Resolve(output, lang, o1, o2) == Exit1 <==> '.' !in output && lang == ""
  {
    SplitFirst(output, '.');
  }

  /** Without a token, the suffix must be a registered extension; the file keeps the
      stem and gets that extension. */
  lemma ResolveBySuffix(output: string, o1: seq<string>, o2: seq<string>)
    requires IsOrder(o1) && IsOrder(o2) && '.' in output
    ensures var r := Resolve(output, "", o1, o2);
      && (r.Resolved? <==> HasExtension(Suffix(output)))
      && (r.Resolved? ==> r.key in LanguageMap && LanguageMap[r.key].extension == Suffix(output)
                          && r.fileName == Stem(output) + "." + Suffix(output))
      && (!r.Resolved? ==> r == Exit3)
  {
    SplitFirst(output, '.');
    var name := Split(output, '.');
    var lang := KeyFor(name[1], o1);
    KeyForResult(name[1], o1);
    KeyForResult(lang, o2);
    var realan := KeyFor(lang, o2);
    if lang != NotFound && realan != NotFound {
      KeyAsExtension(lang, realan);
    }
    NotFoundUnregistered();
  }

  /** With a token and no '.', a registered token resolves to its own entry, a token that is
      only an extension resolves to a language with that extension, anything else exits 3. */
  lemma ResolveByToken(output: string, lang: string, o1: seq<string>, o2: seq<string>)
    requires IsOrder(o1) && IsOrder(o2) && '.' !in output && lang != ""
    ensures var r := Resolve(output, lang, o1, o2);
      && (r.Resolved? <==> lang in LanguageMap || HasExtension(lang))
      && (lang in LanguageMap ==> r.Resolved? && LanguageMap[r.key] == LanguageMap[lang]
                                  && r.fileName == output + "." + LanguageMap[lang].extension)
      && (lang !in LanguageMap && HasExtension(lang) ==>
            r.Resolved? && r.key in LanguageMap && LanguageMap[r.key].extension == lang
            && r.fileName == output + "." + lang)
      && (!r.Resolved? ==> r == Exit3)
  {
    SplitFirst(output, '.');
    KeyForResult(lang, o2);
    var realan := KeyFor(lang, o2);
    if lang in LanguageMap && realan != NotFound {
      KeyAsExtension(lang, realan);
    }
  }

  /**
   * The visiting orders can change the key, never the outcome kind or the file
   * name; and unless the extension is "pl" they cannot change the entry either.
   */
  lemma ResolveOrderIndependent(output: string, lang: string,
                                o1: seq<string>, o2: seq<string>, p1: seq<string>, p2: seq<string>)
    requires IsOrder(o1) && IsOrder(o2) && IsOrder(p1) && IsOrder(p2)
    ensures var r, r' := Resolve(output, lang, o1, o2), Resolve(output, lang, p1, p2);
      && (r.Resolved? <==> r'.Resolved?)
      && (!r.Resolved? ==> r == r')
      && (r.Resolved? ==> r.fileName == r'.fileName
                          && (LanguageMap[r.key].extension != "pl" ==> LanguageMap[r.key] == LanguageMap[r'.key]))
  {
    var r, r' := Resolve(output, lang, o1, o2), Resolve(output, lang, p1, p2);
    ResolveExits(output, lang, o1, o2);
    ResolveExits(output, lang, p1, p2);
    if '.' in output && lang == "" {
      ResolveBySuffix(output, o1, o2);
      ResolveBySuffix(output, p1, p2);
    } else if '.' !in output && lang != "" {
      ResolveByToken(output, lang, o1, o2);
      ResolveByToken(output, lang, p1, p2);
    }
    if r.Resolved? && r'.Resolved? && r.key != r'.key && LanguageMap[r.key].extension == LanguageMap[r'.key].extension {
      SharedExtensions(r.key, r'.key);
    }
  }

  /** How a name made of a dot-free stem, a dot and a dot-free suffix splits. */
  lemma SplitStemSuffix(stem: string, suffix: string)
    requires '.' !in stem && '.' !in suffix
    ensures Split(stem + "." + suffix, '.') == [stem, suffix]
    ensures Stem(stem + "." + suffix) == stem && Suffix(stem + "." + suffix) == suffix
  {
    SplitAfterPiece(stem, suffix, '.');
    SplitNoSep(suffix, '.');
    assert stem + "." + suffix == stem + ['.'] + suffix;
  }

  /** Resolution through a suffix whose first extolan hit is a token that is not itself an
      extension keeps that token. */
  lemma ResolveSuffixKeepsHit(stem: string, suffix: string, o1: seq<string>, o2: seq<string>)
    requires IsOrder(o1) && IsOrder(o2) && '.' !in stem && '.' !in suffix
    requires KeyFor(suffix, o1) in LanguageMap
    requires LanguageMap[KeyFor(suffix, o1)].extension != KeyFor(suffix, o1)
    ensures Resolve(stem + "." + suffix, "", o1, o2) == Resolved(KeyFor(suffix, o1), stem + "." + suffix)
  {
    SplitStemSuffix(stem, suffix);
    var lang := KeyFor(suffix, o1);
    assert KeyFor(lang, o2) == NotFound by {
      KeyNotExtension(lang);
      KeyForResult(lang, o2);
    }
    assert LanguageMap[lang].extension == suffix by {
      NotFoundUnregistered();
      KeyForResult(suffix, o1);
    }
  }

  /** A dot-free suffix that no language has as extension exits 3. */
  lemma ResolveUnknownSuffix(stem: string, suffix: string, o1: seq<string>, o2: seq<string>)
    requires IsOrder(o1) && IsOrder(o2) && '.' !in stem && '.' !in suffix
    requires !HasExtension(suffix)
    ensures Resolve(stem + "." + suffix, "", o1, o2) == Exit3
  {
    SplitStemSuffix(stem, suffix);
    ResolveBySuffix(stem + "." + suffix, o1, o2);
  }

  /**
   * A ".pl" file resolves to perl or to prolog, whichever the first extolan
   * visits first; so the same command may produce a perl or a prolog header.
   */
  lemma ResolvePl(stem: string, o1: seq<string>, o2: seq<string>)
    requires IsOrder(o1) && IsOrder(o2) && '.' !in stem
    ensures var r := Resolve(stem + ".pl", "", o1, o2);
      && r == Resolved(KeyFor("pl", o1), stem + ".pl")
      && (r.key == "perl" || r.key == "prolog")
  {
    assert stem + "." + "pl" == stem + ".pl";
    PlOwner(o1);
    ResolveSuffixKeepsHit(stem, "pl", o1, o2);
  }

  /** extolan("pl") answers perl or prolog, whatever the order. */
  lemma PlOwner(o1: seq<string>)
    requires IsOrder(o1)
    ensures var lang := KeyFor("pl", o1);
      lang in LanguageMap && LanguageMap[lang].extension == "pl" && (lang == "perl" || lang == "prolog")
  {
    PlFound(o1);
    RowEntry(2);
    OwnerIsRow(KeyFor("pl", o1), 2);
  }

  /** extolan("pl") finds some language, since perl has that extension. */
  lemma PlFound(o1: seq<string>)
    requires IsOrder(o1)
    ensures KeyFor("pl", o1) in LanguageMap && LanguageMap[KeyFor("pl", o1)].extension == "pl"
  {
    RowEntry(2);
    NotFoundUnregistered();
    KeyForResult("pl", o1);
  }

  /** Listing order visits perl before prolog, so under it ".pl" means perl. */
  lemma ResolvePlInSourceOrder(stem: string)
    requires '.' !in stem
    ensures Resolve(stem + ".pl", "", SourceOrder, SourceOrder) == Resolved("perl", stem + ".pl")
  {
    SourceOrderIsOrder();
    ResolvePl(stem, SourceOrder, SourceOrder);
    assert KeyFor("pl", SourceOrder) == "perl" by {
      PerlFirstInSourceOrder();
    }
  }

  /**
   * Every registered extension, used as the suffix of a dot-free stem without a
   * token, resolves: the file keeps that name, and the language found has that
   * extension; apart from ".pl" it is the very entry the extension came from.
   */
  lemma ResolveEveryExtension(stem: string, t: string, o1: seq<string>, o2: seq<string>)
    requires IsOrder(o1) && IsOrder(o2) && '.' !in stem && t in LanguageMap
    ensures var ex := LanguageMap[t].extension;
      var r := Resolve(stem + "." + ex, "", o1, o2);
      && r.Resolved? && r.fileName == stem + "." + ex
      && r.key in LanguageMap && LanguageMap[r.key].extension == ex
      && (ex != "pl" ==> LanguageMap[r.key] == LanguageMap[t])
  {
    var ex := LanguageMap[t].extension;
    var output := stem + "." + ex;
    ExtensionsWellFormed(t);
    SplitStemSuffix(stem, ex);
    assert output[|stem|] == '.';
    ResolveBySuffix(output, o1, o2);
    var r := Resolve(output, "", o1, o2);
    if r.key != t {
      SharedExtensions(r.key, t);
    }
  }

  /** Resolution through a suffix that is the extension of the single language `k`. */
  lemma ResolveUniqueSuffix(stem: string, k: string, o1: seq<string>, o2: seq<string>)
    requires IsOrder(o1) && IsOrder(o2) && '.' !in stem && k in LanguageMap
    requires LanguageMap[k].extension !in {"nim", "go", "pl"}
    ensures Resolve(stem + "." + LanguageMap[k].extension, "", o1, o2)
            == Resolved(k, stem + "." + LanguageMap[k].extension)
  {
    var ex := LanguageMap[k].extension;
    ResolveEveryExtension(stem, k, o1, o2);
    var r := Resolve(stem + "." + ex, "", o1, o2);
    var i := RowOf(k);
    OwnerIsRow(r.key, i);
  }

  /** A token that is only the extension of the single language `k` resolves to `k`. */
  lemma ResolveUniqueToken(stem: string, k: string, o1: seq<string>, o2: seq<string>)
    requires IsOrder(o1) && IsOrder(o2) && '.' !in stem && k in LanguageMap
    requires LanguageMap[k].extension !in {"nim", "go", "pl"}
    requires LanguageMap[k].extension !in LanguageMap
    ensures Resolve(stem, LanguageMap[k].extension, o1, o2)
            == Resolved(k, stem + "." + LanguageMap[k].extension)
  {
    var ex := LanguageMap[k].extension;
    SplitNoSep(stem, '.');
    var realan := KeyFor(ex, o2);
    assert realan == k by {
      NotFoundUnregistered();
      KeyForResult(ex, o2);
      var i := RowOf(k);
      OwnerIsRow(realan, i);
    }
    ExtensionsWellFormed(k);
  }

  /** A single-owner extension as a suffix gives its language under every order. */
  lemma ResolveShExample(o1: seq<string>, o2: seq<string>)
    requires IsOrder(o1) && IsOrder(o2)
    ensures Resolve("script.sh", "", o1, o2) == Resolved("bash", "script.sh")
  {
    assert "script" + "." + "sh" == "script.sh";
    BashEntry();
    ResolveUniqueSuffix("script", "bash", o1, o2);
  }

  /** Only the text between the first two dots is looked up, and the rest is dropped. */
  lemma ResolveIgnoresAfterSecondDot(stem: string, suffix: string, rest: string, o1: seq<string>, o2: seq<string>)
    requires '.' !in stem && '.' !in suffix
    ensures Resolve(stem + "." + suffix + "." + rest, "", o1, o2) == Resolve(stem + "." + suffix, "", o1, o2)
  {
    SplitAfterPiece(stem, suffix + "." + rest, '.');
    SplitAfterPiece(suffix, rest, '.');
    assert stem + "." + suffix + "." + rest == stem + ['.'] + (suffix + ['.'] + rest);
    SplitStemSuffix(stem, suffix);
  }

  /** "a.sh.txt" is a bash file named "a.sh". */
  lemma ResolveSecondDotExample(o1: seq<string>, o2: seq<string>)
    requires IsOrder(o1) && IsOrder(o2)
    ensures Resolve("a.sh.txt", "", o1, o2) == Resolved("bash", "a.sh")
  {
    assert "a" + "." + "sh" + "." + "txt" == "a.sh.txt";
    assert "a" + "." + "sh" == "a.sh";
    ResolveIgnoresAfterSecondDot("a", "sh", "txt", o1, o2);
    BashEntry();
    ResolveUniqueSuffix("a", "bash", o1, o2);
  }

  /** `-l py` is canonicalised to python. */
  lemma ResolvePyTokenExample(o1: seq<string>, o2: seq<string>)
    requires IsOrder(o1) && IsOrder(o2)
    ensures Resolve("script", "py", o1, o2) == Resolved("python", "script.py")
  {
    assert "script" + "." + "py" == "script.py";
    PythonEntry();
    ResolveUniqueToken("script", "python", o1, o2);
  }

  /** `-l cpp` is canonicalised to c++. */
  lemma ResolveCppTokenExample(o1: seq<string>, o2: seq<string>)
    requires IsOrder(o1) && IsOrder(o2)
    ensures Resolve("script", "cpp", o1, o2) == Resolved("c++", "script.cpp")
  {
    assert "script" + "." + "cpp" == "script.cpp";
    CppEntry();
    ResolveUniqueToken("script", "c++", o1, o2);
  }

  /** No extension and no token: exit 1. */
  lemma ResolveNoExtensionExample(o1: seq<string>, o2: seq<string>)
    ensures Resolve("script", "", o1, o2) == Exit1
  {
    ResolveExits("script", "", o1, o2);
  }

  /** The help text's own example "-o script.py -l python" exits 2. */
  lemma ResolveHelpExample(o1: seq<string>, o2: seq<string>)
    ensures Resolve("script.py", "python", o1, o2) == Exit2
  {
    ResolveExits("script.py", "python", o1, o2);
    assert "script.py"[6] == '.';
  }

  /** A suffix that is a language token but not an extension exits 3. */
  lemma ResolveTokenSuffixExample(o1: seq<string>, o2: seq<string>)
    requires IsOrder(o1) && IsOrder(o2)
    ensures Resolve("x.python", "", o1, o2) == Exit3
  {
    assert "x" + "." + "python" == "x.python";
    PythonEntry();
    ResolveUnknownSuffix("x", "python", o1, o2);
  }

  /** A suffix nothing registers exits 3. */
  lemma ResolveUnknownSuffixExample(o1: seq<string>, o2: seq<string>)
    requires IsOrder(o1) && IsOrder(o2)
    ensures Resolve("x.zzz", "", o1, o2) == Exit3
  {
    assert "x" + "." + "zzz" == "x.zzz";
    UnknownExtension();
    ResolveUnknownSuffix("x", "zzz", o1, o2);
  }
}
