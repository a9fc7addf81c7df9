/**
 * The language registry of the flag-driven generator (goscript/Loki/cmd/root.go):
 * a fixed table from a language token to its file extension, shebang line and
 * comment marker, the forward lookup `handleLanguage` and the reverse lookup
 * `extolan`. Both lookups answer "false" when nothing matches.
 */
module Registry {

  datatype Entry = Entry(extension: string, shebang: string, comments: string)

  /** The string both lookups return for "not found". */
  const NotFound: string := "false"

  /** The rows of languageMap, in the order the source lists them. */
  const Rows: seq<(string, Entry)> := [
    ("bash",        Entry("sh", "#!/bin/bash", "#")),
    ("python",      Entry("py", "#!/usr/bin/env python", "#")),
    ("perl",        Entry("pl", "#!/usr/bin/perl", "#")),
    ("ruby",        Entry("rb", "#!/usr/bin/env ruby", "#")),
    ("php",         Entry("php", "#!/usr/bin/env php", "//")),
    ("javascript",  Entry("js", "#!/usr/bin/env node", "//")),
    ("nim",         Entry("nim", "", "#")),
    ("nimlang",     Entry("nim", "", "#")),
    ("c",           Entry("c", "", "//")),
    ("c++",         Entry("cpp", "", "//")),
    ("java",        Entry("java", "", "//")),
    ("golang",      Entry("go", "", "//")),
    ("go",          Entry("go", "", "//")),
    ("html",        Entry("html", "", "")),
    ("css",         Entry("css", "", "")),
    ("markdown",    Entry("md", "", "")),
    ("rust",        Entry("rs", "", "//")),
    ("kotlin",      Entry("kt", "#!/usr/bin/env kotlin", "//")),
    ("typescript",  Entry("ts", "", "//")),
    ("scala",       Entry("scala", "#!/usr/bin/env scala", "//")),
    ("lua",         Entry("lua", "", "--")),
    ("r",           Entry("r", "", "#")),
    ("vhdl",        Entry("vhd", "", "--")),
    ("verilog",     Entry("v", "", "//")),
    ("lisp",        Entry("lisp", "", ";")),
    ("scheme",      Entry("scm", "", ";")),
    ("haskell",     Entry("hs", "", "--")),
    ("prolog",      Entry("pl", "", "%")),
    ("julia",       Entry("jl", "", "#"))
  ]

  /** The map a Go map literal with these rows denotes (a later row would win, but no key repeats). */
  function MapOf(rows: seq<(string, Entry)>): (m: map<string, Entry>)
  {
    if rows == [] then map[]
    else MapOf(rows[..|rows| - 1])[rows[|rows| - 1].0 := rows[|rows| - 1].1]
  }

  /** languageMap: token to entry. */
  const LanguageMap: map<string, Entry> := MapOf(Rows)

  /** The keys of MapOf(rows) are the rows' tokens, and each key maps to an entry of a row with that token. */
  lemma {:induction false} MapOfRows(rows: seq<(string, Entry)>, k: string)
    ensures k in MapOf(rows) <==> exists i :: 0 <= i < |rows| && rows[i].0 == k
    ensures k in MapOf(rows) ==> exists i :: 0 <= i < |rows| && rows[i] == (k, MapOf(rows)[k])
  {
    if rows != [] {
      var n := |rows| - 1;
      MapOfRows(rows[..n], k);
      if k != rows[n].0 && exists i :: 0 <= i < |rows| && rows[i].0 == k {
        var i :| 0 <= i < |rows| && rows[i].0 == k;
        assert rows[..n][i] == rows[i];
      }
      if k != rows[n].0 && k in MapOf(rows) {
        var i :| 0 <= i < n && rows[..n][i] == (k, MapOf(rows[..n])[k]);
        assert rows[i] == rows[..n][i];
      }
    }
  }

  /** A registered token and its entry sit in some row. */
  lemma RowOf(k: string) returns (i: nat)
    requires k in LanguageMap
    ensures i < |Rows| && Rows[i] == (k, LanguageMap[k])
  {
    MapOfRows(Rows, k);
    i :| 0 <= i < |Rows| && Rows[i] == (k, LanguageMap[k]);
  }

  /** Every row's token is registered. */
  lemma RowRegistered(i: nat)
    requires i < |Rows|
    ensures Rows[i].0 in LanguageMap
  {
    MapOfRows(Rows, Rows[i].0);
  }

  /** No two rows share a token, so each row's entry is the one registered for its token. */
  lemma RowEntry(i: nat)
    requires i < |Rows|
    ensures Rows[i].0 in LanguageMap && LanguageMap[Rows[i].0] == Rows[i].1
  {
    RowRegistered(i);
    var j := RowOf(Rows[i].0);
    if i < j { RowsDistinctTokens(i, j); }
    if j < i { RowsDistinctTokens(j, i); }
  }

  /** Row facts: no two rows share a token. */
  lemma RowsDistinctTokens(i: nat, j: nat)
    requires i < j < |Rows|
    ensures Rows[i].0 != Rows[j].0
  {
    if j < 7 { RowsDistinctTokens0To6(i, j); }
    else if j < 14 { RowsDistinctTokens7To13(i, j); }
    else if j < 21 { RowsDistinctTokens14To20(i, j); }
    else { RowsDistinctTokens21To28(i, j); }
  }

  lemma RowsDistinctTokens0To6(i: nat, j: nat)
    requires i < j && 0 <= j < 7
    ensures Rows[i].0 != Rows[j].0
  {
  }

  lemma RowsDistinctTokens7To13(i: nat, j: nat)
    requires i < j && 7 <= j < 14
    ensures Rows[i].0 != Rows[j].0
  {
  }

  lemma RowsDistinctTokens14To20(i: nat, j: nat)
    requires i < j && 14 <= j < 21
    ensures Rows[i].0 != Rows[j].0
  {
  }

  lemma RowsDistinctTokens21To28(i: nat, j: nat)
    requires i < j && 21 <= j < 29
    ensures Rows[i].0 != Rows[j].0
  {
  }

  /** Row facts: every extension is non-empty, free of '.' and not "false", and no token is "false". */
  lemma RowsWellFormed(i: nat)
    requires i < |Rows|
    ensures Rows[i].1.extension != NotFound && Rows[i].1.extension != "" && Rows[i].0 != NotFound
    ensures '.' !in Rows[i].1.extension
  {
  }

  /** Row facts: the only rows sharing an extension are nim/nimlang, golang/go and perl/prolog. */
  lemma RowsSharedExtensions(i: nat, j: nat)
    requires i < j < |Rows| && Rows[i].1.extension == Rows[j].1.extension
    ensures (i, j) == (6, 7) || (i, j) == (11, 12) || (i, j) == (2, 27)
  {
    if j < 10 { RowsSharedExtensions0To9(i, j); }
    else if j < 21 { RowsSharedExtensions10To20(i, j); }
    else { RowsSharedExtensions21To28(i, j); }
  }

  lemma RowsSharedExtensions0To9(i: nat, j: nat)
    requires i < j && 0 <= j < 10 && Rows[i].1.extension == Rows[j].1.extension
    ensures (i, j) == (6, 7) || (i, j) == (11, 12) || (i, j) == (2, 27)
  {
  }

  lemma RowsSharedExtensions10To20(i: nat, j: nat)
    requires i < j && 10 <= j < 21 && Rows[i].1.extension == Rows[j].1.extension
    ensures (i, j) == (6, 7) || (i, j) == (11, 12) || (i, j) == (2, 27)
  {
  }

  lemma RowsSharedExtensions21To28(i: nat, j: nat)
    requires i < j && 21 <= j < 29 && Rows[i].1.extension == Rows[j].1.extension
    ensures (i, j) == (6, 7) || (i, j) == (11, 12) || (i, j) == (2, 27)
  {
  }

  /** Row facts: a token that is also a row's extension has that row's entry. */
  lemma RowsKeyAsExtension(i: nat, j: nat)
    requires i < |Rows| && j < |Rows| && Rows[j].1.extension == Rows[i].0
    ensures Rows[j].1 == Rows[i].1
  {
    if j < 7 { RowsKeyAsExtension0To6(i, j); }
    else if j < 11 { RowsKeyAsExtension7To10(i, j); }
    else if j < 14 { RowsKeyAsExtension11To13(i, j); }
    else if j < 20 { RowsKeyAsExtension14To19(i, j); }
    else if j < 24 { RowsKeyAsExtension20To23(i, j); }
    else { RowsKeyAsExtension24To28(i, j); }
  }

  lemma RowsKeyAsExtension0To6(i: nat, j: nat)
    requires i < |Rows| && 0 <= j < 7 && Rows[j].1.extension == Rows[i].0
    ensures Rows[j].1 == Rows[i].1
  {
  }

  lemma RowsKeyAsExtension7To10(i: nat, j: nat)
    requires i < |Rows| && 7 <= j < 11 && Rows[j].1.extension == Rows[i].0
    ensures Rows[j].1 == Rows[i].1
  {
  }

  lemma RowsKeyAsExtension11To13(i: nat, j: nat)
    requires i < |Rows| && 11 <= j < 14 && Rows[j].1.extension == Rows[i].0
    ensures Rows[j].1 == Rows[i].1
  {
  }

  lemma RowsKeyAsExtension14To19(i: nat, j: nat)
    requires i < |Rows| && 14 <= j < 20 && Rows[j].1.extension == Rows[i].0
    ensures Rows[j].1 == Rows[i].1
  {
  }

  lemma RowsKeyAsExtension20To23(i: nat, j: nat)
    requires i < |Rows| && 20 <= j < 24 && Rows[j].1.extension == Rows[i].0
    ensures Rows[j].1 == Rows[i].1
  {
  }

  lemma RowsKeyAsExtension24To28(i: nat, j: nat)
    requires i < |Rows| && 24 <= j < 29 && Rows[j].1.extension == Rows[i].0
    ensures Rows[j].1 == Rows[i].1
  {
  }

  /** Some registered language uses extension `ex`. */
  ghost predicate HasExtension(ex: string)
  {
    exists k :: k in LanguageMap && LanguageMap[k].extension == ex
  }

  /** Every registered extension is non-empty, has no '.' and differs from "false", which is not
      a token either. */
  lemma ExtensionsWellFormed(k: string)
    requires k in LanguageMap
    ensures LanguageMap[k].extension != NotFound && LanguageMap[k].extension != "" && k != NotFound
    ensures '.' !in LanguageMap[k].extension
  {
    var i := RowOf(k);
    RowsWellFormed(i);
  }

  /** "false" is neither a token nor an extension, so the sentinel cannot be mistaken for a hit. */
  lemma NotFoundUnregistered()
    ensures NotFound !in LanguageMap && !HasExtension(NotFound)
  {
    if NotFound in LanguageMap {
      ExtensionsWellFormed(NotFound);
    }
    if HasExtension(NotFound) {
      var k :| k in LanguageMap && LanguageMap[k].extension == NotFound;
      ExtensionsWellFormed(k);
    }
  }

  /** handleLanguage: the entry's triple for a registered token, ("false", "", "") otherwise;
      so the extension comes back as "false" exactly when the token is not registered. */
  function HandleLanguage(lang: string): (r: (string, string, string))
    ensures r.0 == NotFound <==> lang !in LanguageMap
    ensures lang in LanguageMap ==> Entry(r.0, r.1, r.2) == LanguageMap[lang]
    ensures lang !in LanguageMap ==> r == (NotFound, "", "")
  {
    if lang in LanguageMap then
      ExtensionsWellFormed(lang);
      (LanguageMap[lang].extension, LanguageMap[lang].shebang, LanguageMap[lang].comments)
    else (NotFound, "", "")
  }

  /**
   * A possible iteration order of Go's `range` over languageMap: every key
   * exactly once. Go leaves the order unspecified and varies it from one
   * loop to the next, so it is a parameter here.
   */
  ghost predicate IsOrder(order: seq<string>)
  {
    && (forall k :: k in order <==> k in LanguageMap)
    && (forall i, j :: 0 <= i < j < |order| ==> order[i] != order[j])
  }

  /** The key extolan returns when `range` visits the keys in `order`. */
  function KeyFor(ex: string, order: seq<string>): (r: string)
    ensures r == NotFound || (r in order && r in LanguageMap && LanguageMap[r].extension == ex)
  {
    if order == [] then NotFound
    else if order[0] in LanguageMap && LanguageMap[order[0]].extension == ex then order[0]
    else KeyFor(ex, order[1..])
  }

  /**
   * extolan over the visiting order `order`: "false" exactly when no visited
   * key has extension `ex`; otherwise the first visited key that has it.
   */
  lemma {:induction false} KeyForSpec(ex: string, order: seq<string>)
    requires forall k :: k in order ==> k in LanguageMap
    ensures KeyFor(ex, order) == NotFound <==>
              (forall i :: 0 <= i < |order| ==> LanguageMap[order[i]].extension != ex)
    ensures KeyFor(ex, order) != NotFound ==>
              exists i :: 0 <= i < |order| && order[i] == KeyFor(ex, order)
                && LanguageMap[order[i]].extension == ex
                && forall j :: 0 <= j < i ==> LanguageMap[order[j]].extension != ex
  {
    if order != [] {
      assert order[0] in order;
      ExtensionsWellFormed(order[0]);
      if LanguageMap[order[0]].extension != ex {
        var rest := order[1..];
        KeyForSpec(ex, rest);
        if KeyFor(ex, order) != NotFound {
          var i :| 0 <= i < |rest| && rest[i] == KeyFor(ex, order)
                  && LanguageMap[rest[i]].extension == ex
                  && forall j :: 0 <= j < i ==> LanguageMap[rest[j]].extension != ex;
          forall j | 0 <= j < i + 1 ensures LanguageMap[order[j]].extension != ex {
            if j > 0 { assert order[j] == rest[j - 1]; }
          }
          assert order[i + 1] == rest[i];
        } else {
          forall i | 0 <= i < |order| ensures LanguageMap[order[i]].extension != ex {
            if i > 0 { assert order[i] == rest[i - 1]; }
          }
        }
      }
    }
  }

  /** Over a full iteration order, extolan answers "false" exactly when no entry has the
      extension, and otherwise a registered key with that extension. */
  lemma KeyForResult(ex: string, order: seq<string>)
    requires IsOrder(order)
    ensures KeyFor(ex, order) == NotFound <==> !HasExtension(ex)
    ensures KeyFor(ex, order) != NotFound ==>
              KeyFor(ex, order) in LanguageMap && LanguageMap[KeyFor(ex, order)].extension == ex
  {
    KeyForSpec(ex, order);
  }

  /** extolan itself: the `range` loop with its early return. */
  method ExtoLan(ex: string, order: seq<string>) returns (key: string)
    requires IsOrder(order)
    ensures key == KeyFor(ex, order)
  {
    var i := 0;
    while i < |order|
      invariant 0 <= i <= |order|
      invariant KeyFor(ex, order[i..]) == KeyFor(ex, order)
    {
      assert order[i] in order;
      if LanguageMap[order[i]].extension == ex {
        return order[i];
      }
      assert order[i..][1..] == order[i + 1..];
      i := i + 1;
    }
    return NotFound;
  }

  /**
   * Only nim/nimlang, golang/go and perl/prolog share an extension; the
   * first two pairs have identical entries, perl and prolog do not.
   */
  lemma SharedExtensions(k1: string, k2: string)
    requires k1 in LanguageMap && k2 in LanguageMap && k1 != k2
    requires LanguageMap[k1].extension == LanguageMap[k2].extension
    ensures LanguageMap[k1].extension in {"nim", "go", "pl"}
    ensures LanguageMap[k1].extension == "pl" <==> LanguageMap[k1] != LanguageMap[k2]
  {
    var i := RowOf(k1);
    var j := RowOf(k2);
    SharingRows();
    if i < j { RowsSharedExtensions(i, j); } else { RowsSharedExtensions(j, i); }
  }

  /** Row facts: what the three sharing pairs share, and that only perl/prolog differ. */
  lemma SharingRows()
    ensures Rows[6].1 == Rows[7].1 && Rows[6].1.extension == "nim"
    ensures Rows[11].1 == Rows[12].1 && Rows[11].1.extension == "go"
    ensures Rows[2].1 != Rows[27].1 && Rows[2].1.extension == "pl"
    ensures Rows[2].0 == "perl" && Rows[27].0 == "prolog"
  {
  }

  /** A token that is also some entry's extension names that same entry. */
  lemma KeyAsExtension(k: string, j: string)
    requires k in LanguageMap && j in LanguageMap
    requires LanguageMap[j].extension == k
    ensures LanguageMap[j] == LanguageMap[k]
  {
    var a := RowOf(k);
    var b := RowOf(j);
    RowsKeyAsExtension(a, b);
  }

  /** The only tokens sharing an extension with a row other than that row's own token are
      the partners nim/nimlang, golang/go and perl/prolog. */
  lemma OwnerIsRow(k: string, i: nat)
    requires k in LanguageMap && i < |Rows| && LanguageMap[k].extension == Rows[i].1.extension
    ensures k == Rows[i].0 || LanguageMap[k].extension in {"nim", "go", "pl"}
    ensures LanguageMap[k].extension == "pl" ==> k == "perl" || k == "prolog"
  {
    var j := RowOf(k);
    SharingRows();
    if j < i { RowsSharedExtensions(j, i); }
    if i < j { RowsSharedExtensions(i, j); }
    if LanguageMap[k].extension == "pl" && j != 2 {
      RowsSharedExtensions(2, j);
    }
  }

  /** A token whose own extension differs from its name is no entry's extension. */
  lemma KeyNotExtension(k: string)
    requires k in LanguageMap && LanguageMap[k].extension != k
    ensures !HasExtension(k)
  {
    if HasExtension(k) {
      var j :| j in LanguageMap && LanguageMap[j].extension == k;
      KeyAsExtension(k, j);
    }
  }

  /** The keys in the order the source lists them. */
  const SourceOrder: seq<string> := seq(|Rows|, i requires 0 <= i < |Rows| => Rows[i].0)

  /** Listing order is one of the orders `range` may use. */
  lemma SourceOrderIsOrder()
    ensures IsOrder(SourceOrder)
  {
    forall k ensures k in SourceOrder <==> k in LanguageMap {
      MapOfRows(Rows, k);
      if k in LanguageMap {
        var i :| 0 <= i < |Rows| && Rows[i].0 == k;
        assert SourceOrder[i] == k;
      }
    }
    forall i, j | 0 <= i < j < |SourceOrder| ensures SourceOrder[i] != SourceOrder[j] {
      RowsDistinctTokens(i, j);
    }
  }

  /** Entries the worked examples rely on. */
  lemma BashEntry()
    ensures "bash" in LanguageMap && LanguageMap["bash"].extension == "sh"
  {
    RowEntry(0);
  }

  lemma PythonEntry()
    ensures "python" in LanguageMap && LanguageMap["python"].extension == "py"
    ensures "py" !in LanguageMap && !HasExtension("python")
  {
    ExtensionNotToken("py");
    RowEntry(1);
    KeyNotExtension("python");
  }

  /** "py" and "cpp" are extensions but no tokens. */
  lemma ExtensionNotToken(ex: string)
    requires ex == "py" || ex == "cpp"
    ensures ex !in LanguageMap
  {
    if ex in LanguageMap {
      var i := RowOf(ex);
    }
  }

  lemma CppEntry()
    ensures "c++" in LanguageMap && LanguageMap["c++"].extension == "cpp"
    ensures "cpp" !in LanguageMap
  {
    RowEntry(9);
    ExtensionNotToken("cpp");
  }

  /** "zzz" is nobody's extension. */
  lemma UnknownExtension()
    ensures !HasExtension("zzz")
  {
    if HasExtension("zzz") {
      var k :| k in LanguageMap && LanguageMap[k].extension == "zzz";
      var i := RowOf(k);
    }
  }

  /** In listing order the first language with extension "pl" is perl. */
  lemma PerlFirstInSourceOrder()
    ensures KeyFor("pl", SourceOrder) == "perl"
  {
    RowEntry(0);
    RowEntry(1);
    RowEntry(2);
    var o := SourceOrder;
    assert o[0] == "bash" && o[1] == "python" && o[2] == "perl";
    KeyForFirstHit("pl", o, 2);
  }

  /** extolan answers the key at position i when it is the first visited key with that extension. */
  lemma {:induction false} KeyForFirstHit(ex: string, order: seq<string>, i: nat)
    requires i < |order| && order[i] in LanguageMap && LanguageMap[order[i]].extension == ex
    requires forall j :: 0 <= j < i ==> order[j] !in LanguageMap || LanguageMap[order[j]].extension != ex
    ensures KeyFor(ex, order) == order[i]
  {
    if i > 0 {
      KeyForFirstHit(ex, order[1..], i - 1);
    }
  }
}
