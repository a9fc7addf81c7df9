/**
 * The header writer shared by the two interactive front ends
 * (goscript/lokibubble.go and goscript/loki.go): the font and language
 * checks, the fixed language switch, the commented ASCII art and the text of
 * the header file. Rendering is a parameter `render(text, font)` standing for
 * `figure.NewFigure(text, font, true).String()`.
 */
module ScriptHeader {
  import opened Wrappers
  import opened Text
  import opened Registry
  import opened FileWrite

  /** The fonts the forms accept (`supportedFonts`). */
  const SupportedFonts: set<string> := {"small", "script", "mini", "bubbles", "jerusalim"}

  /** A font is accepted when its lower-case form is listed; spaces are not trimmed, so an
      accepted font holds no white space at all. */
  predicate ValidateFont(font: string)
    ensures ValidateFont(font) ==> 4 <= |font| <= 9 && forall i :: 0 <= i < |font| ==> !IsSpace(font[i])
  {
    if ToLower(font) in SupportedFonts then
      AcceptedFontShape(font);
      true
    else
      false
  }

  /** A font whose lower-case form is listed has the length of a listed name and no white space. */
  lemma AcceptedFontShape(font: string)
    requires ToLower(font) in SupportedFonts
    ensures 4 <= |font| <= 9 && forall i :: 0 <= i < |font| ==> !IsSpace(font[i])
  {
    var lower := ToLower(font);
    assert 4 <= |lower| <= 9 && forall i :: 0 <= i < |lower| ==> !IsSpace(lower[i]);
    forall i | 0 <= i < |font|
      ensures !IsSpace(font[i])
    {
      assert lower[i] == LowerChar(font[i]);
      LowerCharSpace(font[i]);
    }
  }

  /** The names the language switch knows, in the order the prompt lists them. */
  const SupportedLanguages: seq<string> :=
    ["bash", "python", "perl", "ruby", "php", "javascript", "c", "cpp", "java", "go"]

  /** The languages that get a shebang line. */
  const ShebangLanguages: set<string> := {"bash", "python", "perl", "ruby", "php", "javascript"}

  /** The form of a language answer the switch looks at: trimmed, then lower-cased. It has
      no white space at either end and no ASCII capital, and it is empty exactly when the
      answer is all white space. */
  function Normalize(scriptLang: string): (r: string)
    ensures |r| <= |scriptLang|
    ensures Trimmed(r)
    ensures NoCapital(r)
    ensures r == [] <==> Blank(scriptLang)
  {
    TrimLower(scriptLang);
    ToLower(TrimSpace(scriptLang))
  }

  /** The language check: an accepted answer is not blank, and its normalized form has
      between one and ten characters. */
  predicate ValidateScriptLanguage(scriptLang: string)
    ensures ValidateScriptLanguage(scriptLang) ==> !Blank(scriptLang) && 1 <= |Normalize(scriptLang)| <= 10
  {
    var r := Normalize(scriptLang);
    if r in SupportedLanguages then
      SupportedLanguageLength(r);
      true
    else
      false
  }

  /** The ten names have between one and ten characters. */
  lemma SupportedLanguageLength(name: string)
    requires name in SupportedLanguages
    ensures 1 <= |name| <= 10
  {
    var i :| 0 <= i < |SupportedLanguages| && SupportedLanguages[i] == name;
  }

  /**
   * The language switch on the normalized answer: the file extension and the
   * shebang for a known language, nothing for any other answer.
   */
  function Switch(name: string): (r: Option<(string, string)>)
    ensures r.Some? <==> name in SupportedLanguages
    ensures r.Some? ==> r.value.0 != "" && '.' !in r.value.0 && '\n' !in r.value.1
    ensures r.Some? ==> (r.value.1 != "" <==> name in ShebangLanguages)
  {
    match name
    case "bash" => Some(("sh", "#!/bin/bash"))
    case "python" => Some(("py", "#!/usr/bin/env python"))
    case "perl" => Some(("pl", "#!/usr/bin/perl"))
    case "ruby" => Some(("rb", "#!/usr/bin/env ruby"))
    case "php" => Some(("php", "#!/usr/bin/env php"))
    case "javascript" => Some(("js", "#!/usr/bin/env node"))
    case "c" => Some(("c", ""))
    case "cpp" => Some(("cpp", ""))
    case "java" => Some(("java", ""))
    case "go" => Some(("go", ""))
    case _ => None
  }

  /** The switch applied to what the user typed. */
  function LanguageSwitch(scriptLang: string): (r: Option<(string, string)>)
    ensures r.Some? <==> ValidateScriptLanguage(scriptLang)
  {
    Switch(Normalize(scriptLang))
  }

  /** Normalizing an answer twice is normalizing it once. */
  lemma NormalizeIdempotent(scriptLang: string)
    ensures Normalize(Normalize(scriptLang)) == Normalize(scriptLang)
  {
    var t := TrimSpace(scriptLang);
    var n := ToLower(t);
    assert Normalize(scriptLang) == n;
    assert TrimSpace(n) == n by { TrimSpaceToLower(t); }
    assert ToLower(n) == n by { ToLowerIdempotent(t); }
    assert Normalize(n) == ToLower(TrimSpace(n));
  }

  /** The language check and the switch see only the normalized answer. */
  lemma LanguageNormalized(scriptLang: string)
    ensures ValidateScriptLanguage(Normalize(scriptLang)) == ValidateScriptLanguage(scriptLang)
    ensures LanguageSwitch(Normalize(scriptLang)) == LanguageSwitch(scriptLang)
  {
    var n := Normalize(scriptLang);
    assert Normalize(n) == n by {
      NormalizeIdempotent(scriptLang);
    }
    assert ValidateScriptLanguage(n) == ValidateScriptLanguage(scriptLang) by {
      assert ValidateScriptLanguage(n) == (Normalize(n) in SupportedLanguages);
    }
  }

  /** The font check ignores case. */
  lemma FontCaseInsensitive(font: string)
    ensures ValidateFont(ToLower(font)) == ValidateFont(font)
  {
    ToLowerIdempotent(font);
  }

  /** The font answer is lower-cased but not trimmed. */
  lemma FontExamples()
    ensures ValidateFont("Small")
    ensures !ValidateFont(" small")
  {
    assert ToLower("Small") == "small";
    assert ToLower(" small") == " small";
  }

  /** The language answer is trimmed and lower-cased before the switch. */
  lemma LanguageExample()
    ensures LanguageSwitch(" Python\n") == Some(("py", "#!/usr/bin/env python"))
  {
    NormalizeExample();
    assert Switch("python") == Some(("py", "#!/usr/bin/env python"));
  }

  lemma NormalizeExample()
    ensures Normalize(" Python\n") == "python"
  {
    TrimExample();
    LowerExample();
  }

  lemma LowerExample()
    ensures ToLower("Python") == "python"
  {
  }

  lemma TrimExample()
    ensures TrimSpace(" Python\n") == "Python"
  {
    TrimLeftExample();
    TrimRightExample();
  }

  lemma TrimLeftExample()
    ensures TrimLeft(" Python\n") == "Python\n"
  {
    var s := " Python\n";
    var t := "Python\n";
    assert s[1..] == t;
    assert IsSpace(s[0]) && !IsSpace(t[0]);
    assert TrimLeft(t) == t;
  }

  lemma TrimRightExample()
    ensures TrimRight("Python\n") == "Python"
  {
    assert "Python\n"[..6] == "Python";
  }

  /** The languageMap key of a switch name: only "cpp" is spelled differently there. */
  function RegistryKey(name: string): string
  {
    if name == "cpp" then "c++" else name
  }

  /** The row of languageMap a switch name corresponds to. */
  lemma SwitchRow(name: string) returns (i: nat)
    requires name in SupportedLanguages
    ensures i < |Rows| && Rows[i].0 == RegistryKey(name)
    ensures Switch(name) == Some((Rows[i].1.extension, Rows[i].1.shebang))
    ensures Rows[i].1.comments == "#" <==> name in {"bash", "python", "perl", "ruby"}
  {
    if name in {"bash", "python", "perl", "ruby"} {
      i := HashRow(name);
    } else if name in {"php", "javascript"} {
      i := SlashRow(name);
    } else {
      i := CompiledRow(name);
    }
  }

  /** The four names whose row comments with "#". */
  lemma HashRow(name: string) returns (i: nat)
    requires name in {"bash", "python", "perl", "ruby"}
    ensures i < |Rows| && Rows[i].0 == RegistryKey(name)
    ensures Switch(name) == Some((Rows[i].1.extension, Rows[i].1.shebang))
    ensures Rows[i].1.comments == "#"
  {
    if name == "bash" { i := 0; }
    else if name == "python" { i := 1; }
    else if name == "perl" { i := 2; }
    else { i := 3; }
  }

  /** The two names with a shebang whose row comments with "//". */
  lemma SlashRow(name: string) returns (i: nat)
    requires name in {"php", "javascript"}
    ensures i < |Rows| && Rows[i].0 == RegistryKey(name)
    ensures Switch(name) == Some((Rows[i].1.extension, Rows[i].1.shebang))
    ensures Rows[i].1.comments == "//"
  {
    if name == "php" { i := 4; } else { i := 5; }
  }

  /** The four compiled languages: no shebang, comments with "//". */
  lemma CompiledRow(name: string) returns (i: nat)
    requires name in {"c", "cpp", "java", "go"}
    ensures i < |Rows| && Rows[i].0 == RegistryKey(name)
    ensures Switch(name) == Some((Rows[i].1.extension, Rows[i].1.shebang))
    ensures Rows[i].1.comments == "//"
  {
    if name == "c" { i := 8; }
    else if name == "cpp" { i := 9; }
    else if name == "java" { i := 10; }
    else { i := 12; }
  }

  /**
   * The switch agrees with languageMap on extension and shebang for all ten
   * names. The front ends comment every line with "#", which matches the map's
   * marker only for bash, python, perl and ruby.
   */
  lemma SwitchAgreesWithRegistry(name: string)
    requires name in SupportedLanguages
    ensures var k := RegistryKey(name);
      && k in LanguageMap
      && Switch(name) == Some((LanguageMap[k].extension, LanguageMap[k].shebang))
      && (LanguageMap[k].comments == "#" <==> name in {"bash", "python", "perl", "ruby"})
  {
    var i := SwitchRow(name);
    RowEntry(i);
  }

  /** commentedArt: every line of the art behind "# ". */
  function Commented(art: string): (r: string)
    ensures "# " <= r
    ensures |r| >= |art| + 2
  {
    var lines := PrefixLines("# ", Split(art, '\n'));
    JoinHead(lines, '\n');
    JoinPrefixLength("# ", Split(art, '\n'), '\n');
    SplitJoin(art, '\n');
    assert "# " <= lines[0];
    Join(lines, '\n')
  }

  /** The closure as written: split into a slice, prefix each element in place, join. */
  method CommentedArt(art: string) returns (r: string)
    ensures r == Commented(art)
  {
    var parts := Split(art, '\n');
    var lines := new string[|parts|](i requires 0 <= i < |parts| => parts[i]);
    for i := 0 to lines.Length
      invariant lines[..i] == PrefixLines("# ", parts[..i])
      invariant lines[i..] == parts[i..]
    {
      assert lines[i] == parts[i];
      lines[i] := "# " + lines[i];
      assert parts[..i + 1] == parts[..i] + [parts[i]];
      PrefixLinesAppend("# ", parts[..i], [parts[i]]);
    }
    assert parts[..|parts|] == parts;
    assert lines[..] == lines[..lines.Length];
    r := Join(lines[..], '\n');
  }

  /** Commenting keeps the number of lines, and line k becomes "# " and line k of the art. */
  lemma CommentedSplit(art: string)
    ensures Split(Commented(art), '\n') == PrefixLines("# ", Split(art, '\n'))
  {
    var parts := Split(art, '\n');
    PrefixLinesSepFree("# ", parts, '\n');
    JoinSplit(PrefixLines("# ", parts), '\n');
  }

  /** Dropping the two-character marker from every line. */
  function Uncommented(text: string): string
  {
    var lines := Split(text, '\n');
    Join(seq(|lines|, i requires 0 <= i < |lines| => if |lines[i]| >= 2 then lines[i][2..] else lines[i]), '\n')
  }

  /** Commenting loses nothing: the art comes back by dropping the markers. */
  lemma CommentedRoundTrip(art: string)
    ensures Uncommented(Commented(art)) == art
  {
    CommentedSplit(art);
    var parts := Split(art, '\n');
    var lines := Split(Commented(art), '\n');
    var stripped := seq(|lines|, i requires 0 <= i < |lines| => if |lines[i]| >= 2 then lines[i][2..] else lines[i]);
    assert stripped == parts by {
      forall i | 0 <= i < |parts| ensures stripped[i] == parts[i] {
        assert lines[i] == "# " + parts[i];
        assert ("# " + parts[i])[2..] == parts[i];
      }
    }
    SplitJoin(art, '\n');
  }

  /** The shebang line, written only when there is a shebang. */
  function ShebangLine(shebang: string): string
  {
    if shebang == "" then "" else shebang + "\n"
  }

  function DescriptionText(description: string): string
  {
    "# Description: " + description
  }

  /** The text of the header file: the optional shebang line, the three commented banners
      each ended by a newline, and the description line. */
  function HeaderText(shebang: string, nameArt: string, authorArt: string, dateArt: string,
                      description: string): (r: string)
    ensures ShebangLine(shebang) + "# " <= r
    ensures var d := DescriptionText(description) + "\n"; |d| <= |r| && r[|r| - |d|..] == d
  {
    var head := ShebangLine(shebang);
    var name := Commented(nameArt) + "\n";
    var rest := (Commented(authorArt) + "\n") + (Commented(dateArt) + "\n");
    var d := DescriptionText(description) + "\n";
    assert "# " <= name;
    assert head + "# " <= head + name + rest;
    assert (head + name + rest + d)[|head + name + rest|..] == d;
    ShebangLine(shebang) + (Commented(nameArt) + "\n") + (Commented(authorArt) + "\n")
      + (Commented(dateArt) + "\n") + (DescriptionText(description) + "\n")
  }

  /** The header's lines, as a list. */
  function HeaderLines(shebang: string, nameArt: string, authorArt: string, dateArt: string,
                       description: string): seq<string>
  {
    (if shebang == "" then [] else [shebang])
      + PrefixLines("# ", Split(nameArt, '\n')) + PrefixLines("# ", Split(authorArt, '\n'))
      + PrefixLines("# ", Split(dateArt, '\n')) + [DescriptionText(description)]
  }

  lemma CommentedTerminatedArt(art: string)
    ensures Commented(art) + "\n" == Terminated(PrefixLines("# ", Split(art, '\n')))
  {
    JoinTerminated(PrefixLines("# ", Split(art, '\n')));
  }

  lemma ShebangTerminated(shebang: string)
    ensures ShebangLine(shebang) == Terminated(if shebang == "" then [] else [shebang])
  {
    if shebang != "" {
      assert Terminated([shebang]) == shebang + "\n" + Terminated([]);
    }
  }

  lemma LineTerminated(line: string)
    ensures line + "\n" == Terminated([line])
  {
    assert Terminated([line]) == line + "\n" + Terminated([]);
  }

  lemma HeaderTextTerminated(shebang: string, nameArt: string, authorArt: string, dateArt: string,
                             description: string)
    ensures HeaderText(shebang, nameArt, authorArt, dateArt, description)
            == Terminated(HeaderLines(shebang, nameArt, authorArt, dateArt, description))
  {
    var s := if shebang == "" then [] else [shebang];
    var a := PrefixLines("# ", Split(nameArt, '\n'));
    var b := PrefixLines("# ", Split(authorArt, '\n'));
    var c := PrefixLines("# ", Split(dateArt, '\n'));
    var d := [DescriptionText(description)];
    ShebangTerminated(shebang);
    CommentedTerminatedArt(nameArt);
    CommentedTerminatedArt(authorArt);
    CommentedTerminatedArt(dateArt);
    LineTerminated(DescriptionText(description));
    TerminatedAppend(s, a);
    TerminatedAppend(s + a, b);
    TerminatedAppend(s + a + b, c);
    TerminatedAppend(s + a + b + c, d);
  }

  lemma HeaderLinesSepFree(shebang: string, nameArt: string, authorArt: string, dateArt: string,
                           description: string)
    requires '\n' !in shebang && '\n' !in description
    ensures SepFree(HeaderLines(shebang, nameArt, authorArt, dateArt, description), '\n')
  {
    var s: seq<string> := if shebang == "" then [] else [shebang];
    var a := PrefixLines("# ", Split(nameArt, '\n'));
    var b := PrefixLines("# ", Split(authorArt, '\n'));
    var c := PrefixLines("# ", Split(dateArt, '\n'));
    var d := [DescriptionText(description)];
    PrefixLinesSepFree("# ", Split(nameArt, '\n'), '\n');
    PrefixLinesSepFree("# ", Split(authorArt, '\n'), '\n');
    PrefixLinesSepFree("# ", Split(dateArt, '\n'), '\n');
    SepFreeAppend(s, a);
    SepFreeAppend(s + a, b);
    SepFreeAppend(s + a + b, c);
    SepFreeAppend(s + a + b + c, d);
  }

  lemma SepFreeAppend(x: seq<string>, y: seq<string>)
    requires SepFree(x, '\n') && SepFree(y, '\n')
    ensures SepFree(x + y, '\n')
  {
    forall i | 0 <= i < |x + y| ensures '\n' !in (x + y)[i] {
      if i < |x| { assert (x + y)[i] == x[i]; } else { assert (x + y)[i] == y[i - |x|]; }
    }
  }

  /**
   * The header file's lines: the shebang if there is one, every line of each
   * banner behind "# ", the description line, and the empty piece after the
   * final newline.
   */
  lemma HeaderTextLines(shebang: string, nameArt: string, authorArt: string, dateArt: string,
                        description: string)
    requires '\n' !in shebang && '\n' !in description
    ensures Split(HeaderText(shebang, nameArt, authorArt, dateArt, description), '\n')
            == HeaderLines(shebang, nameArt, authorArt, dateArt, description) + [""]
  {
    HeaderTextTerminated(shebang, nameArt, authorArt, dateArt, description);
    HeaderLinesSepFree(shebang, nameArt, authorArt, dateArt, description);
    SplitTerminated(HeaderLines(shebang, nameArt, authorArt, dateArt, description));
  }

  /** One banner written to the open file: the commented art and a newline. */
  method WriteArt(fs: FileStore, fileName: string, art: string)
    requires fileName in fs.files
    modifies fs
    ensures fs.files == old(fs.files)[fileName := old(fs.files)[fileName] + (Commented(art) + "\n")]
  {
    var commented := CommentedArt(art);
    fs.Append(fileName, commented + "\n");
  }

  /** os.Create followed by the optional shebang line. */
  method CreateWithShebang(fs: FileStore, fileName: string, shebang: string)
    modifies fs
    ensures fs.files == old(fs.files)[fileName := ShebangLine(shebang)]
  {
    fs.Create(fileName);
    if shebang != "" {
      fs.Append(fileName, shebang + "\n");
      assert "" + (shebang + "\n") == ShebangLine(shebang);
    }
  }

  /**
   * The writing half of createScriptHeader: os.Create (which truncates an
   * existing file), the optional shebang line, the three banners and the
   * description.
   */
  method WriteHeader(fs: FileStore, scriptName: string, authorName: string, description: string,
                     ext: string, shebang: string, font: string,
                     render: (string, string) -> string, date: string)
    returns (fileName: string)
    modifies fs
    ensures fileName == scriptName + "." + ext
    ensures fs.files == old(fs.files)[fileName := HeaderText(shebang, render(scriptName, font),
                                        render("By ." + authorName, font), render(date, font), description)]
  {
    fileName := scriptName + "." + ext;
    var nameArt, authorArt, dateArt := render(scriptName, font), render("By ." + authorName, font), render(date, font);
    CreateWithShebang(fs, fileName, shebang);
    WriteArts(fs, fileName, nameArt, authorArt, dateArt);
    fs.Append(fileName, DescriptionText(description) + "\n");
  }

  /** The three banners, one after the other. */
  method WriteArts(fs: FileStore, fileName: string, nameArt: string, authorArt: string, dateArt: string)
    requires fileName in fs.files
    modifies fs
    ensures fs.files == old(fs.files)[fileName := old(fs.files)[fileName] + (Commented(nameArt) + "\n")
                                        + (Commented(authorArt) + "\n") + (Commented(dateArt) + "\n")]
  {
    ghost var before := fs.files;
    ghost var written := fs.files[fileName];
    WriteArt(fs, fileName, nameArt);
    written := written + (Commented(nameArt) + "\n");
    assert fs.files == before[fileName := written];
    WriteArt(fs, fileName, authorArt);
    written := written + (Commented(authorArt) + "\n");
    assert fs.files == before[fileName := written];
    WriteArt(fs, fileName, dateArt);
  }
}
