/**
 * `figlet` (goscript/Loki/cmd/root.go), the whole one-shot command: resolve
 * the language, render the banners, write the file unless it exists, and
 * optionally print the header. The renderer and the date are parameters.
 */
module Figlet {
  import opened Text
  import opened Registry
  import opened Resolver
  import opened FileWrite

  /** How a run ends: one of the exit codes, or normally, with whether the file was
      created and what was printed. */
  datatype Outcome = Exit(code: nat) | Finished(created: bool, printed: seq<string>)

  /** The banners figlet renders: the stem, "By ." and the author, and with -t the date. */
  function Banners(stem: string, author: string, font: string, times: bool, date: string,
                   render: (string, string) -> seq<string>): (banners: seq<seq<string>>)
    ensures |banners| == if times then 3 else 2
    ensures banners[0] == render(stem, font) && banners[1] == render("By ." + author, font)
    ensures times ==> banners[2] == render(date, font)
  {
    [render(stem, font), render("By ." + author, font)] + (if times then [render(date, font)] else [])
  }

  /** The exit code of a failed resolution. */
  function ExitCode(r: Resolution): nat
    requires !r.Resolved?
  {
    match r
    case Exit1 => 1
    case Exit2 => 2
    case Exit3 => 3
  }

  method Figlet(fs: FileStore, author: string, output: string, description: string, lang: string,
                font: string, times: bool, prints: bool, render: (string, string) -> seq<string>,
                date: string, o1: seq<string>, o2: seq<string>)
    returns (outcome: Outcome)
    requires IsOrder(o1) && IsOrder(o2)
    modifies fs
    ensures var r := Resolve(output, lang, o1, o2);
      !r.Resolved? ==> outcome == Exit(ExitCode(r)) && fs.files == old(fs.files)
    ensures var r := Resolve(output, lang, o1, o2);
      r.Resolved? ==>
        var e := LanguageMap[r.key];
        var banners := Banners(Stem(output), author, font, times, date, render);
        && r.key in LanguageMap
        && outcome.Finished?
        && (outcome.created <==> r.fileName !in old(fs.files))
        && fs.files == (if outcome.created
                        then old(fs.files)[r.fileName := FileContent(e.shebang, e.comments, description, banners)]
                        else old(fs.files))
        && outcome.printed == (if prints then PrintedLines(e.shebang, e.comments, description, banners) else [])
  {
    var name := Split(output, '.');
    var language := lang;
    if |name| > 1 && language == "" {
      language := ExtoLan(name[1], o1);
    } else if |name| > 1 && language != "" {
      return Exit(2);
    } else if |name| == 1 && language == "" {
      return Exit(1);
    }
    var realan := ExtoLan(language, o2);
    if realan != NotFound {
      language := realan;
    }
    var handled := HandleLanguage(language);
    var ex, shebang, comment := handled.0, handled.1, handled.2;
    if ex == NotFound {
      return Exit(3);
    }
    var fileName := name[0] + "." + ex;
    assert Resolve(output, lang, o1, o2) == Resolved(language, fileName);
    assert language in LanguageMap && LanguageMap[language] == Entry(ex, shebang, comment);
    var banners := [render(name[0], font), render("By ." + author, font)];
    if times {
      banners := banners + [render(date, font)];
    }
    assert banners == Banners(Stem(output), author, font, times, date, render);
    var created := fs.FileWrite(fileName, shebang, comment, description, banners);
    var printed := [];
    if prints {
      printed := PrintFig(shebang, comment, description, banners);
    }
    return Finished(created, printed);
  }
}
