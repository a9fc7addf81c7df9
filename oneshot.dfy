/**
 * `createScriptHeader` of goscript/loki.go: the font is checked first, then
 * the language switch rejects unknown languages, and only then is the header
 * file written. The five answers read with Scanln are parameters.
 */
module OneShot {
  import opened Wrappers
  import opened Text
  import opened ScriptHeader
  import opened FileWrite

  /** How a run ends: one of the two rejections, or the name of the file written. */
  datatype Outcome = UnsupportedFont | UnsupportedLanguage | Created(fileName: string)

  method CreateScriptHeader(fs: FileStore, scriptName: string, authorName: string, description: string,
                            scriptLang: string, font: string,
                            render: (string, string) -> string, date: string)
    returns (outcome: Outcome)
    modifies fs
    ensures !ValidateFont(font) ==> outcome == UnsupportedFont && fs.files == old(fs.files)
    ensures ValidateFont(font) && !ValidateScriptLanguage(scriptLang) ==>
              outcome == UnsupportedLanguage && fs.files == old(fs.files)
    ensures ValidateFont(font) && ValidateScriptLanguage(scriptLang) ==>
              var (ext, shebang) := LanguageSwitch(scriptLang).value;
              && outcome == Created(scriptName + "." + ext)
              && fs.files == old(fs.files)[outcome.fileName := HeaderText(shebang, render(scriptName, font),
                                            render("By ." + authorName, font), render(date, font), description)]
  {
    if ToLower(font) !in SupportedFonts {
      return UnsupportedFont;
    }
    var switched := LanguageSwitch(scriptLang);
    if switched.None? {
      return UnsupportedLanguage;
    }
    var fileName := WriteHeader(fs, scriptName, authorName, description, switched.value.0,
                                switched.value.1, font, render, date);
    return Created(fileName);
  }

  /**
   * What the written file starts with: the shebang when the language has one,
   * otherwise the first line of the script-name banner behind "# ".
   */
  lemma HeaderFirstLine(scriptLang: string, nameArt: string, authorArt: string, dateArt: string,
                        description: string)
    requires ValidateScriptLanguage(scriptLang) && '\n' !in description
    ensures var shebang := LanguageSwitch(scriptLang).value.1;
      var lines := Split(HeaderText(shebang, nameArt, authorArt, dateArt, description), '\n');
      && |lines| >= 3
      && lines[0] == (if Normalize(scriptLang) in ShebangLanguages then shebang else "# " + Split(nameArt, '\n')[0])
      && lines[|lines| - 2] == "# Description: " + description
      && lines[|lines| - 1] == ""
  {
    var shebang := LanguageSwitch(scriptLang).value.1;
    HeaderTextLines(shebang, nameArt, authorArt, dateArt, description);
  }
}
