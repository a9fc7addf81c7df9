# Loki script-header generator, modelled in Dafny

Loki writes a header at the top of a new script file. The header has an optional
shebang line, commented ASCII-art banners of the script name, the author and the
date, and a description line. The repository holds three versions of the program:

- **`goscript/Loki/cmd/root.go`**: the flag-driven command.
  - It has a language registry (`languageMap`) with a forward lookup (`handleLanguage`) and a reverse lookup (`extolan`).
  - It resolves the output name and the `--language` token to a language or to exit code 1, 2 or 3 (`figlet`).
  - It writes the file only when the path does not exist yet (`filewrite`), and can also print the header (`printfig`).
- **`goscript/lokibubble.go`**: an interactive five-step form.
  - `model.Update` edits one field per key press and validates the language and font at step 5.
  - `model.View` shows the prompt.
  - `createScriptHeader` writes the header with a fixed language switch and the `commentedArt` line prefixer.
- **`goscript/loki.go`**: the earliest one-shot version. It checks the font, then the language switch, then writes the same header as the form.

The model has one module per concern:

| module | file | what it models |
|---|---|---|
| `Text` | `text.dfy` | the parts of Go's `strings` package the programs use: `Split`, `Join`, `ToLower`, `TrimSpace` (with the `unicode.IsSpace` list), and a line prefixer |
| `Registry` | `registry.dfy` | `languageMap` as its 29 rows, `handleLanguage`, and `extolan` as a method whose map iteration order is a parameter |
| `Resolver` | `resolver.dfy` | lines 131-150 of `figlet`: the result is `Resolved(key, fileName)`, `Exit1`, `Exit2` or `Exit3` |
| `FileWrite` | `filewrite.dfy` | the text `filewrite` produces, the lines `printfig` prints, and a `FileStore` class (a map from path to content) with the no-overwrite rule |
| `Figlet` | `figlet.dfy` | the whole `figlet` procedure as a method: resolution, banners, write, optional print |
| `ScriptHeader` | `scriptheader.dfy` | the parts shared by the two interactive front ends: the validators, the language switch, `commentedArt` as an in-place array loop, the header text and its writer |
| `OneShot` | `oneshot.dfy` | `createScriptHeader` of `loki.go` |
| `Bubble` | `bubble.dfy` | the `model` struct as a class, with `Update` as a method; also `View`, and runs of messages |

Inputs the model does not compute are parameters:

- Rendering is `render(text, font)`. It returns `seq<string>` for `Slicify()` and `string` for `String()`.
- The date string is a parameter.
- So is the order in which Go's `range` visits `languageMap`. The predicate `IsOrder` says a sequence holds every key exactly once. Each `extolan` call gets its own order, because Go may change the order from one loop to the next.

## Model

| member | source | states |
|---|---|---|
| Text.Split | goscript/Loki/cmd/root.go:131 | `strings.Split` always yields at least one piece, and no piece contains the separator |
| Text.SplitJoin | goscript/lokibubble.go:223-227 | joining the pieces of a split with the same separator gives back the original string |
| Text.JoinSplit | goscript/lokibubble.go:223-227 | splitting a join of separator-free pieces gives back those pieces |
| Text.JoinHead | goscript/lokibubble.go:227 | a join starts with its first piece |
| Text.JoinPrefixLength | goscript/lokibubble.go:224-227 | prefixing every piece lengthens the join by the prefix once per piece |
| Text.SplitFirst | goscript/Loki/cmd/root.go:131-140 | a string splits into more than one piece exactly when it contains the separator; the first piece is the text before the first separator |
| Text.ToLower | goscript/lokibubble.go:158 | lower-casing keeps the length; each ASCII capital becomes its own small letter (code point plus 32), U+0130 becomes 'i', the Kelvin sign U+212A becomes 'k', and every other rune stays in place; no ASCII capital is left |
| Text.ToLowerIdempotent | goscript/lokibubble.go:158 | lower-casing twice is the same as lower-casing once |
| Text.TrimLeft | goscript/lokibubble.go:162 | the result is a suffix of the input; everything dropped is white space; the result does not start with white space |
| Text.TrimRight | goscript/lokibubble.go:162 | the result is a prefix of the input; everything dropped is white space; the result does not end with white space |
| Text.TrimSpace | goscript/lokibubble.go:162 | the result is a slice `s[i..j]` of the input with only white space before `i` and from `j` on; it neither starts nor ends with white space, and it is empty only when the input was all white space |
| Text.TrimBothEnds | goscript/lokibubble.go:162 | trimming the left end and then the right end leaves a slice of the input with only white space around it |
| Text.TrimSpaceBlank | goscript/lokibubble.go:162 | trimming leaves nothing exactly when every character of the input is white space |
| Text.ToLowerEnds | goscript/lokibubble.go:162 | lower-casing a string with no white space at either end keeps both ends free of white space |
| Text.TrimLower | goscript/lokibubble.go:162 | trimming, then lower-casing, gives a string no longer than the input, with no white space at either end and no ASCII capital, empty exactly when the input is blank |
| Text.TrimSpaceToLower | goscript/lokibubble.go:162 | trimming a lower-cased trimmed string changes nothing |
| Registry.MapOfRows | goscript/Loki/cmd/root.go:29-63 | the keys of the map literal are exactly the rows' tokens, and each key maps to the entry of a row with that token |
| Registry.RowEntry | goscript/Loki/cmd/root.go:29-63 | no two rows share a token, so every row's entry is the one registered for its token |
| Registry.ExtensionsWellFormed | goscript/Loki/cmd/root.go:29-63 | every registered extension is non-empty, holds no '.' and differs from "false", and "false" is not a token |
| Registry.NotFoundUnregistered | goscript/Loki/cmd/root.go:65-79 | the "not found" sentinel is neither a token nor any entry's extension |
| Registry.HandleLanguage | goscript/Loki/cmd/root.go:65-70 | returns the entry's (extension, shebang, comments) for a registered token and ("false", "", "") otherwise; the extension is "false" exactly when the token is not registered |
| Registry.KeyFor | goscript/Loki/cmd/root.go:72-79 | the reverse lookup answers "false" or a key of the visiting order that is registered with the extension asked for |
| Registry.KeyForFirstHit | goscript/Loki/cmd/root.go:72-79 | the reverse lookup answers the key at position `i` when no earlier visited key has the extension |
| Registry.KeyForSpec | goscript/Loki/cmd/root.go:72-79 | over a visiting order, the reverse lookup returns "false" exactly when no visited key has the extension; otherwise it returns the first visited key that has it |
| Registry.KeyForResult | goscript/Loki/cmd/root.go:72-79 | over any full iteration order, the answer is "false" exactly when no entry has the extension; otherwise it is a registered key whose entry has that extension |
| Registry.ExtoLan | goscript/Loki/cmd/root.go:72-79 | the `range` loop with its early return computes the reverse lookup for the given iteration order |
| Registry.SharedExtensions | goscript/Loki/cmd/root.go:29-63 | two different tokens share an extension only for nim/nimlang, golang/go and perl/prolog; their entries differ exactly for "pl" |
| Registry.SharingRows | goscript/Loki/cmd/root.go:29-63 | nim/nimlang and golang/go share their whole entries, while perl and prolog share only the extension "pl" |
| Registry.KeyAsExtension | goscript/Loki/cmd/root.go:29-63 | if a token is also some entry's extension, that entry equals the token's own entry |
| Registry.OwnerIsRow | goscript/Loki/cmd/root.go:29-63 | a token with the extension of a row is that row's token unless the extension is nim, go or pl; and "pl" belongs only to perl and prolog |
| Registry.KeyNotExtension | goscript/Loki/cmd/root.go:29-63 | a token whose extension differs from its own name is no entry's extension |
| Registry.SourceOrderIsOrder | goscript/Loki/cmd/root.go:29-63 | the order in which the source lists the rows is one of the orders `range` may use |
| Registry.PerlFirstInSourceOrder | goscript/Loki/cmd/root.go:72-79 | in listing order, the first language with extension "pl" is perl |
| Registry.BashEntry | goscript/Loki/cmd/root.go:34 | bash is registered with extension "sh" |
| Registry.PythonEntry | goscript/Loki/cmd/root.go:35 | python is registered with extension "py"; "py" is not a token, and "python" is no entry's extension |
| Registry.CppEntry | goscript/Loki/cmd/root.go:43 | c++ is registered with extension "cpp", and "cpp" is not a token |
| Registry.UnknownExtension | goscript/Loki/cmd/root.go:29-63 | no entry has extension "zzz" |
| Resolver.Stem | goscript/Loki/cmd/root.go:131 | `name[0]` is the text before the first '.': a dot-free prefix of the output that is followed by a '.' when the output has one, and is the whole output exactly when it has none |
| Resolver.Suffix | goscript/Loki/cmd/root.go:131-133 | `name[1]` is the text between the first and the second '.': dot-free, right after the stem and its dot, and running to the end of the output or to the next '.'; empty without a '.' |
| Resolver.Resolve | goscript/Loki/cmd/root.go:130-150 | every success names a registered language and the file name is the stem, '.' and that language's extension; exit 1 comes only without a language and without a '.', exit 2 only with both |
| Resolver.Lookup | goscript/Loki/cmd/root.go:141-150 | a token that is some language's extension becomes the key extolan finds for it, and the file gets the stem plus that token; otherwise a registered token keeps its own entry and an unregistered one exits 3; every success names a registered language |
| Resolver.ResolveExits | goscript/Loki/cmd/root.go:131-140 | exit 2 exactly when the output contains a '.' and a language is given; exit 1 exactly when it has neither; both are decided before any lookup |
| Resolver.ResolveBySuffix | goscript/Loki/cmd/root.go:131-150 | without a language, the result is a success exactly when the suffix is some entry's extension; on success the key has that extension and the file is stem + "." + suffix; otherwise exit 3 |
| Resolver.ResolveByToken | goscript/Loki/cmd/root.go:137-150 | with a language and no '.', a registered token resolves to an entry equal to its own; a token that is only an extension resolves to a language with that extension; anything else exits 3 |
| Resolver.ResolveOrderIndependent | goscript/Loki/cmd/root.go:131-150 | the iteration orders never change the outcome kind, the exit code or the file name; they change the entry only for "pl" |
| Resolver.SplitStemSuffix | goscript/Loki/cmd/root.go:131 | a dot-free stem, a dot and a dot-free suffix split into exactly those two pieces |
| Resolver.ResolveSuffixKeepsHit | goscript/Loki/cmd/root.go:133-150 | when the first lookup hits a token that is not itself an extension, resolution keeps that token and the original file name |
| Resolver.ResolveUnknownSuffix | goscript/Loki/cmd/root.go:131-149 | a dot-free suffix that is no entry's extension exits 3 |
| Resolver.ResolveEveryExtension | goscript/Loki/cmd/root.go:131-150 | for every registered language, a dot-free stem with its extension and no language resolves, keeps that file name, and finds a language with that extension; apart from ".pl" it is the very entry the extension came from |
| Resolver.ResolvePl | goscript/Loki/cmd/root.go:131-150 | a ".pl" output resolves to whichever of perl and prolog the first lookup visits first, and keeps the name |
| Resolver.PlOwner | goscript/Loki/cmd/root.go:72-79 | under any order, the reverse lookup of "pl" answers perl or prolog |
| Resolver.PlFound | goscript/Loki/cmd/root.go:72-79 | under any order, the reverse lookup of "pl" finds a language with that extension |
| Resolver.ResolvePlInSourceOrder | goscript/Loki/cmd/root.go:131-150 | under listing order, ".pl" resolves to perl |
| Resolver.ResolveUniqueSuffix | goscript/Loki/cmd/root.go:131-150 | a suffix that is the extension of exactly one language (every one but nim, go and pl) resolves to that language under every order, whether or not the extension is also a token |
| Resolver.ResolveUniqueToken | goscript/Loki/cmd/root.go:141-150 | a token that is only the extension of exactly one language is canonicalised to that language |
| Resolver.ResolveIgnoresAfterSecondDot | goscript/Loki/cmd/root.go:131-133 | everything after the second '.' of the output is dropped |
| Resolver.ResolveShExample | goscript/Loki/cmd/root.go:235 | "script.sh" without a language is a bash file named "script.sh" |
| Resolver.ResolveSecondDotExample | goscript/Loki/cmd/root.go:131-150 | "a.sh.txt" is a bash file named "a.sh" |
| Resolver.ResolvePyTokenExample | goscript/Loki/cmd/root.go:141-150 | `-l py` with output "script" resolves to python and "script.py" |
| Resolver.ResolveCppTokenExample | goscript/Loki/cmd/root.go:141-150 | `-l cpp` with output "script" resolves to c++ and "script.cpp" |
| Resolver.ResolveNoExtensionExample | goscript/Loki/cmd/root.go:137-140 | output "script" without a language exits 1 |
| Resolver.ResolveHelpExample | goscript/Loki/cmd/root.go:238 | the help text's example `-o script.py -l python` exits 2 |
| Resolver.ResolveTokenSuffixExample | goscript/Loki/cmd/root.go:131-149 | "x.python" exits 3, because a suffix is looked up only as an extension |
| Resolver.ResolveUnknownSuffixExample | goscript/Loki/cmd/root.go:131-149 | "x.zzz" exits 3 |
| FileWrite.CommentedLinesAppend | goscript/Loki/cmd/root.go:96-99 | writing two runs of lines one after the other writes the text for their concatenation |
| FileWrite.CommentedLinesStep | goscript/Loki/cmd/root.go:97-98 | one more line adds the comment marker, the line and a newline at the end |
| FileWrite.CommentedTerminated | goscript/Loki/cmd/root.go:97-98 | the inner loop's text is the lines, each behind the comment marker and each ended by a newline |
| FileWrite.FileContent | goscript/Loki/cmd/root.go:91-103 | the file starts with the shebang line; without banners it is that line alone, so no description is written; with banners it ends with the bare marker line and the description |
| FileWrite.FileContentTerminated | goscript/Loki/cmd/root.go:91-103 | with at least one banner, the file is the shebang, the banner lines and a bare marker, each ended by a newline, followed by the unended description line |
| FileWrite.HeadLinesSepFree | goscript/Loki/cmd/root.go:91-103 | when the shebang, marker, description and banner lines hold no newline, no line of the file does |
| FileWrite.FileContentLines | goscript/Loki/cmd/root.go:91-103 | the file splits into the shebang, every banner line behind the marker, a bare marker and the description line; without banners it is the shebang and an empty line |
| FileWrite.WrittenStep | goscript/Loki/cmd/root.go:96-103 | one round of the outer loop appends the banner's lines, and after the last banner the tail |
| FileWrite.WrittenBounds | goscript/Loki/cmd/root.go:91-103 | before the loop the file holds the shebang line; after it, the whole content |
| FileWrite.PrintFig | goscript/Loki/cmd/root.go:117-128 | the printed lines are the shebang, each banner line after the marker and a space, then the marker and the description line after the last banner |
| FileWrite.PrintedLines | goscript/Loki/cmd/root.go:117-128 | the console gets the shebang, one line per banner line, and, with banners, the bare marker and the description line |
| FileWrite.PrintedAgainstFile | goscript/Loki/cmd/root.go:91-128 | the printed and the written lines match one for one, except for the extra spaces on the console and the file's empty last line when there are no banners |
| FileWrite.FileStore.Create | goscript/Loki/cmd/root.go:84 | the path now holds the empty text and every other path is unchanged |
| FileWrite.FileStore.Append | goscript/Loki/cmd/root.go:91 | the text goes at the end of the path's content and nothing else changes |
| FileWrite.FileStore.WriteBanner | goscript/Loki/cmd/root.go:97-99 | the inner loop appends every line of the banner behind the marker, each ended by a newline |
| FileWrite.FileStore.WriteRound | goscript/Loki/cmd/root.go:96-103 | one round of the outer loop moves the file from the content after `i` banners to the content after `i + 1` |
| FileWrite.FileStore.FileWrite | goscript/Loki/cmd/root.go:81-115 | a path that exists is left alone and nothing changes; otherwise exactly that path is created with the full content |
| Figlet.Banners | goscript/Loki/cmd/root.go:151-160 | the banners are the stem, "By ." plus the author, and with -t the date, in that order |
| Figlet.Figlet | goscript/Loki/cmd/root.go:130-168 | a failed resolution exits with its code and writes nothing; a success creates the file only if it did not exist, with the resolved entry's content, and prints the header only with -p |
| ScriptHeader.ValidateFont | goscript/lokibubble.go:157-159 | an accepted font has four to nine characters and no white space anywhere, since fonts are lower-cased but not trimmed |
| ScriptHeader.AcceptedFontShape | goscript/lokibubble.go:157-159 | a font whose lower-case form is listed has the length of a listed name and no white space |
| ScriptHeader.Normalize | goscript/lokibubble.go:162 | the answer the switch sees is no longer than the typed one, has no white space at either end and no ASCII capital, and is empty exactly when the typed answer is blank |
| ScriptHeader.ValidateScriptLanguage | goscript/lokibubble.go:161-168 | an accepted language answer is not blank, and its normalized form has one to ten characters |
| ScriptHeader.SupportedLanguageLength | goscript/lokibubble.go:163 | each of the ten names has one to ten characters |
| ScriptHeader.FontCaseInsensitive | goscript/lokibubble.go:157-159 | the font check gives the same answer for a font and its lower-case form |
| ScriptHeader.FontExamples | goscript/lokibubble.go:157-159 | "Small" is accepted; " small" is refused, because fonts are not trimmed |
| ScriptHeader.NormalizeIdempotent | goscript/lokibubble.go:162 | normalizing a language answer twice is the same as normalizing it once |
| ScriptHeader.LanguageNormalized | goscript/lokibubble.go:161-168 | the language check and the switch see only the normalized answer |
| ScriptHeader.Switch | goscript/lokibubble.go:173-200 | the switch gives a result exactly for the ten names; the extension is non-empty and dot-free; the shebang has no newline and is non-empty exactly for bash, python, perl, ruby, php and javascript |
| ScriptHeader.LanguageSwitch | goscript/lokibubble.go:161-200 | the switch on the typed answer has a result exactly when the language check accepts the answer |
| ScriptHeader.LanguageExample | goscript/lokibubble.go:173-179 | " Python\n" is switched to ("py", "#!/usr/bin/env python") |
| ScriptHeader.SwitchRow | goscript/lokibubble.go:173-200 | each of the ten names has a registry row with the same extension and shebang; that row's comment marker is "#" exactly for bash, python, perl and ruby |
| ScriptHeader.SwitchAgreesWithRegistry | goscript/lokibubble.go:173-200 | the switch agrees with `languageMap` (with "cpp" spelled "c++") on extension and shebang; the fixed "# " matches the registry's marker only for bash, python, perl and ruby |
| ScriptHeader.CommentedArt | goscript/lokibubble.go:222-228 | the in-place loop over the split lines computes the art with every line behind "# " |
| ScriptHeader.Commented | goscript/lokibubble.go:222-228 | the commented art starts with "# " and is at least two characters longer than the art |
| ScriptHeader.CommentedSplit | goscript/lokibubble.go:222-228 | commenting keeps the number of lines, and line k becomes "# " followed by line k of the art |
| ScriptHeader.CommentedRoundTrip | goscript/lokibubble.go:222-228 | dropping the two-character marker from every line gives back the art |
| ScriptHeader.HeaderTextTerminated | goscript/lokibubble.go:210-233 | the header file is its lines, each ended by a newline |
| ScriptHeader.HeaderLinesSepFree | goscript/lokibubble.go:210-233 | with a one-line shebang and description, no header line holds a newline |
| ScriptHeader.HeaderTextLines | goscript/lokibubble.go:210-233 | the file splits into the shebang (if any), every banner line behind "# ", the description line, and an empty last piece |
| ScriptHeader.HeaderText | goscript/lokibubble.go:202-233 | the header starts with the shebang line (if any) and the "# " of the first banner, and ends with the description line and a newline |
| ScriptHeader.WriteArt | goscript/lokibubble.go:230-232 | one banner appends the commented art and a newline to the open file |
| ScriptHeader.WriteArts | goscript/lokibubble.go:230-232 | the three banners are appended in order, each commented and ended by a newline |
| ScriptHeader.CreateWithShebang | goscript/lokibubble.go:203-213 | `os.Create` empties the path (truncating an existing file), then the shebang line is written only if there is a shebang |
| ScriptHeader.WriteHeader | goscript/lokibubble.go:202-233 | the file name is the script name, '.' and the extension; that path, and only that path, ends up holding the header text |
| OneShot.CreateScriptHeader | goscript/loki.go:22-125 | an unsupported font is rejected before the language is looked at; an unsupported language is rejected next; both leave the files unchanged; otherwise the file scriptName + "." + extension holds the header |
| OneShot.HeaderFirstLine | goscript/loki.go:86-108 | the file starts with the shebang for the six scripting languages, and otherwise with the first line of the name banner behind "# "; its last line is the description, followed by an empty piece |
| Bubble.SetField | goscript/lokibubble.go:93-104 | setting the field of a step changes that field only; a step outside 0..4 changes nothing |
| Bubble.DropLast | goscript/lokibubble.go:49-51 | a non-empty field loses exactly its last character, and an empty one stays empty |
| Bubble.BubbleCreateScriptHeader | goscript/lokibubble.go:170-233 | the file named by the switch holds the header text; a language without a case would leave the extension and shebang empty |
| Bubble.Model.constructor | goscript/lokibubble.go:150 | a new model has every field at its zero value |
| Bubble.Model.SetActive | goscript/lokibubble.go:93-104 | replaces the field of the current step, as `SetField` says |
| Bubble.Model.DropFromActive | goscript/lokibubble.go:46-68 | backspace shortens the field of the current step by one character |
| Bubble.Model.AppendToActive | goscript/lokibubble.go:92-104 | a key name is appended to the field of the current step |
| Bubble.Model.ApplyKey | goscript/lokibubble.go:41-105 | the key switch moves the model to `Edit` of the old state |
| Bubble.Model.ValidateAnswers | goscript/lokibubble.go:108-119 | the step-5 check moves the model to `Validate` of the old state, and reports that a header is to be written exactly when the old state passes |
| Bubble.Model.CheckAnswers | goscript/lokibubble.go:108-119 | the step-5 branch moves the model to `Check` of the old state and reports creation exactly when step 5 has both answers valid |
| Bubble.Model.ApplyAndValidate | goscript/lokibubble.go:41-119 | the key switch and the check move the model to `Next` of the old state and report exactly when the header is to be written |
| Bubble.Model.Update | goscript/lokibubble.go:38-122 | quits exactly on "q"; the new state is `Next` of the old one; the header file is written exactly when the message passes the step-5 check, and otherwise no file changes |
| Bubble.Edit | goscript/lokibubble.go:41-105 | enter only increments the step; every other message keeps the step, the error message, the created flag and every field but the active one; a step without a field keeps the whole model |
| Bubble.Check | goscript/lokibubble.go:108-119 | the check never touches the answers; the only step change is 5 to 4; the script is marked created exactly when step 5 has both answers valid, or it already was |
| Bubble.Validate | goscript/lokibubble.go:108-119 | the language is judged before the font: a rejected language steps back to 4 with the language message, an accepted language with a rejected font with the font message; otherwise the step and message stay |
| Bubble.Next | goscript/lokibubble.go:38-122 | "q" leaves the model untouched, and a created script stays created |
| Bubble.Run | goscript/lokibubble.go:38-122 | a created script stays created for the rest of any run |
| Bubble.Prompt | goscript/lokibubble.go:133-142 | every prompt starts with "Enter " |
| Bubble.View | goscript/lokibubble.go:124-147 | a created script shows the success line; steps 0-4 show a prompt ending in the field being typed; any other step shows the error message |
| Bubble.NextPreservesInv | goscript/lokibubble.go:38-122 | one update keeps the invariant: step not negative, step 5 or more only after creation, and both answers valid at step 5 |
| Bubble.RunPreservesInv | goscript/lokibubble.go:38-122 | every model reachable by a run of messages keeps the invariant |
| Bubble.OnlyActiveFieldChanges | goscript/lokibubble.go:46-104 | only the field of the current step can change |
| Bubble.ActiveFieldEdit | goscript/lokibubble.go:41-105 | backspace and left drop the last character; any other key but "q" and enter is appended; everything else keeps the field, so "q" is never typed |
| Bubble.EditActiveField | goscript/lokibubble.go:46-104 | the same effect on the active field, for the key switch alone |
| Bubble.StepNeverDecreases | goscript/lokibubble.go:44-119 | on reachable models, the step never goes back |
| Bubble.ErrorMessageNeverShown | goscript/lokibubble.go:124-147 | every reachable model shows the success line or the prompt of its step with its field, never the error message |
| Bubble.CreatesExactly | goscript/lokibubble.go:108-119 | the header is written exactly when enter completes step 4 with both answers valid, or on any message but enter and "q" at step 5 |
| Bubble.RewriteKeepsModel | goscript/lokibubble.go:92-119 | at step 5, a message other than enter and "q" leaves the model as it is, while the header is written again |
| Bubble.NextKeepsRejectedLanguage | goscript/lokibubble.go:108-114 | a model at the font step with a rejected language stays there after any message but "q" |
| Bubble.EditAtFontStep | goscript/lokibubble.go:41-105 | at the font step, a key leaves the language and the created flag alone, and leaves the step at 4 or moves it to 5 |
| Bubble.CheckRejected | goscript/lokibubble.go:108-111 | with the language rejected, validation leaves the model at step 4 with the same language |
| Bubble.RejectedLanguageIsFinal | goscript/lokibubble.go:108-114 | a rejected language can never be corrected: every later model stays at the font step with the same answer and creates nothing |
| Bubble.FontCanBeCorrected | goscript/lokibubble.go:112-118 | with a valid language, a corrected font and enter write the header |
| Bubble.KeyNamesAreTyped | goscript/lokibubble.go:92-96 | a key name other than "q", enter, backspace and left is typed into the script name as a whole |

## Left out

- Banner rendering (`figure.NewFigure`, `Slicify`, `String`) is an external library. It is the uninterpreted parameter `render`.
- The clock (`time.Now`, its format and the UTC conversion) is the parameter `date`.
- Cobra flag parsing, required flags, the help and usage text, `cmd.Help()`, the `recover` wrapper and the debug `Println` of the flags (root.go 171-243) are not modelled. `os.Exit(n)` is a result value.
- I/O errors from `os.Create`, `WriteString` and `Fprintf` are not modelled; every write succeeds. The `Println` messages that report them, or success, are not modelled either. `created` in `FileStore.FileWrite` says which message root.go prints.
- `os.Chmod` and `exec.Command("chmod")`, with the `runtime.GOOS` switch, are left out: permissions are not part of the file store.
- The Bubble Tea runtime (`Init`, `tea.NewProgram`, `main`, the alt-screen commands) is left out. A run is the sequence of messages it delivers; `Run` stops at the first "q".
- `fmt.Scanln` in loki.go is left out; the five answers are parameters. Scanln stops at white space, so a real answer never holds a space.
- Bubble.DropLast: Go slices `[:len-1]` by byte, so backspace after a multi-byte character leaves a broken UTF-8 string. The model works on characters and drops the whole character.
- Text.ToLower: only the runes whose lower case can reach an ASCII letter are mapped (A-Z, U+0130, U+212A). Other Unicode letters keep their case. This cannot change which of the fixed ASCII names a font or language answer matches.
- Bubble.Model.Update: `Step` is a Go `int`; the model uses unbounded integers. Overflow would need about 2^63 presses of enter.
- The `ScriptCreated` message in `View` is `Sprintf` of a constant, so it is the constant here.
- FileWrite.FileStore.FileWrite: the check-then-create race with another process is not modelled.

## Where the description and the code differ

The model follows the code in each case.

- **Shebang lines.** root.go writes `shebang + "\n"` even for an empty shebang, so e.g. a c file starts with an empty line. The two interactive front ends write the shebang line only when there is one.
- **Overwriting.** Only root.go refuses to overwrite an existing file. `loki.go` and `lokibubble.go` call `os.Create`, which truncates an existing file.
- **Step 5 of the form.** After the header is written, every key other than enter and "q" writes it again.
- **Rejected languages.** A rejected language can never be corrected: the form steps back only to the font step, and the language can be edited only at step 3.
- **The form's error message.** It is set on rejection but never shown. A rejection always steps back to step 4, where `View` shows the font prompt. `View` shows the error message only outside steps 0-4, and a model gets there only after the script was created, when the success line is shown instead.
- **Comment markers.** The interactive front ends always comment with "# ". The registry's marker is "//" for php, javascript, c, c++, java and go.
- **Split on the first '.'.** root.go splits the output name on the first '.' and uses only the text up to the second '.', so "a.sh.txt" becomes "a.sh".
- **The help example.** root.go exits 2 whenever the output holds a '.' and a language is given (lines 134-136). The help text's own example `-o script.py -l python` therefore exits 2 instead of generating a header.
- **The description line.** root.go writes `comment + " Description: " + description` with a space after the marker and no final newline. The console prints a second space after "Description:".
- **Trimming.** Fonts are lower-cased but not trimmed; languages are trimmed and lower-cased.
