/**
 * The interactive form of goscript/lokibubble.go: the `model` record, its
 * `Update` on every message and its `View`. The Bubble Tea runtime is left
 * out; a run is the sequence of messages it delivers.
 */
module Bubble {
  import opened ScriptHeader
  import opened FileWrite

  /** A message: a key press, named as `KeyMsg.String()` names it, or any other message. */
  datatype Msg = Key(name: string) | Other

  /** The fields of `model`. */
  datatype Form = Form(scriptName: string, authorName: string, description: string,
                       scriptLang: string, font: string, step: int, errorMessage: string,
                       scriptCreated: bool)

  /** `model{}`: every field at its zero value. */
  const Initial: Form := Form("", "", "", "", "", 0, "", false)

  const LanguageError: string :=
    "Unsupported language. Please choose from: bash, python, perl, ruby, php, javascript, c, cpp, java, go"
  const FontError: string := "Unsupported font. Please choose from: small, script, mini, bubbles, jerusalim"
  const Success: string := "Custom script header created successfully!\n"

  /** The field step `i` edits, for the five steps that have one. */
  function Field(f: Form, i: int): string
  {
    if i == 0 then f.scriptName
    else if i == 1 then f.authorName
    else if i == 2 then f.description
    else if i == 3 then f.scriptLang
    else if i == 4 then f.font
    else ""
  }

  function SetField(f: Form, i: int, v: string): (g: Form)
    ensures 0 <= i <= 4 ==> Field(g, i) == v
    ensures forall j :: j != i ==> Field(g, j) == Field(f, j)
    ensures g.step == f.step && g.errorMessage == f.errorMessage && g.scriptCreated == f.scriptCreated
    ensures !(0 <= i <= 4) ==> g == f
  {
    if i == 0 then f.(scriptName := v)
    else if i == 1 then f.(authorName := v)
    else if i == 2 then f.(description := v)
    else if i == 3 then f.(scriptLang := v)
    else if i == 4 then f.(font := v)
    else f
  }

  /** Backspace and left: drop the last character, if any. */
  function DropLast(s: string): (r: string)
    ensures |s| > 0 ==> r + [s[|s| - 1]] == s
    ensures |s| == 0 ==> r == s
  {
    if |s| > 0 then s[..|s| - 1] else s
  }

  /** The key switch: enter advances, backspace and left shorten the active field, any
      other key name is appended to it. Steps without a field ignore editing keys. Besides
      the active field, enter only increments the step, and every other message keeps the
      step; a step without a field keeps the whole model. */
  function Edit(f: Form, msg: Msg): (e: Form)
    ensures e.errorMessage == f.errorMessage && e.scriptCreated == f.scriptCreated
    ensures msg == Key("enter") ==> e == f.(step := f.step + 1)
    ensures msg != Key("enter") ==> e.step == f.step
    ensures msg != Key("enter") && !(0 <= f.step <= 4) ==> e == f
    ensures forall j :: j != f.step ==> Field(e, j) == Field(f, j)
  {
    match msg
    case Other => f
    case Key(k) =>
      if k == "enter" then f.(step := f.step + 1)
      else if k == "backspace" || k == "left" then SetField(f, f.step, DropLast(Field(f, f.step)))
      else SetField(f, f.step, Field(f, f.step) + k)
  }

  /** What happens once step 5 is reached, given the verdicts on the two answers: step
      back with a message, or mark the script as created. */
  function Check(f: Form, languageOk: bool, fontOk: bool): (g: Form)
    ensures forall j :: Field(g, j) == Field(f, j)
    ensures g.step == f.step || (f.step == 5 && g.step == 4 && g.scriptCreated == f.scriptCreated)
    ensures g.scriptCreated <==> f.scriptCreated || (f.step == 5 && languageOk && fontOk)
  {
    if f.step != 5 then f
    else if !languageOk then f.(errorMessage := LanguageError, step := f.step - 1)
    else if !fontOk then f.(errorMessage := FontError, step := f.step - 1)
    else f.(scriptCreated := true)
  }

  /** The step-5 check: the language is judged before the font, and a rejection steps back
      to the font prompt with the matching message. */
  function Validate(f: Form): (g: Form)
    ensures g.scriptCreated <==> f.scriptCreated || Passes(f)
    ensures f.step == 5 && !ValidateScriptLanguage(f.scriptLang) ==> g.step == 4 && g.errorMessage == LanguageError
    ensures f.step == 5 && ValidateScriptLanguage(f.scriptLang) && !ValidateFont(f.font) ==>
              g.step == 4 && g.errorMessage == FontError
    ensures f.step != 5 || Passes(f) ==> g.step == f.step && g.errorMessage == f.errorMessage
  {
    Check(f, ValidateScriptLanguage(f.scriptLang), ValidateFont(f.font))
  }

  /** The model after `Update`; "q" returns the model untouched, and a created script
      stays created. */
  function Next(f: Form, msg: Msg): (g: Form)
    ensures msg == Key("q") ==> g == f
    ensures f.scriptCreated ==> g.scriptCreated
  {
    if msg == Key("q") then f else Validate(Edit(f, msg))
  }

  /** Whether the step-5 check lets a model through to the header writer. */
  predicate Passes(f: Form)
  {
    f.step == 5 && ValidateScriptLanguage(f.scriptLang) && ValidateFont(f.font)
  }

  /** Whether `Update` calls createScriptHeader for this message. */
  predicate Creates(f: Form, msg: Msg)
  {
    msg != Key("q") && Passes(Edit(f, msg))
  }

  /** createScriptHeader of lokibubble.go has no default case: an unknown language would
      leave extension and shebang empty. */
  function BubbleSwitch(scriptLang: string): (string, string)
  {
    match LanguageSwitch(scriptLang)
    case Some(p) => p
    case None => ("", "")
  }

  function FileNameOf(f: Form): string
  {
    f.scriptName + "." + BubbleSwitch(f.scriptLang).0
  }

  function HeaderOf(f: Form, render: (string, string) -> string, date: string): string
  {
    HeaderText(BubbleSwitch(f.scriptLang).1, render(f.scriptName, f.font),
               render("By ." + f.authorName, f.font), render(date, f.font), f.description)
  }

  /** createScriptHeader of lokibubble.go: the same writer as loki.go, after a switch
      without a default. */
  method BubbleCreateScriptHeader(fs: FileStore, scriptName: string, authorName: string,
                                  description: string, scriptLang: string, font: string,
                                  render: (string, string) -> string, date: string)
    modifies fs
    ensures fs.files == old(fs.files)[scriptName + "." + BubbleSwitch(scriptLang).0 :=
              HeaderText(BubbleSwitch(scriptLang).1, render(scriptName, font),
                         render("By ." + authorName, font), render(date, font), description)]
  {
    var fileExtension, shebang := "", "";
    var switched := LanguageSwitch(scriptLang);
    if switched.Some? {
      fileExtension, shebang := switched.value.0, switched.value.1;
    }
    var _ := WriteHeader(fs, scriptName, authorName, description, fileExtension, shebang, font, render, date);
  }

  /** The prompt shown at each of the five steps. */
  function Prompt(i: int): (r: string)
    ensures "Enter " <= r
  {
    var rest :=
      if i == 0 then "your script name: "
      else if i == 1 then "your name or alias: "
      else if i == 2 then "script description: "
      else if i == 3 then "script language (bash, python, perl, ruby, php, javascript, c, cpp, java, go): "
      else "font for ASCII art (small, script, mini, bubbles, jerusalim): ";
    assert ("Enter " + rest)[..6] == "Enter ";
    "Enter " + rest
  }


  /** View: the success line once created, else the active prompt and field, else the
      error message. */
  function View(f: Form): (v: string)
    ensures f.scriptCreated ==> v == Success
    ensures !f.scriptCreated && 0 <= f.step <= 4 ==>
              "Enter " <= v && |Field(f, f.step)| <= |v| && v[|v| - |Field(f, f.step)|..] == Field(f, f.step)
    ensures !f.scriptCreated && !(0 <= f.step <= 4) ==> v == f.errorMessage
  {
    if f.scriptCreated then Success
    else if 0 <= f.step <= 4 then
      var p, field := Prompt(f.step), Field(f, f.step);
      assert (p + field)[|p|..] == field;
      assert "Enter " <= p + field;
      p + field
    else f.errorMessage
  }

  /** The model as the form keeps it. */
  class Model {
    var scriptName: string
    var authorName: string
    var description: string
    var scriptLang: string
    var font: string
    var step: int
    var errorMessage: string
    var scriptCreated: bool

    function State(): Form
      reads this
    {
      Form(scriptName, authorName, description, scriptLang, font, step, errorMessage, scriptCreated)
    }

    constructor()
      ensures State() == Initial
    {
      scriptName, authorName, description, scriptLang, font := "", "", "", "", "";
      step, errorMessage, scriptCreated := 0, "", false;
    }

    /** Replace the field of the current step; steps without a field change nothing. */
    method SetActive(v: string)
      modifies this
      ensures State() == SetField(old(State()), old(step), v)
    {
      if step == 0 {
        scriptName := v;
      } else if step == 1 {
        authorName := v;
      } else if step == 2 {
        description := v;
      } else if step == 3 {
        scriptLang := v;
      } else if step == 4 {
        font := v;
      }
    }

    /** Shorten the field of the current step, as the backspace and left cases do. */
    method DropFromActive()
      modifies this
      ensures State() == SetField(old(State()), old(step), DropLast(Field(old(State()), old(step))))
    {
      var current := Field(State(), step);
      if |current| > 0 {
        SetActive(current[..|current| - 1]);
      } else {
        SetActive(current);
      }
    }

    /** Append a key name to the field of the current step, as the default case does. */
    method AppendToActive(k: string)
      modifies this
      ensures State() == SetField(old(State()), old(step), Field(old(State()), old(step)) + k)
    {
      SetActive(Field(State(), step) + k);
    }

    /** The key switch of Update, for every message but "q". */
    method ApplyKey(msg: Msg)
      requires msg != Key("q")
      modifies this
      ensures State() == Edit(old(State()), msg)
    {
      if msg.Key? {
        if msg.name == "enter" {
          step := step + 1;
        } else if msg.name == "backspace" || msg.name == "left" {
          DropFromActive();
        } else {
          AppendToActive(msg.name);
        }
      }
    }

    /** The step-5 check of Update: step back with a message, or mark the script as
        created and report that the header is to be written. */
    method ValidateAnswers() returns (create: bool)
      modifies this
      ensures State() == Validate(old(State()))
      ensures create == Passes(old(State()))
    {
      create := false;
      if step == 5 {
        var languageOk := ValidateScriptLanguage(scriptLang);
        var fontOk := ValidateFont(font);
        create := CheckAnswers(languageOk, fontOk);
      }
    }

    /** The step-5 check on the two verdicts. */
    method CheckAnswers(languageOk: bool, fontOk: bool) returns (create: bool)
      modifies this
      ensures State() == Check(old(State()), languageOk, fontOk)
      ensures create == (old(step) == 5 && languageOk && fontOk)
    {
      create := false;
      if step == 5 {
        if !languageOk {
          errorMessage := LanguageError;
          step := step - 1;
        } else if !fontOk {
          errorMessage := FontError;
          step := step - 1;
        } else {
          scriptCreated := true;
          create := true;
        }
      }
    }

    /** The key switch and the step-5 check, for every message but "q"; reports whether
        the header is to be written. */
    method ApplyAndValidate(msg: Msg) returns (create: bool)
      requires msg != Key("q")
      modifies this
      ensures State() == Next(old(State()), msg)
      ensures create == Creates(old(State()), msg)
    {
      ghost var f := State();
      ApplyKey(msg);
      ghost var e := State();
      create := ValidateAnswers();
      assert Next(f, msg) == Validate(e);
    }

    /**
     * Update: "q" quits and changes nothing; otherwise the key is applied and,
     * at step 5, the answers are validated and the header written.
     */
    method Update(msg: Msg, fs: FileStore, render: (string, string) -> string, date: string)
      returns (quit: bool)
      modifies this, fs
      ensures quit <==> msg == Key("q")
      ensures State() == Next(old(State()), msg)
      ensures Creates(old(State()), msg) ==> fs.files == old(fs.files)[FileNameOf(State()) := HeaderOf(State(), render, date)]
      ensures !Creates(old(State()), msg) ==> fs.files == old(fs.files)
    {
      if msg == Key("q") {
        return true;
      }
      var create := ApplyAndValidate(msg);
      if create {
        BubbleCreateScriptHeader(fs, scriptName, authorName, description, scriptLang, font, render, date);
      }
      quit := false;
    }
  }

  /** The model after the runtime has delivered `msgs`, stopping at the first "q". */
  function Run(f: Form, msgs: seq<Msg>): (g: Form)
    ensures f.scriptCreated ==> g.scriptCreated
    decreases |msgs|
  {
    if msgs == [] || msgs[0] == Key("q") then f else Run(Next(f, msgs[0]), msgs[1..])
  }

  /**
   * What holds of every model the form can reach: the step is never negative,
   * steps 5 and beyond come only after the script was created, and at step 5
   * both answers are valid.
   */
  ghost predicate Inv(f: Form)
  {
    && 0 <= f.step
    && (f.step >= 5 ==> f.scriptCreated)
    && (f.step == 5 ==> ValidateScriptLanguage(f.scriptLang) && ValidateFont(f.font))
  }

  lemma NextPreservesInv(f: Form, msg: Msg)
    requires Inv(f)
    ensures Inv(Next(f, msg))
  {
    if msg != Key("q") {
      var e := Edit(f, msg);
    }
  }

  lemma {:induction false} RunPreservesInv(f: Form, msgs: seq<Msg>)
    requires Inv(f)
    ensures Inv(Run(f, msgs))
    decreases |msgs|
  {
    if msgs != [] && msgs[0] != Key("q") {
      NextPreservesInv(f, msgs[0]);
      RunPreservesInv(Next(f, msgs[0]), msgs[1..]);
    }
  }

  /** Only the field of the current step can change. */
  lemma OnlyActiveFieldChanges(f: Form, msg: Msg, j: int)
    requires j != f.step
    ensures Field(Next(f, msg), j) == Field(f, j)
  {
    if msg != Key("q") {
      var e := Edit(f, msg);
    }
  }

  /**
   * What one message does to the field of the current step: backspace and left
   * drop its last character, any other key name except "q" and enter is
   * appended, and everything else leaves it as it was, so "q" is never typed.
   */
  lemma ActiveFieldEdit(f: Form, msg: Msg)
    ensures var v := Field(Next(f, msg), f.step);
      && (msg == Key("backspace") || msg == Key("left") ==> v == DropLast(Field(f, f.step)))
      && (msg.Key? && msg.name !in {"q", "enter", "backspace", "left"} && 0 <= f.step <= 4 ==>
            v == Field(f, f.step) + msg.name)
      && (msg.Other? || msg == Key("q") || msg == Key("enter") || !(0 <= f.step <= 4) ==>
            v == Field(f, f.step))
  {
    if msg != Key("q") {
      var e := Edit(f, msg);
      EditActiveField(f, msg);
      assert Field(Next(f, msg), f.step) == Field(e, f.step);
    }
  }

  /** The same for the key switch alone. */
  lemma EditActiveField(f: Form, msg: Msg)
    ensures var v := Field(Edit(f, msg), f.step);
      && (msg == Key("backspace") || msg == Key("left") ==> v == DropLast(Field(f, f.step)))
      && (msg.Key? && msg.name !in {"q", "enter", "backspace", "left"} && 0 <= f.step <= 4 ==>
            v == Field(f, f.step) + msg.name)
      && (msg.Other? || msg == Key("enter") || !(0 <= f.step <= 4) ==> v == Field(f, f.step))
  {
  }

  /** On reachable models the step never goes back. */
  lemma StepNeverDecreases(f: Form, msg: Msg)
    requires Inv(f)
    ensures Next(f, msg).step >= f.step
  {
    if msg != Key("q") {
      var e := Edit(f, msg);
    }
  }

  /**
   * The error message is never on screen: every reachable model shows either
   * the success line or a prompt with its field.
   */
  lemma ErrorMessageNeverShown(msgs: seq<Msg>)
    ensures var f := Run(Initial, msgs);
      View(f) == Success || (0 <= f.step <= 4 && View(f) == Prompt(f.step) + Field(f, f.step))
  {
    RunPreservesInv(Initial, msgs);
  }

  /**
   * The header is written exactly when enter completes step 4 with both
   * answers valid, or on any message but enter and "q" once at step 5, where
   * each such message writes it again.
   */
  lemma CreatesExactly(f: Form, msg: Msg)
    requires Inv(f)
    ensures Creates(f, msg) <==>
      msg != Key("q") &&
      ((f.step == 4 && msg == Key("enter") && ValidateScriptLanguage(f.scriptLang) && ValidateFont(f.font))
       || (f.step == 5 && msg != Key("enter")))
  {
  }

  /** Once created at step 5, every message but enter and "q" leaves the model as it is
      (while the header is written again). */
  lemma RewriteKeepsModel(f: Form, msg: Msg)
    requires Inv(f) && f.step == 5 && msg != Key("q") && msg != Key("enter")
    ensures Next(f, msg) == f
  {
    assert Edit(f, msg) == f;
  }

  /** A model stuck at the font step behind a language the switch rejects. */
  ghost predicate StuckOnLanguage(f: Form, lang: string)
  {
    f.step == 4 && !f.scriptCreated && f.scriptLang == lang && !ValidateScriptLanguage(lang)
  }

  /** One message never gets a model out of that state. */
  lemma NextKeepsRejectedLanguage(f: Form, msg: Msg)
    requires StuckOnLanguage(f, f.scriptLang) && msg != Key("q")
    ensures StuckOnLanguage(Next(f, msg), f.scriptLang)
  {
    var e := Edit(f, msg);
    EditAtFontStep(f, msg);
    CheckRejected(e, ValidateFont(e.font));
    assert Next(f, msg) == Check(e, false, ValidateFont(e.font));
  }

  /** At the font step a key leaves the language and the created flag alone, and the
      step at 4 or moves it to 5. */
  lemma EditAtFontStep(f: Form, msg: Msg)
    requires f.step == 4
    ensures var e := Edit(f, msg);
      e.scriptLang == f.scriptLang && e.scriptCreated == f.scriptCreated && (e.step == 4 || e.step == 5)
  {
  }

  /** With the language rejected, validation leaves the model at the font step. */
  lemma CheckRejected(e: Form, fontOk: bool)
    requires e.step == 4 || e.step == 5
    ensures var g := Check(e, false, fontOk);
      g.step == 4 && g.scriptLang == e.scriptLang && g.scriptCreated == e.scriptCreated
  {
  }

  /**
   * A rejected language can never be corrected: the language field is behind
   * the form, so every later model stays at the font step with the same
   * answer and nothing is ever created.
   */
  lemma {:induction false} RejectedLanguageIsFinal(f: Form, msgs: seq<Msg>)
    requires StuckOnLanguage(f, f.scriptLang)
    ensures StuckOnLanguage(Run(f, msgs), f.scriptLang)
    decreases |msgs|
  {
    if msgs != [] && msgs[0] != Key("q") {
      NextKeepsRejectedLanguage(f, msgs[0]);
      RejectedLanguageIsFinal(Next(f, msgs[0]), msgs[1..]);
    }
  }

  /** A rejected font is not final: with a valid language, correcting the font and
      pressing enter writes the header. */
  lemma FontCanBeCorrected(f: Form)
    requires f.step == 4 && ValidateScriptLanguage(f.scriptLang) && ValidateFont(f.font)
    ensures Creates(f, Key("enter")) && Next(f, Key("enter")).scriptCreated
  {
  }

  /** Special keys other than enter, backspace, left and "q" are typed as their names. */
  lemma KeyNamesAreTyped(k: string)
    requires k !in {"q", "enter", "backspace", "left"}
    ensures Next(Initial, Key(k)).scriptName == k
  {
    var e := Edit(Initial, Key(k));
    assert e.scriptName == k && e.step == 0 by {
      TypedIntoFirstField(k);
    }
    assert Next(Initial, Key(k)) == Validate(e) by {
      assert Key(k) != Key("q");
    }
    assert Validate(e).scriptName == e.scriptName by {
      assert Field(Validate(e), 0) == Field(e, 0);
    }
  }

  lemma TypedIntoFirstField(k: string)
    requires k !in {"q", "enter", "backspace", "left"}
    ensures Edit(Initial, Key(k)).scriptName == k && Edit(Initial, Key(k)).step == 0
  {
    assert Field(Initial, 0) + k == k;
  }
}
