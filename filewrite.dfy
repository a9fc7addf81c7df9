/**
 * What `filewrite` and `printfig` (goscript/Loki/cmd/root.go) produce: the
 * header text written to a new file, the lines printed to the console, and
 * the file store that refuses to overwrite an existing file.
 */
module FileWrite {
  import opened Text

  /** All lines of all banners, banner after banner. */
  function Flatten(banners: seq<seq<string>>): seq<string>
  {
    if banners == [] then [] else Flatten(banners[..|banners| - 1]) + banners[|banners| - 1]
  }

  /** What the inner loop writes for `lines`: each line right behind the comment marker,
      each ended by a newline. */
  function CommentedLines(comment: string, lines: seq<string>): string
  {
    if lines == [] then "" else comment + lines[0] + "\n" + CommentedLines(comment, lines[1..])
  }

  /** Written once, right after the last banner, with no final newline. */
  function Tail(comment: string, description: string): string
  {
    comment + "\n" + comment + " Description: " + description
  }

  /** The description line as it ends up in the file. */
  function DescriptionLine(comment: string, description: string): string
  {
    comment + " Description: " + description
  }

  /** The text filewrite leaves in a file it creates. Without banners the loop never
      reaches its last index, so only the shebang line is written. */
  function FileContent(shebang: string, comment: string, description: string,
                       banners: seq<seq<string>>): (r: string)
    ensures shebang + "\n" <= r
    ensures banners == [] ==> r == shebang + "\n"
    ensures banners != [] ==>
              |Tail(comment, description)| <= |r| && r[|r| - |Tail(comment, description)|..] == Tail(comment, description)
  {
    var head := shebang + "\n" + CommentedLines(comment, Flatten(banners));
    var tail := if banners == [] then "" else Tail(comment, description);
    assert shebang + "\n" <= head;
    assert (head + tail)[|head|..] == tail;
    head + tail
  }

  /** The newline-separated lines of the file, when no part holds a newline itself. */
  function FileLines(shebang: string, comment: string, description: string,
                     banners: seq<seq<string>>): seq<string>
  {
    if banners == [] then [shebang, ""]
    else HeadLines(shebang, comment, banners) + [DescriptionLine(comment, description)]
  }

  lemma FlattenStep(banners: seq<seq<string>>, i: nat)
    requires i < |banners|
    ensures Flatten(banners[..i + 1]) == Flatten(banners[..i]) + banners[i]
  {
    assert banners[..i + 1][..i] == banners[..i];
  }

  /** Writing two runs of lines one after the other writes their concatenation. */
  lemma {:induction false} CommentedLinesAppend(comment: string, a: seq<string>, b: seq<string>)
    ensures CommentedLines(comment, a + b) == CommentedLines(comment, a) + CommentedLines(comment, b)
  {
    if a == [] {
      assert a + b == b;
    } else {
      CommentedLinesAppend(comment, a[1..], b);
      CommentedLinesCons(comment, a[0], a[1..] + b);
      assert [a[0]] + (a[1..] + b) == a + b;
      AppendAssoc(comment + a[0] + "\n", CommentedLines(comment, a[1..]), CommentedLines(comment, b));
    }
  }

  lemma AppendAssoc(x: string, y: string, z: string)
    ensures x + (y + z) == x + y + z
  {
  }

  lemma CommentedLinesCons(comment: string, line: string, rest: seq<string>)
    ensures CommentedLines(comment, [line] + rest) == comment + line + "\n" + CommentedLines(comment, rest)
  {
    assert ([line] + rest)[1..] == rest;
  }

  lemma CommentedLinesStep(comment: string, lines: seq<string>, line: string)
    ensures CommentedLines(comment, lines + [line]) == CommentedLines(comment, lines) + comment + line + "\n"
  {
    CommentedLinesAppend(comment, lines, [line]);
    assert CommentedLines(comment, [line]) == comment + line + "\n" + CommentedLines(comment, []);
  }

  /** The inner loop's text is the banner's lines, behind the comment marker, each ended. */
  lemma {:induction false} CommentedTerminated(comment: string, lines: seq<string>)
    ensures CommentedLines(comment, lines) == Terminated(PrefixLines(comment, lines))
  {
    if lines != [] {
      CommentedTerminated(comment, lines[1..]);
      PrefixLinesCons(comment, lines);
      assert PrefixLines(comment, lines)[1..] == PrefixLines(comment, lines[1..]);
    }
  }

  /** The lines of a file written with at least one banner, all but the description ended. */
  function HeadLines(shebang: string, comment: string, banners: seq<seq<string>>): seq<string>
  {
    [shebang] + PrefixLines(comment, Flatten(banners)) + [comment]
  }

  lemma FileContentTerminated(shebang: string, comment: string, description: string,
                              banners: seq<seq<string>>)
    requires banners != []
    ensures FileContent(shebang, comment, description, banners)
            == Terminated(HeadLines(shebang, comment, banners)) + DescriptionLine(comment, description)
  {
    var prefixed := PrefixLines(comment, Flatten(banners));
    var head := HeadLines(shebang, comment, banners);
    CommentedTerminated(comment, Flatten(banners));
    TerminatedAppend(prefixed, [comment]);
    assert head[1..] == prefixed + [comment];
  }

  lemma HeadLinesSepFree(shebang: string, comment: string, description: string, banners: seq<seq<string>>)
    requires '\n' !in shebang && '\n' !in comment && '\n' !in description
    requires SepFree(Flatten(banners), '\n')
    ensures SepFree(HeadLines(shebang, comment, banners) + [DescriptionLine(comment, description)], '\n')
  {
    var prefixed := PrefixLines(comment, Flatten(banners));
    var all := HeadLines(shebang, comment, banners) + [DescriptionLine(comment, description)];
    PrefixLinesSepFree(comment, Flatten(banners), '\n');
    forall i | 0 <= i < |all| ensures '\n' !in all[i] {
      if 0 < i <= |prefixed| {
        assert all[i] == prefixed[i - 1];
      }
    }
  }

  /**
   * The file's lines: the shebang, every banner line behind the comment marker,
   * a bare comment marker and the description line. Without banners the file
   * is the shebang and a newline.
   */
  lemma FileContentLines(shebang: string, comment: string, description: string,
                         banners: seq<seq<string>>)
    requires '\n' !in shebang && '\n' !in comment && '\n' !in description
    requires SepFree(Flatten(banners), '\n')
    ensures Split(FileContent(shebang, comment, description, banners), '\n')
            == FileLines(shebang, comment, description, banners)
  {
    if banners == [] {
      assert FileContent(shebang, comment, description, banners) == shebang + ['\n'] + [];
      SplitAfterPiece(shebang, [], '\n');
    } else {
      var head := HeadLines(shebang, comment, banners);
      var last := DescriptionLine(comment, description);
      FileContentTerminated(shebang, comment, description, banners);
      TerminatedJoin(head, last);
      HeadLinesSepFree(shebang, comment, description, banners);
      JoinSplit(head + [last], '\n');
    }
  }

  /** What filewrite has written once the outer loop has handled the first `i` banners. */
  function Written(shebang: string, comment: string, description: string,
                   banners: seq<seq<string>>, i: nat): string
    requires i <= |banners|
  {
    shebang + "\n" + CommentedLines(comment, Flatten(banners[..i]))
      + (if i == |banners| && i > 0 then Tail(comment, description) else "")
  }

  /** One round of the outer loop: the banner's lines, then the tail after the last banner. */
  lemma WrittenStep(shebang: string, comment: string, description: string,
                    banners: seq<seq<string>>, i: nat)
    requires i < |banners|
    ensures Written(shebang, comment, description, banners, i) + CommentedLines(comment, banners[i])
              + (if i == |banners| - 1 then Tail(comment, description) else "")
            == Written(shebang, comment, description, banners, i + 1)
  {
    var head := shebang + "\n";
    var done := CommentedLines(comment, Flatten(banners[..i]));
    var banner := CommentedLines(comment, banners[i]);
    FlattenStep(banners, i);
    CommentedLinesAppend(comment, Flatten(banners[..i]), banners[i]);
    assert Written(shebang, comment, description, banners, i) == head + done;
    AppendAssoc(head, done, banner);
  }

  lemma WrittenBounds(shebang: string, comment: string, description: string, banners: seq<seq<string>>)
    ensures Written(shebang, comment, description, banners, 0) == shebang + "\n"
    ensures Written(shebang, comment, description, banners, |banners|)
            == FileContent(shebang, comment, description, banners)
  {
    assert banners[..0] == [];
    assert banners[..|banners|] == banners;
  }

  /** Println puts a space between its operands, so the printed description line has
      two spaces after "Description:". */
  function PrintedDescription(comment: string, description: string): string
  {
    comment + " " + "Description: " + " " + description
  }

  /** What printfig sends to the console, one entry per Println. */
  function PrintedLines(shebang: string, comment: string, description: string,
                        banners: seq<seq<string>>): (r: seq<string>)
    ensures |r| == 1 + |Flatten(banners)| + (if banners == [] then 0 else 2)
    ensures r[0] == shebang
    ensures banners != [] ==> r[|r| - 2] == comment && r[|r| - 1] == PrintedDescription(comment, description)
  {
    [shebang] + PrefixLines(comment + " ", Flatten(banners))
      + (if banners == [] then [] else [comment, PrintedDescription(comment, description)])
  }

  /**
   * printfig: the same loops as filewrite, printing instead of writing.
   */
  method PrintFig(shebang: string, comment: string, description: string, banners: seq<seq<string>>)
    returns (printed: seq<string>)
    ensures printed == PrintedLines(shebang, comment, description, banners)
  {
    printed := [shebang];
    for i := 0 to |banners|
      invariant printed == [shebang] + PrefixLines(comment + " ", Flatten(banners[..i]))
                  + (if i == |banners| && i > 0 then [comment, PrintedDescription(comment, description)] else [])
    {
      FlattenStep(banners, i);
      var done := Flatten(banners[..i]);
      for j := 0 to |banners[i]|
        invariant printed == [shebang] + PrefixLines(comment + " ", done + banners[i][..j])
      {
        PrefixLinesAppend(comment + " ", done + banners[i][..j], [banners[i][j]]);
        assert done + banners[i][..j + 1] == done + banners[i][..j] + [banners[i][j]];
        printed := printed + [comment + " " + banners[i][j]];
      }
      assert banners[i][..|banners[i]|] == banners[i];
      if i == |banners| - 1 {
        printed := printed + [comment, PrintedDescription(comment, description)];
      }
    }
    assert banners[..|banners|] == banners;
  }

  /**
   * Printed and written headers carry the same lines, except that the console
   * puts a space after the comment marker and a second one after
   * "Description:", and that the file alone ends its banner-less form with an
   * empty line.
   */
  lemma PrintedAgainstFile(shebang: string, comment: string, description: string,
                           banners: seq<seq<string>>)
    ensures var file := FileLines(shebang, comment, description, banners);
      var printed := PrintedLines(shebang, comment, description, banners);
      var n := |Flatten(banners)|;
      && |file| == |printed| + (if banners == [] then 1 else 0)
      && file[0] == printed[0] == shebang
      && (forall k :: 1 <= k <= n ==>
            file[k] == comment + Flatten(banners)[k - 1] && printed[k] == comment + " " + Flatten(banners)[k - 1])
      && (banners != [] ==> file[n + 1] == printed[n + 1] == comment)
      && (banners != [] ==> file[n + 2] == DescriptionLine(comment, description)
                             && printed[n + 2] == PrintedDescription(comment, description))
  {
    var lines := Flatten(banners);
    var n := |lines|;
    var file := FileLines(shebang, comment, description, banners);
    var printed := PrintedLines(shebang, comment, description, banners);
    var tail := if banners == [] then [] else [comment, PrintedDescription(comment, description)];
    assert printed == [shebang] + PrefixLines(comment + " ", lines) + tail;
    forall k | 1 <= k <= n
      ensures printed[k] == comment + " " + lines[k - 1]
    {
      assert printed[k] == PrefixLines(comment + " ", lines)[k - 1];
    }
    if banners != [] {
      assert file == [shebang] + PrefixLines(comment, lines) + [comment] + [DescriptionLine(comment, description)];
    }
  }

  /** The files on disk, by path. */
  class FileStore {
    var files: map<string, string>

    constructor(initial: map<string, string>)
      ensures files == initial
    {
      files := initial;
    }

    /** os.Create: a new, empty file, or an existing one truncated. */
    method Create(path: string)
      modifies this
      ensures files == old(files)[path := ""]
    {
      files := files[path := ""];
    }

    /** A write to an open file: the text goes at the end. */
    method Append(path: string, text: string)
      requires path in files
      modifies this
      ensures files == old(files)[path := old(files)[path] + text]
    {
      files := files[path := files[path] + text];
    }

    /** The inner loop of filewrite: one banner, line by line. */
    method WriteBanner(path: string, comment: string, lines: seq<string>)
      requires path in files
      modifies this
      ensures files == old(files)[path := old(files)[path] + CommentedLines(comment, lines)]
    {
      ghost var start := files[path];
      assert lines[..0] == [] && start + "" == start;
      assert files == old(files)[path := start];
      for j := 0 to |lines|
        invariant files == old(files)[path := start + CommentedLines(comment, lines[..j])]
      {
        CommentedLinesStep(comment, lines[..j], lines[j]);
        assert lines[..j + 1] == lines[..j] + [lines[j]];
        Append(path, comment + lines[j] + "\n");
        assert start + CommentedLines(comment, lines[..j]) + (comment + lines[j] + "\n")
               == start + CommentedLines(comment, lines[..j + 1]);
      }
      assert lines[..|lines|] == lines;
    }

    /** One round of filewrite's outer loop: a banner, then the tail after the last one. */
    method WriteRound(output: string, shebang: string, comment: string, description: string,
                      banners: seq<seq<string>>, i: nat)
      requires i < |banners| && output in files
      requires files[output] == Written(shebang, comment, description, banners, i)
      modifies this
      ensures files == old(files)[output := Written(shebang, comment, description, banners, i + 1)]
    {
      ghost var before := files[output];
      WriteBanner(output, comment, banners[i]);
      if i == |banners| - 1 {
        Append(output, Tail(comment, description));
      }
      WrittenStep(shebang, comment, description, banners, i);
      assert before + CommentedLines(comment, banners[i]) + "" == before + CommentedLines(comment, banners[i]);
    }

    /**
     * filewrite: only a path that does not exist yet is created; it receives the
     * shebang line, every banner line behind the comment marker and, after the
     * last banner, the description. `created` tells which message is printed.
     */
    method FileWrite(output: string, shebang: string, comment: string, description: string,
                     banners: seq<seq<string>>)
      returns (created: bool)
      modifies this
      ensures created <==> output !in old(files)
      ensures created ==> files == old(files)[output := FileContent(shebang, comment, description, banners)]
      ensures !created ==> files == old(files)
    {
      if output in files {
        return false;
      }
      created := true;
      Create(output);
      Append(output, shebang + "\n");
      assert files == old(files)[output := Written(shebang, comment, description, banners, 0)] by {
        WrittenBounds(shebang, comment, description, banners);
        assert "" + (shebang + "\n") == shebang + "\n";
      }
      for i := 0 to |banners|
        invariant files == old(files)[output := Written(shebang, comment, description, banners, i)]
      {
        WriteRound(output, shebang, comment, description, banners, i);
      }
      WrittenBounds(shebang, comment, description, banners);
    }
  }
}
