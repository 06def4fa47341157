/** `kubconfig shell install|uninstall` (cmd/shell.go): appending the shell
    function to an rc file under a marker line, and removing it again with a
    two-state line filter. An rc file is missing, present but unreadable, or
    readable; each write's error is an input, and a call that fails to write
    leaves the file as it was.

    The filter as written ends the block at the first blank line after the
    marker, which is the line right after it, so uninstalling leaves the
    function in the file; `RemoveShellBlock` is the corrected filter. */
module ShellRc {
  import opened Wrappers
  import opened Strs

  const Marker: string := "# Kubconfig shell integration"

  /** The lines of the shell function; the longer ones are written in
      pieces, which keeps each literal short. */
  const ScriptBody: seq<string> := [
    "kubconfig() {",
    "\tif [ \"$1\" = \"activate\" ]; then",
    "\t\teval \"$(command kubconfig " + "activate \"$2\" --session \"$3\" " + "--shell-eval)\"",
    "\telif [ \"$1\" = " + "\"deactivate\" ]; then",
    "\t\teval \"$(command kubconfig " + "deactivate --shell-eval)\"",
    "\telse",
    "\t\tcommand kubconfig \"$@\"",
    "\tfi",
    "}"]

  /** The script constant for function lines `body`: a line break, the
      lines, a line break. */
  function ScriptOf(body: seq<string>): string {
    "\n" + Join(body, '\n') + "\n"
  }

  /** What an installation appends: the format "\n%s\n%s\n" applied to
      the marker and the script. */
  function AdditionOf(marker: string, script: string): string {
    "\n" + marker + "\n" + script + "\n"
  }

  const Script: string := ScriptOf(ScriptBody)
  const Addition: string := AdditionOf(Marker, Script)

  /** `isIntegrationInstalled(rcFile)`: the marker occurs anywhere in the
      file, not only as a line of its own. */
  predicate IsIntegrationInstalled(content: Option<string>) {
    content.Some? && Contains(content.value, Marker)
  }

  /** An rc file as the commands find it. An unreadable file still has a
      text, which an append lands after. */
  datatype RcFile = Missing | Unreadable(text: string) | Readable(text: string)

  /** `os.ReadFile(rcFile)`: the text of a readable file. */
  function ReadRc(f: RcFile): Option<string> {
    if f.Readable? then Some(f.text) else None
  }

  /** The text an append lands after: a missing file is created empty. */
  function TextOf(f: RcFile): string {
    if f.Missing? then "" else f.text
  }

  /** The file after a call, and the error the call returned. */
  datatype Written = Written(file: RcFile, err: Option<string>)

  /** The added text holds the marker. */
  lemma AdditionHasMarker(prefix: string, marker: string, script: string)
    ensures Contains(prefix + AdditionOf(marker, script), marker)
  {
    assert prefix + AdditionOf(marker, script) == (prefix + "\n") + marker + ("\n" + script + "\n");
    ContainsFactor(prefix + "\n", marker, "\n" + script + "\n");
  }

  /** `installShellIntegration(rcFile)`; `write` is the error of opening
      the file for appending (a missing file is created) or of writing to
      it. A file whose text holds the marker is left alone. */
  function InstallShellIntegration(f: RcFile, write: Option<string>): (r: Written)
    ensures IsIntegrationInstalled(ReadRc(f)) ==> r == Written(f, None)
    ensures !IsIntegrationInstalled(ReadRc(f)) ==> r.err == write
    ensures r.err.Some? ==> r.file == f
    ensures r.err.None? ==> Contains(TextOf(r.file), Marker)
    ensures r.err.None? && !f.Unreadable? ==> IsIntegrationInstalled(ReadRc(r.file))
    ensures !IsIntegrationInstalled(ReadRc(f)) && write.None? ==>
              && TextOf(r.file) == TextOf(f) + Addition
              && (r.file.Unreadable? <==> f.Unreadable?)
  {
    if IsIntegrationInstalled(ReadRc(f)) then Written(f, None)
    else if write.Some? then Written(f, write)
    else
      AdditionHasMarker(TextOf(f), Marker, Script);
      Written(if f.Unreadable? then Unreadable(f.text + Addition) else Readable(TextOf(f) + Addition), None)
  }

  /** On a file that can be read, installing twice is installing once. */
  lemma InstallTwice(f: RcFile, w1: Option<string>, w2: Option<string>)
    requires !f.Unreadable?
    ensures var first := InstallShellIntegration(f, w1);
            first.err.None? ==> InstallShellIntegration(first.file, w2) == Written(first.file, None)
  {
  }

  /** The marker test cannot see into an unreadable file, so every
      installation appends the function again. */
  lemma UnreadableInstallRepeats(text: string)
    ensures var first := InstallShellIntegration(Unreadable(text), None);
            InstallShellIntegration(first.file, None) == Written(Unreadable(text + Addition + Addition), None)
  {
  }

  // ---------------------------------------------------------------------------
  // Reading lines
  // ---------------------------------------------------------------------------

  /** How the removal loop sees a line. */
  datatype LineKind =
    | MarkerLine  // trims to the marker
    | BlankLine   // empty or only white space
    | TextLine    // anything else

  /** The classification `removeShellIntegration` makes with
      `strings.TrimSpace`. */
  function KindOf(line: string): (k: LineKind)
    ensures k == MarkerLine <==> TrimSpace(line) == Marker
    ensures k == BlankLine <==> AllSpace(line)
  {
    TrimSpaceEmpty(line);
    if TrimSpace(line) == Marker then MarkerLine
    else if TrimSpace(line) == "" then BlankLine
    else TextLine
  }

  /** A line whose first non-blank character is not "#" is a text line. */
  lemma TextLineAt(line: string, k: nat)
    requires k < |line| && AllSpace(line[..k]) && !IsSpace(line[k]) && line[k] != Marker[0]
    ensures KindOf(line) == TextLine
  {
    TrimSpaceHead(line, k);
    HeadDiffers(TrimSpace(line), Marker);
    assert !AllSpace(line) by {
      assert !IsSpace(line[k]);
    }
  }

  /** Strings whose first characters differ are different. */
  lemma HeadDiffers(a: string, b: string)
    requires a != [] && b != [] && a[0] != b[0]
    ensures a != b
  {
  }

  /** Every line of a text is a piece of it. */
  lemma LineOf(s: string, i: nat) returns (a: string, b: string)
    requires i < |Split(s, '\n')|
    ensures s == a + Split(s, '\n')[i] + b
  {
    a, b := PieceOf(Split(s, '\n'), i, '\n');
  }

  /** A line that trims to `marker` puts `marker` in the text. */
  lemma TrimmedLineInText(s: string, i: nat, marker: string)
    requires i < |Split(s, '\n')|
    ensures TrimSpace(Split(s, '\n')[i]) == marker ==> Contains(s, marker)
  {
    var line := Split(s, '\n')[i];
    var a, b := LineOf(s, i);
    var c, d := TrimSpaceFactor(line);
    ContainsInFactor(s, a, line, b, c, TrimSpace(line), d);
  }

  /** A text's lines, none of them a marker line for `kind`. */
  predicate NoMarkerIn(text: string, kind: string -> LineKind) {
    forall i :: 0 <= i < |Split(text, '\n')| ==> kind(Split(text, '\n')[i]) != MarkerLine
  }

  /** A text without the marker has no marker line. */
  lemma NoMarkerLines(s: string)
    requires !Contains(s, Marker)
    ensures NoMarkerIn(s, KindOf)
  {
    forall i | 0 <= i < |Split(s, '\n')| ensures KindOf(Split(s, '\n')[i]) != MarkerLine {
      TrimmedLineInText(s, i, Marker);
    }
  }

  // ---------------------------------------------------------------------------
  // The removal loop as written
  // ---------------------------------------------------------------------------

  /** The removal loop over `lines`, in state `removing`, seeing each line
      through `kind`: a marker line is dropped and starts a block; inside a
      block every line is dropped, and the first blank one ends the block. */
  function Filter(lines: seq<string>, removing: bool, kind: string -> LineKind): (kept: seq<string>)
    ensures |kept| <= |lines|
    ensures forall i :: 0 <= i < |kept| ==> kind(kept[i]) != MarkerLine
    decreases |lines|
  {
    if |lines| == 0 then []
    else if kind(lines[0]) == MarkerLine then Filter(lines[1..], true, kind)
    else if removing && kind(lines[0]) == BlankLine then Filter(lines[1..], false, kind)
    else if !removing then [lines[0]] + Filter(lines[1..], false, kind)
    else Filter(lines[1..], true, kind)
  }

  /** The state of the loop after `lines`. */
  function StateAfter(lines: seq<string>, removing: bool, kind: string -> LineKind): bool
    decreases |lines|
  {
    if |lines| == 0 then removing
    else if kind(lines[0]) == MarkerLine then StateAfter(lines[1..], true, kind)
    else if removing && kind(lines[0]) == BlankLine then StateAfter(lines[1..], false, kind)
    else StateAfter(lines[1..], removing, kind)
  }

  /** `b` is `a` with some elements left out, the rest in order. */
  ghost predicate Subsequence(a: seq<string>, b: seq<string>)
    decreases |b|
  {
    if |a| == 0 then true
    else if |b| == 0 then false
    else (a[0] == b[0] && Subsequence(a[1..], b[1..])) || Subsequence(a, b[1..])
  }

  /** The kept lines are the input lines with some left out, in order. */
  lemma {:induction false} FilterSubsequence(lines: seq<string>, removing: bool, kind: string -> LineKind)
    ensures Subsequence(Filter(lines, removing, kind), lines)
    decreases |lines|
  {
    if |lines| > 0 {
      var next := kind(lines[0]) == MarkerLine || (removing && kind(lines[0]) != BlankLine);
      FilterSubsequence(lines[1..], next, kind);
      var k := Filter(lines, removing, kind);
      if kind(lines[0]) != MarkerLine && !removing {
        assert k[1..] == Filter(lines[1..], false, kind);
      }
    }
  }

  /** The filter works line by line: the lines after `a` are filtered in the
      state `a` left. */
  lemma {:induction false} FilterAppend(a: seq<string>, b: seq<string>, removing: bool, kind: string -> LineKind)
    ensures Filter(a + b, removing, kind) == Filter(a, removing, kind) + Filter(b, StateAfter(a, removing, kind), kind)
    decreases |a|
  {
    if |a| == 0 {
      assert a + b == b;
    } else {
      assert (a + b)[0] == a[0];
      assert (a + b)[1..] == a[1..] + b;
      var next := kind(a[0]) == MarkerLine || (removing && kind(a[0]) != BlankLine);
      FilterAppend(a[1..], b, next, kind);
    }
  }

  /** Outside a block, lines that are not markers are all kept. */
  lemma {:induction false} FilterKeepsPlainLines(lines: seq<string>, kind: string -> LineKind)
    requires forall i :: 0 <= i < |lines| ==> kind(lines[i]) != MarkerLine
    ensures Filter(lines, false, kind) == lines
    ensures !StateAfter(lines, false, kind)
    decreases |lines|
  {
    if |lines| > 0 {
      FilterKeepsPlainLines(lines[1..], kind);
      assert lines == [lines[0]] + lines[1..];
    }
  }

  /** Inside a block, lines that are not blank are dropped and the block
      goes on. */
  lemma {:induction false} InsideBlock(block: seq<string>, rest: seq<string>, kind: string -> LineKind)
    requires forall i :: 0 <= i < |block| ==> kind(block[i]) != BlankLine
    ensures Filter(block + rest, true, kind) == Filter(rest, true, kind)
    ensures StateAfter(block + rest, true, kind) == StateAfter(rest, true, kind)
    decreases |block|
  {
    if |block| > 0 {
      assert forall i :: 0 <= i < |block| - 1 ==> block[1..][i] == block[i + 1];
      assert (block + rest)[0] == block[0];
      assert (block + rest)[1..] == block[1..] + rest;
      InsideBlock(block[1..], rest, kind);
    } else {
      assert block + rest == rest;
    }
  }

  /** A block runs from a marker line through the first blank line after
      it: all of it is dropped and the lines after it are filtered afresh. */
  lemma FilterDropsBlock(marker: string, block: seq<string>, blank: string, rest: seq<string>,
                         removing: bool, kind: string -> LineKind)
    requires kind(marker) == MarkerLine && kind(blank) == BlankLine
    requires forall i :: 0 <= i < |block| ==> kind(block[i]) != BlankLine
    ensures Filter([marker] + block + [blank] + rest, removing, kind) == Filter(rest, false, kind)
    ensures !StateAfter([marker] + block + [blank], removing, kind)
  {
    InsideBlock(block, [blank] + rest, kind);
    InsideBlock(block, [blank], kind);
    assert ([marker] + block + [blank] + rest)[1..] == block + ([blank] + rest);
    assert ([marker] + block + [blank])[1..] == block + [blank];
    assert ([blank] + rest)[1..] == rest;
    assert [blank][1..] == [];
  }

  /** `removeShellIntegration(rcFile)`; `write` is the error of writing the
      filtered text back. A file whose text, as read, does not hold the
      marker is left alone. */
  function RemoveShellIntegration(f: RcFile, write: Option<string>): (r: Written)
    ensures !IsIntegrationInstalled(ReadRc(f)) ==> r == Written(f, None)
    ensures IsIntegrationInstalled(ReadRc(f)) ==> r.err == write && r.file.Readable?
    ensures r.err.Some? ==> r.file == f
  {
    if !IsIntegrationInstalled(ReadRc(f)) then Written(f, None)
    else if write.Some? then Written(f, write)
    else Written(Readable(Join(Filter(Split(f.text, '\n'), false, KindOf), '\n')), None)
  }

  /** Every marker line goes, and the lines written back are the lines read
      with some left out, in order. */
  lemma RemoveDropsMarkerLines(text: string)
    requires IsIntegrationInstalled(Some(text))
    ensures var kept := Filter(Split(text, '\n'), false, KindOf);
            && RemoveShellIntegration(Readable(text), None) == Written(Readable(Join(kept, '\n')), None)
            && (forall i :: 0 <= i < |kept| ==> TrimSpace(kept[i]) != Marker)
            && Subsequence(kept, Split(text, '\n'))
  {
    var kept := Filter(Split(text, '\n'), false, KindOf);
    forall i | 0 <= i < |kept| ensures TrimSpace(kept[i]) != Marker {
      assert KindOf(kept[i]) != MarkerLine;
    }
    FilterSubsequence(Split(text, '\n'), false, KindOf);
  }

  /** A file holding the marker only inside some longer line is rewritten
      to exactly what it was. */
  lemma RemoveWithoutMarkerLine(text: string)
    requires IsIntegrationInstalled(Some(text))
    requires forall line :: line in Split(text, '\n') ==> TrimSpace(line) != Marker
    ensures RemoveShellIntegration(Readable(text), None) == Written(Readable(text), None)
  {
    var lines := Split(text, '\n');
    forall i | 0 <= i < |lines| ensures KindOf(lines[i]) != MarkerLine {
      assert lines[i] in lines;
    }
    FilterKeepsPlainLines(lines, KindOf);
  }

  // ---------------------------------------------------------------------------
  // The installed text, line by line
  // ---------------------------------------------------------------------------

  /** Lines that `kind` sees as text and that hold no line break. */
  predicate PlainLines(lines: seq<string>, kind: string -> LineKind) {
    forall i :: 0 <= i < |lines| ==> kind(lines[i]) == TextLine && '\n' !in lines[i]
  }

  /** After the file's own last line, an installation adds the marker line,
      a blank line, the function's lines and two blank lines. */
  lemma InstalledLines(text: string, marker: string, body: seq<string>)
    requires '\n' !in marker && |body| >= 1
    requires forall i :: 0 <= i < |body| ==> '\n' !in body[i]
    ensures Split(text + AdditionOf(marker, ScriptOf(body)), '\n')
            == Split(text, '\n') + ([marker] + [""] + (body + ([""] + [""])))
  {
    var after := ScriptOf(body) + "\n";
    assert text + AdditionOf(marker, ScriptOf(body)) == text + ['\n'] + (marker + ['\n'] + after);
    var rest := [""] + (body + ([""] + [""]));
    ScriptLines(body);
    NoSepSplit(marker, '\n');
    SplitConcat(marker, after, '\n');
    assert Split(marker + ['\n'] + after, '\n') == [marker] + rest;
    SplitConcat(text, marker + ['\n'] + after, '\n');
    assert [marker] + rest == [marker] + [""] + (body + ([""] + [""]));
  }

  /** The script and the line break after it: a blank line, the function's
      lines and two blank lines. */
  lemma ScriptLines(body: seq<string>)
    requires |body| >= 1
    requires forall i :: 0 <= i < |body| ==> '\n' !in body[i]
    ensures Split(ScriptOf(body) + "\n", '\n') == [""] + (body + ([""] + [""]))
  {
    var j := Join(body, '\n');
    var t4 := "" + ['\n'] + "";
    var t3 := j + ['\n'] + t4;
    assert ScriptOf(body) + "\n" == "" + ['\n'] + t3;
    SplitConcat("", t3, '\n');
    SplitJoin(body, '\n');
    SplitConcat(j, t4, '\n');
    SplitConcat("", "", '\n');
  }

  /** Uninstalling right after installing does not give the file back: the
      script's leading line break puts a blank line right after the marker,
      which ends the block there, so only the marker line goes and the
      function stays. */
  lemma RemoveAfterInstallOf(text: string, marker: string, body: seq<string>, kind: string -> LineKind)
    requires kind(marker) == MarkerLine && kind("") == BlankLine && '\n' !in marker
    requires NoMarkerIn(text, kind) && |body| >= 1 && PlainLines(body, kind)
    ensures Join(Filter(Split(text + AdditionOf(marker, ScriptOf(body)), '\n'), false, kind), '\n')
            == text + ScriptOf(body) + "\n"
  {
    InstalledLines(text, marker, body);
    var own := Split(text, '\n');
    var tail := body + ([""] + [""]);
    forall i | 0 <= i < |tail| ensures kind(tail[i]) != MarkerLine {
      if i < |body| {
        assert tail[i] == body[i];
      }
    }
    FilterKeepsPlainLines(own, kind);
    FilterKeepsPlainLines(tail, kind);
    var block := [marker] + [""] + tail;
    FilterAppend(own, block, false, kind);
    FilterDropsBlock(marker, [], "", tail, false, kind);
    assert [marker] + [] + [""] + tail == block;
    assert Filter(own + block, false, kind) == own + tail;
    JoinScriptTail(own, body);
  }

  /** Joining a text's lines with the function's lines and two blank lines
      after them. */
  lemma JoinScriptTail(own: seq<string>, body: seq<string>)
    requires |own| >= 1 && |body| >= 1
    ensures Join(own + (body + ([""] + [""])), '\n') == Join(own, '\n') + ScriptOf(body) + "\n"
  {
    var tail := body + ([""] + [""]);
    var o := Join(own, '\n');
    var j := Join(body, '\n');
    var t := Join(tail, '\n');
    assert t == j + ['\n'] + ['\n'] by {
      JoinAppend(body, [""] + [""], '\n');
      assert ([""] + [""])[1..] == [""];
    }
    assert Join(own + tail, '\n') == o + ['\n'] + t by {
      JoinAppend(own, tail, '\n');
    }
    Regroup(o, j, t, ScriptOf(body));
  }

  lemma Regroup(o: string, j: string, t: string, script: string)
    requires t == j + ['\n'] + ['\n'] && script == "\n" + j + "\n"
    ensures o + ['\n'] + t == o + script + "\n"
  {
  }

  // ---------------------------------------------------------------------------
  // The removal loop as intended
  // ---------------------------------------------------------------------------

  /** Where the corrected loop is: outside any block, right after a marker
      (before any text of the block), or inside the block's text. */
  datatype Scan = Outside | Opened | InBlock

  /** The corrected loop: a blank line ends a block only once the block has
      had a text line, so the blank line the script starts with stays part
      of the block. */
  function FilterBlock(lines: seq<string>, scan: Scan, kind: string -> LineKind): (kept: seq<string>)
    ensures |kept| <= |lines|
    ensures forall i :: 0 <= i < |kept| ==> kind(kept[i]) != MarkerLine
    decreases |lines|
  {
    if |lines| == 0 then []
    else if kind(lines[0]) == MarkerLine then FilterBlock(lines[1..], Opened, kind)
    else if scan == Outside then [lines[0]] + FilterBlock(lines[1..], Outside, kind)
    else if kind(lines[0]) == BlankLine then
      FilterBlock(lines[1..], if scan == Opened then Opened else Outside, kind)
    else FilterBlock(lines[1..], InBlock, kind)
  }

  function ScanAfter(lines: seq<string>, scan: Scan, kind: string -> LineKind): Scan
    decreases |lines|
  {
    if |lines| == 0 then scan
    else if kind(lines[0]) == MarkerLine then ScanAfter(lines[1..], Opened, kind)
    else if scan == Outside then ScanAfter(lines[1..], Outside, kind)
    else if kind(lines[0]) == BlankLine then
      ScanAfter(lines[1..], if scan == Opened then Opened else Outside, kind)
    else ScanAfter(lines[1..], InBlock, kind)
  }

  lemma {:induction false} FilterBlockAppend(a: seq<string>, b: seq<string>, scan: Scan, kind: string -> LineKind)
    ensures FilterBlock(a + b, scan, kind) == FilterBlock(a, scan, kind) + FilterBlock(b, ScanAfter(a, scan, kind), kind)
    decreases |a|
  {
    if |a| == 0 {
      assert a + b == b;
    } else {
      assert (a + b)[0] == a[0];
      assert (a + b)[1..] == a[1..] + b;
      var next :=
        if kind(a[0]) == MarkerLine then Opened
        else if scan == Outside then Outside
        else if kind(a[0]) == BlankLine then (if scan == Opened then Opened else Outside)
        else InBlock;
      FilterBlockAppend(a[1..], b, next, kind);
    }
  }

  lemma {:induction false} FilterBlockKeepsPlainLines(lines: seq<string>, kind: string -> LineKind)
    requires forall i :: 0 <= i < |lines| ==> kind(lines[i]) != MarkerLine
    ensures FilterBlock(lines, Outside, kind) == lines
    ensures ScanAfter(lines, Outside, kind) == Outside
    decreases |lines|
  {
    if |lines| > 0 {
      FilterBlockKeepsPlainLines(lines[1..], kind);
      assert lines == [lines[0]] + lines[1..];
    }
  }

  /** Text lines inside a block are dropped. */
  lemma {:induction false} InsideFixedBlock(block: seq<string>, rest: seq<string>, scan: Scan, kind: string -> LineKind)
    requires scan != Outside && |block| >= 1
    requires forall i :: 0 <= i < |block| ==> kind(block[i]) == TextLine
    ensures FilterBlock(block + rest, scan, kind) == FilterBlock(rest, InBlock, kind)
    decreases |block|
  {
    assert (block + rest)[0] == block[0];
    assert (block + rest)[1..] == block[1..] + rest;
    if |block| > 1 {
      assert forall i :: 0 <= i < |block| - 1 ==> block[1..][i] == block[i + 1];
      InsideFixedBlock(block[1..], rest, InBlock, kind);
    } else {
      assert block[1..] + rest == rest;
    }
  }

  /** `removeShellIntegration` with the corrected loop. */
  function RemoveShellBlock(f: RcFile, write: Option<string>): (r: Written)
    ensures !IsIntegrationInstalled(ReadRc(f)) ==> r == Written(f, None)
    ensures IsIntegrationInstalled(ReadRc(f)) ==> r.err == write && r.file.Readable?
    ensures r.err.Some? ==> r.file == f
  {
    if !IsIntegrationInstalled(ReadRc(f)) then Written(f, None)
    else if write.Some? then Written(f, write)
    else Written(Readable(Join(FilterBlock(Split(f.text, '\n'), Outside, KindOf), '\n')), None)
  }

  /** With the corrected loop, uninstalling right after installing removes
      the marker and the whole function; only one line break is left over. */
  lemma RemoveBlockAfterInstallOf(text: string, marker: string, body: seq<string>, kind: string -> LineKind)
    requires kind(marker) == MarkerLine && kind("") == BlankLine && '\n' !in marker
    requires NoMarkerIn(text, kind) && |body| >= 1 && PlainLines(body, kind)
    ensures Join(FilterBlock(Split(text + AdditionOf(marker, ScriptOf(body)), '\n'), Outside, kind), '\n')
            == text + "\n"
  {
    InstalledLines(text, marker, body);
    var own := Split(text, '\n');
    FilterBlockKeepsPlainLines(own, kind);
    var block := [marker] + [""] + (body + ([""] + [""]));
    FilterBlockAppend(own, block, Outside, kind);
    InstalledBlockVanishes(marker, body, kind);
    JoinAppend(own, [""], '\n');
  }

  /** The block an installation adds filters down to one empty line. */
  lemma InstalledBlockVanishes(marker: string, body: seq<string>, kind: string -> LineKind)
    requires kind(marker) == MarkerLine && kind("") == BlankLine
    requires |body| >= 1 && PlainLines(body, kind)
    ensures FilterBlock([marker] + [""] + (body + ([""] + [""])), Outside, kind) == [""]
  {
    var block := [marker] + [""] + (body + ([""] + [""]));
    assert block[0] == marker && block[1] == "";
    assert block[1..][1..] == body + ([""] + [""]);
    InsideFixedBlock(body, [""] + [""], Opened, kind);
    assert ([""] + [""])[1..] == [""];
    assert FilterBlock([""], Outside, kind) == [""];
  }

  // ---------------------------------------------------------------------------
  // The shell function's lines
  // ---------------------------------------------------------------------------

  /** The lines of the function are text lines without line breaks. */
  lemma ScriptBodyPlain()
    ensures PlainLines(ScriptBody, KindOf)
  {
    forall i | 0 <= i < |ScriptBody| ensures KindOf(ScriptBody[i]) == TextLine && '\n' !in ScriptBody[i] {
      ScriptLineStart(i);
      TextLineAt(ScriptBody[i], Indents[i]);
      if i == 2 || i == 4 { LongLinesUnbroken(); } else { ScriptLineUnbroken(i); }
    }
  }

  /** The indentation of each line of the function, in tabs. */
  const Indents: seq<nat> := [0, 1, 2, 1, 2, 1, 2, 1, 0]

  /** `line`'s first non-blank character is at `k` and does not open a
      comment. */
  predicate TextStart(line: string, k: nat) {
    k < |line| && AllSpace(line[..k]) && !IsSpace(line[k]) && line[k] != Marker[0]
  }

  /** Each line's first non-blank character, found after its indentation. */
  lemma ScriptLineStart(i: nat)
    requires i < |ScriptBody|
    ensures TextStart(ScriptBody[i], Indents[i])
  {
    if i == 0 { assert TextStart(ScriptBody[0], 0); }
    else if i == 1 { assert TextStart(ScriptBody[1], 1); }
    else if i == 2 { assert TextStart(ScriptBody[2], 2); }
    else if i == 3 { assert TextStart(ScriptBody[3], 1); }
    else if i == 4 { assert TextStart(ScriptBody[4], 2); }
    else if i == 5 { assert TextStart(ScriptBody[5], 1); }
    else if i == 6 { assert TextStart(ScriptBody[6], 2); }
    else if i == 7 { assert TextStart(ScriptBody[7], 1); }
  }

  /** The lines of the function hold no line break; the two long lines
      are checked on their own. */
  lemma ScriptLineUnbroken(i: nat)
    requires i < |ScriptBody| && i != 2 && i != 4
    ensures '\n' !in ScriptBody[i]
  {
    if i == 0 { assert '\n' !in ScriptBody[0]; }
    else if i == 1 { assert '\n' !in ScriptBody[1]; }
    else if i == 3 { assert '\n' !in ScriptBody[3]; }
    else if i == 5 { assert '\n' !in ScriptBody[5]; }
    else if i == 6 { assert '\n' !in ScriptBody[6]; }
    else if i == 7 { assert '\n' !in ScriptBody[7]; }
  }

  lemma LongLinesUnbroken()
    ensures '\n' !in ScriptBody[2] && '\n' !in ScriptBody[4]
  {
    assert '\n' !in ScriptBody[2];
  }

  /** A file the integration is not installed in has no marker line. */
  lemma NoMarkerLinesIn(content: Option<string>)
    requires !IsIntegrationInstalled(content)
    ensures NoMarkerIn(content.GetOr(""), KindOf)
  {
    NoMarkerLines(content.GetOr(""));
  }

  /** The marker is a marker line, and holds no line break. */
  lemma MarkerKind()
    ensures KindOf(Marker) == MarkerLine && KindOf("") == BlankLine && '\n' !in Marker
  {
    MarkerLineOf(Marker);
    BlankKind();
    MarkerUnbroken();
  }

  lemma BlankKind()
    ensures KindOf("") == BlankLine
  {
    assert AllSpace("");
  }

  lemma MarkerUnbroken()
    ensures '\n' !in Marker
  {
  }

  /** A marker without surrounding white space is its own marker line. */
  lemma MarkerLineOf(m: string)
    requires m == Marker && m != [] && !IsSpace(m[0]) && !IsSpace(m[|m| - 1])
    ensures KindOf(m) == MarkerLine
  {
    TrimSpaceNoop(m);
  }

  /** `shell uninstall` after `shell install` on a readable file without
      the marker (or a missing file, as the empty text), both writes
      succeeding, leaves the function behind. */
  lemma RemoveAfterInstall(f: RcFile)
    requires !f.Unreadable? && !IsIntegrationInstalled(ReadRc(f))
    ensures RemoveShellIntegration(InstallShellIntegration(f, None).file, None)
            == Written(Readable(TextOf(f) + Script + "\n"), None)
  {
    InstalledFile(f);
    RemoveAfterAddition(TextOf(f));
  }

  /** The filter as written on a text followed by the addition. */
  lemma RemoveAfterAddition(text: string)
    requires !Contains(text, Marker)
    ensures RemoveShellIntegration(Readable(text + Addition), None) == Written(Readable(text + Script + "\n"), None)
  {
    AddedTextInstalled(text);
    AddedTextFiltered(text);
  }

  /** The line filter as written keeps the script body: only the marker
      line and the first blank line after it go. */
  lemma AddedTextFiltered(text: string)
    requires !Contains(text, Marker)
    ensures Join(Filter(Split(text + Addition, '\n'), false, KindOf), '\n') == text + Script + "\n"
  {
    MarkerKind();
    NoMarkerLinesIn(Some(text));
    ScriptBodyPlain();
    RemoveAfterInstallOf(text, Marker, ScriptBody, KindOf);
  }

  /** A text followed by the addition holds the marker. */
  lemma AddedTextInstalled(text: string)
    ensures IsIntegrationInstalled(Some(text + Addition))
  {
    AdditionHasMarker(text, Marker, Script);
  }

  /** A successful installation on a readable file without the marker, or
      a missing one, appends the addition and leaves the marker readable. */
  lemma InstalledFile(f: RcFile)
    requires !f.Unreadable? && !IsIntegrationInstalled(ReadRc(f))
    ensures InstallShellIntegration(f, None) == Written(Readable(TextOf(f) + Addition), None)
    ensures IsIntegrationInstalled(Some(TextOf(f) + Addition))
  {
  }

  /** The corrected uninstall after `shell install` takes the function out
      again. */
  lemma RemoveBlockAfterInstall(f: RcFile)
    requires !f.Unreadable? && !IsIntegrationInstalled(ReadRc(f))
    ensures RemoveShellBlock(InstallShellIntegration(f, None).file, None)
            == Written(Readable(TextOf(f) + "\n"), None)
  {
    InstalledFile(f);
    RemoveBlockAfterAddition(TextOf(f));
  }

  /** The corrected filter on a text followed by the addition. */
  lemma RemoveBlockAfterAddition(text: string)
    requires !Contains(text, Marker)
    ensures RemoveShellBlock(Readable(text + Addition), None) == Written(Readable(text + "\n"), None)
  {
    AddedTextInstalled(text);
    AddedTextBlockFiltered(text);
  }

  /** The corrected line filter drops the marker line and the whole
      function after it. */
  lemma AddedTextBlockFiltered(text: string)
    requires !Contains(text, Marker)
    ensures Join(FilterBlock(Split(text + Addition, '\n'), Outside, KindOf), '\n') == text + "\n"
  {
    MarkerKind();
    NoMarkerLinesIn(Some(text));
    ScriptBodyPlain();
    RemoveBlockAfterInstallOf(text, Marker, ScriptBody, KindOf);
  }
}
