/**
 * `stream_process_output` (utils.py:26-55): the downloader's combined
 * stdout/stderr is read line by line, each line stripped; the last non-empty
 * line that does not start with `[` is taken as the path of the file the
 * downloader wrote, and the stripped lines joined with newlines are the text
 * returned beside it. Running the process is not modelled: its output text is
 * an input, and its return code is passed through by the caller.
 */
module ProcessOutput {
  import opened Optional
  import opened Text
  import Ledger

  /** A stripped line that is taken for a file path: not empty, not a `[tag]` progress line. */
  predicate IsPathLine(line: string)
  {
    line != "" && line[0] != '['
  }

  /** Every line stripped, in order. */
  function StripAll(ls: seq<string>): (r: seq<string>)
    ensures |r| == |ls|
    ensures forall i :: 0 <= i < |ls| ==> r[i] == Strip(ls[i])
  {
    seq(|ls|, i requires 0 <= i < |ls| => Strip(ls[i]))
  }

  /** The output lines as the loop collects them. */
  function OutputLines(output: string): seq<string>
  {
    StripAll(Lines(output))
  }

  /** The last path line, if there is one. */
  function LastPath(ls: seq<string>): (r: Option<string>)
    ensures r.None? <==> forall i :: 0 <= i < |ls| ==> !IsPathLine(ls[i])
    ensures r.Some? ==> exists i :: 0 <= i < |ls| && ls[i] == r.value && IsPathLine(ls[i])
                                 && forall j :: i < j < |ls| ==> !IsPathLine(ls[j])
  {
    if ls == [] then None
    else if IsPathLine(ls[|ls| - 1]) then Some(ls[|ls| - 1])
    else
      var r := LastPath(ls[..|ls| - 1]);
      assert forall i :: 0 <= i < |ls| - 1 ==> ls[..|ls| - 1][i] == ls[i];
      r
  }

  /** The loop of `stream_process_output`: the path it settles on and the joined output. */
  method StreamOutput(output: string) returns (filepath: Option<string>, text: string)
    ensures filepath == LastPath(OutputLines(output))
    ensures text == Join(OutputLines(output), '\n')
  {
    var lines := Lines(output);
    var outputLines: seq<string> := [];
    filepath := None;
    var i := 0;
    while i < |lines|
      invariant 0 <= i <= |lines|
      invariant outputLines == StripAll(lines[..i])
      invariant filepath == LastPath(outputLines)
    {
      var line := Strip(lines[i]);
      outputLines := outputLines + [line];
      if line != "" && line[0] != '[' {
        filepath := Some(line);
      }
      assert outputLines[..|outputLines| - 1] == StripAll(lines[..i]);
      i := i + 1;
    }
    assert lines[..i] == lines;
    text := Join(outputLines, '\n');
  }

  // ---------------------------------------------------------------------
  // Properties

  /** The path found is one stripped output line, so it can be stored in the ledger and read back intact. */
  lemma PathIsStorable(output: string)
    requires LastPath(OutputLines(output)).Some?
    ensures var p := LastPath(OutputLines(output)).value;
            Ledger.IsStorableName(p) && Strip(p) == p && p[0] != '['
  {
    var ls := Lines(output);
    var p := LastPath(OutputLines(output)).value;
    var i :| 0 <= i < |ls| && OutputLines(output)[i] == p && IsPathLine(p);
    assert p == Strip(ls[i]);
    StrippedPathStorable(ls[i]);
  }

  lemma StrippedPathStorable(line: string)
    requires NoBreaks(line) && IsPathLine(Strip(line))
    ensures Ledger.IsStorableName(Strip(line)) && Strip(Strip(line)) == Strip(line) && Strip(line)[0] != '['
  {
    StripNoBreaks(line);
    StripBounds(line);
    StripTight(Strip(line));
  }

  /** The joined text splits back into the stripped lines: no line keeps a newline. */
  lemma TextSplitsIntoLines(output: string)
    requires Lines(output) != []
    ensures Split(Join(OutputLines(output), '\n'), '\n') == OutputLines(output)
  {
    var ls := Lines(output);
    var out := OutputLines(output);
    forall i | 0 <= i < |out| ensures '\n' !in out[i] {
      StripNoBreaks(ls[i]);
      assert forall k :: 0 <= k < |out[i]| ==> !IsBreak(out[i][k]);
    }
    SplitJoin(out, '\n');
  }

  /** A progress line printed after the file name does not hide it. */
  lemma ProgressLinesIgnored(ls: seq<string>, tail: seq<string>)
    requires forall j :: 0 <= j < |tail| ==> !IsPathLine(tail[j])
    ensures LastPath(ls + tail) == LastPath(ls)
  {
    var all := ls + tail;
    assert forall j :: 0 <= j < |ls| ==> all[j] == ls[j];
    assert forall j :: |ls| <= j < |all| ==> all[j] == tail[j - |ls|];
    match LastPath(ls)
    case None =>
    case Some(p) =>
      var i :| 0 <= i < |ls| && ls[i] == p && IsPathLine(ls[i]) && forall j :: i < j < |ls| ==> !IsPathLine(ls[j]);
      LastPathAt(all, i);
  }

  /** The last path line is found at its own index. */
  lemma {:induction false} LastPathAt(ls: seq<string>, i: nat)
    requires i < |ls| && IsPathLine(ls[i])
    requires forall j :: i < j < |ls| ==> !IsPathLine(ls[j])
    ensures LastPath(ls) == Some(ls[i])
    decreases |ls|
  {
    if i < |ls| - 1 {
      var init := ls[..|ls| - 1];
      assert forall j :: 0 <= j < |init| ==> init[j] == ls[j];
      LastPathAt(init, i);
    }
  }
}
