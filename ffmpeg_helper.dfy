/** The FFmpeg front end of the podcast editor
    (`com/podcastcreateur/app/FFmpegHelper.kt`): the argument strings handed to
    FFmpeg for merging, cutting and normalising, and how the result reported
    to the caller follows from FFmpeg's return codes. Running FFmpeg is a
    parameter `succeeds`: whether the session run with that command ends
    with a success return code. The worker threads are not modelled: each
    operation runs to completion and returns what it reports. */
module FFmpegHelper {
  import opened Options
  import opened Text

  // ---------------------------------------------------------------------
  // mergeAudioFiles: the command

  /** The part appended for one input: `-i "<path>" `. */
  function InputArg(path: string): string
  {
    "-i \"" + path + "\" "
  }

  /** The input arguments of every file, in order. */
  function InputArgs(paths: seq<string>): string
    decreases |paths|
  {
    if paths == [] then "" else InputArgs(paths[..|paths| - 1]) + InputArg(paths[|paths| - 1])
  }

  /** The stream label of input `i`: `[i:a]`. */
  function Label(i: nat): string
  {
    "[" + Decimal(i) + ":a]"
  }

  /** The labels of inputs `k` to `n - 1`, in order. */
  function LabelsFrom(k: nat, n: nat): string
    decreases n - k
  {
    if k >= n then "" else Label(k) + LabelsFrom(k + 1, n)
  }

  /** The filter graph joining `n` audio streams one after the other. */
  function FilterGraph(n: nat): string
  {
    LabelsFrom(0, n) + "concat=n=" + Decimal(n) + ":v=0:a=1[out]"
  }

  /** What follows the filter graph: map its output, encode it as AAC at
      128 kbit/s and overwrite `output`. */
  function Tail(output: string): string
  {
    "-map \"[out]\" -c:a aac -b:a 128k -y \"" + output + "\""
  }

  /** The whole merge command. */
  function MergeCommand(paths: seq<string>, output: string): string
  {
    InputArgs(paths) + "-filter_complex \"" + FilterGraph(|paths|) + "\" " + Tail(output)
  }

  lemma InputArgsSnoc(paths: seq<string>, i: nat)
    requires i < |paths|
    ensures InputArgs(paths[..i + 1]) == InputArgs(paths[..i]) + InputArg(paths[i])
  {
    assert paths[..i + 1][..i] == paths[..i];
  }

  lemma {:induction false} LabelsSnoc(k: nat, n: nat)
    requires k <= n
    ensures LabelsFrom(k, n + 1) == LabelsFrom(k, n) + Label(n)
    decreases n - k
  {
    if k < n {
      LabelsSnoc(k + 1, n);
    }
  }

  /** The `StringBuilder` loops of `mergeAudioFiles`. */
  method BuildMergeCommand(paths: seq<string>, output: string) returns (cmd: string)
    ensures cmd == MergeCommand(paths, output)
  {
    cmd := "";
    for i := 0 to |paths|
      invariant cmd == InputArgs(paths[..i])
    {
      InputArgsSnoc(paths, i);
      cmd := cmd + InputArg(paths[i]);
    }
    assert paths[..|paths|] == paths;
    cmd := cmd + "-filter_complex \"";
    ghost var head := cmd;
    for i := 0 to |paths|
      invariant cmd == head + LabelsFrom(0, i)
    {
      LabelsSnoc(0, i);
      cmd := cmd + Label(i);
    }
    cmd := cmd + "concat=n=" + Decimal(|paths|) + ":v=0:a=1[out]" + "\" ";
    GraphAppended(head, |paths|);
    cmd := cmd + Tail(output);
  }

  lemma GraphAppended(head: string, n: nat)
    ensures head + LabelsFrom(0, n) + "concat=n=" + Decimal(n) + ":v=0:a=1[out]" == head + FilterGraph(n)
  {
    var labels, count := LabelsFrom(0, n), Decimal(n);
    AppendAssoc(head, labels, "concat=n=");
    AppendAssoc(head, labels + "concat=n=", count);
    AppendAssoc(head, labels + "concat=n=" + count, ":v=0:a=1[out]");
  }

  /** The two-input graph is the one FFmpeg's concat filter documents:
      `[0:a][1:a]concat=n=2:v=0:a=1[out]`. */
  lemma TwoInputGraph()
    ensures FilterGraph(2) == "[0:a][1:a]" + "concat=n=" + "2" + ":v=0:a=1[out]"
  {
    TwoLabels();
    assert Decimal(2) == "2";
  }

  lemma TwoLabels()
    ensures LabelsFrom(0, 2) == "[0:a][1:a]"
  {
    assert Decimal(0) == "0" && Decimal(1) == "1";
    assert Label(0) == "[0:a]" && Label(1) == "[1:a]";
    assert LabelsFrom(2, 2) == "";
    assert LabelsFrom(1, 2) == "[1:a]";
  }

  // ---------------------------------------------------------------------
  // Reading a merge command back

  /** The text before the first `"`, and the text after it. */
  function UntilQuote(s: string): (r: Option<(string, string)>)
    ensures r.Some? ==> '"' !in r.value.0 && s == r.value.0 + "\"" + r.value.1
    ensures r.None? <==> '"' !in s
    decreases |s|
  {
    if s == [] then None
    else if s[0] == '"' then Some(([], s[1..]))
    else match UntilQuote(s[1..])
      case None => None
      case Some((a, b)) => Some(([s[0]] + a, b))
  }

  /** A path followed by a quote reads back as that path. */
  lemma {:induction false} UntilQuoteOf(p: string, rest: string)
    requires '"' !in p
    ensures UntilQuote(p + "\"" + rest) == Some((p, rest))
    decreases |p|
  {
    if p == [] {
      assert p + "\"" + rest == "\"" + rest;
    } else {
      assert (p + "\"" + rest)[1..] == p[1..] + "\"" + rest;
      UntilQuoteOf(p[1..], rest);
      assert [p[0]] + p[1..] == p;
    }
  }

  /** The input paths at the head of a command, `-i "<path>" ` after
      `-i "<path>" `, and the text after them. */
  function ReadInputs(s: string): (r: (seq<string>, string))
    ensures |r.1| <= |s|
    decreases |s|
  {
    if StartsWith(s, "-i \"") then
      match UntilQuote(s[4..])
      case None => ([], s)
      case Some((p, rest)) =>
        if StartsWith(rest, " ") then
          var (ps, tail) := ReadInputs(rest[1..]);
          ([p] + ps, tail)
        else ([], s)
    else ([], s)
  }

  /** One input argument reads back as its path, before the inputs that
      follow it. */
  lemma ReadInputsStep(p: string, after: string)
    requires '"' !in p
    ensures ReadInputs(InputArg(p) + after) == ([p] + ReadInputs(after).0, ReadInputs(after).1)
  {
    var s := InputArg(p) + after;
    assert s == "-i \"" + (p + "\"" + (" " + after));
    assert s[..4] == "-i \"";
    assert s[4..] == p + "\"" + (" " + after);
    UntilQuoteOf(p, " " + after);
    assert StartsWith(" " + after, " ");
    assert (" " + after)[1..] == after;
  }

  lemma {:induction false} InputArgsFront(paths: seq<string>)
    requires paths != []
    ensures InputArgs(paths) == InputArg(paths[0]) + InputArgs(paths[1..])
    decreases |paths|
  {
    if |paths| > 1 {
      var init := paths[..|paths| - 1];
      InputArgsFront(init);
      assert init[1..] == paths[1..][..|paths[1..]| - 1];
    } else {
      assert paths[1..] == [] && paths[..0] == [];
    }
  }

  /** The input arguments read back as the paths, provided no path holds a
      quote and the text after them does not start another input. */
  lemma {:induction false} ReadInputsRoundTrip(paths: seq<string>, rest: string)
    requires forall i :: 0 <= i < |paths| ==> '"' !in paths[i]
    requires !StartsWith(rest, "-i \"")
    ensures ReadInputs(InputArgs(paths) + rest) == (paths, rest)
    decreases |paths|
  {
    if paths != [] {
      var p := paths[0];
      InputArgsFront(paths);
      var after := InputArgs(paths[1..]) + rest;
      AppendAssoc(InputArg(p), InputArgs(paths[1..]), rest);
      ReadInputsStep(p, after);
      ReadInputsRoundTrip(paths[1..], rest);
      assert [p] + paths[1..] == paths;
    } else {
      assert InputArgs(paths) + rest == rest;
    }
  }

  /** The labels `[k:a][k+1:a]...` at the head of a text, counted. */
  function CountLabels(s: string, k: nat): nat
    decreases |s|
  {
    if |Label(k)| <= |s| && s[..|Label(k)|] == Label(k) then 1 + CountLabels(s[|Label(k)|..], k + 1) else 0
  }

  lemma {:induction false} CountLabelsOf(k: nat, n: nat, rest: string)
    requires k <= n
    requires rest == [] || rest[0] != '['
    ensures CountLabels(LabelsFrom(k, n) + rest, k) == n - k
    decreases n - k
  {
    var s := LabelsFrom(k, n) + rest;
    if k < n {
      assert s == Label(k) + (LabelsFrom(k + 1, n) + rest);
      assert s[..|Label(k)|] == Label(k);
      assert s[|Label(k)|..] == LabelsFrom(k + 1, n) + rest;
      CountLabelsOf(k + 1, n, rest);
    } else {
      assert s == rest;
    }
  }

  /** Reading a merge command back: its inputs are the files, in order,
      and what follows them is the filter graph and the tail. */
  lemma MergeCommandInputs(paths: seq<string>, output: string)
    requires forall i :: 0 <= i < |paths| ==> '"' !in paths[i]
    ensures ReadInputs(MergeCommand(paths, output))
            == (paths, "-filter_complex \"" + FilterGraph(|paths|) + "\" " + Tail(output))
  {
    var rest := "-filter_complex \"" + FilterGraph(|paths|) + "\" " + Tail(output);
    assert rest[1] == 'f';
    assert MergeCommand(paths, output) == InputArgs(paths) + rest;
    ReadInputsRoundTrip(paths, rest);
  }

  /** The graph labels inputs 0 to n - 1 in order, and its `concat=n=`
      count reads back as n. */
  lemma FilterGraphCounts(n: nat)
    ensures CountLabels(FilterGraph(n), 0) == n
    ensures FilterGraph(n)[|LabelsFrom(0, n)|..] == "concat=n=" + Decimal(n) + ":v=0:a=1[out]"
    ensures ValueOf(Decimal(n)) == n
  {
    var after := "concat=n=" + Decimal(n) + ":v=0:a=1[out]";
    assert FilterGraph(n) == LabelsFrom(0, n) + after;
    assert after[0] == 'c';
    CountLabelsOf(0, n, after);
    DecimalRoundTrip(n);
  }

  // ---------------------------------------------------------------------
  // Running the commands

  /** `mergeAudioFiles`: with no inputs it reports failure without running
      FFmpeg; otherwise it runs the merge command and reports whether the
      run succeeded. Returns the command run, if any, and the reported
      result. */
  method MergeAudioFiles(paths: seq<string>, output: string, succeeds: string -> bool)
    returns (ran: Option<string>, result: bool)
    ensures ran.None? <==> paths == []
    ensures paths == [] ==> !result
    ensures ran.Some? ==> ran.value == MergeCommand(paths, output) && (result <==> succeeds(ran.value))
  {
    if |paths| == 0 {
      return None, false;
    }
    var cmd := BuildMergeCommand(paths, output);
    return Some(cmd), succeeds(cmd);
  }

  /** The cut command; `start` and `duration` are the printed forms of the
      two `Double` values in seconds. */
  function CutCommand(input: string, output: string, start: string, duration: string): string
  {
    CutHead(start, duration) + InputArg(input) + CutTail(output)
  }

  /** The seek and the duration, before the input. */
  function CutHead(start: string, duration: string): string
  {
    "-ss " + start + " -t " + duration + " "
  }

  /** After the input: re-encode to AAC at 128 kb/s and overwrite the
      output. */
  function CutTail(output: string): string
  {
    "-c:a aac -b:a 128k -y \"" + output + "\""
  }

  /** Reading a cut command back: it seeks to `start` for `duration`, reads
      the one input `input`, re-encodes to AAC at 128 kb/s and ends by
      writing `output`. */
  lemma CutCommandReadsBack(input: string, output: string, start: string, duration: string)
    requires '"' !in input
    ensures var cmd := CutCommand(input, output, start, duration);
      && StartsWith(cmd, "-ss " + start + " -t " + duration + " ")
      && ReadInputs(cmd[|CutHead(start, duration)|..]) == ([input], "-c:a aac -b:a 128k -y \"" + output + "\"")
      && EndsWith(cmd, " -y \"" + output + "\"")
  {
    var head := CutHead(start, duration);
    var rest := InputArg(input) + CutTail(output);
    AppendAssoc(head, InputArg(input), CutTail(output));
    SplitAfter(head, rest);
    CutInputReadsBack(input, output);
    CutEndsWithOutput(head + InputArg(input), output);
  }

  lemma SplitAfter(head: string, rest: string)
    ensures StartsWith(head + rest, head) && (head + rest)[|head|..] == rest
  {
    assert (head + rest)[..|head|] == head;
  }

  /** The input argument and the tail read back as the input and the tail. */
  lemma CutInputReadsBack(input: string, output: string)
    requires '"' !in input
    ensures ReadInputs(InputArg(input) + CutTail(output)) == ([input], "-c:a aac -b:a 128k -y \"" + output + "\"")
  {
    assert InputArgs([input]) == InputArg(input) by {
      assert [input][..0] == [];
    }
    assert CutTail(output)[1] == 'c';
    ReadInputsRoundTrip([input], CutTail(output));
  }

  lemma CutEndsWithOutput(before: string, output: string)
    ensures EndsWith(before + CutTail(output), " -y \"" + output + "\"")
  {
    var end := " -y \"" + output + "\"";
    var tail := CutTail(output);
    assert tail == "-c:a aac -b:a 128k" + end;
    var cmd := before + tail;
    assert cmd == (before + "-c:a aac -b:a 128k") + end;
    assert cmd[|cmd| - |end|..] == end;
  }

  /** A command run by FFmpeg, and the result reported for it. */
  datatype Run = Run(commands: seq<string>, result: bool)

  /** `cutAudio`: one re-encoding run whose outcome is reported. */
  function CutAudio(input: string, output: string, start: string, duration: string, succeeds: string -> bool): (r: Run)
    ensures |r.commands| == 1 && StartsWith(r.commands[0], "-ss " + start + " -t " + duration)
    ensures r.commands[0] == CutCommand(input, output, start, duration)
    ensures r.result <==> succeeds(r.commands[0])
  {
    var cmd := CutCommand(input, output, start, duration);
    assert cmd[..|"-ss " + start + " -t " + duration|] == "-ss " + start + " -t " + duration;
    Run([cmd], succeeds(cmd))
  }

  /** The EBU R128 loudness normalisation command (-16 LUFS, -1.5 dBTP,
      11 LU range). */
  function LoudnormCommand(input: string, output: string): string
  {
    "-i \"" + input + "\" -filter:a loudnorm=I=-16:TP=-1.5:LRA=11 -c:a aac -b:a 128k -y \"" + output + "\""
  }

  /** The fallback: a plain 3 dB gain. */
  function VolumeCommand(input: string, output: string): string
  {
    "-i \"" + input + "\" -filter:a volume=3dB -c:a aac -b:a 128k -y \"" + output + "\""
  }

  /** `normalizeAudio`: loudness normalisation first; only when it fails,
      the 3 dB fallback, whose own outcome is then reported. */
  function NormalizeAudio(input: string, output: string, succeeds: string -> bool): (r: Run)
    ensures 1 <= |r.commands| <= 2 && r.commands[0] == LoudnormCommand(input, output)
    ensures |r.commands| == 2 <==> !succeeds(LoudnormCommand(input, output))
    ensures |r.commands| == 2 ==> r.commands[1] == VolumeCommand(input, output)
    ensures r.result <==> succeeds(LoudnormCommand(input, output)) || succeeds(VolumeCommand(input, output))
  {
    var loud := LoudnormCommand(input, output);
    if succeeds(loud) then Run([loud], true)
    else
      var fallback := VolumeCommand(input, output);
      Run([loud, fallback], succeeds(fallback))
  }

  /** The fallback never runs after a successful normalisation, and its
      result is the one reported whenever it runs. */
  lemma FallbackOnlyOnFailure(input: string, output: string, succeeds: string -> bool)
    ensures var r := NormalizeAudio(input, output, succeeds);
      (VolumeCommand(input, output) in r.commands <==> !succeeds(LoudnormCommand(input, output)))
      && (VolumeCommand(input, output) in r.commands ==> r.result == succeeds(VolumeCommand(input, output)))
  {
    var loud := LoudnormCommand(input, output);
    var vol := VolumeCommand(input, output);
    assert |loud| == |vol| + 19;
  }
}
