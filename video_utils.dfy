/**
 * `video_utils`: joining several recordings with ffmpeg's concat demuxer,
 * and the encoder arguments chosen by the NVIDIA probe.
 *
 * The file system and the subprocesses are inputs: `absPath` is
 * `os.path.abspath`, `listFile` is the name the temporary file gets,
 * `exitCode` is what the ffmpeg run returns, `probeOk` is whether
 * `nvidia-smi` ran successfully.
 */
module VideoUtils {
  import opened Wrappers

  // ---------------------------------------------------------------------
  // Quoting for the concat list

  /** Every `'` becomes `'\''`; every other character stays. */
  function Quote(p: string): (r: string)
    ensures |r| >= |p|
    ensures (forall k :: 0 <= k < |p| ==> p[k] != '\'') ==> r == p
  {
    if p == [] then []
    else (if p[0] == '\'' then "'\\''" else [p[0]]) + Quote(p[1..])
  }

  /** The inverse replacement: `'\''` back to `'`. */
  function Unquote(q: string): string
  {
    if q == [] then []
    else if |q| >= 4 && q[..4] == "'\\''" then "'" + Unquote(q[4..])
    else [q[0]] + Unquote(q[1..])
  }

  /** Undoing the replacement restores the original path. */
  lemma {:induction false} UnquoteQuote(p: string)
    ensures Unquote(Quote(p)) == p
  {
    if p != [] {
      var rest := Quote(p[1..]);
      var q := Quote(p);
      UnquoteQuote(p[1..]);
      if p[0] == '\'' {
        assert q == "'\\''" + rest;
        assert |q| >= 4 && q[..4] == "'\\''";
        assert q[4..] == rest;
        assert Unquote(q) == "'" + Unquote(rest);
      } else {
        assert q == [p[0]] + rest;
        assert q[1..] == rest;
        assert |q| >= 4 ==> q[..4][0] == p[0];
        assert Unquote(q) == [p[0]] + Unquote(rest);
      }
      assert p == [p[0]] + p[1..];
    }
  }

  /** One line of the concat list: `file '<quoted absolute path>'`. */
  function ListLine(absolute: string): (line: string)
    ensures |line| >= 8 && line[..6] == "file '" && line[|line| - 2..] == "'\n"
  {
    "file '" + Quote(absolute) + "'\n"
  }

  /** The path a list line names. */
  function LinePath(line: string): string
    requires |line| >= 8
  {
    Unquote(line[6..|line| - 2])
  }

  lemma LinePathListLine(absolute: string)
    ensures LinePath(ListLine(absolute)) == absolute
  {
    var line := ListLine(absolute);
    assert line[6..|line| - 2] == Quote(absolute);
    UnquoteQuote(absolute);
  }

  /** The whole list file: the lines of the inputs, in order. */
  function ListFile(paths: seq<string>, absPath: string -> string): string
  {
    if paths == [] then [] else ListFile(paths[..|paths| - 1], absPath) + ListLine(absPath(paths[|paths| - 1]))
  }

  /** The `for` loop that writes the list file. */
  method WriteListFile(paths: seq<string>, absPath: string -> string) returns (contents: string)
    ensures contents == ListFile(paths, absPath)
  {
    contents := [];
    for k := 0 to |paths|
      invariant contents == ListFile(paths[..k], absPath)
    {
      assert paths[..k + 1][..k] == paths[..k];
      var absolute := Quote(absPath(paths[k]));
      contents := contents + "file '" + absolute + "'\n";
    }
    assert paths[..|paths|] == paths;
  }

  /** The list file is made of `ListLine`s, one per input. */
  lemma {:induction false} ListFileLines(paths: seq<string>, absPath: string -> string)
    returns (lines: seq<string>)
    ensures |lines| == |paths|
    ensures forall k :: 0 <= k < |paths| ==> |lines[k]| >= 8 && LinePath(lines[k]) == absPath(paths[k])
    ensures ListFile(paths, absPath) == Concat(lines)
  {
    if paths == [] {
      lines := [];
    } else {
      var init := ListFileLines(paths[..|paths| - 1], absPath);
      var last := ListLine(absPath(paths[|paths| - 1]));
      LinePathListLine(absPath(paths[|paths| - 1]));
      lines := init + [last];
      ConcatSnoc(init, last);
    }
  }

  function Concat(lines: seq<string>): string {
    if lines == [] then [] else Concat(lines[..|lines| - 1]) + lines[|lines| - 1]
  }

  lemma ConcatSnoc(lines: seq<string>, last: string)
    ensures Concat(lines + [last]) == Concat(lines) + last
  {
    assert (lines + [last])[..|lines|] == lines;
  }

  // ---------------------------------------------------------------------
  // concatenate_videos

  /** `[ffmpeg, -y, -f, concat, -safe, 0, -i, list, -c, copy, output]`. */
  function ConcatCommand(ffmpeg: string, listFile: string, outputPath: string): (cmd: seq<string>)
    ensures |cmd| == 11 && cmd[0] == ffmpeg && cmd[7] == listFile && cmd[10] == outputPath
  {
    [ffmpeg, "-y", "-f", "concat", "-safe", "0", "-i", listFile, "-c", "copy", outputPath]
  }

  /** What `concatenate_videos` does besides returning its flag. */
  datatype ConcatAction =
    | NothingDone
    | Copied(source: string, target: string)
    | RanConcat(listContents: string, command: seq<string>)

  method ConcatenateVideos(videoPaths: seq<string>, outputPath: string, absPath: string -> string,
                           listFile: string, ffmpeg: string, exitCode: int)
    returns (ok: bool, action: ConcatAction)
    ensures videoPaths == [] ==> !ok && action == NothingDone
    ensures |videoPaths| == 1 ==> ok && action == Copied(videoPaths[0], outputPath)
    ensures |videoPaths| > 1 ==>
      && action == RanConcat(ListFile(videoPaths, absPath), ConcatCommand(ffmpeg, listFile, outputPath))
      && (ok <==> exitCode == 0)
  {
    if videoPaths == [] {
      return false, NothingDone;
    }
    if |videoPaths| == 1 {
      return true, Copied(videoPaths[0], outputPath);
    }
    var contents := WriteListFile(videoPaths, absPath);
    var command := [ffmpeg, "-y", "-f", "concat", "-safe", "0", "-i", listFile, "-c", "copy", outputPath];
    action := RanConcat(contents, command);
    ok := exitCode == 0;
  }

  // ---------------------------------------------------------------------
  // get_gpu_args

  /** The encoder arguments: NVENC when the probe succeeds, x264 otherwise. */
  function GpuArgs(probeOk: bool): seq<string> {
    if probeOk then ["-c:v", "h264_nvenc", "-preset", "p4", "-tune", "hq"]
    else ["-c:v", "libx264", "-preset", "medium"]
  }

  /** `xs.index(x)`; `None` where Python raises `ValueError`. */
  function IndexOf(xs: seq<string>, x: string): (r: Option<nat>)
    ensures r.Some? ==> r.value < |xs| && xs[r.value] == x && forall k :: 0 <= k < r.value ==> xs[k] != x
    ensures r.None? ==> forall k :: 0 <= k < |xs| ==> xs[k] != x
  {
    if xs == [] then None
    else if xs[0] == x then Some(0)
    else match IndexOf(xs[1..], x)
         case None => None
         case Some(k) => Some(k + 1)
  }

  /**
   * Both argument lists name the codec right after a leading `-c:v`, which
   * is what the encoder loop of `process_pair` reads back.
   */
  lemma GpuArgsCodec(probeOk: bool)
    ensures IndexOf(GpuArgs(probeOk), "-c:v") == Some(0)
    ensures |GpuArgs(probeOk)| >= 2
    ensures GpuArgs(probeOk)[1] == if probeOk then "h264_nvenc" else "libx264"
    ensures "-c:v" !in GpuArgs(probeOk)[2..]
  {
  }
}
