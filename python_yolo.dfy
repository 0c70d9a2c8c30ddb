/**
 * The bridge to the external anomaly detector: choose the interpreter and the
 * script, run the detector on a temporary copy of the image, and turn its exit
 * status and output into a list of anomalies or an encoded failure.
 *
 * The subprocess is an abstract outcome (it could not start, or it exited with
 * a code after printing lines on stdout and stderr). The file system is a set
 * of existing paths held by a `Disk` object; whether creating the debug folder
 * and copying into it succeeds is a parameter. JSON reading is a library
 * concern and comes in as `JsonLib`.
 */
module PythonYolo {
  import opened Wrappers
  import opened Text

  /** A detected anomaly as the detector reports it. */
  datatype Anomaly = Anomaly(errorType: Option<string>, confidence: real, box: Option<seq<real>>)

  /** What the detector process did. */
  datatype Launch =
    | StartFailed(reason: string)
    | Exited(exitCode: int, stdoutLines: seq<string>, stderrLines: seq<string>)

  /**
   * The JSON library: `objectAnomalies` reads an object and yields its
   * "anomalies" member (None when absent), `arrayAnomalies` reads a list; each
   * fails with the parser's message.
   */
  datatype JsonLib = JsonLib(
    objectAnomalies: string -> Result<Option<seq<Anomaly>>, string>,
    arrayAnomalies: string -> Result<seq<Anomaly>, string>)

  /** An exception leaving the detector: unchecked (a RuntimeException) or a checked I/O failure. */
  datatype Thrown = Unchecked(message: string) | Checked(message: string)

  // ---------------------------------------------------------------- choices

  /**
   * The interpreter: the `python.exec` property when it is non-blank, else the
   * `PYTHON_EXEC` environment variable when it is non-blank, else "python".
   */
  function ResolveInterpreter(property: Option<string>, env: Option<string>): (r: string)
    ensures property.Some? && !IsBlank(property.value) ==> r == property.value
    ensures (property.None? || IsBlank(property.value)) && env.Some? && !IsBlank(env.value) ==> r == env.value
    ensures (property.None? || IsBlank(property.value)) && (env.None? || IsBlank(env.value)) ==> r == "python"
  {
    if property.Some? && !IsBlank(property.value) then property.value
    else if env.Some? && !IsBlank(env.value) then env.value
    else "python"
  }

  /** `Paths.get(first, more...)` with '/' as the separator. */
  function PathOf(parts: seq<string>): string
  {
    if parts == [] then ""
    else if |parts| == 1 then parts[0]
    else PathOf(parts[..|parts| - 1]) + "/" + parts[|parts| - 1]
  }

  const ScriptName := "anomaly_detection.py"

  /** The candidate script locations, in the order they are tried. */
  function ScriptCandidates(cwd: string): seq<string>
  {
    [PathOf([cwd, "python", ScriptName]), PathOf([cwd, "backend", "python", ScriptName])]
  }

  /**
   * The script: the first candidate that exists; when neither does, the
   * relative path, which is used without a check.
   */
  function ResolveScript(cwd: string, fileExists: string -> bool): (r: string)
    ensures fileExists(ScriptCandidates(cwd)[0]) ==> r == ScriptCandidates(cwd)[0]
    ensures !fileExists(ScriptCandidates(cwd)[0]) && fileExists(ScriptCandidates(cwd)[1]) ==> r == ScriptCandidates(cwd)[1]
    ensures !fileExists(ScriptCandidates(cwd)[0]) && !fileExists(ScriptCandidates(cwd)[1]) ==> r == "python/" + ScriptName
  {
    var first := PathOf([cwd, "python", ScriptName]);
    if fileExists(first) then first
    else
      var second := PathOf([cwd, "backend", "python", ScriptName]);
      if fileExists(second) then second else "python/" + ScriptName
  }

  // ---------------------------------------------------------------- output

  /** A stream read line by line, each line followed by a newline. */
  function Joined(lines: seq<string>): (r: string)
    ensures |r| >= |lines|
    ensures lines != [] ==> r != []
  {
    if lines == [] then "" else Joined(lines[..|lines| - 1]) + lines[|lines| - 1] + "\n"
  }

  /** The read loop: append each line and a newline to a buffer. */
  method ReadAll(lines: seq<string>) returns (buf: string)
    ensures buf == Joined(lines)
  {
    buf := "";
    var i := 0;
    while i < |lines|
      invariant 0 <= i <= |lines|
      invariant buf == Joined(lines[..i])
    {
      assert lines[..i + 1][..i] == lines[..i];
      buf := buf + lines[i] + "\n";
      i := i + 1;
    }
    assert lines[..i] == lines;
  }

  /** The error text of a failed run: stderr, or the exit code when stderr was empty. */
  function ErrorText(exitCode: int, stderr: string): (r: string)
    ensures stderr != [] ==> r == stderr
    ensures stderr == [] ==> r == "Python script exited with code " + IntToString(exitCode)
  {
    if |stderr| > 0 then stderr else "Python script exited with code " + IntToString(exitCode)
  }

  /** A failed run's message; the preserved image path, or UNKNOWN when preserving failed. */
  function FailureMessage(preserved: Option<string>, err: string): (r: string)
    ensures StartsWith(r, "PY_ERR;FILE:")
  {
    "PY_ERR;FILE:" + (if preserved.Some? then preserved.value else "UNKNOWN") + ";ERR:" + err
  }

  predicate Bracket(c: char) { c == '[' || c == '{' }

  /**
   * Where the JSON payload starts in the trimmed output: at the earlier of the
   * first '[' and the first '{'; None when neither occurs.
   */
  function JsonStart(t: string): (r: Option<nat>)
    ensures r.None? <==> forall k :: 0 <= k < |t| ==> !Bracket(t[k])
    ensures r.Some? ==> (r.value < |t| && Bracket(t[r.value])
      && forall k :: 0 <= k < r.value ==> !Bracket(t[k]))
  {
    var arr := IndexOf(t, "[");
    var obj := IndexOf(t, "{");
    SingleCharIndex(t, '[');
    SingleCharIndex(t, '{');
    if arr != -1 && (arr < obj || obj == -1) then Some(arr)
    else if obj != -1 then Some(obj)
    else None
  }

  /** The payload: the trimmed output from the JSON start on, or all of it when there is none. */
  function SelectJson(output: string): (r: string)
    ensures var t := Trim(output, JavaTrimmed);
      && (JsonStart(t).None? ==> r == t)
      && (JsonStart(t).Some? ==> r == t[JsonStart(t).value..] && r != [] && Bracket(r[0]))
  {
    var t := Trim(output, JavaTrimmed);
    var start := JsonStart(t);
    if start.Some? then t[start.value..] else t
  }

  /** `indexOf` of a one-character string finds the first occurrence of that character. */
  lemma SingleCharIndex(s: string, c: char)
    ensures IndexOf(s, [c]) == -1 <==> forall k :: 0 <= k < |s| ==> s[k] != c
    ensures IndexOf(s, [c]) >= 0 ==> (IndexOf(s, [c]) < |s| && s[IndexOf(s, [c])] == c
      && forall k :: 0 <= k < IndexOf(s, [c]) ==> s[k] != c)
  {
    var i := IndexOf(s, [c]);
    forall k | 0 <= k < |s| ensures OccursAt(s, [c], k) <==> s[k] == c {
      assert s[k..k + 1] == [s[k]];
    }
    if i == -1 {
      forall k | 0 <= k < |s| ensures s[k] != c {
        assert !OccursAt(s, [c], k);
      }
    } else {
      assert OccursAt(s, [c], i);
    }
  }

  /**
   * Decoding the payload: an object yields its "anomalies" member or nothing, a
   * list is decoded as it is, and any other text yields no anomalies. `Err` is a
   * parser failure.
   */
  function Decode(json: string, lib: JsonLib): (r: Result<seq<Anomaly>, string>)
    ensures !StartsWith(json, "{") && !StartsWith(json, "[") ==> r == Ok([])
    ensures StartsWith(json, "{") && lib.objectAnomalies(json) == Ok(None) ==> r == Ok([])
    ensures StartsWith(json, "{") && lib.objectAnomalies(json).Ok? && lib.objectAnomalies(json).value.Some? ==>
      r == Ok(lib.objectAnomalies(json).value.value)
    ensures StartsWith(json, "{") && lib.objectAnomalies(json).Err? ==> r == Err(lib.objectAnomalies(json).error)
    ensures StartsWith(json, "[") ==> r == lib.arrayAnomalies(json)
  {
    if StartsWith(json, "{") then
      var node := lib.objectAnomalies(json);
      if node.Err? then Err(node.error)
      else if node.value.Some? then Ok(node.value.value) else Ok([])
    else if StartsWith(json, "[") then lib.arrayAnomalies(json)
    else Ok([])
  }

  /**
   * What the parse-failure handler returns: PY_PARSE_ERR when it managed to
   * preserve the temporary image, otherwise an empty list.
   */
  function ParseFailure(preservedOk: bool, preserved: string, message: string): (r: Result<seq<Anomaly>, Thrown>)
    ensures r.Ok? <==> !preservedOk
    ensures r.Ok? ==> r.value == []
  {
    if preservedOk then Err(Unchecked("PY_PARSE_ERR;FILE:" + preserved + ";ERR:" + message))
    else Ok([])
  }

  /**
   * The whole outcome of a run that exits with code 0, from its stdout. A
   * parser failure gives an empty list: the temporary image is already deleted
   * when the handler tries to preserve it, so that copy fails and PY_PARSE_ERR
   * is never raised.
   */
  function SuccessOutcome(stdout: string, lib: JsonLib): (r: seq<Anomaly>)
    ensures Decode(SelectJson(stdout), lib).Ok? ==> r == Decode(SelectJson(stdout), lib).value
    ensures Decode(SelectJson(stdout), lib).Err? ==> r == []
  {
    var decoded := Decode(SelectJson(stdout), lib);
    if decoded.Ok? then decoded.value else []
  }

  /**
   * Output that is exactly a JSON list, with no surrounding white space, is
   * decoded as that list, or gives no anomalies when the list does not parse.
   */
  lemma ArrayOutputDecoded(stdout: string, lib: JsonLib)
    requires stdout != [] && stdout[0] == '[' && !JavaTrimmed(stdout[|stdout| - 1])
    ensures lib.arrayAnomalies(stdout).Ok? ==> SuccessOutcome(stdout, lib) == lib.arrayAnomalies(stdout).value
    ensures lib.arrayAnomalies(stdout).Err? ==> SuccessOutcome(stdout, lib) == []
  {
    TrimUntouched(stdout, JavaTrimmed);
    var start := JsonStart(stdout);
    assert start == Some(0) by {
      if start.None? || start.value > 0 { assert Bracket(stdout[0]); }
    }
    assert SelectJson(stdout) == stdout[0..] == stdout;
    assert stdout[..1] == "[";
  }

  /** Text that does not start with a bracket decodes to no anomalies. */
  lemma NoBracketDecodesEmpty(json: string, lib: JsonLib)
    requires json == [] || !Bracket(json[0])
    ensures Decode(json, lib) == Ok([])
  {
    if |json| > 0 {
      assert json[..1] == [json[0]];
    }
  }

  /** Output with neither '[' nor '{' gives no anomalies rather than an error. */
  lemma NoBracketsNoAnomalies(stdout: string, lib: JsonLib)
    requires forall k :: 0 <= k < |stdout| ==> !Bracket(stdout[k])
    ensures SuccessOutcome(stdout, lib) == []
  {
    var t := Trim(stdout, JavaTrimmed);
    var a :| 0 <= a <= |stdout| && OccursAt(stdout, t, a);
    forall k | 0 <= k < |t| ensures !Bracket(t[k]) {
      assert t[k] == stdout[a + k];
    }
    assert SelectJson(stdout) == t;
    NoBracketDecodesEmpty(t, lib);
  }

  // ---------------------------------------------------------------- the run

  /** The file system: the set of paths that exist. */
  class Disk {
    var files: set<string>

    constructor (files: set<string>)
      ensures this.files == files
    {
      this.files := files;
    }

    /** Create or overwrite a file. */
    method Write(path: string)
      modifies this
      ensures files == old(files) + {path}
    {
      files := files + {path};
    }

    method Delete(path: string)
      modifies this
      ensures files == old(files) - {path}
    {
      files := files - {path};
    }

    /**
     * Create the target folder and copy `src` to `dst`. It fails when the source
     * does not exist or the file system refuses (`allowed` false).
     */
    method Copy(src: string, dst: string, allowed: bool) returns (ok: bool)
      modifies this
      ensures ok <==> src in old(files) && allowed
      ensures files == if ok then old(files) + {dst} else old(files)
    {
      ok := src in files && allowed;
      if ok {
        files := files + {dst};
      }
    }
  }

  /** Where a failed image is preserved: `failed_<millis>.jpg` in the debug folder. */
  function PreservedPath(debugDir: string, prefix: string, millis: int): string
  {
    debugDir + "/" + prefix + IntToString(millis) + ".jpg"
  }

  /**
   * What a run returns: a launch failure is a checked exception; a non-zero
   * exit an unchecked one naming the preserved copy (when preserving succeeded)
   * and the error text; a clean exit the anomalies read from stdout.
   */
  function RunOutcome(debugDir: string, launch: Launch, copyOk: bool, millis: int, lib: JsonLib): (r: Result<seq<Anomaly>, Thrown>)
    ensures r.Err? && r.error.Checked? <==> launch.StartFailed?
    ensures r.Err? && r.error.Unchecked? ==> StartsWith(r.error.message, "PY_ERR;FILE:")
    ensures r.Ok? <==> launch.Exited? && launch.exitCode == 0
  {
    match launch
    case StartFailed(reason) => Err(Checked(reason))
    case Exited(code, out, err) =>
      if code != 0 then
        var preserved := PreservedPath(debugDir, "failed_", millis);
        Err(Unchecked(FailureMessage(if copyOk then Some(preserved) else None, ErrorText(code, Joined(err)))))
      else Ok(SuccessOutcome(Joined(out), lib))
  }

  /**
   * `runYOLO`: write the image to `temp`, run the detector, and interpret the
   * result. `debugDir` is the `failed-detections` folder beside the temporary
   * folder, `copyOk` whether preserving a file there succeeds, `millis` the
   * clock reading used in the preserved file's name.
   */
  method RunYolo(disk: Disk, temp: string, debugDir: string, launch: Launch, copyOk: bool, millis: int, lib: JsonLib)
    returns (r: Result<seq<Anomaly>, Thrown>)
    modifies disk
    ensures r == RunOutcome(debugDir, launch, copyOk, millis, lib)
    ensures launch.StartFailed? ==> disk.files == old(disk.files) + {temp}
    ensures launch.Exited? && launch.exitCode != 0 ==>
      disk.files == old(disk.files) + {temp} + (if copyOk then {PreservedPath(debugDir, "failed_", millis)} else {})
    ensures launch.Exited? && launch.exitCode == 0 ==> disk.files == old(disk.files) - {temp}
  {
    disk.Write(temp);
    ghost var written := disk.files;
    assert written - {temp} == old(disk.files) - {temp};
    if launch.StartFailed? {
      return Err(Checked(launch.reason));
    }
    var out := ReadAll(launch.stdoutLines);
    var errBuf := ReadAll(launch.stderrLines);
    if launch.exitCode != 0 {
      var message := PreserveFailed(disk, temp, debugDir, ErrorText(launch.exitCode, errBuf), copyOk, millis);
      r := Err(Unchecked(message));
      assert r == RunOutcome(debugDir, launch, copyOk, millis, lib);
      return;
    }
    var anomalies := InterpretOutput(disk, temp, debugDir, out, copyOk, millis, lib);
    r := Ok(anomalies);
    assert r == RunOutcome(debugDir, launch, copyOk, millis, lib);
    assert disk.files == written - {temp};
  }

  /** A failed run: try to preserve the temporary image and encode the outcome. */
  method PreserveFailed(disk: Disk, temp: string, debugDir: string, err: string, copyOk: bool, millis: int)
    returns (message: string)
    requires temp in disk.files
    modifies disk
    ensures message == FailureMessage(if copyOk then Some(PreservedPath(debugDir, "failed_", millis)) else None, err)
    ensures disk.files == old(disk.files) + (if copyOk then {PreservedPath(debugDir, "failed_", millis)} else {})
  {
    var preserved := PreservedPath(debugDir, "failed_", millis);
    var copied := disk.Copy(temp, preserved, copyOk);
    if copied {
      return FailureMessage(Some(preserved), err);
    }
    return FailureMessage(None, err);
  }

  /** Deleting a file that is already gone changes nothing. */
  lemma DeleteAgain(files: set<string>, path: string)
    requires path !in files
    ensures files - {path} == files
  {
  }

  /**
   * The parse-failure handler, which runs after the temporary image is gone:
   * its copy fails, so it returns an empty list and leaves the disk as it is.
   */
  method PreserveAfterParseFailure(disk: Disk, temp: string, debugDir: string, copyOk: bool, millis: int, message: string)
    returns (anomalies: seq<Anomaly>)
    requires temp !in disk.files
    modifies disk
    ensures anomalies == [] && disk.files == old(disk.files)
  {
    var preserved := PreservedPath(debugDir, "failed_parse_", millis);
    var copied := disk.Copy(temp, preserved, copyOk);
    var handled := ParseFailure(copied, preserved, message);
    return handled.value;
  }

  /**
   * A clean exit: delete the temporary image, then select and decode the JSON.
   * The parse-failure handler's copy finds the image already gone.
   */
  method InterpretOutput(disk: Disk, temp: string, debugDir: string, out: string, copyOk: bool, millis: int, lib: JsonLib)
    returns (anomalies: seq<Anomaly>)
    modifies disk
    ensures anomalies == SuccessOutcome(out, lib)
    ensures disk.files == old(disk.files) - {temp}
  {
    disk.Delete(temp);
    var json := SelectJson(out);
    var decoded := Decode(json, lib);
    if decoded.Err? {
      anomalies := PreserveAfterParseFailure(disk, temp, debugDir, copyOk, millis, decoded.error);
      return;
    }
    ghost var cleaned := disk.files;
    disk.Delete(temp);
    DeleteAgain(cleaned, temp);
    anomalies := decoded.value;
  }
}
