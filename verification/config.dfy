/**
 * The configuration store: `readConfigurations` turns a file of lines
 * `env|project|cluster|zone|namespace` into cluster profiles, all or nothing.
 * The same loader appears in both the `shell` and the `shell/podshell` packages.
 */
module Config {
  import opened Wrappers
  import opened Text

  /** One cluster profile; the fields are positional in the file. */
  datatype ClusterConfig = ClusterConfig(env: string, project: string, cluster: string, zone: string, namespace: string)
  {
    /** Every field is present (non-empty). */
    predicate Complete() {
      env != [] && project != [] && cluster != [] && zone != [] && namespace != []
    }
  }

  /** Why a load failed; a line-level error carries the trimmed offending line. */
  datatype ConfigError =
    | OpenFailed(path: string)      // "failed to open configuration file"
    | InvalidFormat(line: string)   // "invalid configuration line format: <line>"
    | MissingFields(line: string)   // "missing required fields in line: <line>"
    | ReadFailed                    // "error reading configuration file"
    | NoConfigurations              // "no valid configurations found"

  /** What the scanner delivers from an opened file: its lines, and whether it stopped on a read error. */
  datatype FileContents = FileContents(lines: seq<string>, readFailed: bool)

  /** A line that the loader passes over: blank, or a `#` comment, after trimming. */
  predicate IsSkipped(raw: string) {
    var line := TrimSpace(raw);
    line == [] || HasPrefix(line, "#")
  }

  /** The profile built from the five `|`-separated pieces of a line, each trimmed. */
  function ConfigOf(parts: seq<string>): ClusterConfig
    requires |parts| == 5
  {
    ClusterConfig(TrimSpace(parts[0]), TrimSpace(parts[1]), TrimSpace(parts[2]), TrimSpace(parts[3]), TrimSpace(parts[4]))
  }

  datatype LineResult = Skipped | Parsed(config: ClusterConfig) | Rejected(error: ConfigError)

  /** What the loader makes of one line of the file. */
  function ParseLine(raw: string): (r: LineResult)
    ensures r.Skipped? <==> IsSkipped(raw)
    ensures r.Parsed? ==> r.config.Complete()
    ensures r.Rejected? ==> (r.error.InvalidFormat? || r.error.MissingFields?) && r.error.line == TrimSpace(raw)
    ensures !IsSkipped(raw) ==> (r == Rejected(InvalidFormat(TrimSpace(raw))) <==> |Split(TrimSpace(raw), '|')| != 5)
  {
    var line := TrimSpace(raw);
    if line == [] || HasPrefix(line, "#") then Skipped
    else
      var parts := Split(line, '|');
      if |parts| != 5 then Rejected(InvalidFormat(line))
      else
        var config := ConfigOf(parts);
        if !config.Complete() then Rejected(MissingFields(line)) else Parsed(config)
  }

  /**
   * A kept line with five pieces is accepted exactly when every trimmed piece
   * is non-empty, and then its profile is those trimmed pieces; otherwise it
   * is rejected for missing fields.
   */
  lemma FivePieceLine(raw: string)
    requires !IsSkipped(raw) && |Split(TrimSpace(raw), '|')| == 5
    ensures ParseLine(raw).Parsed? <==> ConfigOf(Split(TrimSpace(raw), '|')).Complete()
    ensures ParseLine(raw).Parsed? ==> ParseLine(raw).config == ConfigOf(Split(TrimSpace(raw), '|'))
    ensures !ParseLine(raw).Parsed? ==> ParseLine(raw) == Rejected(MissingFields(TrimSpace(raw)))
  {
  }

  /** What a line contributes to the kept lines: its trimmed text, unless it is skipped. */
  function Kept(raw: string): seq<string> {
    if IsSkipped(raw) then [] else [TrimSpace(raw)]
  }

  /** The trimmed lines that are neither blank nor comments, in file order. */
  function KeptLines(lines: seq<string>): seq<string>
    decreases |lines|
  {
    if lines == [] then [] else Kept(lines[0]) + KeptLines(lines[1..])
  }

  lemma KeptLinesCons(line: string, rest: seq<string>)
    ensures KeptLines([line] + rest) == Kept(line) + KeptLines(rest)
  {
    assert ([line] + rest)[1..] == rest;
  }

  /** What the loader makes of each line, in file order. */
  function ParseAll(lines: seq<string>): (results: seq<LineResult>)
    ensures |results| == |lines|
    ensures forall i :: 0 <= i < |lines| ==> results[i] == ParseLine(lines[i])
  {
    seq(|lines|, i requires 0 <= i < |lines| => ParseLine(lines[i]))
  }

  /** Every profile has all five fields. */
  predicate AllComplete(configs: seq<ClusterConfig>) {
    forall k :: 0 <= k < |configs| ==> configs[k].Complete()
  }

  /** Line results that a scan can see: parsed lines carry complete profiles, rejections carry line errors. */
  predicate WellFormed(results: seq<LineResult>) {
    forall i :: 0 <= i < |results| ==>
      (results[i].Parsed? ==> results[i].config.Complete()) &&
      (results[i].Rejected? ==> results[i].error.InvalidFormat? || results[i].error.MissingFields?)
  }

  /**
   * The scanning loop over the line results: the profiles of all parsed
   * lines in order, or the error of the first rejected line.
   */
  function Scan(results: seq<LineResult>): (r: Result<seq<ClusterConfig>, ConfigError>)
    requires WellFormed(results)
    ensures r.Success? ==> AllComplete(r.value) && |r.value| <= |results|
    ensures r.Failure? ==> r.error.InvalidFormat? || r.error.MissingFields?
    decreases |results|
  {
    if results == [] then Success([])
    else
      var first := results[0];
      var rest := Scan(results[1..]);
      if first.Skipped? then rest
      else if first.Rejected? then Failure(first.error)
      else if rest.Failure? then rest
      else Success([first.config] + rest.value)
  }

  /** Loading an opened file: scan it, then reject a read error or an empty result. */
  function LoadContents(file: FileContents): (r: Result<seq<ClusterConfig>, ConfigError>)
    ensures r.Success? ==> !file.readFailed && r.value != [] && AllComplete(r.value)
  {
    var scanned := Scan(ParseAll(file.lines));
    if scanned.Failure? then scanned
    else if file.readFailed then Failure(ReadFailed)
    else if scanned.value == [] then Failure(NoConfigurations)
    else scanned
  }

  /** Loading the file at `path` from `disk`; a path that is not there cannot be opened. */
  function Load(disk: map<string, FileContents>, path: string): Result<seq<ClusterConfig>, ConfigError>
  {
    if path !in disk then Failure(OpenFailed(path)) else LoadContents(disk[path])
  }

  /** The profiles of `done` come before whatever the rest of the file yields. */
  function Prefixed(done: seq<ClusterConfig>, r: Result<seq<ClusterConfig>, ConfigError>): Result<seq<ClusterConfig>, ConfigError>
  {
    if r.Success? then Success(done + r.value) else r
  }

  lemma PrefixedParsed(done: seq<ClusterConfig>, config: ClusterConfig, rest: Result<seq<ClusterConfig>, ConfigError>)
    ensures Prefixed(done, if rest.Failure? then rest else Success([config] + rest.value)) == Prefixed(done + [config], rest)
  {
    if rest.Success? {
      assert done + ([config] + rest.value) == (done + [config]) + rest.value;
    }
  }

  lemma PrefixedNothing(r: Result<seq<ClusterConfig>, ConfigError>)
    ensures Prefixed([], r) == r
  {
    if r.Success? {
      assert [] + r.value == r.value;
    }
  }

  lemma PrefixedEmpty(done: seq<ClusterConfig>)
    ensures Prefixed(done, Success([])) == Success(done)
  {
    assert done + [] == done;
  }

  /** `readConfigurations`: the scanner loop with its early returns. */
  method ReadConfigurations(disk: map<string, FileContents>, path: string) returns (r: Result<seq<ClusterConfig>, ConfigError>)
    ensures r == Load(disk, path)
  {
    if path !in disk {
      return Failure(OpenFailed(path));
    }
    var file := disk[path];
    ghost var results := ParseAll(file.lines);
    var configs: seq<ClusterConfig> := [];
    var i := 0;
    assert results[i..] == results;
    PrefixedNothing(Scan(results));
    while i < |file.lines|
      invariant 0 <= i <= |file.lines|
      invariant WellFormed(results[i..])
      invariant Scan(results) == Prefixed(configs, Scan(results[i..]))
    {
      ghost var rest := Scan(results[i + 1..]);
      assert results[i..][0] == results[i] == ParseLine(file.lines[i]);
      assert results[i..][1..] == results[i + 1..];
      var line := TrimSpace(file.lines[i]);
      i := i + 1;
      if line == [] || HasPrefix(line, "#") {
        continue;
      }
      var parts := Split(line, '|');
      if |parts| != 5 {
        return Failure(InvalidFormat(line));
      }
      var config := ClusterConfig(TrimSpace(parts[0]), TrimSpace(parts[1]), TrimSpace(parts[2]), TrimSpace(parts[3]), TrimSpace(parts[4]));
      if config.env == [] || config.project == [] || config.cluster == [] || config.zone == [] || config.namespace == [] {
        return Failure(MissingFields(line));
      }
      PrefixedParsed(configs, config, rest);
      configs := configs + [config];
    }
    assert results[i..] == [];
    PrefixedEmpty(configs);
    if file.readFailed {
      return Failure(ReadFailed);
    }
    if |configs| == 0 {
      return Failure(NoConfigurations);
    }
    return Success(configs);
  }

  lemma ParseAllWellFormed(lines: seq<string>)
    ensures WellFormed(ParseAll(lines))
  {
  }

  lemma ParseAllTail(lines: seq<string>)
    requires lines != []
    ensures ParseAll(lines)[1..] == ParseAll(lines[1..])
  {
  }

  /** Parsing distributes over the lines of the file. */
  lemma ParseAllAppend(a: seq<string>, b: seq<string>)
    ensures ParseAll(a + b) == ParseAll(a) + ParseAll(b)
  {
  }

  /** A skipped result contributes nothing to the scan. */
  lemma {:induction false} ScanIgnoresSkipped(pre: seq<LineResult>, post: seq<LineResult>)
    requires WellFormed(pre + post) && WellFormed(pre + [Skipped] + post)
    ensures Scan(pre + [Skipped] + post) == Scan(pre + post)
    decreases |pre|
  {
    if pre == [] {
      assert pre + [Skipped] + post == [Skipped] + post && pre + post == post;
      assert ([Skipped] + post)[1..] == post;
    } else {
      assert (pre + [Skipped] + post)[0] == pre[0] && (pre + post)[0] == pre[0];
      assert (pre + [Skipped] + post)[1..] == pre[1..] + [Skipped] + post;
      assert (pre + post)[1..] == pre[1..] + post;
      ScanIgnoresSkipped(pre[1..], post);
    }
  }

  lemma {:induction false} KeptLinesIgnoresSkipped(pre: seq<string>, line: string, post: seq<string>)
    requires IsSkipped(line)
    ensures KeptLines(pre + [line] + post) == KeptLines(pre + post)
    decreases |pre|
  {
    if pre == [] {
      assert pre + [line] + post == [line] + post && pre + post == post;
      KeptLinesCons(line, post);
      assert [] + KeptLines(post) == KeptLines(post);
    } else {
      var x := pre[0];
      assert pre + [line] + post == [x] + (pre[1..] + [line] + post);
      assert pre + post == [x] + (pre[1..] + post);
      KeptLinesCons(x, pre[1..] + [line] + post);
      KeptLinesCons(x, pre[1..] + post);
      KeptLinesIgnoresSkipped(pre[1..], line, post);
    }
  }

  /** A blank or comment line changes nothing: no profile and no error. */
  lemma SkippedLineIgnored(pre: seq<string>, line: string, post: seq<string>, readFailed: bool)
    requires IsSkipped(line)
    ensures LoadContents(FileContents(pre + [line] + post, readFailed)) == LoadContents(FileContents(pre + post, readFailed))
    ensures KeptLines(pre + [line] + post) == KeptLines(pre + post)
  {
    ParseAllAppend(pre + [line], post);
    ParseAllAppend(pre, [line]);
    ParseAllAppend(pre, post);
    ParseAllWellFormed(pre + [line] + post);
    ParseAllWellFormed(pre + post);
    assert ParseAll([line]) == [Skipped];
    ScanIgnoresSkipped(ParseAll(pre), ParseAll(post));
    KeptLinesIgnoresSkipped(pre, line, post);
  }

  lemma {:induction false} ScanStopsAtFirstRejected(results: seq<LineResult>, i: nat)
    requires WellFormed(results)
    requires i < |results| && results[i].Rejected?
    requires forall j :: 0 <= j < i ==> !results[j].Rejected?
    ensures Scan(results) == Failure(results[i].error)
    decreases i
  {
    if i > 0 {
      assert results[1..][i - 1] == results[i];
      ScanStopsAtFirstRejected(results[1..], i - 1);
    }
  }

  /**
   * The first line that is malformed (wrong field count) or incomplete (an
   * empty field) decides the whole load: it fails with that line's error.
   */
  lemma FirstRejectedLineFailsLoad(lines: seq<string>, i: nat, readFailed: bool)
    requires i < |lines| && ParseLine(lines[i]).Rejected?
    requires forall j :: 0 <= j < i ==> !ParseLine(lines[j]).Rejected?
    ensures LoadContents(FileContents(lines, readFailed)) == Failure(ParseLine(lines[i]).error)
  {
    ParseAllWellFormed(lines);
    ScanStopsAtFirstRejected(ParseAll(lines), i);
  }

  /** The scan succeeds exactly when no line result is a rejection. */
  lemma {:induction false} ScanSucceedsIff(results: seq<LineResult>)
    requires WellFormed(results)
    ensures Scan(results).Success? <==> forall j :: 0 <= j < |results| ==> !results[j].Rejected?
    decreases |results|
  {
    if results != [] {
      ScanSucceedsIff(results[1..]);
      assert forall j :: 0 < j < |results| ==> results[j] == results[1..][j - 1];
    }
  }

  /** A single bad line anywhere fails the whole load with a line error: no partial success. */
  lemma AnyRejectedLineFailsLoad(lines: seq<string>, i: nat, readFailed: bool)
    requires i < |lines| && ParseLine(lines[i]).Rejected?
    ensures LoadContents(FileContents(lines, readFailed)).Failure?
    ensures LoadContents(FileContents(lines, readFailed)).error.InvalidFormat?
         || LoadContents(FileContents(lines, readFailed)).error.MissingFields?
  {
    ParseAllWellFormed(lines);
    ScanSucceedsIff(ParseAll(lines));
  }

  /** The profile a well-formed line describes: its five `|`-separated pieces, each trimmed. */
  function ProfileOf(line: string): ClusterConfig {
    var parts := Split(line, '|');
    if |parts| == 5 then ConfigOf(parts) else ClusterConfig([], [], [], [], [])
  }

  /** The profiles of the given lines, in order. */
  function Profiles(lines: seq<string>): (cs: seq<ClusterConfig>)
    ensures |cs| == |lines|
    decreases |lines|
  {
    if lines == [] then [] else [ProfileOf(lines[0])] + Profiles(lines[1..])
  }

  lemma ProfilesCons(line: string, lines: seq<string>)
    ensures Profiles([line] + lines) == [ProfileOf(line)] + Profiles(lines)
  {
    assert ([line] + lines)[1..] == lines;
  }

  /** An accepted line is a kept line with five pieces, and its profile is the one the line describes. */
  lemma ParsedLine(raw: string)
    requires ParseLine(raw).Parsed?
    ensures !IsSkipped(raw) && |Split(TrimSpace(raw), '|')| == 5
    ensures ParseLine(raw).config == ProfileOf(TrimSpace(raw))
  {
  }

  lemma {:induction false} ScanShape(lines: seq<string>)
    requires Scan(ParseAll(lines)).Success?
    ensures Scan(ParseAll(lines)).value == Profiles(KeptLines(lines))
    decreases |lines|
  {
    if lines != [] {
      var results := ParseAll(lines);
      ParseAllTail(lines);
      var first := results[0];
      var kept := KeptLines(lines[1..]);
      ScanShape(lines[1..]);
      if !first.Skipped? {
        ParsedLine(lines[0]);
        assert KeptLines(lines) == [TrimSpace(lines[0])] + kept;
        ProfilesCons(TrimSpace(lines[0]), kept);
      } else {
        assert [] + kept == kept;
      }
    }
  }

  /**
   * A successful load yields exactly one profile per kept line, in file order,
   * each being the trimmed pieces of that line.
   */
  lemma LoadSuccessShape(lines: seq<string>, readFailed: bool, configs: seq<ClusterConfig>)
    requires LoadContents(FileContents(lines, readFailed)) == Success(configs)
    ensures !readFailed && configs != [] && configs == Profiles(KeptLines(lines))
  {
    ScanShape(lines);
  }

  lemma {:induction false} KeptLinesOfRejected(lines: seq<string>)
    requires Scan(ParseAll(lines)).Failure?
    ensures KeptLines(lines) != []
    decreases |lines|
  {
    ParseAllTail(lines);
    if IsSkipped(lines[0]) {
      KeptLinesOfRejected(lines[1..]);
    }
  }

  /** A line the loader accepts or skips: a kept line has five pieces, each non-empty after trimming. */
  predicate GoodLine(raw: string) {
    !IsSkipped(raw) ==> |Split(TrimSpace(raw), '|')| == 5 && ProfileOf(TrimSpace(raw)).Complete()
  }

  /**
   * A readable file whose kept lines are all well formed, and which has at
   * least one, loads exactly one profile per kept line, in file order; the
   * same file with a read error fails with `ReadFailed`.
   */
  lemma WellFormedFileLoads(lines: seq<string>)
    requires forall i :: 0 <= i < |lines| ==> GoodLine(lines[i])
    requires KeptLines(lines) != []
    ensures LoadContents(FileContents(lines, false)) == Success(Profiles(KeptLines(lines)))
    ensures LoadContents(FileContents(lines, true)) == Failure(ReadFailed)
  {
    var results := ParseAll(lines);
    ParseAllWellFormed(lines);
    forall j | 0 <= j < |results| ensures !results[j].Rejected? {
      if !IsSkipped(lines[j]) {
        FivePieceLine(lines[j]);
      }
    }
    ScanSucceedsIff(results);
    ScanShape(lines);
  }

  /** A readable file fails with `NoConfigurations` exactly when it holds only blank and comment lines. */
  lemma NoConfigurationsIff(lines: seq<string>)
    ensures LoadContents(FileContents(lines, false)) == Failure(NoConfigurations) <==> KeptLines(lines) == []
  {
    if Scan(ParseAll(lines)).Success? {
      ScanShape(lines);
    } else {
      KeptLinesOfRejected(lines);
    }
  }
}
