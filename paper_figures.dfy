/**
  The hypothesis-driven figure generator (scripts/analysis/08_generate_paper_figures.py):
  the command line it assembles for the connectivity plotter from a hypothesis and the
  configuration's defaults, the validation of a hypothesis, the summary's split of the
  results, and the exit code of `main`.

  A YAML mapping is a record whose optional keys are `Option`s; a threshold or node size
  enters as the text `str()` gives it. File existence and the plotter's exit code are
  functions of an `Env`.
 */
module PaperFigures {
  import opened Wrappers
  import opened Text

  datatype Visualization = Visualization(
    output: Option<string>,
    sourceRegions: Option<seq<string>>,
    targetRegions: Option<seq<string>>,
    connectionType: Option<string>,
    ppThreshold: Option<string>,
    strengthThreshold: Option<string>,
    edgeThreshold: Option<string>,
    nodeSize: Option<string>,
    edgeCmap: Option<string>,
    displayMode: Option<string>,
    title: Option<string>,
    colorbarLabel: Option<string>,
    subtitle: Option<string>,
    colorbar: Option<bool>)

  /** The `defaults` mapping; a configuration without one has every key missing. */
  datatype Defaults = Defaults(
    ppThreshold: Option<string>,
    strengthThreshold: Option<string>,
    edgeThreshold: Option<string>,
    nodeSize: Option<string>,
    colorbarLabel: Option<string>,
    colorbar: Option<bool>)

  datatype Hypothesis = Hypothesis(
    id: Option<string>,
    name: Option<string>,
    matFile: Option<string>,
    visualization: Option<Visualization>)

  datatype Config = Config(dataDir: string, outputDir: string, defaults: Defaults, hypotheses: seq<Hypothesis>)

  /** A dictionary lookup of a missing key. */
  datatype KeyError = KeyError(key: string)

  /** `os.path.join(a, b)` on POSIX paths. */
  function PathJoin(a: string, b: string): (p: string)
    ensures StartsWith(b, "/") ==> p == b
    ensures !StartsWith(b, "/") ==> EndsWith(p, b) && StartsWith(p, a)
  {
    if StartsWith(b, "/") then b
    else if a == "" || EndsWith(a, "/") then a + b
    else a + "/" + b
  }

  /** Lines 30-33. */
  function MatFilePath(cfg: Config, matFile: string): string {
    PathJoin(cfg.dataDir, matFile)
  }

  // ----- the command line, as options -----

  /** The plotter's command-line flags that the generator emits. */
  datatype Flag =
    | MatFiles | Conditions | Output
    | SourceRegions | TargetRegions | ConnectionType
    | PpThreshold | StrengthThreshold | EdgeThreshold | NodeSize | EdgeCmap | DisplayMode
    | Title | ColorbarLabel | Subtitle | Colorbar | NoColorbar

  function FlagText(f: Flag): string {
    match f
    case MatFiles => "--mat-files"
    case Conditions => "--conditions"
    case Output => "--output"
    case SourceRegions => "--source-regions"
    case TargetRegions => "--target-regions"
    case ConnectionType => "--connection-type"
    case PpThreshold => "--pp-threshold"
    case StrengthThreshold => "--strength-threshold"
    case EdgeThreshold => "--edge-threshold"
    case NodeSize => "--node-size"
    case EdgeCmap => "--edge-cmap"
    case DisplayMode => "--display-mode"
    case Title => "--title"
    case ColorbarLabel => "--colorbar-label"
    case Subtitle => "--subtitle"
    case Colorbar => "--colorbar"
    case NoColorbar => "--no-colorbar"
  }

  /** One option of the command line: a flag and the values that follow it. */
  datatype Opt = Opt(flag: Flag, values: seq<string>)

  /** The tokens of a list of options. */
  function Flatten(opts: seq<Opt>): seq<string> {
    if |opts| == 0 then [] else [FlagText(opts[0].flag)] + opts[0].values + Flatten(opts[1..])
  }

  /** The flags that occur in a list of options. */
  function Flags(opts: seq<Opt>): set<Flag> {
    if |opts| == 0 then {} else {opts[0].flag} + Flags(opts[1..])
  }

  lemma {:induction false} FlagsAppend(a: seq<Opt>, b: seq<Opt>)
    ensures Flags(a + b) == Flags(a) + Flags(b)
    decreases |a|
  {
    if |a| == 0 {
      assert a + b == b;
    } else {
      assert (a + b)[1..] == a[1..] + b;
      FlagsAppend(a[1..], b);
    }
  }

  lemma {:induction false} FlagsWithin(opts: seq<Opt>, p: nat)
    requires forall k | 0 <= k < |opts| :: Part(opts[k].flag) == p
    ensures AllIn(opts, p)
    decreases |opts|
  {
    if |opts| > 0 {
      FlagsWithin(opts[1..], p);
    }
  }

  /** A list of strings is present when it is non-empty, as Python's truth test reads it. */
  predicate NonEmpty<T>(x: Option<seq<T>>) {
    x.Some? && |x.value| > 0
  }

  /** `viz.get(key, defaults.get(key, fallback))`. */
  function Effective<T>(fromViz: Option<T>, fromDefaults: Option<T>, fallback: T): (v: T)
    ensures fromViz.Some? ==> v == fromViz.value
    ensures fromViz.None? && fromDefaults.Some? ==> v == fromDefaults.value
    ensures fromViz.None? && fromDefaults.None? ==> v == fallback
  {
    fromViz.GetOr(fromDefaults.GetOr(fallback))
  }

  /** An option that is emitted only when its value is present and non-empty. */
  function OptionalOpt(flag: Flag, x: Option<seq<string>>): (r: seq<Opt>)
    ensures Flags(r) <= {flag}
  {
    if NonEmpty(x) then [Opt(flag, x.value)] else []
  }

  /** An option with a single value, emitted only when the value is a non-empty string. */
  function OptionalText(flag: Flag, x: Option<string>): (r: seq<Opt>)
    ensures Flags(r) <= {flag}
  {
    if x.Some? && x.value != "" then [Opt(flag, [x.value])] else []
  }

  function ColorbarOn(v: Visualization, d: Defaults): bool {
    Effective(v.colorbar, d.colorbar, true)
  }

  /**
    The part of the command each flag belongs to: the required options, the region
    options, the style options, the text options and the colour-bar switch.
   */
  function Part(f: Flag): nat {
    match f
    case MatFiles | Conditions | Output => 0
    case SourceRegions | TargetRegions | ConnectionType => 1
    case PpThreshold | StrengthThreshold | EdgeThreshold | NodeSize | EdgeCmap | DisplayMode => 2
    case Title | ColorbarLabel | Subtitle => 3
    case Colorbar | NoColorbar => 4
  }

  /** Every flag of `opts` belongs to part `p`. */
  predicate AllIn(opts: seq<Opt>, p: nat) {
    forall f | f in Flags(opts) :: Part(f) == p
  }

  /** Lines 54-56: the MAT file, the condition name and the output file. */
  function RequiredOpts(matPath: string, name: string, outPath: string): (r: seq<Opt>)
    ensures AllIn(r, 0)
  {
    var r := [Opt(MatFiles, [matPath]), Opt(Conditions, [name]), Opt(Output, [outPath])];
    FlagsWithin(r, 0);
    r
  }

  /** Lines 58-70: the region lists and the connection type, each only when given. */
  function RegionOpts(v: Visualization): (r: seq<Opt>)
    ensures AllIn(r, 1)
  {
    var src := OptionalOpt(SourceRegions, v.sourceRegions);
    var tgt := OptionalOpt(TargetRegions, v.targetRegions);
    FlagsAppend(src, tgt);
    FlagsAppend(src + tgt, OptionalText(ConnectionType, v.connectionType));
    src + tgt + OptionalText(ConnectionType, v.connectionType)
  }

  /** Lines 72-90: the thresholds, the node size, the colour map and the display mode. */
  function StyleOpts(d: Defaults, v: Visualization): (r: seq<Opt>)
    ensures AllIn(r, 2)
  {
    var r := [Opt(PpThreshold, [Effective(v.ppThreshold, d.ppThreshold, "0.99")]),
              Opt(StrengthThreshold, [Effective(v.strengthThreshold, d.strengthThreshold, "0.0")]),
              Opt(EdgeThreshold, [Effective(v.edgeThreshold, d.edgeThreshold, "90%")]),
              Opt(NodeSize, [Effective(v.nodeSize, d.nodeSize, "50")]),
              Opt(EdgeCmap, [v.edgeCmap.GetOr("coolwarm")]),
              Opt(DisplayMode, [v.displayMode.GetOr("lyrz")])];
    FlagsWithin(r, 2);
    r
  }

  /** Lines 92-102: the title when given, the colour-bar label, the subtitle when given. */
  function TextOpts(d: Defaults, v: Visualization): (r: seq<Opt>)
    ensures AllIn(r, 3)
  {
    var title := OptionalText(Title, v.title);
    var labelOpt := [Opt(ColorbarLabel, [Effective(v.colorbarLabel, d.colorbarLabel, "Connection Strength (Ep)")])];
    FlagsAppend(title, labelOpt);
    FlagsAppend(title + labelOpt, OptionalText(Subtitle, v.subtitle));
    title + labelOpt + OptionalText(Subtitle, v.subtitle)
  }

  /** Lines 104-108. */
  function ColorbarOpt(d: Defaults, v: Visualization): Opt {
    if ColorbarOn(v, d) then Opt(Colorbar, []) else Opt(NoColorbar, [])
  }

  /**
    Lines 54-108 after the look-ups: the options in the order they are appended, given the
    visualization mapping `v`, the paths and the condition name.
   */
  function Options(d: Defaults, v: Visualization, matPath: string, name: string, outPath: string): seq<Opt> {
    RequiredOpts(matPath, name, outPath) + RegionOpts(v) + StyleOpts(d, v) + TextOpts(d, v) + [ColorbarOpt(d, v)]
  }

  /** The interpreter and script every command starts with. */
  const Launcher: seq<string> := ["python", "scripts/visualization/plot_nilearn_connectivity.py"]

  /**
    Lines 36-110: the command for hypothesis `h`, or the first key the source looks up and
    does not find (`visualization`, then `mat_file`, then `output`, then `name`).
   */
  function CommandFor(cfg: Config, h: Hypothesis): Result<seq<string>, KeyError> {
    if h.visualization.None? then Err(KeyError("visualization"))
    else if h.matFile.None? then Err(KeyError("mat_file"))
    else if h.visualization.value.output.None? then Err(KeyError("output"))
    else if h.name.None? then Err(KeyError("name"))
    else
      var v := h.visualization.value;
      Ok(Launcher + Flatten(Options(cfg.defaults, v, MatFilePath(cfg, h.matFile.value), h.name.value,
                                    PathJoin(cfg.outputDir, v.output.value))))
  }

  lemma {:induction false} FlattenAppend(a: seq<Opt>, b: seq<Opt>)
    ensures Flatten(a + b) == Flatten(a) + Flatten(b)
    decreases |a|
  {
    if |a| == 0 {
      assert a + b == b;
    } else {
      assert (a + b)[1..] == a[1..] + b;
      FlattenAppend(a[1..], b);
    }
  }

  /** Appends one option to the command, as `cmd.append(flag)` and `cmd.extend(values)` do. */
  method Extend(cmd: seq<string>, ghost opts: seq<Opt>, flag: Flag, values: seq<string>)
    returns (cmd': seq<string>, ghost opts': seq<Opt>)
    requires cmd == Launcher + Flatten(opts)
    ensures opts' == opts + [Opt(flag, values)]
    ensures cmd' == Launcher + Flatten(opts')
  {
    cmd' := cmd + [FlagText(flag)] + values;
    opts' := opts + [Opt(flag, values)];
    FlattenAppend(opts, [Opt(flag, values)]);
    assert Flatten([Opt(flag, values)]) == [FlagText(flag)] + values + Flatten([]);
  }

  /** Appends a list option when its value is present and non-empty (lines 59-66). */
  method ExtendIfGiven(cmd: seq<string>, ghost opts: seq<Opt>, flag: Flag, x: Option<seq<string>>)
    returns (cmd': seq<string>, ghost opts': seq<Opt>)
    requires cmd == Launcher + Flatten(opts)
    ensures opts' == opts + OptionalOpt(flag, x)
    ensures cmd' == Launcher + Flatten(opts')
  {
    if NonEmpty(x) {
      cmd', opts' := Extend(cmd, opts, flag, x.value);
    } else {
      cmd', opts' := cmd, opts;
      assert opts + [] == opts;
    }
  }

  /** Appends a text option when its value is a non-empty string (lines 69, 93, 101). */
  method ExtendIfText(cmd: seq<string>, ghost opts: seq<Opt>, flag: Flag, x: Option<string>)
    returns (cmd': seq<string>, ghost opts': seq<Opt>)
    requires cmd == Launcher + Flatten(opts)
    ensures opts' == opts + OptionalText(flag, x)
    ensures cmd' == Launcher + Flatten(opts')
  {
    if x.Some? && x.value != "" {
      cmd', opts' := Extend(cmd, opts, flag, [x.value]);
    } else {
      cmd', opts' := cmd, opts;
      assert opts + [] == opts;
    }
  }

  /** Lines 58-70: the region lists and the connection type, each when given. */
  method ExtendRegions(cmd: seq<string>, ghost opts: seq<Opt>, v: Visualization)
    returns (cmd': seq<string>, ghost opts': seq<Opt>)
    requires cmd == Launcher + Flatten(opts)
    ensures opts' == opts + RegionOpts(v)
    ensures cmd' == Launcher + Flatten(opts')
  {
    cmd', opts' := ExtendIfGiven(cmd, opts, SourceRegions, v.sourceRegions);
    cmd', opts' := ExtendIfGiven(cmd', opts', TargetRegions, v.targetRegions);
    cmd', opts' := ExtendIfText(cmd', opts', ConnectionType, v.connectionType);
    assert opts' == opts + RegionOpts(v);
  }

  /** Lines 72-90: the thresholds, the node size, the colour map and the display mode. */
  method ExtendStyle(cmd: seq<string>, ghost opts: seq<Opt>, d: Defaults, v: Visualization)
    returns (cmd': seq<string>, ghost opts': seq<Opt>)
    requires cmd == Launcher + Flatten(opts)
    ensures opts' == opts + StyleOpts(d, v)
    ensures cmd' == Launcher + Flatten(opts')
  {
    cmd', opts' := Extend(cmd, opts, PpThreshold, [Effective(v.ppThreshold, d.ppThreshold, "0.99")]);
    cmd', opts' := Extend(cmd', opts', StrengthThreshold, [Effective(v.strengthThreshold, d.strengthThreshold, "0.0")]);
    cmd', opts' := Extend(cmd', opts', EdgeThreshold, [Effective(v.edgeThreshold, d.edgeThreshold, "90%")]);
    cmd', opts' := Extend(cmd', opts', NodeSize, [Effective(v.nodeSize, d.nodeSize, "50")]);
    cmd', opts' := Extend(cmd', opts', EdgeCmap, [v.edgeCmap.GetOr("coolwarm")]);
    cmd', opts' := Extend(cmd', opts', DisplayMode, [v.displayMode.GetOr("lyrz")]);
    assert opts' == opts + StyleOpts(d, v);
  }

  /** Lines 92-102: the title when given, the colour-bar label, the subtitle when given. */
  method ExtendText(cmd: seq<string>, ghost opts: seq<Opt>, d: Defaults, v: Visualization)
    returns (cmd': seq<string>, ghost opts': seq<Opt>)
    requires cmd == Launcher + Flatten(opts)
    ensures opts' == opts + TextOpts(d, v)
    ensures cmd' == Launcher + Flatten(opts')
  {
    cmd', opts' := ExtendIfText(cmd, opts, Title, v.title);
    cmd', opts' := Extend(cmd', opts', ColorbarLabel,
                          [Effective(v.colorbarLabel, d.colorbarLabel, "Connection Strength (Ep)")]);
    cmd', opts' := ExtendIfText(cmd', opts', Subtitle, v.subtitle);
    assert opts' == opts + TextOpts(d, v);
  }

  /** Lines 36-110, appending to `cmd` step by step. */
  method BuildVisualizationCommand(cfg: Config, h: Hypothesis) returns (r: Result<seq<string>, KeyError>)
    ensures r == CommandFor(cfg, h)
  {
    var d := cfg.defaults;
    if h.visualization.None? {
      return Err(KeyError("visualization"));
    }
    var v := h.visualization.value;
    if h.matFile.None? {
      return Err(KeyError("mat_file"));
    }
    var matFile := MatFilePath(cfg, h.matFile.value);
    if v.output.None? {
      return Err(KeyError("output"));
    }
    var outputFile := PathJoin(cfg.outputDir, v.output.value);
    if h.name.None? {
      return Err(KeyError("name"));
    }
    var cmd := Launcher;
    ghost var opts: seq<Opt> := [];
    assert cmd == Launcher + Flatten(opts);
    cmd, opts := Extend(cmd, opts, MatFiles, [matFile]);
    cmd, opts := Extend(cmd, opts, Conditions, [h.name.value]);
    cmd, opts := Extend(cmd, opts, Output, [outputFile]);
    assert opts == RequiredOpts(matFile, h.name.value, outputFile);
    cmd, opts := ExtendRegions(cmd, opts, v);
    cmd, opts := ExtendStyle(cmd, opts, d, v);
    cmd, opts := ExtendText(cmd, opts, d, v);
    var colorbarFlag := if ColorbarOn(v, d) then Colorbar else NoColorbar;
    cmd, opts := Extend(cmd, opts, colorbarFlag, []);
    return Ok(cmd);
  }

  // ----- reading the command back -----

  predicate IsFlag(t: string) {
    StartsWith(t, "--")
  }

  lemma FlagTextIsFlag(f: Flag)
    ensures IsFlag(FlagText(f)) && |FlagText(f)| > 2
  {
  }

  /** No value looks like a flag, so the tokens can be split back. */
  predicate Readable(opts: seq<Opt>) {
    forall k | 0 <= k < |opts| :: forall t | t in opts[k].values :: !IsFlag(t)
  }

  /** The options as a parser sees them: flag text and values. */
  function Raw(opts: seq<Opt>): (r: seq<(string, seq<string>)>)
    ensures |r| == |opts|
  {
    if |opts| == 0 then [] else [(FlagText(opts[0].flag), opts[0].values)] + Raw(opts[1..])
  }

  /** The end of the run of values starting at `i`: the next flag, or the end. */
  function ValuesEnd(tokens: seq<string>, i: nat): (e: nat)
    requires i <= |tokens|
    ensures i <= e <= |tokens|
    decreases |tokens| - i
  {
    if i < |tokens| && !IsFlag(tokens[i]) then ValuesEnd(tokens, i + 1) else i
  }

  /** The options a command-line parser reads from `tokens`: a flag, then its values. */
  function Parse(tokens: seq<string>): seq<(string, seq<string>)>
    decreases |tokens|
  {
    if |tokens| == 0 then []
    else
      var e := ValuesEnd(tokens, 1);
      [(tokens[0], tokens[1..e])] + Parse(tokens[e..])
  }

  lemma {:induction false} ValuesEndSkips(values: seq<string>, rest: seq<string>, i: nat)
    requires i <= |values|
    requires forall t | t in values :: !IsFlag(t)
    requires |rest| > 0 ==> IsFlag(rest[0])
    ensures ValuesEnd(values + rest, i) == |values|
    decreases |values| - i
  {
    var tokens := values + rest;
    if i < |values| {
      assert tokens[i] == values[i] && values[i] in values;
      ValuesEndSkips(values, rest, i + 1);
    } else if |rest| > 0 {
      assert tokens[i] == rest[0];
    }
  }

  lemma {:induction false} ValuesEndShift(f: string, tokens: seq<string>, i: nat)
    requires i <= |tokens|
    ensures ValuesEnd([f] + tokens, i + 1) == ValuesEnd(tokens, i) + 1
    decreases |tokens| - i
  {
    if i < |tokens| {
      assert ([f] + tokens)[i + 1] == tokens[i];
      if !IsFlag(tokens[i]) {
        ValuesEndShift(f, tokens, i + 1);
      }
    }
  }

  /** Parsing the flattened options gives back each flag with its values. */
  lemma {:induction false} ParseFlatten(opts: seq<Opt>)
    requires Readable(opts)
    ensures Parse(Flatten(opts)) == Raw(opts)
    decreases |opts|
  {
    if |opts| > 0 {
      var o := opts[0];
      var rest := Flatten(opts[1..]);
      var tokens := Flatten(opts);
      assert Readable(opts[1..]) by {
        forall k | 0 <= k < |opts[1..]| ensures forall t | t in opts[1..][k].values :: !IsFlag(t) {
          assert opts[1..][k] == opts[k + 1];
        }
      }
      if |opts[1..]| > 0 {
        assert rest[0] == FlagText(opts[1..][0].flag);
        FlagTextIsFlag(opts[1..][0].flag);
      }
      assert forall t | t in o.values :: !IsFlag(t) by {
        assert o == opts[0];
      }
      assert tokens == [FlagText(o.flag)] + (o.values + rest);
      ValuesEndSkips(o.values, rest, 0);
      assert ValuesEnd(tokens, 1) == 1 + |o.values| by {
        ValuesEndShift(FlagText(o.flag), o.values + rest, 0);
      }
      assert tokens[1..1 + |o.values|] == o.values;
      assert tokens[1 + |o.values|..] == rest;
      ParseFlatten(opts[1..]);
    }
  }

  /** The values of the first option with flag `flag`. */
  function Lookup(opts: seq<Opt>, flag: Flag): Option<seq<string>> {
    if |opts| == 0 then None
    else if opts[0].flag == flag then Some(opts[0].values)
    else Lookup(opts[1..], flag)
  }

  lemma {:induction false} LookupAppend(a: seq<Opt>, b: seq<Opt>, flag: Flag)
    ensures Lookup(a + b, flag) == if Lookup(a, flag).Some? then Lookup(a, flag) else Lookup(b, flag)
    decreases |a|
  {
    if |a| == 0 {
      assert a + b == b;
    } else {
      assert (a + b)[1..] == a[1..] + b;
      LookupAppend(a[1..], b, flag);
    }
  }

  lemma {:induction false} NotListed(opts: seq<Opt>, flag: Flag)
    requires flag !in Flags(opts)
    ensures Lookup(opts, flag) == None
    decreases |opts|
  {
    if |opts| > 0 {
      assert opts[0] in opts;
      assert opts == [opts[0]] + opts[1..];
      FlagsAppend([opts[0]], opts[1..]);
      NotListed(opts[1..], flag);
    }
  }

  /** Looking a flag up in `a + b + c` when `a` and `c` do not carry it. */
  lemma Between(a: seq<Opt>, b: seq<Opt>, c: seq<Opt>, flag: Flag)
    requires flag !in Flags(a) && flag !in Flags(c)
    ensures Lookup(a + b + c, flag) == Lookup(b, flag)
  {
    NotListed(a, flag);
    NotListed(c, flag);
    LookupAppend(a + b, c, flag);
    LookupAppend(a, b, flag);
  }

  /** The first option with flag `flag` sits at index `k`. */
  lemma {:induction false} LookupAt(opts: seq<Opt>, k: nat, flag: Flag)
    requires k < |opts| && opts[k].flag == flag
    requires forall j | 0 <= j < k :: opts[j].flag != flag
    ensures Lookup(opts, flag) == Some(opts[k].values)
    decreases k
  {
    if k > 0 {
      LookupAt(opts[1..], k - 1, flag);
    }
  }

  /** The parts of the options and the flags each part may carry. */
  predicate Parted(h: seq<Opt>, r: seq<Opt>, s: seq<Opt>, t: seq<Opt>, c: Opt) {
    AllIn(h, 0) && AllIn(r, 1) && AllIn(s, 2) && AllIn(t, 3) && Part(c.flag) == 4
  }

  /** A flag found in `a`, or not found in `b`, is looked up in `a` alone. */
  lemma Skip(a: seq<Opt>, b: seq<Opt>, flag: Flag)
    requires Lookup(a, flag).Some? || Lookup(b, flag).None?
    ensures Lookup(a + b, flag) == Lookup(a, flag)
  {
    LookupAppend(a, b, flag);
  }

  /** A flag not found in `a` is looked up in `b`. */
  lemma Past(a: seq<Opt>, b: seq<Opt>, flag: Flag)
    requires Lookup(a, flag).None?
    ensures Lookup(a + b, flag) == Lookup(b, flag)
  {
    LookupAppend(a, b, flag);
  }

  lemma InRegions(h: seq<Opt>, r: seq<Opt>, s: seq<Opt>, t: seq<Opt>, c: Opt, flag: Flag)
    requires Parted(h, r, s, t, c) && Part(flag) == 1
    ensures Lookup(h + r + s + t + [c], flag) == Lookup(r, flag)
  {
    NotListed(h, flag);
    NotListed(s, flag);
    NotListed(t, flag);
    NotListed([c], flag);
    Past(h, r, flag);
    Skip(h + r, s, flag);
    Skip(h + r + s, t, flag);
    Skip(h + r + s + t, [c], flag);
  }

  lemma InStyle(h: seq<Opt>, r: seq<Opt>, s: seq<Opt>, t: seq<Opt>, c: Opt, flag: Flag)
    requires Parted(h, r, s, t, c) && Part(flag) == 2
    ensures Lookup(h + r + s + t + [c], flag) == Lookup(s, flag)
  {
    NotListed(h, flag);
    NotListed(r, flag);
    NotListed(t, flag);
    NotListed([c], flag);
    Past(h, r, flag);
    Past(h + r, s, flag);
    Skip(h + r + s, t, flag);
    Skip(h + r + s + t, [c], flag);
  }

  lemma InText(h: seq<Opt>, r: seq<Opt>, s: seq<Opt>, t: seq<Opt>, c: Opt, flag: Flag)
    requires Parted(h, r, s, t, c) && Part(flag) == 3
    ensures Lookup(h + r + s + t + [c], flag) == Lookup(t, flag)
  {
    NotListed(h, flag);
    NotListed(r, flag);
    NotListed(s, flag);
    NotListed([c], flag);
    Past(h, r, flag);
    Past(h + r, s, flag);
    Past(h + r + s, t, flag);
    Skip(h + r + s + t, [c], flag);
  }

  lemma InLast(h: seq<Opt>, r: seq<Opt>, s: seq<Opt>, t: seq<Opt>, c: Opt, flag: Flag)
    requires Parted(h, r, s, t, c) && Part(flag) == 4
    ensures Lookup(h + r + s + t + [c], flag) == Lookup([c], flag)
  {
    NotListed(h, flag);
    NotListed(r, flag);
    NotListed(s, flag);
    NotListed(t, flag);
    Past(h, r, flag);
    Past(h + r, s, flag);
    Past(h + r + s, t, flag);
    Past(h + r + s + t, [c], flag);
  }

  /** The five parts of the generator's options hold the flags of their own group only. */
  lemma OptionsParted(d: Defaults, v: Visualization, matPath: string, name: string, outPath: string)
    ensures Parted(RequiredOpts(matPath, name, outPath), RegionOpts(v), StyleOpts(d, v), TextOpts(d, v), ColorbarOpt(d, v))
  {
    var h, r, s, t, c := RequiredOpts(matPath, name, outPath), RegionOpts(v), StyleOpts(d, v), TextOpts(d, v), ColorbarOpt(d, v);
    assert AllIn(h, 0) && AllIn(r, 1) && AllIn(s, 2) && AllIn(t, 3);
  }

  /** Each flag of the generator's options is looked up in the part it belongs to. */
  lemma InOptions(d: Defaults, v: Visualization, matPath: string, name: string, outPath: string, flag: Flag)
    ensures Part(flag) == 1 ==> Lookup(Options(d, v, matPath, name, outPath), flag) == Lookup(RegionOpts(v), flag)
    ensures Part(flag) == 2 ==> Lookup(Options(d, v, matPath, name, outPath), flag) == Lookup(StyleOpts(d, v), flag)
    ensures Part(flag) == 3 ==> Lookup(Options(d, v, matPath, name, outPath), flag) == Lookup(TextOpts(d, v), flag)
    ensures Part(flag) == 4 ==> Lookup(Options(d, v, matPath, name, outPath), flag) == Lookup([ColorbarOpt(d, v)], flag)
  {
    var h := RequiredOpts(matPath, name, outPath);
    var r := RegionOpts(v);
    var s := StyleOpts(d, v);
    var t := TextOpts(d, v);
    var c := ColorbarOpt(d, v);
    OptionsParted(d, v, matPath, name, outPath);
    if Part(flag) == 1 {
      InRegions(h, r, s, t, c, flag);
    } else if Part(flag) == 2 {
      InStyle(h, r, s, t, c, flag);
    } else if Part(flag) == 3 {
      InText(h, r, s, t, c, flag);
    } else if Part(flag) == 4 {
      InLast(h, r, s, t, c, flag);
    }
  }

  // ----- what the plotter receives -----

  /**
    Lines 54-70: the command starts with the MAT file under the data directory, the
    condition name and the output under the output directory; the region lists appear
    exactly when present and non-empty, with their regions in order, and the connection
    type exactly when it is a non-empty string.
   */
  lemma RequiredAndRegions(d: Defaults, v: Visualization, matPath: string, name: string, outPath: string)
    ensures var opts := Options(d, v, matPath, name, outPath);
      && opts[..3] == [Opt(MatFiles, [matPath]), Opt(Conditions, [name]), Opt(Output, [outPath])]
      && Lookup(opts, SourceRegions) == (if NonEmpty(v.sourceRegions) then v.sourceRegions else None)
      && Lookup(opts, TargetRegions) == (if NonEmpty(v.targetRegions) then v.targetRegions else None)
      && Lookup(opts, ConnectionType) ==
           (if v.connectionType.Some? && v.connectionType.value != "" then Some([v.connectionType.value]) else None)
  {
    RegionLookups(v);
    InOptions(d, v, matPath, name, outPath, SourceRegions);
    InOptions(d, v, matPath, name, outPath, TargetRegions);
    InOptions(d, v, matPath, name, outPath, ConnectionType);
    var h := RequiredOpts(matPath, name, outPath);
    assert (h + RegionOpts(v) + StyleOpts(d, v) + TextOpts(d, v) + [ColorbarOpt(d, v)])[..3] == h;
  }

  /** Lines 58-70: each region option is there exactly when its value is given. */
  lemma RegionLookups(v: Visualization)
    ensures Lookup(RegionOpts(v), SourceRegions) == (if NonEmpty(v.sourceRegions) then v.sourceRegions else None)
    ensures Lookup(RegionOpts(v), TargetRegions) == (if NonEmpty(v.targetRegions) then v.targetRegions else None)
    ensures Lookup(RegionOpts(v), ConnectionType) ==
      (if v.connectionType.Some? && v.connectionType.value != "" then Some([v.connectionType.value]) else None)
  {
    var src := OptionalOpt(SourceRegions, v.sourceRegions);
    var tgt := OptionalOpt(TargetRegions, v.targetRegions);
    var ct := OptionalText(ConnectionType, v.connectionType);
    FlagsAppend(tgt, ct);
    Between([], src, tgt + ct, SourceRegions);
    assert [] + src + (tgt + ct) == RegionOpts(v);
    Between(src, tgt, ct, TargetRegions);
    FlagsAppend(src, tgt);
    Between(src + tgt, ct, [], ConnectionType);
    assert src + tgt + ct + [] == RegionOpts(v);
  }

  /**
    Lines 72-98: each threshold, the node size and the colour-bar label is the
    visualization's value, else the defaults' value, else 0.99, 0.0, '90%', 50 and
    'Connection Strength (Ep)'.
   */
  lemma ThresholdDefaults(d: Defaults, v: Visualization, matPath: string, name: string, outPath: string)
    ensures Lookup(Options(d, v, matPath, name, outPath), PpThreshold) ==
      Some([Effective(v.ppThreshold, d.ppThreshold, "0.99")])
    ensures Lookup(Options(d, v, matPath, name, outPath), StrengthThreshold) ==
      Some([Effective(v.strengthThreshold, d.strengthThreshold, "0.0")])
    ensures Lookup(Options(d, v, matPath, name, outPath), EdgeThreshold) ==
      Some([Effective(v.edgeThreshold, d.edgeThreshold, "90%")])
    ensures Lookup(Options(d, v, matPath, name, outPath), NodeSize) ==
      Some([Effective(v.nodeSize, d.nodeSize, "50")])
    ensures Lookup(Options(d, v, matPath, name, outPath), ColorbarLabel) ==
      Some([Effective(v.colorbarLabel, d.colorbarLabel, "Connection Strength (Ep)")])
  {
    PpDefault(d, v, matPath, name, outPath);
    StrengthDefault(d, v, matPath, name, outPath);
    EdgeDefault(d, v, matPath, name, outPath);
    NodeSizeDefault(d, v, matPath, name, outPath);
    LabelDefault(d, v, matPath, name, outPath);
  }

  lemma PpDefault(d: Defaults, v: Visualization, matPath: string, name: string, outPath: string)
    ensures Lookup(Options(d, v, matPath, name, outPath), PpThreshold) ==
      Some([Effective(v.ppThreshold, d.ppThreshold, "0.99")])
  {
    InOptions(d, v, matPath, name, outPath, PpThreshold);
    StyleLookups(d, v);
  }

  lemma StrengthDefault(d: Defaults, v: Visualization, matPath: string, name: string, outPath: string)
    ensures Lookup(Options(d, v, matPath, name, outPath), StrengthThreshold) ==
      Some([Effective(v.strengthThreshold, d.strengthThreshold, "0.0")])
  {
    InOptions(d, v, matPath, name, outPath, StrengthThreshold);
    StyleLookups(d, v);
  }

  lemma EdgeDefault(d: Defaults, v: Visualization, matPath: string, name: string, outPath: string)
    ensures Lookup(Options(d, v, matPath, name, outPath), EdgeThreshold) ==
      Some([Effective(v.edgeThreshold, d.edgeThreshold, "90%")])
  {
    InOptions(d, v, matPath, name, outPath, EdgeThreshold);
    StyleLookups(d, v);
  }

  lemma NodeSizeDefault(d: Defaults, v: Visualization, matPath: string, name: string, outPath: string)
    ensures Lookup(Options(d, v, matPath, name, outPath), NodeSize) ==
      Some([Effective(v.nodeSize, d.nodeSize, "50")])
  {
    InOptions(d, v, matPath, name, outPath, NodeSize);
    StyleLookups(d, v);
  }

  lemma LabelDefault(d: Defaults, v: Visualization, matPath: string, name: string, outPath: string)
    ensures Lookup(Options(d, v, matPath, name, outPath), ColorbarLabel) ==
      Some([Effective(v.colorbarLabel, d.colorbarLabel, "Connection Strength (Ep)")])
  {
    InOptions(d, v, matPath, name, outPath, ColorbarLabel);
    LabelLookup(d, v);
  }

  /** Lines 72-86: the thresholds and the node size sit at the front of the style options. */
  lemma StyleLookups(d: Defaults, v: Visualization)
    ensures Lookup(StyleOpts(d, v), PpThreshold) == Some([Effective(v.ppThreshold, d.ppThreshold, "0.99")])
    ensures Lookup(StyleOpts(d, v), StrengthThreshold) ==
      Some([Effective(v.strengthThreshold, d.strengthThreshold, "0.0")])
    ensures Lookup(StyleOpts(d, v), EdgeThreshold) == Some([Effective(v.edgeThreshold, d.edgeThreshold, "90%")])
    ensures Lookup(StyleOpts(d, v), NodeSize) == Some([Effective(v.nodeSize, d.nodeSize, "50")])
  {
    var s := StyleOpts(d, v);
    LookupAt(s, 0, PpThreshold);
    LookupAt(s, 1, StrengthThreshold);
    LookupAt(s, 2, EdgeThreshold);
    LookupAt(s, 3, NodeSize);
  }

  /** Lines 96-97: the colour-bar label is always among the text options. */
  lemma LabelLookup(d: Defaults, v: Visualization)
    ensures Lookup(TextOpts(d, v), ColorbarLabel) ==
      Some([Effective(v.colorbarLabel, d.colorbarLabel, "Connection Strength (Ep)")])
  {
    var title := OptionalText(Title, v.title);
    var labelOpt := [Opt(ColorbarLabel, [Effective(v.colorbarLabel, d.colorbarLabel, "Connection Strength (Ep)")])];
    Between(title, labelOpt, OptionalText(Subtitle, v.subtitle), ColorbarLabel);
  }

  /**
    Lines 104-108: exactly one of `--colorbar` and `--no-colorbar` is emitted, the first
    when the visualization's flag, else the defaults' flag, else true, holds.
   */
  lemma ColorbarExclusive(d: Defaults, v: Visualization, matPath: string, name: string, outPath: string)
    ensures var opts := Options(d, v, matPath, name, outPath);
      && (Lookup(opts, Colorbar).Some? <==> Effective(v.colorbar, d.colorbar, true))
      && (Lookup(opts, NoColorbar).Some? <==> !Effective(v.colorbar, d.colorbar, true))
  {
    InOptions(d, v, matPath, name, outPath, Colorbar);
    InOptions(d, v, matPath, name, outPath, NoColorbar);
  }

  // ----- validation -----

  datatype ValidationError = MissingField(field: string) | MatFileNotFound(path: string) | MissingOutput

  /** The message the source appends for each error. */
  function Message(e: ValidationError): string {
    match e
    case MissingField(f) => "Missing required field: " + f
    case MatFileNotFound(p) => "MAT file not found: " + p
    case MissingOutput => "Visualization missing 'output' field"
  }

  const Required: seq<string> := ["id", "name", "mat_file", "visualization"]

  predicate HasField(h: Hypothesis, field: string) {
    match field
    case "id" => h.id.Some?
    case "name" => h.name.Some?
    case "mat_file" => h.matFile.Some?
    case "visualization" => h.visualization.Some?
    case _ => false
  }

  /** One error per field of `fields` that `h` lacks, in order. */
  function MissingFields(h: Hypothesis, fields: seq<string>): (es: seq<ValidationError>)
    ensures forall f :: MissingField(f) in es <==> f in fields && !HasField(h, f)
    ensures forall e | e in es :: e.MissingField?
    ensures |es| <= |fields|
  {
    if |fields| == 0 then []
    else
      var front := MissingFields(h, fields[..|fields| - 1]);
      var f := fields[|fields| - 1];
      assert fields == fields[..|fields| - 1] + [f];
      if HasField(h, f) then front else front + [MissingField(f)]
  }

  /** Lines 113-133 with `exists` for `os.path.exists`: the errors, or the `KeyError` for a missing `mat_file`. */
  function ValidationErrors(cfg: Config, h: Hypothesis, fileExists: string -> bool): Result<seq<ValidationError>, KeyError> {
    if h.matFile.None? then Err(KeyError("mat_file"))
    else
      var path := MatFilePath(cfg, h.matFile.value);
      Ok(MissingFields(h, Required)
         + (if fileExists(path) then [] else [MatFileNotFound(path)])
         + (if h.visualization.Some? && h.visualization.value.output.None? then [MissingOutput] else []))
  }

  /** Lines 113-133, appending to `errors` step by step. */
  method ValidateHypothesis(cfg: Config, h: Hypothesis, fileExists: string -> bool)
    returns (r: Result<seq<ValidationError>, KeyError>)
    ensures r == ValidationErrors(cfg, h, fileExists)
  {
    var errors: seq<ValidationError> := [];
    for k := 0 to |Required|
      invariant errors == MissingFields(h, Required[..k])
    {
      assert Required[..k + 1][..k] == Required[..k];
      if !HasField(h, Required[k]) {
        errors := errors + [MissingField(Required[k])];
      }
    }
    assert Required[..|Required|] == Required;
    if h.matFile.None? {
      return Err(KeyError("mat_file"));
    }
    var matFile := MatFilePath(cfg, h.matFile.value);
    ghost var missing := errors;
    if !fileExists(matFile) {
      errors := errors + [MatFileNotFound(matFile)];
    }
    assert errors == missing + (if fileExists(matFile) then [] else [MatFileNotFound(matFile)]);
    ghost var checked := errors;
    if h.visualization.Some? && h.visualization.value.output.None? {
      errors := errors + [MissingOutput];
    }
    assert errors == checked + (if h.visualization.Some? && h.visualization.value.output.None? then [MissingOutput] else []);
    return Ok(errors);
  }

  /**
    Lines 113-133: validation raises exactly when `mat_file` is missing; otherwise there is
    one error per missing required field, one for a MAT file that does not exist and one
    for a visualization without an output, and a hypothesis that passes has everything
    the command needs.
   */
  lemma ValidationMeaning(cfg: Config, h: Hypothesis, fileExists: string -> bool)
    ensures ValidationErrors(cfg, h, fileExists).Err? <==> h.matFile.None?
    ensures var r := ValidationErrors(cfg, h, fileExists);
      r.Ok? ==>
        && (forall f :: MissingField(f) in r.value <==> f in Required && !HasField(h, f))
        && (MatFileNotFound(MatFilePath(cfg, h.matFile.value)) in r.value <==> !fileExists(MatFilePath(cfg, h.matFile.value)))
        && (MissingOutput in r.value <==> h.visualization.Some? && h.visualization.value.output.None?)
        && (r.value == [] <==>
              && h.id.Some? && h.name.Some? && h.visualization.Some? && h.visualization.value.output.Some?
              && fileExists(MatFilePath(cfg, h.matFile.value)))
    ensures var r := ValidationErrors(cfg, h, fileExists);
      r.Ok? && r.value == [] ==> CommandFor(cfg, h).Ok?
  {
    if h.matFile.Some? {
      var missing := MissingFields(h, Required);
      if missing == [] {
        assert "id" in Required && "name" in Required && "visualization" in Required;
      } else {
        assert missing[0] in missing;
      }
    }
  }

  // ----- one figure -----

  /** The effects of producing a figure: file existence and the plotter's exit code. */
  datatype Env = Env(fileExists: string -> bool, exitCode: seq<string> -> int)

  /**
    Lines 136-199: the hypothesis's `id` and `name` are read first; an invalid hypothesis
    fails; a dry run succeeds after building the command; otherwise the plotter must exit
    with 0 and leave the output file behind.
   */
  function GenerateFigure(cfg: Config, h: Hypothesis, dryRun: bool, env: Env): (r: Result<bool, KeyError>)
    ensures r.Ok? ==> h.id.Some? && h.name.Some?
    ensures r.Ok? && r.value ==> ValidationErrors(cfg, h, env.fileExists) == Ok([])
    ensures r.Ok? && r.value && !dryRun ==>
      env.fileExists(PathJoin(cfg.outputDir, h.visualization.value.output.value))
  {
    if h.id.None? then Err(KeyError("id"))
    else if h.name.None? then Err(KeyError("name"))
    else
      var errors := ValidationErrors(cfg, h, env.fileExists);
      if errors.Err? then Err(errors.error)
      else if errors.value != [] then Ok(false)
      else
        ValidationMeaning(cfg, h, env.fileExists);
        var cmd := CommandFor(cfg, h).value;
        if dryRun then Ok(true)
        else if env.exitCode(cmd) != 0 then Ok(false)
        else Ok(env.fileExists(PathJoin(cfg.outputDir, h.visualization.value.output.value)))
  }

  // ----- results, summary and exit code -----

  /**
    `results[key] = value` on an insertion-ordered dictionary: a key already present keeps
    its place and takes the new value, a new key goes last.
   */
  function Assign(d: seq<(string, bool)>, key: string, value: bool): (d': seq<(string, bool)>)
    ensures Keys(d') == if key in Keys(d) then Keys(d) else Keys(d) + [key]
    ensures forall i | 0 <= i < |d'| && d'[i].0 == key :: d'[i].1 == value
    ensures forall i | 0 <= i < |d| && d[i].0 != key :: d'[i] == d[i]
  {
    if key in Keys(d) then seq(|d|, i requires 0 <= i < |d| => if d[i].0 == key then (key, value) else d[i])
    else d + [(key, value)]
  }

  function Keys(d: seq<(string, bool)>): (ks: seq<string>)
    ensures |ks| == |d| && forall i | 0 <= i < |d| :: ks[i] == d[i].0
  {
    seq(|d|, i requires 0 <= i < |d| => d[i].0)
  }

  /** Lines 246-247: the ids that succeeded and those that failed, in dictionary order. */
  function Successful(d: seq<(string, bool)>): seq<string> {
    if |d| == 0 then [] else (if d[0].1 then [d[0].0] else []) + Successful(d[1..])
  }

  function Failed(d: seq<(string, bool)>): seq<string> {
    if |d| == 0 then [] else (if d[0].1 then [] else [d[0].0]) + Failed(d[1..])
  }

  /**
    Lines 246-251: the successful and failed ids split the results: their counts add up to
    the total, and each entry's id is in the list its outcome names.
   */
  lemma {:induction false} SummaryPartition(d: seq<(string, bool)>)
    ensures |Successful(d)| + |Failed(d)| == |d|
    ensures forall i | 0 <= i < |d| :: if d[i].1 then d[i].0 in Successful(d) else d[i].0 in Failed(d)
    ensures forall k :: k in Successful(d) ==> exists i | 0 <= i < |d| :: d[i] == (k, true)
    ensures forall k :: k in Failed(d) ==> exists i | 0 <= i < |d| :: d[i] == (k, false)
    decreases |d|
  {
    if |d| > 0 {
      SummaryPartition(d[1..]);
      forall i | 0 < i < |d| ensures if d[i].1 then d[i].0 in Successful(d) else d[i].0 in Failed(d) {
        assert d[i] == d[1..][i - 1];
      }
      forall k | k in Successful(d[1..]) ensures exists i | 0 <= i < |d| :: d[i] == (k, true) {
        var j :| 0 <= j < |d[1..]| && d[1..][j] == (k, true);
        assert d[j + 1] == (k, true);
      }
      forall k | k in Failed(d[1..]) ensures exists i | 0 <= i < |d| :: d[i] == (k, false) {
        var j :| 0 <= j < |d[1..]| && d[1..][j] == (k, false);
        assert d[j + 1] == (k, false);
      }
    }
  }

  /** Lines 343-350: the hypotheses whose ids were requested (all of them when none were). */
  function Chosen(all: seq<Hypothesis>, requested: seq<string>): (r: Result<seq<Hypothesis>, KeyError>)
    ensures |requested| == 0 ==> r == Ok(all)
    ensures r.Ok? ==> forall h | h in r.value :: h in all
    ensures |requested| > 0 && r.Ok? ==> forall h | h in all :: h.id.Some?
  {
    if |requested| == 0 then Ok(all)
    else if |all| == 0 then Ok([])
    else
      var front := Chosen(all[..|all| - 1], requested);
      var h := all[|all| - 1];
      if front.Err? then front
      else if h.id.None? then Err(KeyError("id"))
      else if h.id.value in requested then Ok(front.value + [h])
      else front
  }

  /** A requested filter keeps exactly the hypotheses whose id is requested, in order. */
  lemma {:induction false} ChosenKeeps(all: seq<Hypothesis>, requested: seq<string>)
    requires |requested| > 0
    ensures Chosen(all, requested).Err? <==> exists h | h in all :: h.id.None?
    ensures var r := Chosen(all, requested);
      r.Ok? ==> forall h :: h in r.value <==> h in all && h.id.value in requested
    decreases |all|
  {
    if |all| > 0 {
      var front := all[..|all| - 1];
      ChosenKeeps(front, requested);
      assert all == front + [all[|all| - 1]];
    }
  }

  /** The results dictionary after generating `hs` in order, or the first `KeyError`. */
  function Results(cfg: Config, hs: seq<Hypothesis>, dryRun: bool, env: Env): (r: Result<seq<(string, bool)>, KeyError>)
    ensures r.Ok? ==> forall h | h in hs :: h.id.Some? && h.name.Some?
    ensures r.Ok? ==> forall k :: k in Keys(r.value) <==> exists h | h in hs :: h.id == Some(k)
  {
    if |hs| == 0 then Ok([])
    else
      var front := Results(cfg, hs[..|hs| - 1], dryRun, env);
      var h := hs[|hs| - 1];
      if front.Err? then front
      else
        var g := GenerateFigure(cfg, h, dryRun, env);
        if g.Err? then Err(g.error) else Ok(Assign(front.value, h.id.value, g.value))
  }

  /** Line 389: `sum(1 for s in results.values() if not s)`. */
  function FailedCount(d: seq<(string, bool)>): (count: nat)
    ensures count <= |d|
    ensures count == 0 <==> forall i | 0 <= i < |d| :: d[i].1
  {
    if |d| == 0 then 0
    else
      assert forall i | 0 < i < |d| :: d[i] == d[1..][i - 1];
      (if d[0].1 then 0 else 1) + FailedCount(d[1..])
  }

  /** Lines 389-395: 1 when some hypothesis failed, else 0. */
  function ExitCode(d: seq<(string, bool)>): (code: int)
    ensures code == 1 <==> exists i | 0 <= i < |d| :: !d[i].1
    ensures code == 0 <==> forall i | 0 <= i < |d| :: d[i].1
  {
    if FailedCount(d) > 0 then 1 else 0
  }

  /** The hypotheses listed before generation: reading each one's `id` and `name` (line 354). */
  function Listed(hs: seq<Hypothesis>): (r: Option<KeyError>)
    ensures r.None? <==> forall h | h in hs :: h.id.Some? && h.name.Some?
    ensures r.Some? ==> r.value == KeyError("id") || r.value == KeyError("name")
  {
    if |hs| == 0 then None
    else
      assert forall h | h in hs[1..] :: h in hs;
      assert forall h | h in hs :: h == hs[0] || h in hs[1..];
      if hs[0].id.None? then Some(KeyError("id"))
      else if hs[0].name.None? then Some(KeyError("name"))
      else Listed(hs[1..])
  }

  /**
    Lines 257 and 266: `next(h for h in config['hypotheses'] if h['id'] == hyp_id)`, which
    reads each hypothesis's `id` until one matches, or `None` when none does.
   */
  function FirstWithId(hs: seq<Hypothesis>, id: string): (r: Result<Option<Hypothesis>, KeyError>)
    ensures r.Err? ==> r.error == KeyError("id")
    ensures r.Ok? && r.value.Some? ==> r.value.value in hs && r.value.value.id == Some(id)
  {
    if |hs| == 0 then Ok(None)
    else if hs[0].id.None? then Err(KeyError("id"))
    else if hs[0].id.value == id then Ok(Some(hs[0]))
    else FirstWithId(hs[1..], id)
  }

  /**
    The lookup raises at the first hypothesis without an `id` that comes before any match,
    finds the first hypothesis with the id, and gives `None` when every hypothesis has a
    different id.
   */
  lemma FirstWithIdMeaning(hs: seq<Hypothesis>, id: string)
    ensures FirstWithId(hs, id).Err? <==>
      exists j | 0 <= j < |hs| :: hs[j].id.None? && forall i | 0 <= i < j :: hs[i].id != Some(id)
    ensures var r := FirstWithId(hs, id); r.Ok? && r.value.Some? ==>
      exists j | 0 <= j < |hs| :: hs[j] == r.value.value && forall i | 0 <= i < j :: hs[i].id.Some? && hs[i].id != Some(id)
    ensures FirstWithId(hs, id) == Ok(None) <==> forall h | h in hs :: h.id.Some? && h.id != Some(id)
  {
    FirstWithIdRaises(hs, id);
    FirstWithIdFound(hs, id);
    FirstWithIdNone(hs, id);
  }

  /** The lookup raises exactly when a hypothesis without an `id` comes before any match. */
  lemma {:induction false} FirstWithIdRaises(hs: seq<Hypothesis>, id: string)
    ensures FirstWithId(hs, id).Err? <==>
      exists j | 0 <= j < |hs| :: hs[j].id.None? && forall i | 0 <= i < j :: hs[i].id != Some(id)
    decreases |hs|
  {
    if |hs| > 0 && hs[0].id.Some? && hs[0].id.value != id {
      var tail := hs[1..];
      FirstWithIdRaises(tail, id);
      if FirstWithId(tail, id).Err? {
        var j :| 0 <= j < |tail| && tail[j].id.None? && forall i | 0 <= i < j :: tail[i].id != Some(id);
        assert hs[j + 1].id.None?;
        assert forall i | 0 < i < j + 1 :: hs[i] == tail[i - 1];
      }
      if exists j | 0 <= j < |hs| :: hs[j].id.None? && forall i | 0 <= i < j :: hs[i].id != Some(id) {
        var j :| 0 <= j < |hs| && hs[j].id.None? && forall i | 0 <= i < j :: hs[i].id != Some(id);
        assert tail[j - 1].id.None?;
        assert forall i | 0 <= i < j - 1 :: tail[i] == hs[i + 1];
      }
    }
  }

  /** A hypothesis the lookup finds comes after hypotheses that all have a different `id`. */
  lemma {:induction false} FirstWithIdFound(hs: seq<Hypothesis>, id: string)
    ensures var r := FirstWithId(hs, id); r.Ok? && r.value.Some? ==>
      exists j | 0 <= j < |hs| :: hs[j] == r.value.value && forall i | 0 <= i < j :: hs[i].id.Some? && hs[i].id != Some(id)
    decreases |hs|
  {
    if |hs| > 0 && hs[0].id.Some? {
      if hs[0].id.value == id {
        assert hs[0] == FirstWithId(hs, id).value.value;
      } else {
        var tail := hs[1..];
        FirstWithIdFound(tail, id);
        var r := FirstWithId(tail, id);
        if r.Ok? && r.value.Some? {
          var j :| 0 <= j < |tail| && tail[j] == r.value.value && forall i | 0 <= i < j :: tail[i].id.Some? && tail[i].id != Some(id);
          assert hs[j + 1] == r.value.value;
          assert forall i | 0 < i < j + 1 :: hs[i] == tail[i - 1];
        }
      }
    }
  }

  /** The lookup gives `None` exactly when every hypothesis has an `id` and none matches. */
  lemma {:induction false} FirstWithIdNone(hs: seq<Hypothesis>, id: string)
    ensures FirstWithId(hs, id) == Ok(None) <==> forall h | h in hs :: h.id.Some? && h.id != Some(id)
    decreases |hs|
  {
    if |hs| > 0 {
      var tail := hs[1..];
      FirstWithIdNone(tail, id);
      assert forall h | h in hs :: h == hs[0] || h in tail;
      assert forall h | h in tail :: h in hs;
    }
  }

  /**
    Lines 258-269: the report's `hyp['visualization']['output']` for one recorded id, skipped
    when no hypothesis has that id; the `KeyError` it raises, if any.
   */
  function OutputLookup(hs: seq<Hypothesis>, id: string): Option<KeyError> {
    match FirstWithId(hs, id)
    case Err(e) => Some(e)
    case Ok(None) => None
    case Ok(Some(h)) =>
      if h.visualization.None? then Some(KeyError("visualization"))
      else if h.visualization.value.output.None? then Some(KeyError("output"))
      else None
  }

  /** The first `KeyError` of the lookups for `ids`, in order. */
  function FirstLookupError(hs: seq<Hypothesis>, ids: seq<string>): (r: Option<KeyError>)
    ensures r.None? <==> forall k | k in ids :: OutputLookup(hs, k).None?
    ensures r.Some? ==> exists k | k in ids :: OutputLookup(hs, k) == r
  {
    if |ids| == 0 then None
    else
      assert forall k | k in ids :: k == ids[0] || k in ids[1..];
      assert forall k | k in ids[1..] :: k in ids;
      if OutputLookup(hs, ids[0]).Some? then OutputLookup(hs, ids[0])
      else FirstLookupError(hs, ids[1..])
  }

  /** Lines 236-269: the summary report looks up the successful ids, then the failed ones. */
  function SummaryError(cfg: Config, d: seq<(string, bool)>): Option<KeyError> {
    var e := FirstLookupError(cfg.hypotheses, Successful(d));
    if e.Some? then e else FirstLookupError(cfg.hypotheses, Failed(d))
  }

  /**
    The report raises exactly when some recorded id's first hypothesis lacks its
    `visualization` or its `output` (every hypothesis having an `id`, as `main` has checked).
   */
  lemma SummaryErrorIff(cfg: Config, d: seq<(string, bool)>)
    requires forall h | h in cfg.hypotheses :: h.id.Some?
    ensures SummaryError(cfg, d).None? <==> forall i | 0 <= i < |d| :: OutputLookup(cfg.hypotheses, d[i].0).None?
    ensures SummaryError(cfg, d).Some? ==>
      exists i | 0 <= i < |d| :: OutputLookup(cfg.hypotheses, d[i].0) == SummaryError(cfg, d)
  {
    SummaryPartition(d);
    var e := SummaryError(cfg, d);
    if e.Some? {
      if FirstLookupError(cfg.hypotheses, Successful(d)).Some? {
        var k :| k in Successful(d) && OutputLookup(cfg.hypotheses, k) == e;
        var i :| 0 <= i < |d| && d[i] == (k, true);
      } else {
        var k :| k in Failed(d) && OutputLookup(cfg.hypotheses, k) == e;
        var i :| 0 <= i < |d| && d[i] == (k, false);
      }
    }
  }

  /**
    `main` without printing or the LaTeX file: the exit code, or the `KeyError` that ends it
    (the filter, the listing, a hypothesis, or the summary report).
   */
  function MainResult(cfg: Config, requested: seq<string>, dryRun: bool, env: Env): (r: Result<int, KeyError>)
    ensures r.Ok? ==>
      && Chosen(cfg.hypotheses, requested).Ok?
      && var rs := Results(cfg, Chosen(cfg.hypotheses, requested).value, dryRun, env);
      && rs.Ok?
      && (forall i | 0 <= i < |rs.value| :: OutputLookup(cfg.hypotheses, rs.value[i].0).None?)
      && (r.value == 1 <==> exists i | 0 <= i < |rs.value| :: !rs.value[i].1)
      && (r.value == 0 <==> forall i | 0 <= i < |rs.value| :: rs.value[i].1)
  {
    var chosen := Chosen(cfg.hypotheses, requested);
    if chosen.Err? then Err(chosen.error)
    else if Listed(chosen.value).Some? then Err(Listed(chosen.value).value)
    else
      var results := Results(cfg, chosen.value, dryRun, env);
      if results.Err? then Err(results.error)
      else
        SummaryErrorIff(cfg, results.value);
        var report := SummaryError(cfg, results.value);
        if report.Some? then Err(report.value) else Ok(ExitCode(results.value))
  }

  /**
    Lines 113-121 and 266-268: a hypothesis with `id`, `name` and an existing MAT file but no
    `visualization` fails validation, is recorded as False, and the summary report then
    raises `KeyError('visualization')` before `main` reaches its exit code.
   */
  lemma MissingVisualizationRaises(cfg: Config, h: Hypothesis, dryRun: bool, env: Env)
    requires cfg.hypotheses == [h]
    requires h.id.Some? && h.name.Some? && h.matFile.Some? && h.visualization.None?
    requires env.fileExists(MatFilePath(cfg, h.matFile.value))
    ensures MainResult(cfg, [], dryRun, env) == Err(KeyError("visualization"))
  {
    var d := [(h.id.value, false)];
    RecordedFalse(cfg, h, dryRun, env);
    assert Listed([h]).None?;
    assert Successful(d) == [] && Failed(d) == [h.id.value];
    assert OutputLookup([h], h.id.value) == Some(KeyError("visualization"));
    assert SummaryError(cfg, d) == Some(KeyError("visualization"));
  }

  /** The hypothesis of `MissingVisualizationRaises` is recorded as False. */
  lemma RecordedFalse(cfg: Config, h: Hypothesis, dryRun: bool, env: Env)
    requires h.id.Some? && h.name.Some? && h.matFile.Some? && h.visualization.None?
    requires env.fileExists(MatFilePath(cfg, h.matFile.value))
    ensures Results(cfg, [h], dryRun, env) == Ok([(h.id.value, false)])
  {
    ValidationMeaning(cfg, h, env.fileExists);
    assert GenerateFigure(cfg, h, dryRun, env) == Ok(false);
    assert [h][..0] == [];
    assert Results(cfg, [], dryRun, env) == Ok([]);
    assert Keys([]) == [];
    assert Assign([], h.id.value, false) == [(h.id.value, false)];
  }


  /** Lines 370-373: generate each chosen hypothesis and record its outcome under its id. */
  method GenerateAll(cfg: Config, hs: seq<Hypothesis>, dryRun: bool, env: Env)
    returns (r: Result<seq<(string, bool)>, KeyError>)
    ensures r == Results(cfg, hs, dryRun, env)
  {
    var results: seq<(string, bool)> := [];
    for i := 0 to |hs|
      invariant Results(cfg, hs[..i], dryRun, env) == Ok(results)
    {
      assert hs[..i + 1][..i] == hs[..i];
      var success := GenerateFigure(cfg, hs[i], dryRun, env);
      if success.Err? {
        ResultsStops(cfg, hs, dryRun, env, i + 1);
        return Err(success.error);
      }
      results := Assign(results, hs[i].id.value, success.value);
    }
    assert hs[..|hs|] == hs;
    return Ok(results);
  }

  /** Once a hypothesis raises, the error is the outcome of the whole list. */
  lemma {:induction false} ResultsStops(cfg: Config, hs: seq<Hypothesis>, dryRun: bool, env: Env, i: nat)
    requires i <= |hs| && Results(cfg, hs[..i], dryRun, env).Err?
    ensures Results(cfg, hs, dryRun, env) == Results(cfg, hs[..i], dryRun, env)
    decreases |hs| - i
  {
    if i < |hs| {
      assert hs[..i + 1][..i] == hs[..i];
      ResultsStops(cfg, hs, dryRun, env, i + 1);
    } else {
      assert hs[..i] == hs;
    }
  }

  /**
    Lines 251 and 389-395: the count `main` warns about is the summary's failed count, so
    `main` exits with 1 exactly when the report lists a failure.
   */
  lemma {:induction false} ExitCodeMeaning(d: seq<(string, bool)>)
    ensures FailedCount(d) == |Failed(d)|
    ensures ExitCode(d) == 1 <==> |Failed(d)| > 0
    decreases |d|
  {
    if |d| > 0 {
      ExitCodeMeaning(d[1..]);
    }
  }
}
