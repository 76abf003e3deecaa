/**
 * The white-matter-hyperintensity container, run_segmentation.py, from the
 * point where the preprocessed images exist: the BIANCA masterfile, the BIANCA
 * run with one binarised mask per probability threshold, and the cluster
 * statistics of each threshold collated into /tmp/output/WMHstats_collated.csv.
 *
 * Commands are black boxes: each is the files it reads and writes, and its exit
 * status comes from an oracle. The text of each statistics report is another
 * oracle, keyed by the report's path. Thresholds are carried as the text
 * `str(t)` gives, which is also what `csv.writer` writes for them.
 */
module Segmentation {
  import opened Maybe
  import Text
  import Shell
  import Tables

  /** `thr`: the probability thresholds of the main routine. */
  const Thresholds: seq<string> := ["0.9"]

  /** `min_vox`: the minimum cluster size of the main routine. */
  const MinVox: nat := 5

  /** `outdir` for a subject. */
  function OutDir(subject: string): string {
    "/tmp/output/" + subject
  }

  // ---------------------------------------------------------------------------
  // The masterfile

  /** The three files of the masterfile's single row, in BIANCA's feature order. */
  function MasterfileRow(outdir: string): seq<string> {
    [outdir + "/flair_biascorr_wm.nii.gz", outdir + "/t1_biascorr_brain.nii.gz", outdir + "/flair2std.mat"]
  }

  /** Each element followed by one space, with no line terminator. */
  function SpaceTerminated(elements: seq<string>): string {
    if elements == [] then "" else elements[0] + " " + SpaceTerminated(elements[1..])
  }

  /** `runMakeMasterfile`: the text written to `masterfile.txt`, one element at a time. */
  method MakeMasterfile(outdir: string) returns (content: string)
    ensures content == SpaceTerminated(MasterfileRow(outdir))
  {
    var row := MasterfileRow(outdir);
    content := "";
    for i := 0 to |row|
      invariant content + SpaceTerminated(row[i..]) == SpaceTerminated(row)
    {
      SpaceTerminatedStep(content, row, i);
      content := content + row[i] + " ";
    }
    assert row[|row|..] == [];
  }

  /** Writing element `i` and its space moves the rest of the text into `content`. */
  lemma SpaceTerminatedStep(content: string, row: seq<string>, i: nat)
    requires i < |row|
    ensures content + SpaceTerminated(row[i..]) == (content + row[i] + " ") + SpaceTerminated(row[i + 1..])
  {
    assert row[i..][0] == row[i] && row[i..][1..] == row[i + 1..];
    assert SpaceTerminated(row[i..]) == row[i] + " " + SpaceTerminated(row[i + 1..]);
  }

  /** Terminating every element with a space is joining them, and one empty element, with spaces. */
  lemma {:induction false} SpaceTerminatedJoin(elements: seq<string>)
    ensures SpaceTerminated(elements) == Text.Join(elements + [""], ' ')
  {
    if elements != [] {
      SpaceTerminatedJoin(elements[1..]);
      var all := elements + [""];
      assert all[0] == elements[0] && all[1..] == elements[1..] + [""];
    }
  }

  /**
   * Read back as space-separated fields, the masterfile holds the three paths in
   * order followed by one empty field (the trailing space), provided the output
   * directory has no space in it.
   */
  lemma MasterfileFields(outdir: string)
    requires ' ' !in outdir
    ensures Text.Split(SpaceTerminated(MasterfileRow(outdir)), ' ') == MasterfileRow(outdir) + [""]
  {
    var row := MasterfileRow(outdir);
    SpaceTerminatedJoin(row);
    var all := row + [""];
    forall i | 0 <= i < |all| ensures ' ' !in all[i] {
      if i < 3 {
        assert all[i] == row[i];
        assert forall c :: c in row[i] ==> c in outdir || c in row[i][|outdir|..];
      }
    }
    Text.SplitJoin(all, ' ');
  }

  /** The masterfile is a single line with no terminator, provided the output directory has no newline. */
  lemma MasterfileOneLine(outdir: string)
    requires '\n' !in outdir
    ensures '\n' !in SpaceTerminated(MasterfileRow(outdir))
  {
    var row := MasterfileRow(outdir);
    var text := SpaceTerminated(row);
    assert row[2..][0] == row[2] && row[2..][1..] == [];
    var t2 := SpaceTerminated(row[2..]);
    assert SpaceTerminated(row[2..][1..]) == "";
    assert t2 == row[2] + " " + "";
    assert row[1..][0] == row[1] && row[1..][1..] == row[2..];
    var t1 := SpaceTerminated(row[1..]);
    assert t1 == row[1] + " " + t2;
    assert text == row[0] + " " + t1;
    forall i | 0 <= i < 3 ensures '\n' !in row[i] {
      assert forall c :: c in row[i] ==> c in outdir || c in row[i][|outdir|..];
    }
  }

  // ---------------------------------------------------------------------------
  // The commands

  datatype SegCommand =
    | Bianca(masterfile: string, output: string)
    | Binarise(input: string, threshold: string, output: string)
    | ClusterStats(input: string, threshold: string, minVox: nat, report: string)

  /** The lesion probability map BIANCA writes. */
  function ProbabilityMap(outdir: string): string {
    outdir + "/wmh_mask_prob.nii.gz"
  }

  /** The binarised mask of threshold `t`. */
  function MaskPath(outdir: string, t: string): string {
    outdir + "/wmh_mask_bin" + t + ".nii.gz"
  }

  /** The cluster-statistics report of threshold `t`. */
  function StatsPath(outdir: string, t: string): string {
    outdir + "/wmh_mask_bin" + t + "_stats.txt"
  }

  /** Distinct thresholds write distinct masks and reports, and no report overwrites a mask. */
  lemma OutputPathsDistinct(outdir: string, t1: string, t2: string)
    ensures MaskPath(outdir, t1) == MaskPath(outdir, t2) ==> t1 == t2
    ensures StatsPath(outdir, t1) == StatsPath(outdir, t2) ==> t1 == t2
    ensures MaskPath(outdir, t1) != StatsPath(outdir, t2)
  {
    var pre := outdir + "/wmh_mask_bin";
    if MaskPath(outdir, t1) == MaskPath(outdir, t2) {
      var a, b := MaskPath(outdir, t1), MaskPath(outdir, t2);
      assert |t1| == |t2|;
      assert a == pre + t1 + ".nii.gz" && b == pre + t2 + ".nii.gz";
      assert forall i :: 0 <= i < |t1| ==> t1[i] == a[|pre| + i] && t2[i] == b[|pre| + i];
    }
    if StatsPath(outdir, t1) == StatsPath(outdir, t2) {
      var a, b := StatsPath(outdir, t1), StatsPath(outdir, t2);
      assert |t1| == |t2|;
      assert a == pre + t1 + "_stats.txt" && b == pre + t2 + "_stats.txt";
      assert forall i :: 0 <= i < |t1| ==> t1[i] == a[|pre| + i] && t2[i] == b[|pre| + i];
    }
    var m, s := MaskPath(outdir, t1), StatsPath(outdir, t2);
    assert m[|m| - 1] == 'z' && s[|s| - 1] == 't';
  }

  /** `runBIANCA`: the BIANCA run, then one `fslmaths -thr t -bin` per threshold, in list order. */
  function BiancaCommands(outdir: string, thr: seq<string>): (cmds: seq<SegCommand>)
    ensures |cmds| == |thr| + 1
    ensures cmds[0] == Bianca(outdir + "/masterfile.txt", ProbabilityMap(outdir))
    ensures forall i :: 0 <= i < |thr| ==> cmds[i + 1] == Binarise(ProbabilityMap(outdir), thr[i], MaskPath(outdir, thr[i]))
  {
    [Bianca(outdir + "/masterfile.txt", ProbabilityMap(outdir))]
    + seq(|thr|, i requires 0 <= i < |thr| => Binarise(ProbabilityMap(outdir), thr[i], MaskPath(outdir, thr[i])))
  }

  /** `runBIANCA`, each command through `runBash`: a failing command ends the script. */
  method RunBianca(outdir: string, thr: seq<string>, status: SegCommand -> int)
    returns (ran: seq<SegCommand>, ok: bool)
    ensures ran == Shell.Executed(BiancaCommands(outdir, thr), status)
    ensures ok == Shell.AllSucceed(BiancaCommands(outdir, thr), status)
  {
    var cmds := BiancaCommands(outdir, thr);
    var bianca := Bianca(outdir + "/masterfile.txt", ProbabilityMap(outdir));
    ran := [bianca];
    if status(bianca) != 0 {
      Shell.ExecutedAtFailure(cmds, 0, status);
      return ran, false;
    }
    for i := 0 to |thr|
      invariant ran == cmds[..i + 1] && Shell.AllSucceed(ran, status)
    {
      var cmd := Binarise(ProbabilityMap(outdir), thr[i], MaskPath(outdir, thr[i]));
      assert cmd == cmds[i + 1];
      assert cmds[..i + 2] == ran + [cmd];
      if status(cmd) != 0 {
        Shell.ExecutedAtFailure(cmds, i + 1, status);
        return ran + [cmd], false;
      }
      Shell.AllSucceedConcat(ran, [cmd], status);
      ran := ran + [cmd];
    }
    assert cmds[..|thr| + 1] == cmds;
    Shell.ExecutedAll(cmds, status);
    ok := true;
  }

  // ---------------------------------------------------------------------------
  // The statistics report

  /** `line.rstrip().split(" ")` */
  function Tokens(line: string): (l: seq<string>)
    ensures |l| >= 1
  {
    Text.Split(Text.RStrip(line), ' ')
  }

  /** Every line of a report, tokenised. */
  function TokenLines(lines: seq<string>): seq<seq<string>> {
    seq(|lines|, i requires 0 <= i < |lines| => Tokens(lines[i]))
  }

  /** The line assigns `n`: it has `number` as a token. */
  predicate SetsNumber(l: seq<string>) {
    "number" in l
  }

  /** The line assigns `v`: the `elif` is reached and the line has `volume` as a token. */
  predicate SetsVolume(l: seq<string>) {
    !SetsNumber(l) && "volume" in l
  }

  /** The values of `n` and `v`, None while the variable is unbound. */
  datatype Counts = Counts(n: Option<string>, v: Option<string>)

  /** One pass of the line loop, on the line's tokens `l`; `l[-1]` is its last token. */
  function ScanLine(c: Counts, l: seq<string>): Counts {
    if SetsNumber(l) then c.(n := Some(l[|l| - 1]))
    else if SetsVolume(l) then c.(v := Some(l[|l| - 1]))
    else c
  }

  /** The line loop over lines tokenised as `toks`, starting from `c`. */
  function Scan(c: Counts, toks: seq<seq<string>>): Counts
    decreases |toks|
  {
    if toks == [] then c else ScanLine(Scan(c, toks[..|toks| - 1]), toks[|toks| - 1])
  }

  /** The loop `for line in lines` of `runBIANCAstats`. */
  method ParseReport(c: Counts, lines: seq<string>) returns (r: Counts)
    ensures r == Scan(c, TokenLines(lines))
  {
    ghost var toks := TokenLines(lines);
    r := c;
    for i := 0 to |lines|
      invariant r == Scan(c, toks[..i])
    {
      var l := Tokens(lines[i]);
      assert toks[..i + 1][..i] == toks[..i] && toks[..i + 1][i] == l;
      if "number" in l {
        r := r.(n := Some(l[|l| - 1]));
      } else if "volume" in l {
        r := r.(v := Some(l[|l| - 1]));
      }
    }
    assert toks[..|lines|] == toks;
  }

  /** `j` is the last line that assigns `n`. */
  predicate LastNumberLine(toks: seq<seq<string>>, j: int) {
    0 <= j < |toks| && SetsNumber(toks[j]) && forall k :: j < k < |toks| ==> !SetsNumber(toks[k])
  }

  /** `j` is the last line that assigns `v`. */
  predicate LastVolumeLine(toks: seq<seq<string>>, j: int) {
    0 <= j < |toks| && SetsVolume(toks[j]) && forall k :: j < k < |toks| ==> !SetsVolume(toks[k])
  }

  /**
   * After the loop, `n` is the last token of the last line having `number` as a
   * token, and keeps its earlier value when no line has it.
   */
  lemma {:induction false} ScanNumber(c: Counts, toks: seq<seq<string>>)
    ensures (forall j :: 0 <= j < |toks| ==> !SetsNumber(toks[j])) ==> Scan(c, toks).n == c.n
    ensures forall j :: LastNumberLine(toks, j) ==> Scan(c, toks).n == Some(toks[j][|toks[j]| - 1])
    decreases |toks|
  {
    if toks != [] {
      var m := |toks| - 1;
      var init := toks[..m];
      ScanNumber(c, init);
      assert Scan(c, toks) == ScanLine(Scan(c, init), toks[m]);
      if forall j :: 0 <= j < |toks| ==> !SetsNumber(toks[j]) {
        assert !SetsNumber(toks[m]);
        forall j | 0 <= j < m ensures !SetsNumber(init[j]) {
          assert init[j] == toks[j];
        }
      }
      forall j | LastNumberLine(toks, j) ensures Scan(c, toks).n == Some(toks[j][|toks[j]| - 1]) {
        if j < m {
          assert !SetsNumber(toks[m]);
          forall k | j < k < m ensures !SetsNumber(init[k]) {
            assert init[k] == toks[k];
          }
          assert init[j] == toks[j];
          assert LastNumberLine(init, j);
        }
      }
    }
  }

  /** A line that assigns `n` leaves it bound after the loop. */
  lemma {:induction false} ScanNumberBound(c: Counts, toks: seq<seq<string>>, k: nat)
    requires k < |toks| && SetsNumber(toks[k])
    ensures Scan(c, toks).n.Some?
    decreases |toks|
  {
    var m := |toks| - 1;
    if k < m {
      ScanNumberBound(c, toks[..m], k);
    }
  }

  /**
   * After the loop, `v` is the last token of the last line having `volume` but
   * not `number` as a token (a line with both assigns only `n`), and keeps its
   * earlier value when no such line exists.
   */
  lemma {:induction false} ScanVolume(c: Counts, toks: seq<seq<string>>)
    ensures (forall j :: 0 <= j < |toks| ==> !SetsVolume(toks[j])) ==> Scan(c, toks).v == c.v
    ensures forall j :: LastVolumeLine(toks, j) ==> Scan(c, toks).v == Some(toks[j][|toks[j]| - 1])
    decreases |toks|
  {
    if toks != [] {
      var m := |toks| - 1;
      var init := toks[..m];
      ScanVolume(c, init);
      assert Scan(c, toks) == ScanLine(Scan(c, init), toks[m]);
      if forall j :: 0 <= j < |toks| ==> !SetsVolume(toks[j]) {
        assert !SetsVolume(toks[m]);
        forall j | 0 <= j < m ensures !SetsVolume(init[j]) {
          assert init[j] == toks[j];
        }
      }
      forall j | LastVolumeLine(toks, j) ensures Scan(c, toks).v == Some(toks[j][|toks[j]| - 1]) {
        if j < m {
          assert !SetsVolume(toks[m]);
          forall k | j < k < m ensures !SetsVolume(init[k]) {
            assert init[k] == toks[k];
          }
          assert init[j] == toks[j];
          assert LastVolumeLine(init, j);
        }
      }
    }
  }

  // ---------------------------------------------------------------------------
  // Collating the statistics

  /** The header of the collated statistics file. */
  const StatsFields: Tables.Row := ["ID", "probability_threshold_used", "min_cluster_size_used", "WMH_number", "WMH_volume"]

  /** The collated statistics file. */
  const CollatedPath: string := "/tmp/output/WMHstats_collated.csv"

  /** Why the statistics loop raised. */
  datatype SegError =
    | CommandFailed(cmd: SegCommand)  // CalledProcessError from runBash
    | Unbound(name: string)           // UnboundLocalError building the row

  /** What the statistics loop is given besides the thresholds. */
  datatype StatsInput = StatsInput(
    outdir: string,
    minVox: nat,
    subject: string,
    status: SegCommand -> int,   // exit status of each command
    report: string -> string)    // the text of the file at each path

  /** The report of threshold `t`, as `readlines()` returns it, tokenised. */
  function ReportTokens(input: StatsInput, t: string): seq<seq<string>> {
    TokenLines(Text.ReadLines(input.report(StatsPath(input.outdir, t))))
  }

  /** The `bianca_cluster_stats` command of threshold `t`. */
  function StatsCommand(outdir: string, t: string, minVox: nat): SegCommand {
    ClusterStats(ProbabilityMap(outdir), t, minVox, StatsPath(outdir, t))
  }

  /** The statistics loop's state: commands run, rows collated, `n` and `v`, and the error raised. */
  datatype StatsState = StatsState(ran: seq<SegCommand>, rows: seq<Tables.Row>, counts: Counts, error: Option<SegError>)

  /**
   * One threshold: the command runs, the report is read, and the row is built
   * from whatever `n` and `v` hold, which may come from an earlier threshold.
   * `[subject, t, min_vox, n, v]` evaluates `n` before `v`.
   */
  function StatsStep(st: StatsState, t: string, input: StatsInput): StatsState {
    var cmd := StatsCommand(input.outdir, t, input.minVox);
    var ran := st.ran + [cmd];
    if input.status(cmd) != 0 then StatsState(ran, st.rows, st.counts, Some(CommandFailed(cmd)))
    else
      var c := Scan(st.counts, ReportTokens(input, t));
      if c.n.None? then StatsState(ran, st.rows, c, Some(Unbound("n")))
      else if c.v.None? then StatsState(ran, st.rows, c, Some(Unbound("v")))
      else StatsState(ran, st.rows + [[input.subject, t, Text.NatToString(input.minVox), c.n.value, c.v.value]], c, None)
  }

  /** The loop `for t in thr` of `runBIANCAstats`, stopping at the first error. */
  function StatsLoop(thr: seq<string>, input: StatsInput): StatsState
    decreases |thr|
  {
    if thr == [] then StatsState([], [], Counts(None, None), None)
    else
      var st := StatsLoop(thr[..|thr| - 1], input);
      if st.error.Some? then st else StatsStep(st, thr[|thr| - 1], input)
  }

  /**
   * The reports of the thresholds `thr`, tokenised and read one after another:
   * the lines the line loop sees, since `n` and `v` carry over between thresholds.
   */
  function AllReports(thr: seq<string>, input: StatsInput): seq<seq<string>>
    decreases |thr|
  {
    if thr == [] then [] else AllReports(thr[..|thr| - 1], input) + ReportTokens(input, thr[|thr| - 1])
  }

  /** Scanning two runs of lines in turn is scanning them joined. */
  lemma {:induction false} ScanConcat(c: Counts, a: seq<seq<string>>, b: seq<seq<string>>)
    ensures Scan(c, a + b) == Scan(Scan(c, a), b)
    decreases |b|
  {
    if b != [] {
      var m := |b| - 1;
      ScanConcat(c, a, b[..m]);
      assert (a + b)[..|a + b| - 1] == a + b[..m];
      assert (a + b)[|a + b| - 1] == b[m];
    } else {
      assert a + b == a;
    }
  }

  /**
   * While no error is raised, `n` and `v` are what the line loop leaves after
   * every report of the thresholds processed so far, from both unbound.
   */
  lemma {:induction false} StatsCounts(thr: seq<string>, input: StatsInput)
    requires StatsLoop(thr, input).error.None?
    ensures StatsLoop(thr, input).counts == Scan(Counts(None, None), AllReports(thr, input))
    decreases |thr|
  {
    if thr != [] {
      var init := thr[..|thr| - 1];
      StatsCounts(init, input);
      ScanConcat(Counts(None, None), AllReports(init, input), ReportTokens(input, thr[|thr| - 1]));
    }
  }

  /** The collated file after the rows were added one run of the collation rule at a time. */
  function CollatedWith(t: Tables.Table, rows: seq<Tables.Row>): Tables.Table {
    if rows == [] then t else Tables.Appended(t, StatsFields, rows)
  }

  /** `runBIANCAstats`: per threshold, run the command, parse the report, collate the row. */
  method RunBiancaStats(thr: seq<string>, input: StatsInput, collated: Tables.CsvFile)
    returns (ran: seq<SegCommand>, err: Option<SegError>)
    modifies collated
    ensures ran == StatsLoop(thr, input).ran && err == StatsLoop(thr, input).error
    ensures collated.content == CollatedWith(old(collated.content), StatsLoop(thr, input).rows)
  {
    ran, err := [], None;
    var counts := Counts(None, None);
    ghost var rows: seq<Tables.Row> := [];
    for i := 0 to |thr|
      invariant StatsLoop(thr[..i], input) == StatsState(ran, rows, counts, None)
      invariant err.None?
      invariant collated.content == CollatedWith(old(collated.content), rows)
    {
      var t := thr[i];
      assert thr[..i + 1][..i] == thr[..i] && thr[..i + 1][i] == t;
      var cmd := StatsCommand(input.outdir, t, input.minVox);
      ran := ran + [cmd];
      if input.status(cmd) != 0 {
        err := Some(CommandFailed(cmd));
        StatsLoopStops(thr, i + 1, input);
        return;
      }
      var lines := Text.ReadLines(input.report(StatsPath(input.outdir, t)));
      counts := ParseReport(counts, lines);
      if counts.n.None? {
        err := Some(Unbound("n"));
        StatsLoopStops(thr, i + 1, input);
        return;
      }
      if counts.v.None? {
        err := Some(Unbound("v"));
        StatsLoopStops(thr, i + 1, input);
        return;
      }
      var row := [input.subject, t, Text.NatToString(input.minVox), counts.n.value, counts.v.value];
      ghost var before := collated.content;
      Tables.AppendOrCreate(collated, StatsFields, [row]);
      assert collated.content == Tables.Appended(before, StatsFields, [row]);
      if rows != [] {
        Tables.AppendedTwice(old(collated.content), StatsFields, rows, [row]);
      } else {
        assert before == old(collated.content);
        assert rows + [row] == [row];
      }
      rows := rows + [row];
      assert collated.content == CollatedWith(old(collated.content), rows);
    }
    assert thr[..|thr|] == thr;
  }

  /** Once an error is raised, later thresholds change nothing. */
  lemma {:induction false} StatsLoopStops(thr: seq<string>, k: nat, input: StatsInput)
    requires k <= |thr| && StatsLoop(thr[..k], input).error.Some?
    ensures StatsLoop(thr, input) == StatsLoop(thr[..k], input)
    decreases |thr|
  {
    if k < |thr| {
      var init := thr[..|thr| - 1];
      assert init[..k] == thr[..k];
      StatsLoopStops(init, k, input);
    } else {
      assert thr[..k] == thr;
    }
  }

  /**
   * The loop completes exactly when no error is raised; it runs the thresholds'
   * commands in list order, one per threshold processed, and collates one row
   * per threshold whose command ran without error.
   */
  lemma {:induction false} StatsCommands(thr: seq<string>, input: StatsInput)
    ensures var o := StatsLoop(thr, input);
      && |o.rows| <= |thr|
      && (o.error.None? <==> |o.rows| == |thr|)
      && |o.ran| == |o.rows| + (if o.error.Some? then 1 else 0)
      && forall i :: 0 <= i < |o.ran| ==> o.ran[i] == StatsCommand(input.outdir, thr[i], input.minVox)
    decreases |thr|
  {
    if thr != [] {
      var init := thr[..|thr| - 1];
      StatsCommands(init, input);
      var st := StatsLoop(init, input);
      if st.error.None? {
        var t := thr[|thr| - 1];
        StepShape(st, t, input);
        CommandsSnoc(st.ran, init, thr, input);
      } else {
        CommandsSnoc(st.ran[..|st.ran| - 1], init, thr, input);
        assert st.ran == st.ran[..|st.ran| - 1] + [st.ran[|st.ran| - 1]];
      }
    }
  }

  /** One threshold adds its command to the commands run, and a row unless it raised. */
  lemma StepShape(st: StatsState, t: string, input: StatsInput)
    ensures var o := StatsStep(st, t, input);
      && o.ran == st.ran + [StatsCommand(input.outdir, t, input.minVox)]
      && o.rows == (if o.error.Some? then st.rows else st.rows + [o.rows[|o.rows| - 1]])
  {
  }

  /** Extending the commands of a prefix of the thresholds by the next threshold's command. */
  lemma CommandsSnoc(ran: seq<SegCommand>, init: seq<string>, thr: seq<string>, input: StatsInput)
    requires init <= thr && |ran| <= |init| < |thr|
    requires forall i :: 0 <= i < |ran| ==> ran[i] == StatsCommand(input.outdir, init[i], input.minVox)
    ensures var r := ran + [StatsCommand(input.outdir, thr[|ran|], input.minVox)];
      forall i :: 0 <= i < |r| ==> r[i] == StatsCommand(input.outdir, thr[i], input.minVox)
  {
    var r := ran + [StatsCommand(input.outdir, thr[|ran|], input.minVox)];
    forall i | 0 <= i < |r| ensures r[i] == StatsCommand(input.outdir, thr[i], input.minVox) {
      if i < |ran| {
        assert r[i] == ran[i] && init[i] == thr[i];
      }
    }
  }

  /**
   * Row `i` is collated for threshold `i` and has the five fields of the header:
   * the subject, the threshold, the minimum cluster size, then `n` and `v` as
   * the line loop leaves them after the reports of thresholds `0` to `i`.
   */
  lemma {:induction false} StatsRows(thr: seq<string>, input: StatsInput)
    ensures RowsFit(StatsLoop(thr, input).rows, thr, input)
    decreases |thr|
  {
    if thr != [] {
      StatsRows(thr[..|thr| - 1], input);
      StatsRowsStep(thr, input);
    }
  }

  /** One more threshold keeps the rows fitting the thresholds. */
  lemma StatsRowsStep(thr: seq<string>, input: StatsInput)
    requires thr != []
    requires RowsFit(StatsLoop(thr[..|thr| - 1], input).rows, thr[..|thr| - 1], input)
    ensures RowsFit(StatsLoop(thr, input).rows, thr, input)
  {
    var init := thr[..|thr| - 1];
    RowsFitWider(StatsLoop(init, input).rows, init, thr, input);
    if StatsLoop(thr, input).error.None? {
      StatsLastRow(thr, input);
      RowsFitLast(StatsLoop(init, input).rows, thr, input);
    } else {
      StatsRaisedRows(thr, input);
    }
  }

  /** A threshold that raises adds no row. */
  lemma StatsRaisedRows(thr: seq<string>, input: StatsInput)
    requires thr != [] && StatsLoop(thr, input).error.Some?
    ensures StatsLoop(thr, input).rows == StatsLoop(thr[..|thr| - 1], input).rows
  {
  }

  /** A threshold that raises nothing adds one row, built from the scan of every report so far. */
  lemma StatsLastRow(thr: seq<string>, input: StatsInput)
    requires thr != [] && StatsLoop(thr, input).error.None?
    ensures var c := Scan(Counts(None, None), AllReports(thr, input));
      && c.n.Some? && c.v.Some?
      && |StatsLoop(thr[..|thr| - 1], input).rows| == |thr| - 1
      && StatsLoop(thr, input).rows == StatsLoop(thr[..|thr| - 1], input).rows
           + [[input.subject, thr[|thr| - 1], Text.NatToString(input.minVox), c.n.value, c.v.value]]
  {
    StatsCounts(thr, input);
    StatsCommands(thr[..|thr| - 1], input);
  }

  /** The row of the last threshold, built from the scan of every report, extends fitting rows. */
  lemma RowsFitLast(rows: seq<Tables.Row>, thr: seq<string>, input: StatsInput)
    requires RowsFit(rows, thr, input) && |rows| + 1 == |thr|
    requires var c := Scan(Counts(None, None), AllReports(thr, input)); c.n.Some? && c.v.Some?
    ensures var c := Scan(Counts(None, None), AllReports(thr, input));
      RowsFit(rows + [[input.subject, thr[|thr| - 1], Text.NatToString(input.minVox), c.n.value, c.v.value]], thr, input)
  {
    var c := Scan(Counts(None, None), AllReports(thr, input));
    assert thr[..|rows| + 1] == thr;
    RowsFitSnoc(rows, [input.subject, thr[|thr| - 1], Text.NatToString(input.minVox), c.n.value, c.v.value], thr, input);
  }

  /**
   * Row `i` has the five fields of the header: the subject, threshold `i`
   * and the minimum cluster size, then `n` and `v`, both bound, as scanning
   * the reports of thresholds `0` to `i` in order leaves them.
   */
  predicate RowsFit(rows: seq<Tables.Row>, thr: seq<string>, input: StatsInput) {
    forall i :: 0 <= i < |rows| ==>
      && |rows[i]| == |StatsFields| && rows[i][0] == input.subject
      && i < |thr| && rows[i][1] == thr[i] && rows[i][2] == Text.NatToString(input.minVox)
      && Scan(Counts(None, None), AllReports(thr[..i + 1], input)) == Counts(Some(rows[i][3]), Some(rows[i][4]))
  }

  lemma RowsFitWider(rows: seq<Tables.Row>, init: seq<string>, thr: seq<string>, input: StatsInput)
    requires RowsFit(rows, init, input) && init <= thr
    ensures RowsFit(rows, thr, input)
  {
    forall i | 0 <= i < |rows| ensures i < |thr| && rows[i][1] == thr[i] && thr[..i + 1] == init[..i + 1] {
      assert thr[i] == init[i];
    }
  }

  lemma RowsFitSnoc(rows: seq<Tables.Row>, row: Tables.Row, thr: seq<string>, input: StatsInput)
    requires RowsFit(rows, thr, input) && |rows| < |thr|
    requires |row| == |StatsFields| && row[0] == input.subject && row[1] == thr[|rows|]
    requires row[2] == Text.NatToString(input.minVox)
    requires Scan(Counts(None, None), AllReports(thr[..|rows| + 1], input)) == Counts(Some(row[3]), Some(row[4]))
    ensures RowsFit(rows + [row], thr, input)
  {
    var r := rows + [row];
    forall i | 0 <= i < |r|
      ensures |r[i]| == |StatsFields| && r[i][0] == input.subject
      ensures i < |thr| && r[i][1] == thr[i] && r[i][2] == Text.NatToString(input.minVox)
      ensures Scan(Counts(None, None), AllReports(thr[..i + 1], input)) == Counts(Some(r[i][3]), Some(r[i][4]))
    {
      if i < |rows| {
        assert r[i] == rows[i];
      }
    }
  }

  /** A statistics row is never taken for the header: its cluster size is digits. */
  lemma StatsRowNotHeader(thr: seq<string>, input: StatsInput, i: nat)
    requires i < |StatsLoop(thr, input).rows|
    ensures StatsLoop(thr, input).rows[i] != StatsFields
    ensures |StatsLoop(thr, input).rows[i]| == |StatsFields|
  {
    StatsRows(thr, input);
    var row := StatsLoop(thr, input).rows[i];
    assert Text.IsDigits(row[2]);
    assert StatsFields[2][0] == 'm';
  }

  /** A collated file that was well formed stays well formed, and a new one starts well formed. */
  lemma StatsCollatedWellFormed(t: Tables.Table, thr: seq<string>, input: StatsInput)
    requires t.Some? ==> Tables.WellFormed(t.value, StatsFields)
    ensures var after := CollatedWith(t, StatsLoop(thr, input).rows);
      after == t || (after.Some? && Tables.WellFormed(after.value, StatsFields))
  {
    var rows := StatsLoop(thr, input).rows;
    if rows != [] {
      forall i | 0 <= i < |rows| ensures rows[i] != StatsFields && |rows[i]| == |StatsFields| {
        StatsRowNotHeader(thr, input, i);
      }
      Tables.AppendedWellFormed(t, StatsFields, rows);
    }
  }

  /**
   * With no default for `n`, a first report without a `number` line makes
   * building the first row raise, and nothing is collated.
   */
  lemma FirstReportUnbound(t: string, rest: seq<string>, input: StatsInput)
    requires input.status(StatsCommand(input.outdir, t, input.minVox)) == 0
    requires forall j :: 0 <= j < |ReportTokens(input, t)| ==> !SetsNumber(ReportTokens(input, t)[j])
    ensures StatsLoop([t] + rest, input).error == Some(Unbound("n"))
    ensures StatsLoop([t] + rest, input).rows == []
  {
    var thr := [t] + rest;
    ScanNumber(Counts(None, None), ReportTokens(input, t));
    assert thr[..1] == [t];
    assert thr[..1][..0] == [];
    StatsLoopStops(thr, 1, input);
  }

  /**
   * With no default for `v` either, a first report with a `number` line but no
   * line that assigns `v` makes building the first row raise on `v`, and
   * nothing is collated.
   */
  lemma FirstReportUnboundVolume(t: string, rest: seq<string>, input: StatsInput, k: nat)
    requires input.status(StatsCommand(input.outdir, t, input.minVox)) == 0
    requires k < |ReportTokens(input, t)| && SetsNumber(ReportTokens(input, t)[k])
    requires forall j :: 0 <= j < |ReportTokens(input, t)| ==> !SetsVolume(ReportTokens(input, t)[j])
    ensures StatsLoop([t] + rest, input).error == Some(Unbound("v"))
    ensures StatsLoop([t] + rest, input).rows == []
  {
    var thr := [t] + rest;
    var toks := ReportTokens(input, t);
    ScanNumberBound(Counts(None, None), toks, k);
    ScanVolume(Counts(None, None), toks);
    assert thr[..1] == [t];
    assert thr[..1][..0] == [];
    StatsLoopStops(thr, 1, input);
  }

  /**
   * `n` and `v` are not reset between thresholds: when a later report has no
   * `number` and no `volume` line, its row repeats the earlier threshold's values.
   */
  lemma StaleCounts(t1: string, t2: string, input: StatsInput)
    requires StatsLoop([t1], input).error.None?
    requires input.status(StatsCommand(input.outdir, t2, input.minVox)) == 0
    requires forall j :: 0 <= j < |ReportTokens(input, t2)| ==>
               !SetsNumber(ReportTokens(input, t2)[j]) && !SetsVolume(ReportTokens(input, t2)[j])
    ensures |StatsLoop([t1, t2], input).rows| == 2
    ensures |StatsLoop([t1, t2], input).rows[0]| == 5 && |StatsLoop([t1, t2], input).rows[1]| == 5
    ensures StatsLoop([t1, t2], input).rows[1][3..] == StatsLoop([t1, t2], input).rows[0][3..]
  {
    var st := StatsLoop([t1], input);
    ScanNumber(st.counts, ReportTokens(input, t2));
    ScanVolume(st.counts, ReportTokens(input, t2));
    assert [t1, t2][..1] == [t1];
    assert [t1][..0] == [];
  }

  // ---------------------------------------------------------------------------
  // The main routine

  /**
   * `runMakeMasterfile`, `runBIANCA` and `runBIANCAstats` in order, with the
   * script's thresholds and minimum cluster size; a failing BIANCA command ends
   * the script before any statistics are taken.
   */
  method RunSegmentation(subject: string, status: SegCommand -> int, report: string -> string,
                         collated: Tables.CsvFile)
    returns (masterfile: string, ran: seq<SegCommand>, err: Option<SegError>)
    modifies collated
    ensures masterfile == SpaceTerminated(MasterfileRow(OutDir(subject)))
    ensures var bianca := BiancaCommands(OutDir(subject), Thresholds);
            var stats := StatsLoop(Thresholds, StatsInput(OutDir(subject), MinVox, subject, status, report));
            if Shell.AllSucceed(bianca, status) then
              ran == bianca + stats.ran && err == stats.error
              && collated.content == CollatedWith(old(collated.content), stats.rows)
            else
              ran == Shell.Executed(bianca, status) && err == Some(CommandFailed(ran[|ran| - 1]))
              && collated.content == old(collated.content)
  {
    var outdir := OutDir(subject);
    masterfile := MakeMasterfile(outdir);
    var ok;
    ran, ok := RunBianca(outdir, Thresholds, status);
    if !ok {
      Shell.ExecutedSpec(BiancaCommands(outdir, Thresholds), status);
      err := Some(CommandFailed(ran[|ran| - 1]));
      return;
    }
    Shell.ExecutedAll(BiancaCommands(outdir, Thresholds), status);
    var statsRan;
    statsRan, err := RunBiancaStats(Thresholds, StatsInput(outdir, MinVox, subject, status, report), collated);
    ran := ran + statsRan;
  }
}
