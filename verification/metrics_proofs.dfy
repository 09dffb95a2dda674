/** What `_parse_metrics` does with whole outputs: a well-formed probe reads back
    exactly (including the decimal comma some locales give `top`, and the estimate
    from load and cores when `top` printed nothing), output without separators
    gives the defaults, a recognised label with no chunk after it makes the whole
    parse fail, and a DISK line with fewer than four fields is ignored. */
module MetricsProofs {
  import opened Wrappers
  import opened Text
  import opened SshManager

  /** The record returned when no section was read. */
  const Defaults := Metrics(0.0, 1, 0, 0, 0.0, 0, 0, 0.0, 0, 0, 0, 0, None)

  // ---------------------------------------------------------------------------
  // Walking the chunks

  /** A run of chunks none of which is a label is read without effect. */
  lemma {:induction false} RunSkipsAll(sections: seq<string>, i: nat, acc: Partial)
    requires i <= |sections|
    requires forall j :: i <= j < |sections| ==> Strip(sections[j]) !in Labels
    ensures Run(sections, i, acc) == Some(acc)
    decreases |sections| - i
  {
    if i < |sections| {
      RunSkipsAll(sections, i + 1, acc);
    }
  }

  /** The parse result is the finished record of the loop's result. */
  lemma ParseMetricsOfRun(output: string, p: Partial)
    requires Run(SplitOn(output, ProbeSeparator), 0, NoKeys) == Some(p)
    ensures ParseMetrics(output) == Some(Finish(p))
  {
  }

  lemma ParseMetricsOfFailedRun(output: string)
    requires Run(SplitOn(output, ProbeSeparator), 0, NoKeys).None?
    ensures ParseMetrics(output).None?
  {
  }

  lemma FinishNoKeys()
    ensures Finish(NoKeys) == Defaults
  {
  }

  /** Output with no `=` in it (an error message, an empty string) is a single
      chunk; unless that chunk is itself a bare label, nothing is read and every
      key takes its default. */
  lemma NoSeparatorGivesDefaults(output: string)
    requires '=' !in output && Strip(output) !in Labels
    ensures ParseMetrics(output) == Some(Defaults)
  {
    SplitOnNone(output, ProbeSeparator);
    RunSkipsAll([output], 0, NoKeys);
    ParseMetricsOfRun(output, NoKeys);
    FinishNoKeys();
  }

  /** An iteration that succeeds hands its result to the rest of the loop. */
  lemma RunStep(sections: seq<string>, i: nat, acc: Partial, next: Partial)
    requires i < |sections| && Step(sections, i, acc) == Some(next)
    ensures Run(sections, i, acc) == Run(sections, i + 1, next)
  {
  }

  /** An iteration that raises ends the loop with the error. */
  lemma RunStepFails(sections: seq<string>, i: nat, acc: Partial)
    requires i < |sections| && Step(sections, i, acc).None?
    ensures Run(sections, i, acc) == None
  {
  }

  /** A recognised label as the last chunk makes the loop raise, whatever came before. */
  lemma {:induction false} RunTrailingLabel(sections: seq<string>, i: nat, acc: Partial)
    requires i < |sections|
    requires SectionOf(Strip(sections[|sections| - 1])).Some?
    ensures Run(sections, i, acc) == None
    decreases |sections| - i
  {
    var st := Step(sections, i, acc);
    if st.None? {
      RunStepFails(sections, i, acc);
    } else {
      assert i + 1 < |sections|;
      RunStep(sections, i, acc, st.value);
      RunTrailingLabel(sections, i + 1, st.value);
    }
  }

  /** Output cut short right after a recognised label (`...===UPTIME`) makes the
      parse raise, so the server counts as having no metrics. */
  lemma TrailingLabelFails(output: string)
    requires var cs := SplitOn(output, ProbeSeparator);
             Strip(cs[|cs| - 1]) in Labels
    ensures ParseMetrics(output) == None
  {
    var cs := SplitOn(output, ProbeSeparator);
    assert SectionOf(Strip(cs[|cs| - 1])).Some?;
    RunTrailingLabel(cs, 0, NoKeys);
    ParseMetricsOfFailedRun(output);
  }

  /** An iteration at a chunk that is not a label reads nothing. */
  lemma StepSkip(sections: seq<string>, i: nat, acc: Partial)
    requires i < |sections| && Strip(sections[i]) !in Labels
    ensures Step(sections, i, acc) == Some(acc)
  {
  }

  /** An iteration at a label reads the chunk after it. */
  lemma StepRead(sections: seq<string>, i: nat, sec: Section, acc: Partial)
    requires i + 1 < |sections| && SectionOf(Strip(sections[i])) == Some(sec)
    ensures Step(sections, i, acc) == ReadSection(sec, Strip(sections[i + 1]), acc)
  {
  }

  lemma StepCpu(sections: seq<string>, i: nat, acc: Partial, next: Partial)
    requires i + 1 < |sections| && SectionOf(Strip(sections[i])) == Some(Cpu)
    requires ReadCpu(Strip(sections[i + 1]), acc) == Some(next)
    ensures Step(sections, i, acc) == Some(next)
  {
    StepRead(sections, i, Cpu, acc);
  }

  lemma StepMem(sections: seq<string>, i: nat, acc: Partial, u: Usage)
    requires i + 1 < |sections| && SectionOf(Strip(sections[i])) == Some(Mem)
    requires ReadUsage(Strip(sections[i + 1]), 3) == Some(Some(u))
    ensures Step(sections, i, acc) == Some(acc.(ram := Some(u)))
  {
    StepRead(sections, i, Mem, acc);
  }

  lemma StepDisk(sections: seq<string>, i: nat, acc: Partial, u: Option<Usage>)
    requires i + 1 < |sections| && SectionOf(Strip(sections[i])) == Some(Disk)
    requires ReadUsage(Strip(sections[i + 1]), 4) == Some(u)
    ensures Step(sections, i, acc) == Some(if u.Some? then acc.(disk := u) else acc)
  {
    StepRead(sections, i, Disk, acc);
  }

  lemma StepUptime(sections: seq<string>, i: nat, acc: Partial, u: int)
    requires i + 1 < |sections| && SectionOf(Strip(sections[i])) == Some(Uptime)
    requires ReadUptime(Strip(sections[i + 1])) == Some(u)
    ensures Step(sections, i, acc) == Some(acc.(uptime := Some(u)))
  {
    StepRead(sections, i, Uptime, acc);
  }

  lemma StepCpuPercent(sections: seq<string>, i: nat, acc: Partial)
    requires i + 1 < |sections| && SectionOf(Strip(sections[i])) == Some(CpuPercent)
    ensures Step(sections, i, acc) == Some(acc.(cpuPercent := Some(ReadCpuPercent(Strip(sections[i + 1]), acc))))
  {
    StepRead(sections, i, CpuPercent, acc);
  }

  // ---------------------------------------------------------------------------
  // Labels

  predicate LabelChar(c: char) { 'A' <= c <= 'Z' || c == '_' }

  lemma LabelsSpelling()
    ensures forall l, j :: l in Labels && 0 <= j < |l| ==> LabelChar(l[j])
  {
    forall l, j | l in Labels && 0 <= j < |l| ensures LabelChar(l[j]) {
      if l == "CPU_PERCENT" {
        assert forall k :: 0 <= k < |l| ==> LabelChar(l[k]);
      }
    }
  }

  /** A chunk with a character no label has is not a label. */
  lemma NotLabel(x: string, k: nat)
    requires k < |x| && !LabelChar(x[k])
    ensures x !in Labels
  {
    LabelsSpelling();
  }

  /** A label, stripped, names its section. */
  lemma LabelSection(sec: Section)
    ensures SectionOf(Strip(LabelName(sec))) == Some(sec)
  {
    StripTrimmed(LabelName(sec));
    SectionOfLabel(sec);
  }

  // ---------------------------------------------------------------------------
  // Printed numbers

  /** A field of a probe line: non-empty, no whitespace, no `=`. */
  predicate Token(s: string) {
    |s| > 0 && NoSpace(s) && '=' !in s && '\n' !in s
  }

  lemma NumberToken(n: nat)
    ensures Token(NatToString(n)) && ',' !in NatToString(n) && '.' !in NatToString(n)
  {
    var s := NatToString(n);
    assert forall j :: 0 <= j < |s| ==> s[j] != '=' && s[j] != '\n' && s[j] != ',' && s[j] != '.' && !IsSpace(s[j]);
  }

  lemma NumberParses(n: nat)
    ensures ParseInt(NatToString(n)) == Some(n as int)
  {
    assert IntToString(n) == NatToString(n);
    IntToStringRoundTrip(n);
  }

  /** A reading with a fractional part, such as `0.52` or `12345.67`. */
  datatype Decimal = Decimal(whole: nat, frac: nat)

  /** The reading printed with `point` as the decimal separator. */
  function DecimalText(d: Decimal, point: char): string {
    NatToString(d.whole) + [point] + NatToString(d.frac)
  }

  function DecimalValue(d: Decimal): real {
    d.whole as real + Fraction(NatToString(d.frac))
  }

  lemma DecimalToken(d: Decimal, point: char)
    requires point == '.' || point == ','
    ensures Token(DecimalText(d, point))
    ensures IsDigit(DecimalText(d, point)[0])
    ensures IsDigit(DecimalText(d, point)[|DecimalText(d, point)| - 1])
  {
    var w := NatToString(d.whole);
    var f := NatToString(d.frac);
    var t := DecimalText(d, point);
    assert t[0] == w[0];
    assert t[|t| - 1] == f[|f| - 1];
    forall j | 0 <= j < |t| ensures !IsSpace(t[j]) && t[j] != '=' && t[j] != '\n' {
      if j < |w| { assert t[j] == w[j]; }
      else if j > |w| { assert t[j] == f[j - |w| - 1]; }
    }
  }

  /** A reading printed with a dot parses back to its value. */
  lemma DecimalParses(d: Decimal)
    ensures ParseDecimal(DecimalText(d, '.')) == Some(DecimalValue(d))
  {
    var w := NatToString(d.whole);
    var f := NatToString(d.frac);
    var t := DecimalText(d, '.');
    DecimalToken(d, '.');
    NumberToken(d.whole);
    StripTrimmed(t);
    assert t[..|w|] == w;
    IndexOfFirst(t, '.', |w|);
    assert t[|w| + 1..] == f;
    NatToStringValue(d.whole);
  }

  /** `int()` of a reading is its whole part. */
  lemma TruncDecimal(d: Decimal)
    ensures Trunc(DecimalValue(d)) == d.whole as int
  {
  }

  /** Replacing the comma of a comma-printed reading gives the dot-printed one. */
  lemma CommaToDot(d: Decimal)
    ensures ReplaceChar(DecimalText(d, ','), ',', '.') == DecimalText(d, '.')
  {
    var w := NatToString(d.whole);
    var f := NatToString(d.frac);
    NumberToken(d.whole);
    NumberToken(d.frac);
    var a := DecimalText(d, ',');
    var b := DecimalText(d, '.');
    forall j | 0 <= j < |a| ensures ReplaceChar(a, ',', '.')[j] == b[j] {
      if j < |w| { assert a[j] == w[j] == b[j]; }
      else if j > |w| { assert a[j] == f[j - |w| - 1] == b[j]; }
    }
  }

  // ---------------------------------------------------------------------------
  // Lines of fields

  /** A line framed by newlines strips to the line. */
  lemma StripLine(x: string)
    requires Trimmed(x)
    ensures Strip("\n" + x + "\n") == x
  {
    assert AllSpace("\n");
    StripFrame("\n", x, "\n");
  }

  lemma FramedAvoids(x: string, c: char)
    requires c !in x && c != '\n'
    ensures c !in "\n" + x + "\n"
  {
  }

  /** Fields printed with single spaces between them are what `split()` returns. */
  lemma {:induction false} WordsOfFields(fields: seq<string>)
    requires |fields| > 0 && forall k :: 0 <= k < |fields| ==> Token(fields[k])
    ensures Words(Join(fields, " ")) == fields
    decreases |fields|
  {
    if |fields| == 1 {
      WordsSingle(fields[0]);
    } else {
      assert AllSpace(" ");
      WordsCons(fields[0], " ", Join(fields[1..], " "));
      WordsOfFields(fields[1..]);
      assert [fields[0]] + fields[1..] == fields;
    }
  }

  /** A join ends with its last part. */
  lemma {:induction false} JoinLast(parts: seq<string>, sep: string)
    requires |parts| > 0 && |parts[|parts| - 1]| > 0
    ensures var j := Join(parts, sep);
            |j| > 0 && j[|j| - 1] == parts[|parts| - 1][|parts[|parts| - 1]| - 1]
    decreases |parts|
  {
    if |parts| > 1 {
      JoinLast(parts[1..], sep);
    }
  }

  /** A character in neither the parts nor the separator is not in the join. */
  lemma {:induction false} JoinAvoids(parts: seq<string>, sep: string, c: char)
    requires c !in sep && forall k :: 0 <= k < |parts| ==> c !in parts[k]
    ensures c !in Join(parts, sep)
    decreases |parts|
  {
    if |parts| > 1 {
      JoinAvoids(parts[1..], sep, c);
    }
  }

  /** A line of fields is already stripped and holds no newline and no `=`. */
  lemma LineShape(fields: seq<string>)
    requires |fields| > 0 && forall k :: 0 <= k < |fields| ==> Token(fields[k])
    ensures var j := Join(fields, " ");
            |j| > 0 && Trimmed(j) && '=' !in j && '\n' !in j
  {
    var j := Join(fields, " ");
    var last := fields[|fields| - 1];
    JoinLast(fields, " ");
    JoinAvoids(fields, " ", '=');
    JoinAvoids(fields, " ", '\n');
    assert j[0] == fields[0][0];
    assert !IsSpace(last[|last| - 1]);
  }

  /** A line of at least two fields has a space after its first field, so it is not a label. */
  lemma LineNotLabel(fields: seq<string>)
    requires |fields| >= 2
    ensures Join(fields, " ") !in Labels
  {
    var j := Join(fields, " ");
    assert j == fields[0] + " " + Join(fields[1..], " ");
    assert j[|fields[0]|] == ' ';
    NotLabel(j, |fields[0]|);
  }

  lemma LiteralTokens()
    ensures Token("0") && Token("0.00") && Token("0.58") && Token("0.59")
    ensures Token("Mem:") && Token("/dev/root") && Token("eth0:")
  {
  }

  // ---------------------------------------------------------------------------
  // A well-formed probe

  /** The readings one probe run reports. `cpuPercent` is `None` when `top`
      printed no usage figure. */
  datatype Probe = Probe(load: Decimal, cores: nat, ramTotal: nat, ramUsed: nat,
                         diskTotal: nat, diskUsed: nat, uptime: Decimal,
                         netReceived: nat, netSent: nat, cpuPercent: Option<Decimal>)

  /** `cat /proc/loadavg; nproc`: the load averages, then the core count. */
  function LoadFields(p: Probe): seq<string> {
    [DecimalText(p.load, '.'), "0.58", "0.59"]
  }

  function CpuLines(p: Probe): seq<string> {
    [Join(LoadFields(p), " "), NatToString(p.cores)]
  }

  function CpuText(p: Probe): string { Join(CpuLines(p), "\n") }

  /** `free -b | grep Mem` or `df -B1 / | tail -1`: a name, the total, the used
      figure, one more column. */
  function UsageFields(name: string, total: nat, used: nat): seq<string> {
    [name, NatToString(total), NatToString(used), "0"]
  }

  function UsageText(name: string, total: nat, used: nat): string {
    Join(UsageFields(name, total, used), " ")
  }

  /** `grep eth0 /proc/net/dev`, cut down to the interface and two counters. */
  function NetFields(p: Probe): seq<string> {
    ["eth0:", NatToString(p.netReceived), NatToString(p.netSent)]
  }

  /** `cat /proc/uptime` */
  function UptimeFields(p: Probe): seq<string> {
    [DecimalText(p.uptime, '.'), "0.00"]
  }

  /** `top -bn1 | grep "Cpu(s)" | awk '{print $2}'`, in a locale with a decimal comma. */
  function CpuPercentText(p: Probe): string {
    match p.cpuPercent
    case Some(c) => DecimalText(c, ',')
    case None => ""
  }

  /** A section body as the probe prints it: on its own lines. */
  function Framed(x: string): string { "\n" + x + "\n" }

  /** Chunk `k` of the probe's output split on the separator: nothing before the
      first separator, then each label followed by its section body. */
  function ProbeChunk(p: Probe, k: nat): string {
    if k == 0 then ""
    else if k == 1 then LabelName(Cpu)
    else if k == 2 then Framed(CpuText(p))
    else if k == 3 then LabelName(Mem)
    else if k == 4 then Framed(UsageText("Mem:", p.ramTotal, p.ramUsed))
    else if k == 5 then LabelName(Disk)
    else if k == 6 then Framed(UsageText("/dev/root", p.diskTotal, p.diskUsed))
    else if k == 7 then "NET"
    else if k == 8 then Framed(Join(NetFields(p), " "))
    else if k == 9 then LabelName(Uptime)
    else if k == 10 then Framed(Join(UptimeFields(p), " "))
    else if k == 11 then LabelName(CpuPercent)
    else Framed(CpuPercentText(p))
  }

  function ProbeChunks(p: Probe): (cs: seq<string>)
    ensures |cs| == 13 && forall k :: 0 <= k < 13 ==> cs[k] == ProbeChunk(p, k)
  {
    seq(13, k requires 0 <= k < 13 => ProbeChunk(p, k))
  }

  /** The probe script's output: every section headed by `===LABEL===`. */
  function ProbeOutput(p: Probe): string {
    Join(ProbeChunks(p), ProbeSeparator)
  }

  /** The record the probe's readings describe. */
  function Expected(p: Probe): Metrics {
    var load := DecimalValue(p.load);
    Metrics(
      match p.cpuPercent
      case Some(c) => DecimalValue(c)
      case None => CpuEstimate(load, p.cores),
      p.cores,
      p.ramTotal, p.ramUsed, Percent(p.ramUsed, p.ramTotal),
      p.diskTotal, p.diskUsed, Percent(p.diskUsed, p.diskTotal),
      p.uptime.whole, 0, 0, 0, Some(load))
  }

  // CPU

  lemma LoadLine(p: Probe)
    ensures var l := Join(LoadFields(p), " ");
            |l| > 0 && Trimmed(l) && '=' !in l && '\n' !in l && Words(l) == LoadFields(p)
  {
    DecimalToken(p.load, '.');
    LiteralTokens();
    LineShape(LoadFields(p));
    WordsOfFields(LoadFields(p));
  }

  lemma CpuTextShape(p: Probe)
    ensures Trimmed(CpuText(p)) && '=' !in CpuText(p)
    ensures SplitOn(CpuText(p), "\n") == CpuLines(p)
  {
    var lines := CpuLines(p);
    LoadLine(p);
    NumberToken(p.cores);
    JoinLast(lines, "\n");
    JoinAvoids(lines, "\n", '=');
    assert CpuText(p)[0] == lines[0][0];
    SplitJoin(lines, "\n");
  }

  lemma CpuTextNotLabel(p: Probe)
    ensures CpuText(p) !in Labels
  {
    var fields := LoadFields(p);
    var l := Join(fields, " ");
    DecimalToken(p.load, '.');
    assert l == fields[0] + " " + Join(fields[1..], " ");
    assert CpuText(p) == l + "\n" + Join(CpuLines(p)[1..], "\n");
    assert CpuText(p)[|fields[0]|] == ' ';
    NotLabel(CpuText(p), |fields[0]|);
  }

  /** A CPU section of two lines whose first word and second line are numbers. */
  lemma ReadCpuOf(line: string, acc: Partial, first: string, second: string, l: real, c: int)
    requires SplitOn(line, "\n") == [first, second]
    requires |Words(first)| > 0 && ParseDecimal(Words(first)[0]) == Some(l) && ParseInt(second) == Some(c)
    ensures ReadCpu(line, acc) == Some(acc.(load1m := Some(l), cpuCores := Some(c)))
  {
  }

  /** The CPU section yields the load and the core count. */
  lemma CpuChunkReads(p: Probe, acc: Partial)
    ensures ReadCpu(CpuText(p), acc)
         == Some(acc.(load1m := Some(DecimalValue(p.load)), cpuCores := Some(p.cores as int)))
  {
    CpuTextShape(p);
    LoadLine(p);
    DecimalParses(p.load);
    NumberParses(p.cores);
    ReadCpuOf(CpuText(p), acc, Join(LoadFields(p), " "), NatToString(p.cores), DecimalValue(p.load), p.cores);
  }

  // MEM and DISK

  lemma UsageTextShape(name: string, total: nat, used: nat)
    requires Token(name)
    ensures var t := UsageText(name, total, used);
            Trimmed(t) && '=' !in t && t !in Labels && Words(t) == UsageFields(name, total, used)
  {
    NumberToken(total);
    NumberToken(used);
    LiteralTokens();
    LineShape(UsageFields(name, total, used));
    LineNotLabel(UsageFields(name, total, used));
    WordsOfFields(UsageFields(name, total, used));
  }

  /** A `free`/`df` chunk with enough fields whose second and third are numbers. */
  lemma ReadUsageOf(line: string, minFields: nat, fields: seq<string>, total: int, used: int)
    requires minFields >= 3 && Words(line) == fields && |fields| >= minFields
    requires ParseInt(fields[1]) == Some(total) && ParseInt(fields[2]) == Some(used)
    ensures ReadUsage(line, minFields) == Some(Some(Usage(used, total)))
  {
  }

  /** A `free`/`df` chunk yields its total and used figures. */
  lemma UsageChunkReads(name: string, total: nat, used: nat, minFields: nat)
    requires Token(name) && 3 <= minFields <= 4
    ensures ReadUsage(UsageText(name, total, used), minFields) == Some(Some(Usage(used, total)))
  {
    UsageTextShape(name, total, used);
    NumberParses(total);
    NumberParses(used);
    ReadUsageOf(UsageText(name, total, used), minFields, UsageFields(name, total, used), total, used);
  }

  // UPTIME

  lemma UptimeLine(p: Probe)
    ensures var l := Join(UptimeFields(p), " ");
            Trimmed(l) && '=' !in l && l !in Labels && Words(l) == UptimeFields(p)
  {
    DecimalToken(p.uptime, '.');
    LiteralTokens();
    LineShape(UptimeFields(p));
    LineNotLabel(UptimeFields(p));
    WordsOfFields(UptimeFields(p));
  }

  /** An uptime chunk whose first word is a number. */
  lemma ReadUptimeOf(line: string, tokens: seq<string>, u: real)
    requires Words(line) == tokens && |tokens| > 0 && ParseDecimal(tokens[0]) == Some(u)
    ensures ReadUptime(line) == Some(Trunc(u))
  {
  }

  /** The uptime chunk yields the whole seconds of its first figure. */
  lemma UptimeChunkReads(p: Probe)
    ensures ReadUptime(Join(UptimeFields(p), " ")) == Some(p.uptime.whole as int)
  {
    UptimeLine(p);
    DecimalParses(p.uptime);
    TruncDecimal(p.uptime);
    ReadUptimeOf(Join(UptimeFields(p), " "), UptimeFields(p), DecimalValue(p.uptime));
  }

  // CPU_PERCENT

  lemma CpuPercentTextShape(p: Probe)
    ensures var t := CpuPercentText(p); Trimmed(t) && '=' !in t && t !in Labels
  {
    match p.cpuPercent
    case Some(c) =>
      DecimalToken(c, ',');
      NotLabel(DecimalText(c, ','), 0);
    case None =>
  }

  /** The usage chunk yields `top`'s figure read with a decimal comma, or the estimate. */
  lemma CpuPercentChunkReads(p: Probe, acc: Partial)
    ensures ReadCpuPercent(CpuPercentText(p), acc)
         == match p.cpuPercent
            case Some(c) => Reported(DecimalValue(c))
            case None => CpuFallback(acc)
  {
    match p.cpuPercent
    case Some(c) =>
      CommaToDot(c);
      DecimalParses(c);
    case None =>
      assert ReplaceChar("", ',', '.') == "";
      assert ParseDecimal("") == None;
  }

  // NET

  lemma NetLine(p: Probe)
    ensures var l := Join(NetFields(p), " "); Trimmed(l) && '=' !in l && l !in Labels
  {
    LiteralTokens();
    NumberToken(p.netReceived);
    NumberToken(p.netSent);
    LineShape(NetFields(p));
    LineNotLabel(NetFields(p));
  }

  // ---------------------------------------------------------------------------
  // The round trip

  /** No chunk of the probe's output contains the separator's character. */
  lemma ProbeChunkNoSeparator(p: Probe, k: nat)
    requires k < 13
    ensures '=' !in ProbeChunk(p, k)
  {
    if k == 2 {
      CpuTextShape(p);
    } else if k == 4 {
      LiteralTokens();
      UsageTextShape("Mem:", p.ramTotal, p.ramUsed);
    } else if k == 6 {
      LiteralTokens();
      UsageTextShape("/dev/root", p.diskTotal, p.diskUsed);
    } else if k == 8 {
      NetLine(p);
    } else if k == 10 {
      UptimeLine(p);
    } else if k == 12 {
      CpuPercentTextShape(p);
    }
  }

  /** The probe's chunks split back out of its output. */
  lemma ProbeChunksSplit(p: Probe)
    ensures SplitOn(ProbeOutput(p), ProbeSeparator) == ProbeChunks(p)
  {
    var cs := ProbeChunks(p);
    forall j | 0 <= j < |cs| ensures '=' !in cs[j] {
      ProbeChunkNoSeparator(p, j);
    }
    SplitJoin(cs, ProbeSeparator);
  }

  /** The keys set after the CPU, MEM, DISK and UPTIME sections. */
  function ReadBeforePercent(p: Probe): Partial {
    Partial(Some(DecimalValue(p.load)), Some(p.cores as int),
            Some(Usage(p.ramUsed, p.ramTotal)), Some(Usage(p.diskUsed, p.diskTotal)),
            Some(p.uptime.whole as int), None)
  }

  /** The keys set after the whole probe. */
  function ProbeRead(p: Probe): Partial {
    var acc := ReadBeforePercent(p);
    acc.(cpuPercent := Some(match p.cpuPercent
                            case Some(c) => Reported(DecimalValue(c))
                            case None => CpuFallback(acc)))
  }

  /** None of the probe's section bodies is a label. */
  lemma CpuChunkNotLabel(p: Probe)
    ensures Strip(Framed(CpuText(p))) == CpuText(p) && CpuText(p) !in Labels
  {
    CpuTextShape(p);
    CpuTextNotLabel(p);
    StripLine(CpuText(p));
  }

  lemma UsageChunkNotLabel(name: string, total: nat, used: nat)
    requires Token(name)
    ensures Strip(Framed(UsageText(name, total, used))) == UsageText(name, total, used) && UsageText(name, total, used) !in Labels
  {
    UsageTextShape(name, total, used);
    StripLine(UsageText(name, total, used));
  }

  /** The NET label is not one `_parse_metrics` reads. */
  lemma NetLabelNotRead()
    ensures Strip("NET") !in Labels
  {
    StripTrimmed("NET");
  }

  lemma NetChunkNotLabel(p: Probe)
    ensures Strip(Framed(Join(NetFields(p), " "))) !in Labels
  {
    NetLine(p);
    StripLine(Join(NetFields(p), " "));
  }

  lemma UptimeChunkNotLabel(p: Probe)
    ensures Strip(Framed(Join(UptimeFields(p), " "))) == Join(UptimeFields(p), " ") && Join(UptimeFields(p), " ") !in Labels
  {
    UptimeLine(p);
    StripLine(Join(UptimeFields(p), " "));
  }

  lemma CpuPercentChunkNotLabel(p: Probe)
    ensures Strip(Framed(CpuPercentText(p))) == CpuPercentText(p) && CpuPercentText(p) !in Labels
  {
    CpuPercentTextShape(p);
    StripLine(CpuPercentText(p));
  }

  /** Chunks laid out as the probe prints them: nothing before the first
      separator, each label followed by its section body, NET unread. */
  ghost predicate ProbeLayout(cs: seq<string>, p: Probe) {
    |cs| == 13 && ProbeLabelsAt(cs) && ProbeBodiesAt(cs, p)
  }

  /** The label chunks: CPU, MEM, DISK, NET, UPTIME, CPU_PERCENT. */
  ghost predicate ProbeLabelsAt(cs: seq<string>) {
    && |cs| == 13
    && Strip(cs[0]) !in Labels && Strip(cs[7]) !in Labels
    && SectionOf(Strip(cs[1])) == Some(Cpu) && SectionOf(Strip(cs[3])) == Some(Mem)
    && SectionOf(Strip(cs[5])) == Some(Disk) && SectionOf(Strip(cs[9])) == Some(Uptime)
    && SectionOf(Strip(cs[11])) == Some(CpuPercent)
  }

  /** The section bodies, each after its label. */
  ghost predicate ProbeBodiesAt(cs: seq<string>, p: Probe) {
    && |cs| == 13
    && cs[2] == Framed(CpuText(p))
    && cs[4] == Framed(UsageText("Mem:", p.ramTotal, p.ramUsed))
    && cs[6] == Framed(UsageText("/dev/root", p.diskTotal, p.diskUsed))
    && cs[8] == Framed(Join(NetFields(p), " "))
    && cs[10] == Framed(Join(UptimeFields(p), " "))
    && cs[12] == Framed(CpuPercentText(p))
  }

  /** A chunk that is not a label is passed over. */
  lemma RunSkip(cs: seq<string>, i: nat, acc: Partial)
    requires i < |cs| && Strip(cs[i]) !in Labels
    ensures Run(cs, i, acc) == Run(cs, i + 1, acc)
  {
    StepSkip(cs, i, acc);
    RunStep(cs, i, acc, acc);
  }

  /** A label and the section body after it, read as one stretch of the loop. */
  lemma RunCpuAt(cs: seq<string>, i: nat, acc: Partial, next: Partial)
    requires i + 1 < |cs| && SectionOf(Strip(cs[i])) == Some(Cpu) && Strip(cs[i + 1]) !in Labels
    requires ReadCpu(Strip(cs[i + 1]), acc) == Some(next)
    ensures Run(cs, i, acc) == Run(cs, i + 2, next)
  {
    StepCpu(cs, i, acc, next);
    RunStep(cs, i, acc, next);
    RunSkip(cs, i + 1, next);
  }

  lemma RunMemAt(cs: seq<string>, i: nat, acc: Partial, u: Usage)
    requires i + 1 < |cs| && SectionOf(Strip(cs[i])) == Some(Mem) && Strip(cs[i + 1]) !in Labels
    requires ReadUsage(Strip(cs[i + 1]), 3) == Some(Some(u))
    ensures Run(cs, i, acc) == Run(cs, i + 2, acc.(ram := Some(u)))
  {
    StepMem(cs, i, acc, u);
    RunStep(cs, i, acc, acc.(ram := Some(u)));
    RunSkip(cs, i + 1, acc.(ram := Some(u)));
  }

  lemma RunDiskAt(cs: seq<string>, i: nat, acc: Partial, u: Option<Usage>)
    requires i + 1 < |cs| && SectionOf(Strip(cs[i])) == Some(Disk) && Strip(cs[i + 1]) !in Labels
    requires ReadUsage(Strip(cs[i + 1]), 4) == Some(u)
    ensures Run(cs, i, acc) == Run(cs, i + 2, if u.Some? then acc.(disk := u) else acc)
  {
    var next := if u.Some? then acc.(disk := u) else acc;
    StepDisk(cs, i, acc, u);
    RunStep(cs, i, acc, next);
    RunSkip(cs, i + 1, next);
  }

  lemma RunUptimeAt(cs: seq<string>, i: nat, acc: Partial, up: int)
    requires i + 1 < |cs| && SectionOf(Strip(cs[i])) == Some(Uptime) && Strip(cs[i + 1]) !in Labels
    requires ReadUptime(Strip(cs[i + 1])) == Some(up)
    ensures Run(cs, i, acc) == Run(cs, i + 2, acc.(uptime := Some(up)))
  {
    StepUptime(cs, i, acc, up);
    RunStep(cs, i, acc, acc.(uptime := Some(up)));
    RunSkip(cs, i + 1, acc.(uptime := Some(up)));
  }

  lemma RunCpuPercentAt(cs: seq<string>, i: nat, acc: Partial)
    requires i + 1 < |cs| && SectionOf(Strip(cs[i])) == Some(CpuPercent) && Strip(cs[i + 1]) !in Labels
    ensures Run(cs, i, acc) == Run(cs, i + 2, acc.(cpuPercent := Some(ReadCpuPercent(Strip(cs[i + 1]), acc))))
  {
    var next := acc.(cpuPercent := Some(ReadCpuPercent(Strip(cs[i + 1]), acc)));
    StepCpuPercent(cs, i, acc);
    RunStep(cs, i, acc, next);
    RunSkip(cs, i + 1, next);
  }

  /** The CPU stretch at the head of the output. */
  lemma RunCpuHead(cs: seq<string>, line: string, next: Partial)
    requires |cs| >= 3 && Strip(cs[0]) !in Labels && SectionOf(Strip(cs[1])) == Some(Cpu)
    requires Strip(cs[2]) == line && line !in Labels && ReadCpu(line, NoKeys) == Some(next)
    ensures Run(cs, 0, NoKeys) == Run(cs, 3, next)
  {
    RunSkip(cs, 0, NoKeys);
    RunCpuAt(cs, 1, NoKeys, next);
  }

  lemma LayoutCpu(cs: seq<string>, p: Probe)
    requires ProbeLayout(cs, p)
    ensures Run(cs, 0, NoKeys) == Run(cs, 3, ReadBeforePercent(p).(ram := None, disk := None, uptime := None))
  {
    CpuChunkNotLabel(p);
    CpuChunkReads(p, NoKeys);
    RunCpuHead(cs, CpuText(p), ReadBeforePercent(p).(ram := None, disk := None, uptime := None));
  }

  lemma LayoutMem(cs: seq<string>, p: Probe)
    requires ProbeLayout(cs, p)
    ensures Run(cs, 3, ReadBeforePercent(p).(ram := None, disk := None, uptime := None))
         == Run(cs, 5, ReadBeforePercent(p).(disk := None, uptime := None))
  {
    LiteralTokens();
    UsageChunkNotLabel("Mem:", p.ramTotal, p.ramUsed);
    UsageChunkReads("Mem:", p.ramTotal, p.ramUsed, 3);
    RunMemAt(cs, 3, ReadBeforePercent(p).(ram := None, disk := None, uptime := None), Usage(p.ramUsed, p.ramTotal));
  }

  lemma LayoutDisk(cs: seq<string>, p: Probe)
    requires ProbeLayout(cs, p)
    ensures Run(cs, 5, ReadBeforePercent(p).(disk := None, uptime := None))
         == Run(cs, 7, ReadBeforePercent(p).(uptime := None))
  {
    LiteralTokens();
    UsageChunkNotLabel("/dev/root", p.diskTotal, p.diskUsed);
    UsageChunkReads("/dev/root", p.diskTotal, p.diskUsed, 4);
    RunDiskAt(cs, 5, ReadBeforePercent(p).(disk := None, uptime := None), Some(Usage(p.diskUsed, p.diskTotal)));
  }

  lemma LayoutNetUptime(cs: seq<string>, p: Probe)
    requires ProbeLayout(cs, p)
    ensures Run(cs, 7, ReadBeforePercent(p).(uptime := None)) == Run(cs, 11, ReadBeforePercent(p))
  {
    var acc := ReadBeforePercent(p).(uptime := None);
    NetChunkNotLabel(p);
    UptimeChunkNotLabel(p);
    UptimeChunkReads(p);
    RunSkip(cs, 7, acc);
    RunSkip(cs, 8, acc);
    RunUptimeAt(cs, 9, acc, p.uptime.whole);
  }

  lemma LayoutCpuPercent(cs: seq<string>, p: Probe)
    requires ProbeLayout(cs, p)
    ensures Run(cs, 11, ReadBeforePercent(p)) == Some(ProbeRead(p))
  {
    CpuPercentChunkNotLabel(p);
    CpuPercentChunkReads(p, ReadBeforePercent(p));
    RunCpuPercentAt(cs, 11, ReadBeforePercent(p));
  }

  lemma LayoutRun(cs: seq<string>, p: Probe)
    requires ProbeLayout(cs, p)
    ensures Run(cs, 0, NoKeys) == Some(ProbeRead(p))
  {
    LayoutCpu(cs, p);
    LayoutMem(cs, p);
    LayoutDisk(cs, p);
    LayoutNetUptime(cs, p);
    LayoutCpuPercent(cs, p);
  }

  lemma FinishProbeRead(p: Probe)
    ensures Finish(ProbeRead(p)) == Expected(p)
  {
  }

  /** Output whose chunks are laid out as the probe prints them reads back as
      exactly the readings it reports; the CPU usage comes from `top` when it
      printed a figure and is otherwise the 1-minute load over the core count
      read earlier in the same output. */
  lemma ParseLayout(output: string, p: Probe)
    requires ProbeLayout(SplitOn(output, ProbeSeparator), p)
    ensures ParseMetrics(output) == Some(Expected(p))
  {
    LayoutRun(SplitOn(output, ProbeSeparator), p);
    ParseMetricsOfRun(output, ProbeRead(p));
    FinishProbeRead(p);
  }

  /** A label chunk of the probe names its section once stripped. */
  lemma ProbeLabelAt(p: Probe, k: nat, sec: Section)
    requires k < 13 && ProbeChunk(p, k) == LabelName(sec)
    ensures SectionOf(Strip(ProbeChunks(p)[k])) == Some(sec)
  {
    LabelSection(sec);
  }

  /** A chunk of the probe that strips to no label is passed over. */
  lemma ProbeUnreadAt(p: Probe, k: nat, x: string)
    requires k < 13 && ProbeChunk(p, k) == x && Strip(x) !in Labels
    ensures Strip(ProbeChunks(p)[k]) !in Labels
  {
  }

  lemma ProbeLabelCpu(p: Probe)
    ensures SectionOf(Strip(ProbeChunks(p)[1])) == Some(Cpu)
  {
    ProbeLabelAt(p, 1, Cpu);
  }

  lemma ProbeLabelMem(p: Probe)
    ensures SectionOf(Strip(ProbeChunks(p)[3])) == Some(Mem)
  {
    ProbeLabelAt(p, 3, Mem);
  }

  lemma ProbeLabelDisk(p: Probe)
    ensures SectionOf(Strip(ProbeChunks(p)[5])) == Some(Disk)
  {
    ProbeLabelAt(p, 5, Disk);
  }

  lemma ProbeLabelUptime(p: Probe)
    ensures SectionOf(Strip(ProbeChunks(p)[9])) == Some(Uptime)
  {
    ProbeLabelAt(p, 9, Uptime);
  }

  lemma ProbeLabelCpuPercent(p: Probe)
    ensures SectionOf(Strip(ProbeChunks(p)[11])) == Some(CpuPercent)
  {
    ProbeLabelAt(p, 11, CpuPercent);
  }

  lemma ProbeUnread(p: Probe)
    ensures Strip(ProbeChunks(p)[0]) !in Labels && Strip(ProbeChunks(p)[7]) !in Labels
  {
    assert Strip("") == "";
    ProbeUnreadAt(p, 0, "");
    NetLabelNotRead();
    ProbeUnreadAt(p, 7, "NET");
  }

  lemma ProbeChunksLabels(p: Probe)
    ensures ProbeLabelsAt(ProbeChunks(p))
  {
    ProbeLabelCpu(p);
    ProbeLabelMem(p);
    ProbeLabelDisk(p);
    ProbeLabelUptime(p);
    ProbeLabelCpuPercent(p);
    ProbeUnread(p);
  }

  lemma ProbeChunksBodies(p: Probe)
    ensures ProbeBodiesAt(ProbeChunks(p), p)
  {
  }

  /** The probe's own chunks have that layout. */
  lemma ProbeChunksLayout(p: Probe)
    ensures ProbeLayout(ProbeChunks(p), p)
  {
    ProbeChunksLabels(p);
    ProbeChunksBodies(p);
  }

  /** The probe's output reads back as its readings. */
  lemma ProbeRoundTrip(p: Probe)
    ensures ParseMetrics(ProbeOutput(p)) == Some(Expected(p))
  {
    ProbeChunksSplit(p);
    ProbeChunksLayout(p);
    ParseLayout(ProbeOutput(p), p);
  }

  // ---------------------------------------------------------------------------
  // The DISK guard

  lemma ShortDiskLine(total: nat, used: nat)
    ensures var line := Join(["/dev/root", NatToString(total), NatToString(used)], " ");
            Strip(Framed(line)) == line && line !in Labels && ReadUsage(line, 4) == Some(None)
  {
    var fields := ["/dev/root", NatToString(total), NatToString(used)];
    var line := Join(fields, " ");
    NumberToken(total);
    NumberToken(used);
    LiteralTokens();
    LineShape(fields);
    LineNotLabel(fields);
    WordsOfFields(fields);
    StripLine(line);
  }

  /** A `df` line with only three fields is not read: after a DISK label, such a
      line leaves every key as it was, although a total and a used figure were
      printed. */
  lemma ShortDiskIgnored(cs: seq<string>, total: nat, used: nat)
    requires |cs| == 3 && Strip(cs[0]) !in Labels && SectionOf(Strip(cs[1])) == Some(Disk)
    requires cs[2] == Framed(Join(["/dev/root", NatToString(total), NatToString(used)], " "))
    ensures Run(cs, 0, NoKeys) == Some(NoKeys)
  {
    ShortDiskLine(total, used);
    RunSkip(cs, 0, NoKeys);
    RunDiskAt(cs, 1, NoKeys, None);
  }
}
