/** The remote executor (`SSHManager`): one authenticated session per command,
    failures folded into a sentinel result, and the parser that turns the
    metrics probe's `===LABEL===` output into a metrics record. The session itself
    (connecting, key decoding, reading the channel) is the `Transport` outcome
    handed in. */
module SshManager {
  import opened Wrappers
  import opened Text

  // ---------------------------------------------------------------------------
  // Executing one command

  /** What one session produced: the command's captured output and exit status, or
      the exception raised while connecting, authenticating or executing. */
  datatype Transport = Completed(out: string, err: string, code: int) | Raised(message: string)

  /** `(stdout, stderr, exit_code)` as `execute` returns it. */
  datatype CommandResult = CommandResult(out: string, err: string, code: int)

  /** A command and the timeout, in seconds, it is run with. */
  datatype Request = Request(command: string, timeout: int)

  /** `execute`: the session's output, or `("", message, -1)` whatever went wrong;
      it never raises. */
  function Execute(t: Transport): (r: CommandResult)
    ensures t.Raised? ==> r.out == "" && r.err == t.message && r.code == -1
    ensures t.Completed? ==> r.out == t.out && r.err == t.err && r.code == t.code
  {
    match t
    case Completed(out, err, code) => CommandResult(out, err, code)
    case Raised(message) => CommandResult("", message, -1)
  }

  /** The stored connection details of one server. */
  datatype Target = Target(host: string, port: int, username: string, authType: string,
                           password: Option<string>, sshKey: Option<string>)

  /** What `_create_client` authenticates with: private-key text (tried as RSA, then
      as Ed25519) or the stored password (possibly NULL). */
  datatype Credential = KeyAuth(keyText: string) | PasswordAuth(password: Option<string>)

  /** `_create_client`'s choice: the key only when the auth type is "key" and a
      non-empty key is stored; every other server uses its password. */
  function CredentialFor(t: Target): (c: Credential)
    ensures c.KeyAuth? <==> t.authType == "key" && t.sshKey.Some? && t.sshKey.value != ""
    ensures c.KeyAuth? ==> Some(c.keyText) == t.sshKey
    ensures c.PasswordAuth? ==> c.password == t.password
  {
    if t.authType == "key" && t.sshKey.Some? && t.sshKey.value != "" then KeyAuth(t.sshKey.value)
    else PasswordAuth(t.password)
  }

  /** The timeout `execute` uses when the caller gives none. */
  const DefaultTimeout := 30

  /** `check_connection` runs `echo ok` with a 10 second timeout. */
  const CheckConnectionRequest := Request("echo ok", 10)

  /** `check_connection`: reachable iff the command exited 0 and printed "ok". */
  function CheckConnection(r: CommandResult): (online: bool)
    ensures online <==> r.code == 0 && exists k :: OccursAt(r.out, "ok", k)
  {
    ContainsOccurrence(r.out, "ok");
    r.code == 0 && Contains(r.out, "ok")
  }

  /** The `chpasswd` pipeline `change_password` runs, with the default timeout. */
  function ChangePasswordRequest(username: string, newPassword: string): Request
  {
    Request("echo '" + username + ":" + newPassword + "' | chpasswd", DefaultTimeout)
  }

  const PasswordChangedMessage := "Password changed successfully"

  /** `change_password`: success iff the pipeline exited 0; on success a fixed
      confirmation, on failure the command's stderr. */
  function ChangePassword(r: CommandResult): (res: (bool, string))
    ensures res.0 <==> r.code == 0
    ensures res.0 ==> res.1 == PasswordChangedMessage && |res.1| > 0
    ensures !res.0 ==> res.1 == r.err
  {
    if r.code == 0 then (true, PasswordChangedMessage) else (false, r.err)
  }

  /** Pull, restart and show the log tail of the compose project in `dir`. */
  function Redeploy(dir: string): string
  {
    "cd " + dir + " && docker compose pull && docker compose down && docker compose up -d && docker compose logs --tail=50"
  }

  const RemnawaveScripts: map<string, string> := map[
    "panel" := Redeploy("/opt/remnawave"),
    "node" := Redeploy("/opt/remnanode"),
    "subscription" := Redeploy("/opt/remnawave/subscription"),
    "clean" := "docker image prune -f"
  ]

  const UnknownComponentCommand := "echo 'Unknown component'"

  /** `execute_remnawave`: the script for a known component, a harmless echo for any
      other name, always with the extended 120 second timeout. */
  function RemnawaveRequest(component: string): (req: Request)
    ensures req.timeout == 120
    ensures component in RemnawaveScripts ==> req.command == RemnawaveScripts[component]
    ensures component !in RemnawaveScripts ==> req.command == UnknownComponentCommand
  {
    Request(if component in RemnawaveScripts then RemnawaveScripts[component] else UnknownComponentCommand, 120)
  }

  // ---------------------------------------------------------------------------
  // The metrics probe

  /** `get_metrics` runs the probe script with a 15 second timeout. */
  const ProbeTimeout := 15

  /** A metrics snapshot: every key `_parse_metrics` guarantees, plus `load_1m`,
      which is present only when a CPU section was read. */
  datatype Metrics = Metrics(
    cpuPercent: real, cpuCores: int,
    ramTotal: int, ramUsed: int, ramPercent: real,
    diskTotal: int, diskUsed: int, diskPercent: real,
    uptime: int, netUpload: int, netDownload: int, pingMs: int,
    load1m: Option<real>)

  /** A used/total pair as `free` and `df` report it, in bytes. */
  datatype Usage = Usage(used: int, total: int)

  /** The CPU usage figure: the one `top` printed, or the estimate from the load and
      core count read so far. */
  datatype CpuReading = Reported(value: real) | Estimated(load: real, cores: int)

  /** The keys set so far while the sections are read. Percentages are kept as the
      figures they are computed from and evaluated by `Finish`. */
  datatype Partial = Partial(
    load1m: Option<real>, cpuCores: Option<int>,
    ram: Option<Usage>, disk: Option<Usage>,
    uptime: Option<int>, cpuPercent: Option<CpuReading>)

  const NoKeys := Partial(None, None, None, None, None, None)

  /** The sections `_parse_metrics` reads; NET is printed but not read. */
  datatype Section = Cpu | Mem | Disk | Uptime | CpuPercent

  const Labels: set<string> := {"CPU", "MEM", "DISK", "UPTIME", "CPU_PERCENT"}

  /** The label the probe prints in front of a section. */
  function LabelName(sec: Section): (name: string)
    ensures name in Labels && Trimmed(name) && '=' !in name
  {
    match sec
    case Cpu => "CPU"
    case Mem => "MEM"
    case Disk => "DISK"
    case Uptime => "UPTIME"
    case CpuPercent => "CPU_PERCENT"
  }

  /** Which section a stripped chunk names, if any. */
  function SectionOf(name: string): (sec: Option<Section>)
    ensures sec.Some? <==> name in Labels
    ensures sec.Some? ==> LabelName(sec.value) == name
  {
    if name == "CPU" then Some(Cpu)
    else if name == "MEM" then Some(Mem)
    else if name == "DISK" then Some(Disk)
    else if name == "UPTIME" then Some(Uptime)
    else if name == "CPU_PERCENT" then Some(CpuPercent)
    else None
  }

  /** Each label names its own section. */
  lemma SectionOfLabel(sec: Section)
    ensures SectionOf(LabelName(sec)) == Some(sec)
  {
  }

  /** `used / total * 100`, or 0 for a zero total. */
  function Percent(used: int, total: int): (p: real)
    ensures total == 0 ==> p == 0.0
    ensures total > 0 && 0 <= used <= total ==> 0.0 <= p <= 100.0
  {
    if total != 0 then used as real / total as real * 100.0 else 0.0
  }

  /** The CPU usage estimated from the 1-minute load and the core count (at least 1). */
  function CpuEstimate(load: real, cores: int): (pct: real)
    ensures cores >= 1 && load >= 0.0 ==> pct >= 0.0
  {
    load / Max(cores, 1) as real * 100.0
  }

  ghost predicate Consistent(m: Metrics) {
    && m.ramPercent == Percent(m.ramUsed, m.ramTotal)
    && m.diskPercent == Percent(m.diskUsed, m.diskTotal)
  }

  /** Reads `line`, the stripped chunk that follows the label of section `sec`;
      `None` is an exception escaping `_parse_metrics` (a field that is not a number,
      a missing token). */
  function ReadSection(sec: Section, line: string, acc: Partial): (r: Option<Partial>)
  {
    match sec
    case Cpu => ReadCpu(line, acc)
    case Mem =>
      (match ReadUsage(line, 3)
       case None => None
       case Some(None) => Some(acc)
       case Some(Some(u)) => Some(acc.(ram := Some(u))))
    case Disk =>
      (match ReadUsage(line, 4)
       case None => None
       case Some(None) => Some(acc)
       case Some(Some(u)) => Some(acc.(disk := Some(u))))
    case Uptime =>
      (match ReadUptime(line)
       case None => None
       case Some(u) => Some(acc.(uptime := Some(u))))
    case CpuPercent => Some(acc.(cpuPercent := Some(ReadCpuPercent(line, acc))))
  }

  /** Each section sets only its own keys, and only CPU_PERCENT never raises. */
  lemma ReadSectionKeys(sec: Section, line: string, acc: Partial)
    ensures var r := ReadSection(sec, line, acc);
            && (r.Some? && sec.Cpu? ==> r.value.(load1m := acc.load1m, cpuCores := acc.cpuCores) == acc)
            && (r.Some? && sec.Mem? ==> r.value.(ram := acc.ram) == acc)
            && (r.Some? && sec.Disk? ==> r.value.(disk := acc.disk) == acc)
            && (r.Some? && sec.Uptime? ==> r.value == acc.(uptime := r.value.uptime) && r.value.uptime.Some?)
            && (sec.CpuPercent? ==>
                  r.Some? && r.value == acc.(cpuPercent := r.value.cpuPercent) && r.value.cpuPercent.Some?)
  {
  }

  /** CPU: the first word of the first line is the 1-minute load, the second line
      the core count; fewer than two lines set nothing. */
  function ReadCpu(line: string, acc: Partial): (r: Option<Partial>)
  {
    var lines := SplitOn(line, "\n");
    if |lines| < 2 then Some(acc)
    else
      var load := Words(lines[0]);
      if |load| == 0 then None
      else
        match (ParseDecimal(load[0]), ParseInt(lines[1]))
        case (Some(l), Some(c)) => Some(acc.(load1m := Some(l), cpuCores := Some(c)))
        case _ => None
  }

  /** MEM and DISK: the second and third fields are total and used, read only when
      the line has at least `minFields` fields (3 for `free`, 4 for `df`). */
  function ReadUsage(line: string, minFields: nat): (r: Option<Option<Usage>>)
    requires minFields >= 3
  {
    var parts := Words(line);
    if |parts| < minFields then Some(None)
    else
      match (ParseInt(parts[1]), ParseInt(parts[2]))
      case (Some(total), Some(used)) => Some(Some(Usage(used, total)))
      case _ => None
  }

  /** UPTIME: the first word, as a float truncated to whole seconds. */
  function ReadUptime(line: string): (r: Option<int>)
  {
    var tokens := Words(line);
    if |tokens| == 0 then None
    else
      match ParseDecimal(tokens[0])
      case Some(u) => Some(Trunc(u))
      case None => None
  }

  /** CPU_PERCENT: the figure `top` printed, with a decimal comma accepted; anything
      unreadable falls back to the estimate. It never raises. */
  function ReadCpuPercent(line: string, acc: Partial): (c: CpuReading)
  {
    match ParseDecimal(ReplaceChar(line, ',', '.'))
    case Some(v) => Reported(v)
    case None => CpuFallback(acc)
  }

  /** The fallback when `top` printed nothing readable: the estimate from the load
      and core count as read so far, 0 and 1 when not read. */
  function CpuFallback(acc: Partial): (c: CpuReading)
    ensures c.Estimated? && Some(c.load) == Some(acc.load1m.GetOr(0.0)) && c.cores == acc.cpuCores.GetOr(1)
  {
    Estimated(acc.load1m.GetOr(0.0), acc.cpuCores.GetOr(1))
  }

  /** One iteration of the loop over the chunks: an empty chunk or one that is not a
      label is skipped; a label reads the next chunk, and raises if there is none. */
  function Step(sections: seq<string>, i: nat, acc: Partial): (r: Option<Partial>)
    requires i < |sections|
    ensures SectionOf(Strip(sections[i])).None? ==> r == Some(acc)
    ensures SectionOf(Strip(sections[i])).Some? && i + 1 == |sections| ==> r.None?
  {
    var name := Strip(sections[i]);
    if name == "" then Some(acc)
    else
      match SectionOf(name)
      case None => Some(acc)
      case Some(sec) => if i + 1 < |sections| then ReadSection(sec, Strip(sections[i + 1]), acc) else None
  }

  /** The loop from chunk `i` to the end. */
  function Run(sections: seq<string>, i: nat, acc: Partial): (r: Option<Partial>)
    requires i <= |sections|
    decreases |sections| - i
  {
    if i == |sections| then Some(acc)
    else
      match Step(sections, i, acc)
      case Some(next) => Run(sections, i + 1, next)
      case None => None
  }

  /** The `setdefault` calls: `cpu_cores` falls back to 1, every other field to 0;
      the percentages are evaluated from the figures read. */
  function Finish(p: Partial): (m: Metrics)
    ensures Consistent(m)
    ensures m.netUpload == 0 && m.netDownload == 0 && m.pingMs == 0
    ensures m.cpuCores == p.cpuCores.GetOr(1) && m.load1m == p.load1m && m.uptime == p.uptime.GetOr(0)
    ensures p.ram.None? ==> m.ramTotal == 0 && m.ramUsed == 0 && m.ramPercent == 0.0
    ensures p.ram.Some? ==> m.ramTotal == p.ram.value.total && m.ramUsed == p.ram.value.used
    ensures p.disk.None? ==> m.diskTotal == 0 && m.diskUsed == 0 && m.diskPercent == 0.0
    ensures p.disk.Some? ==> m.diskTotal == p.disk.value.total && m.diskUsed == p.disk.value.used
    ensures p.cpuPercent.None? ==> m.cpuPercent == 0.0
    ensures p.cpuPercent.Some? && p.cpuPercent.value.Reported? ==> m.cpuPercent == p.cpuPercent.value.value
  {
    var ram := p.ram.GetOr(Usage(0, 0));
    var disk := p.disk.GetOr(Usage(0, 0));
    Metrics(
      match p.cpuPercent
      case None => 0.0
      case Some(Reported(v)) => v
      case Some(Estimated(l, c)) => CpuEstimate(l, c),
      p.cpuCores.GetOr(1),
      ram.total, ram.used, Percent(ram.used, ram.total),
      disk.total, disk.used, Percent(disk.used, disk.total),
      p.uptime.GetOr(0), 0, 0, 0, p.load1m)
  }

  const ProbeSeparator := "==="

  /** `_parse_metrics`: split on "===", read every recognised label's following
      chunk, then fill in defaults. `None` when it raises. */
  function ParseMetrics(output: string): (r: Option<Metrics>)
    ensures r.Some? ==> Consistent(r.value)
    ensures r.Some? ==> r.value.netUpload == 0 && r.value.netDownload == 0 && r.value.pingMs == 0
  {
    match Run(SplitOn(output, ProbeSeparator), 0, NoKeys)
    case Some(p) => Some(Finish(p))
    case None => None
  }

  /** `get_metrics`: nothing when the probe exited non-zero or its output could not
      be parsed, otherwise the parsed record. */
  function GetMetrics(r: CommandResult): (m: Option<Metrics>)
    ensures r.code != 0 ==> m.None?
    ensures r.code == 0 ==> m == ParseMetrics(r.out)
  {
    if r.code != 0 then None else ParseMetrics(r.out)
  }
}
