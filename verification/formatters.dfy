/** The pure text helpers of `utils/formatters.py`: the progress bar, the uptime
    and integral money renderings, and the classification parts of the status,
    reminder and balance messages. Fixed message decoration (emoji, HTML,
    Russian labels) is abstracted into view datatypes. */
module Formatters {
  import opened Wrappers
  import opened Text
  import Database
  import SshManager

  // ---------------------------------------------------------------------------
  // progress_bar

  const FullCell := '\U{2593}'
  const EmptyCell := '\U{2591}'

  /** `progress_bar(percent, length)`: `int(length * percent / 100)` full cells,
      then `length` minus that many empty ones (Python repeats a negative count
      as nothing). */
  function ProgressBar(percent: real, length: int): (r: string)
    ensures length >= 0 && 0.0 <= percent <= 100.0 ==> |r| == length
  {
    var filled := Trunc(length as real * percent / 100.0);
    if length >= 0 && 0.0 <= percent <= 100.0 then
      FilledInRange(percent, length);
      Repeat(FullCell, filled) + Repeat(EmptyCell, length - filled)
    else Repeat(FullCell, filled) + Repeat(EmptyCell, length - filled)
  }

  lemma FilledInRange(percent: real, length: int)
    requires length >= 0 && 0.0 <= percent <= 100.0
    ensures 0 <= Trunc(length as real * percent / 100.0) <= length
  {
    var l := length as real;
    assert 0.0 <= l * percent;
    assert l * percent <= l * 100.0 by {
      assert l * 100.0 - l * percent == l * (100.0 - percent);
    }
    var x := l * percent / 100.0;
    assert 0.0 <= x <= l;
    assert Trunc(x) as real <= l;
  }

  /** Cell `i` of a bar is full exactly when the first `i + 1` cells' worth of
      the bar, `(i + 1) * 100 / length` percent, is reached. */
  lemma ProgressBarCells(percent: real, length: int, i: int)
    requires length >= 0 && 0.0 <= percent <= 100.0 && 0 <= i < length
    ensures ProgressBar(percent, length)[i] == FullCell <==> (i + 1) as real * 100.0 <= length as real * percent
    ensures ProgressBar(percent, length)[i] == FullCell || ProgressBar(percent, length)[i] == EmptyCell
  {
    var x := length as real * percent / 100.0;
    var filled := Trunc(x);
    assert 0.0 <= x;
    assert length as real * percent <= length as real * 100.0;
    assert filled <= length;
    var r := ProgressBar(percent, length);
    assert r == Repeat(FullCell, filled) + Repeat(EmptyCell, length - filled);
    if i < filled {
      assert r[i] == FullCell;
      assert (i + 1) as real <= filled as real;
    } else {
      assert r[i] == Repeat(EmptyCell, length - filled)[i - filled];
      assert x < (i + 1) as real;
    }
  }

  /** The status message's bars are ten cells wide for any in-range percentage. */
  lemma ProgressBarWidth(percent: real)
    requires 0.0 <= percent <= 100.0
    ensures |ProgressBar(percent, 10)| == 10
    ensures ProgressBar(0.0, 10) == Repeat(EmptyCell, 10)
    ensures ProgressBar(100.0, 10) == Repeat(FullCell, 10)
  {
    assert Repeat(FullCell, 0) == "";
    assert Repeat(EmptyCell, 0) == "";
  }

  // ---------------------------------------------------------------------------
  // format_uptime

  const DayUnit := '\U{0434}'
  const HourUnit := '\U{0447}'
  const MinuteUnit := '\U{043C}'

  /** Whole days, then the hours and minutes left over, by floor division as in
      Python; the seconds below a minute are dropped. */
  function UptimeParts(seconds: int): (r: (int, int, int))
    ensures 0 <= r.1 < 24 && 0 <= r.2 < 60
    ensures 86400 * r.0 + 3600 * r.1 + 60 * r.2 <= seconds < 86400 * r.0 + 3600 * r.1 + 60 * r.2 + 60
  {
    var days := seconds / 86400;
    var dayRest := seconds % 86400;
    var hours := dayRest / 3600;
    var minutes := (seconds % 3600) / 60;
    assert seconds % 3600 == dayRest % 3600 by {
      assert seconds == 3600 * (24 * days + hours) + dayRest % 3600;
    }
    assert dayRest == 3600 * hours + 60 * minutes + (seconds % 3600) % 60;
    (days, hours, minutes)
  }

  /** One part of an uptime: a count and its unit letter. */
  datatype UptimeField = UptimeField(count: int, unit: char)

  /** The parts in display order. */
  function UptimeFields(seconds: int): (fs: seq<UptimeField>)
    ensures |fs| == 3
  {
    var (d, h, m) := UptimeParts(seconds);
    [UptimeField(d, DayUnit), UptimeField(h, HourUnit), UptimeField(m, MinuteUnit)]
  }

  /** One word of the uptime: the count followed by its unit letter. */
  function UptimeWord(f: UptimeField): string {
    IntToString(f.count) + [f.unit]
  }

  /** The words shown: every part with a non-zero count, and the last part always. */
  function Render(fs: seq<UptimeField>): (r: seq<string>)
    requires |fs| >= 1
    ensures 1 <= |r| <= |fs|
    decreases |fs|
  {
    if |fs| == 1 then [UptimeWord(fs[0])]
    else (if fs[0].count != 0 then [UptimeWord(fs[0])] else []) + Render(fs[1..])
  }

  /** `format_uptime(seconds)` */
  function FormatUptime(seconds: int): string {
    Join(Render(UptimeFields(seconds)), " ")
  }

  /** The seconds in `n` of a unit, for the three unit letters. */
  function Scaled(n: int, unit: char): Option<int> {
    if unit == DayUnit then Some(86400 * n)
    else if unit == HourUnit then Some(3600 * n)
    else if unit == MinuteUnit then Some(60 * n)
    else None
  }

  /** Reads one uptime word back as seconds. */
  function WordSeconds(w: string): Option<int> {
    if |w| == 0 then None
    else match ParseInt(w[..|w| - 1])
      case Some(n) => Scaled(n, w[|w| - 1])
      case None => None
  }

  /** Reads a rendered uptime back as seconds: the sum over its words. */
  function ReadUptime(words: seq<string>): Option<int>
    decreases |words|
  {
    if words == [] then Some(0)
    else match (WordSeconds(words[0]), ReadUptime(words[1..]))
      case (Some(a), Some(b)) => Some(a + b)
      case _ => None
  }

  /** The seconds the parts stand for. */
  function Worth(fs: seq<UptimeField>): int
    decreases |fs|
  {
    if fs == [] then 0 else Scaled(fs[0].count, fs[0].unit).GetOr(0) + Worth(fs[1..])
  }

  lemma WordRoundTrip(f: UptimeField)
    ensures WordSeconds(UptimeWord(f)) == Scaled(f.count, f.unit)
  {
    var w := UptimeWord(f);
    assert w[..|w| - 1] == IntToString(f.count);
    IntToStringRoundTrip(f.count);
  }

  /** A word never contains the separating space. */
  lemma WordNoSpace(f: UptimeField)
    requires f.unit != ' '
    ensures ' ' !in UptimeWord(f)
  {
    var w := UptimeWord(f);
    IntToStringTrimmed(f.count);
    assert IsSpace(' ');
    forall i | 0 <= i < |w|
      ensures w[i] != ' '
    {
      if i < |w| - 1 {
        assert w[i] == IntToString(f.count)[i];
      }
    }
  }

  lemma ReadCons(w: string, rest: seq<string>, a: int, b: int)
    requires WordSeconds(w) == Some(a) && ReadUptime(rest) == Some(b)
    ensures ReadUptime([w] + rest) == Some(a + b)
  {
    assert ([w] + rest)[1..] == rest;
  }

  ghost predicate KnownUnits(fs: seq<UptimeField>) {
    forall i :: 0 <= i < |fs| ==> Scaled(fs[i].count, fs[i].unit).Some?
  }

  lemma KnownUnitsTail(fs: seq<UptimeField>)
    requires |fs| >= 1 && KnownUnits(fs)
    ensures KnownUnits(fs[1..]) && Scaled(fs[0].count, fs[0].unit).Some?
  {
    forall i | 0 <= i < |fs| - 1
      ensures Scaled(fs[1..][i].count, fs[1..][i].unit).Some?
    {
      assert fs[1..][i] == fs[i + 1];
    }
  }

  lemma ReadLast(fs: seq<UptimeField>)
    requires |fs| == 1 && KnownUnits(fs)
    ensures ReadUptime(Render(fs)) == Some(Worth(fs))
  {
    var f := fs[0];
    var v := Scaled(f.count, f.unit).value;
    WordRoundTrip(f);
    var w := UptimeWord(f);
    ReadCons(w, [], v, 0);
    assert [w] + [] == [w];
    assert fs[1..] == [];
  }

  lemma ReadShown(fs: seq<UptimeField>)
    requires |fs| > 1 && KnownUnits(fs) && fs[0].count != 0
    requires ReadUptime(Render(fs[1..])) == Some(Worth(fs[1..]))
    ensures ReadUptime(Render(fs)) == Some(Worth(fs))
  {
    var f := fs[0];
    var a := Scaled(f.count, f.unit).value;
    assert Render(fs) == [UptimeWord(f)] + Render(fs[1..]);
    assert Worth(fs) == a + Worth(fs[1..]);
    WordRoundTrip(f);
    ReadCons(UptimeWord(f), Render(fs[1..]), a, Worth(fs[1..]));
  }

  lemma ReadHidden(fs: seq<UptimeField>)
    requires |fs| > 1 && KnownUnits(fs) && fs[0].count == 0
    requires ReadUptime(Render(fs[1..])) == Some(Worth(fs[1..]))
    ensures ReadUptime(Render(fs)) == Some(Worth(fs))
  {
    assert Render(fs) == Render(fs[1..]);
    assert Scaled(fs[0].count, fs[0].unit).GetOr(0) == 0;
    assert Worth(fs) == Worth(fs[1..]);
  }

  /** Leaving out zero parts loses nothing: the shown words read back as the
      worth of all the parts. */
  lemma {:induction false} RenderRead(fs: seq<UptimeField>)
    requires |fs| >= 1 && KnownUnits(fs)
    ensures ReadUptime(Render(fs)) == Some(Worth(fs))
    decreases |fs|
  {
    if |fs| == 1 {
      ReadLast(fs);
    } else {
      KnownUnitsTail(fs);
      RenderRead(fs[1..]);
      if fs[0].count != 0 {
        ReadShown(fs);
      } else {
        ReadHidden(fs);
      }
    }
  }

  /** No shown word contains the separating space. */
  lemma {:induction false} RenderNoSpace(fs: seq<UptimeField>)
    requires |fs| >= 1 && KnownUnits(fs)
    ensures forall i :: 0 <= i < |Render(fs)| ==> " "[0] !in Render(fs)[i]
    decreases |fs|
  {
    KnownUnitsTail(fs);
    WordNoSpace(fs[0]);
    if |fs| > 1 {
      RenderNoSpace(fs[1..]);
      var r := Render(fs);
      var rest := Render(fs[1..]);
      forall i | 0 <= i < |r|
        ensures " "[0] !in r[i]
      {
        if fs[0].count != 0 && i > 0 {
          assert r[i] == rest[i - 1];
        } else if fs[0].count == 0 {
          assert r[i] == rest[i];
        }
      }
    }
  }

  lemma RoundDown(s: int, q: int)
    requires 60 * q <= s < 60 * q + 60
    ensures s - s % 60 == 60 * q
  {
  }

  /** Joining space-free words with spaces and splitting again reads the same. */
  lemma ReadSplit(ws: seq<string>, v: int)
    requires |ws| >= 1 && forall i :: 0 <= i < |ws| ==> " "[0] !in ws[i]
    requires ReadUptime(ws) == Some(v)
    ensures ReadUptime(SplitOn(Join(ws, " "), " ")) == Some(v)
  {
    SplitJoin(ws, " ");
  }

  lemma FieldsWorth(seconds: int)
    ensures var p := UptimeParts(seconds);
      KnownUnits(UptimeFields(seconds)) && Worth(UptimeFields(seconds)) == 86400 * p.0 + 3600 * p.1 + 60 * p.2
  {
    var p := UptimeParts(seconds);
    var fs := UptimeFields(seconds);
    assert fs[1..][1..] == [fs[2]];
    assert Worth([fs[2]]) == 60 * p.2 by {
      assert [fs[2]][1..] == [];
    }
  }

  /** The rendered uptime reads back as the input rounded down to a whole
      minute: omitting zero days or hours loses nothing. */
  lemma UptimeRoundTrip(seconds: int)
    ensures ReadUptime(SplitOn(FormatUptime(seconds), " ")) == Some(seconds - seconds % 60)
  {
    var fs := UptimeFields(seconds);
    calc {
      ReadUptime(SplitOn(FormatUptime(seconds), " "));
    == { RenderRead(fs); RenderNoSpace(fs); ReadSplit(Render(fs), Worth(fs)); }
      Some(Worth(fs));
    == { WorthIsWholeMinutes(seconds); }
      Some(seconds - seconds % 60);
    }
  }

  lemma WorthIsWholeMinutes(seconds: int)
    ensures Worth(UptimeFields(seconds)) == seconds - seconds % 60
  {
    var p := UptimeParts(seconds);
    FieldsWorth(seconds);
    RoundDown(seconds, 1440 * p.0 + 60 * p.1 + p.2);
  }

  /** Days and hours appear exactly when non-zero; minutes always close the text. */
  lemma UptimeShape(seconds: int)
    ensures var p := UptimeParts(seconds);
      var ws := Render(UptimeFields(seconds));
      && |ws| == 1 + (if p.0 != 0 then 1 else 0) + (if p.1 != 0 then 1 else 0)
      && ws[|ws| - 1] == UptimeWord(UptimeField(p.2, MinuteUnit))
      && (p.0 != 0 ==> ws[0] == UptimeWord(UptimeField(p.0, DayUnit)))
  {
    var fs := UptimeFields(seconds);
    assert fs[1..][1..] == [fs[2]];
    assert Render(fs[1..][1..]) == [UptimeWord(fs[2])];
  }

  // ---------------------------------------------------------------------------
  // format_money, integral amounts

  const Rouble := '\U{20BD}'

  /** Python's `,` format specifier on a digit string: a separator before every
      third digit from the right. */
  function Group(d: string, sep: char): (r: string)
    ensures |d| > 0 ==> |r| == |d| + (|d| - 1) / 3
    decreases |d|
  {
    if |d| <= 3 then d else Group(d[..|d| - 3], sep) + [sep] + d[|d| - 3..]
  }

  /** `f"{n:,}"` */
  function Thousands(n: int): string {
    (if n < 0 then "-" else "") + Group(NatToString(if n < 0 then -n else n), ',')
  }

  /** `format_money(n)` for an integral amount: `f"{n:,}₽"` with the commas
      replaced by spaces. */
  function FormatMoney(n: int): (r: string)
    ensures |r| >= 2 && r[|r| - 1] == Rouble
  {
    ReplaceChar(Thousands(n), ',', ' ') + [Rouble]
  }

  /** `s` with every `c` removed. */
  function Without(s: string, c: char): (r: string)
    ensures c !in r
    decreases |s|
  {
    if s == [] then [] else (if s[0] == c then [] else [s[0]]) + Without(s[1..], c)
  }

  lemma {:induction false} WithoutAppend(a: string, b: string, c: char)
    ensures Without(a + b, c) == Without(a, c) + Without(b, c)
    decreases |a|
  {
    if a != [] {
      assert (a + b)[0] == a[0];
      assert (a + b)[1..] == a[1..] + b;
      WithoutAppend(a[1..], b, c);
      var x := if a[0] == c then [] else [a[0]];
      assert Without(a + b, c) == x + (Without(a[1..], c) + Without(b, c));
      assert Without(a, c) == x + Without(a[1..], c);
    } else {
      assert a + b == b;
    }
  }

  lemma {:induction false} WithoutAbsent(s: string, c: char)
    requires c !in s
    ensures Without(s, c) == s
    decreases |s|
  {
    if s != [] {
      WithoutAbsent(s[1..], c);
    }
  }

  lemma ReplaceCharAppend(a: string, b: string, x: char, y: char)
    ensures ReplaceChar(a + b, x, y) == ReplaceChar(a, x, y) + ReplaceChar(b, x, y)
  {
  }

  /** Grouping with commas and then replacing them is grouping with the new separator. */
  lemma {:induction false} GroupReplace(d: string, x: char, y: char)
    requires x !in d
    ensures ReplaceChar(Group(d, x), x, y) == Group(d, y)
    decreases |d|
  {
    if |d| <= 3 {
      assert ReplaceChar(d, x, y) == d;
    } else {
      var head := d[..|d| - 3];
      var tail := d[|d| - 3..];
      assert x !in head && x !in tail;
      GroupReplace(head, x, y);
      ReplaceCharAppend(Group(head, x) + [x], tail, x, y);
      ReplaceCharAppend(Group(head, x), [x], x, y);
      assert ReplaceChar(tail, x, y) == tail;
    }
  }

  /** Removing the separators of a grouping gives the digits back. */
  lemma {:induction false} GroupUngroup(d: string, sep: char)
    requires sep !in d
    ensures Without(Group(d, sep), sep) == d
    decreases |d|
  {
    if |d| <= 3 {
      WithoutAbsent(d, sep);
    } else {
      var head := d[..|d| - 3];
      var tail := d[|d| - 3..];
      assert sep !in head && sep !in tail;
      GroupUngroup(head, sep);
      UngroupStep(Group(head, sep), head, tail, sep);
      assert d == head + tail;
    }
  }

  lemma UngroupStep(g: string, head: string, tail: string, sep: char)
    requires Without(g, sep) == head && sep !in tail
    ensures Without(g + [sep] + tail, sep) == head + tail
  {
    calc {
      Without(g + [sep] + tail, sep);
    == { WithoutAppend(g + [sep], tail, sep); }
      Without(g + [sep], sep) + Without(tail, sep);
    == { WithoutAppend(g, [sep], sep); WithoutAbsent(tail, sep); }
      head + Without([sep], sep) + tail;
    == { WithoutSeparator(sep); }
      head + tail;
    }
  }

  lemma WithoutSeparator(sep: char)
    ensures Without([sep], sep) == []
  {
    assert [sep][1..] == [];
  }

  /** The printed amount before the rouble sign: the sign, then the digits
      grouped by spaces. */
  lemma MoneyBody(n: int)
    ensures var r := FormatMoney(n);
      r[..|r| - 1] == (if n < 0 then "-" else "") + Group(NatToString(if n < 0 then -n else n), ' ')
  {
    var digits := NatToString(if n < 0 then -n else n);
    var sign := if n < 0 then "-" else "";
    assert ',' !in digits;
    ReplaceCharAppend(sign, Group(digits, ','), ',', ' ');
    assert ReplaceChar(sign, ',', ' ') == sign;
    GroupReplace(digits, ',', ' ');
    var r := FormatMoney(n);
    assert r[..|r| - 1] == ReplaceChar(Thousands(n), ',', ' ');
  }

  /** An integral amount is printed as its decimal digits (and sign), grouped by
      spaces, then the rouble sign: dropping the spaces and the sign reads the
      amount back. */
  lemma MoneyRoundTrip(n: int)
    ensures Without(FormatMoney(n)[..|FormatMoney(n)| - 1], ' ') == IntToString(n)
    ensures ParseInt(Without(FormatMoney(n)[..|FormatMoney(n)| - 1], ' ')) == Some(n)
  {
    var digits := NatToString(if n < 0 then -n else n);
    var sign := if n < 0 then "-" else "";
    assert ' ' !in digits;
    MoneyBody(n);
    WithoutAppend(sign, Group(digits, ' '), ' ');
    WithoutAbsent(sign, ' ');
    GroupUngroup(digits, ' ');
    IntToStringRoundTrip(n);
  }

  /** No comma survives in the printed amount. */
  lemma MoneyNoComma(n: int)
    ensures ',' !in FormatMoney(n)
  {
    var r := FormatMoney(n);
    assert forall i :: 0 <= i < |r| - 1 ==> r[i] != ',';
  }

  // ---------------------------------------------------------------------------
  // format_payment_reminder

  /** The urgency line of a reminder. */
  datatype Urgency = Today | Tomorrow | Soon(days: int) | Later(days: int)

  /** The tier for `days_left`: 0 today, 1 tomorrow, any other value up to 3
      (overdue ones included) soon, the rest later. */
  function UrgencyOf(daysLeft: int): (u: Urgency)
    ensures u.Soon? || u.Later? ==> u.days == daysLeft
  {
    if daysLeft == 0 then Today
    else if daysLeft == 1 then Tomorrow
    else if daysLeft <= 3 then Soon(daysLeft)
    else Later(daysLeft)
  }

  /** How pressing a tier reads, for ordering. */
  function Severity(u: Urgency): nat {
    match u
    case Today => 3
    case Tomorrow => 2
    case Soon(_) => 1
    case Later(_) => 0
  }

  /** Over non-negative offsets the tiers only grow more pressing as the due date
      nears; an overdue payment, however, drops back to the "soon" tier. */
  lemma UrgencyOrdering(a: int, b: int)
    ensures 0 <= a <= b ==> Severity(UrgencyOf(a)) >= Severity(UrgencyOf(b))
    ensures a < 0 ==> UrgencyOf(a) == Soon(a) && Severity(UrgencyOf(a)) < Severity(UrgencyOf(0))
    ensures UrgencyOf(a).Later? <==> a > 3
  {
  }

  /** What a reminder shows; the server name of a payment without a server is
      the text `None`, as the joined column is NULL. */
  datatype Reminder = Reminder(urgency: Urgency, description: string, serverName: string, amount: real, dueDate: string)

  /** `format_payment_reminder(payment, days_left)` */
  function PaymentReminder(p: Database.Payment, serverName: Option<string>, daysLeft: int): (r: Reminder)
    ensures r.urgency == UrgencyOf(daysLeft)
    ensures r.description == p.description && r.amount == p.amount && r.dueDate == p.dueDate
    ensures serverName.Some? ==> r.serverName == serverName.value
    ensures serverName.None? ==> r.serverName == "None"
  {
    Reminder(UrgencyOf(daysLeft), p.description, serverName.GetOr("None"), p.amount, p.dueDate)
  }

  // ---------------------------------------------------------------------------
  // format_server_status

  /** What the status message shows. */
  datatype StatusView =
    | Offline(name: string, host: string)
    | Online(name: string, cpuBar: string, ramBar: string, diskBar: string, cores: int, uptime: string, ping: int)

  /** `format_server_status(server, metrics)`: the Offline block when there are no
      metrics, otherwise the bars and figures of the metrics. */
  function ServerStatus(server: Database.Server, metrics: Option<SshManager.Metrics>): (v: StatusView)
    ensures v.Offline? <==> metrics.None?
    ensures v.name == server.name
    ensures v.Offline? ==> v.host == server.host
    ensures v.Online? ==> v.cores == metrics.value.cpuCores && v.ping == metrics.value.pingMs
  {
    match metrics
    case None => Offline(server.name, server.host)
    case Some(m) =>
      Online(server.name, ProgressBar(m.cpuPercent, 10), ProgressBar(m.ramPercent, 10),
             ProgressBar(m.diskPercent, 10), m.cpuCores, FormatUptime(m.uptime), m.pingMs)
  }

  /** With in-range percentages every bar of the online view is ten cells wide. */
  lemma OnlineBars(server: Database.Server, m: SshManager.Metrics)
    requires 0.0 <= m.cpuPercent <= 100.0 && 0.0 <= m.ramPercent <= 100.0 && 0.0 <= m.diskPercent <= 100.0
    ensures var v := ServerStatus(server, Some(m));
      v.Online? && |v.cpuBar| == 10 && |v.ramBar| == 10 && |v.diskBar| == 10
  {
  }

  // ---------------------------------------------------------------------------
  // format_balance_report

  /** The sum of the amounts of the rows of one operation type. */
  function Total(history: seq<Database.BalanceRow>, operationType: string): real
    decreases |history|
  {
    if history == [] then 0.0
    else
      (if history[0].operationType == operationType then history[0].amount else 0.0)
        + Total(history[1..], operationType)
  }

  /** A total is shown when non-zero, a dash (`None`) otherwise. */
  function Shown(total: real): (r: Option<real>)
    ensures r.None? <==> total == 0.0
    ensures r.Some? ==> r.value == total
  {
    if total != 0.0 then Some(total) else None
  }

  /** The summary block shown when there is history. */
  datatype Totals = Totals(was: real, income: Option<real>, expense: Option<real>, payment: Option<real>)

  datatype BalanceView = BalanceView(summary: Option<Totals>, rest: real)

  /** `format_balance_report(balance, history)` with `history` newest first:
      "was" is the first (newest) row's opening balance, then the per-type totals. */
  function BalanceReport(balance: real, history: seq<Database.BalanceRow>): (v: BalanceView)
    ensures v.rest == balance
    ensures v.summary.Some? <==> |history| > 0
    ensures v.summary.Some? ==> v.summary.value.was == history[0].before
    ensures v.summary.Some? ==> v.summary.value.income == Shown(Total(history, "income"))
    ensures v.summary.Some? ==> v.summary.value.expense == Shown(Total(history, "expense"))
    ensures v.summary.Some? ==> v.summary.value.payment == Shown(Total(history, "payment"))
  {
    if history == [] then BalanceView(None, balance)
    else BalanceView(Some(Totals(history[0].before, Shown(Total(history, "income")),
                                 Shown(Total(history, "expense")), Shown(Total(history, "payment")))), balance)
  }

  /** The rows of one operation type in the window. */
  function OfType(history: seq<Database.BalanceRow>, operationType: string): (r: seq<Database.BalanceRow>)
    ensures forall x :: x in r <==> x in history && x.operationType == operationType
    decreases |history|
  {
    if history == [] then []
    else (if history[0].operationType == operationType then [history[0]] else []) + OfType(history[1..], operationType)
  }

  /** Every amount in the window is positive. */
  predicate PositiveAmounts(history: seq<Database.BalanceRow>) {
    forall i :: 0 <= i < |history| ==> history[i].amount > 0.0
  }

  /** With positive amounts, a total is never negative, and it is 0 exactly
      when the window has no row of that type. */
  lemma {:induction false} TotalZeroIffNone(history: seq<Database.BalanceRow>, operationType: string)
    requires PositiveAmounts(history)
    ensures Total(history, operationType) >= 0.0
    ensures Total(history, operationType) == 0.0 <==> OfType(history, operationType) == []
    decreases |history|
  {
    if history != [] {
      TotalZeroIffNone(history[1..], operationType);
    }
  }

  /** A field of the report shows a dash exactly when the window has no
      operation of that type. */
  lemma DashIffNoOperation(balance: real, history: seq<Database.BalanceRow>)
    requires |history| > 0 && PositiveAmounts(history)
    ensures var t := BalanceReport(balance, history).summary.value;
      && (t.income.None? <==> OfType(history, "income") == [])
      && (t.expense.None? <==> OfType(history, "expense") == [])
      && (t.payment.None? <==> OfType(history, "payment") == [])
  {
    TotalZeroIffNone(history, "income");
    TotalZeroIffNone(history, "expense");
    TotalZeroIffNone(history, "payment");
  }

  /** The three totals' net effect: income in, expense and payment out. */
  function Net(history: seq<Database.BalanceRow>): real {
    Total(history, "income") - Total(history, "expense") - Total(history, "payment")
  }

  predicate KnownType(row: Database.BalanceRow) {
    row.operationType in {"income", "expense", "payment"}
  }

  lemma {:induction false} TotalAppend(h: seq<Database.BalanceRow>, x: Database.BalanceRow, t: string)
    ensures Total(h + [x], t) == Total(h, t) + (if x.operationType == t then x.amount else 0.0)
    decreases |h|
  {
    if h != [] {
      assert (h + [x])[1..] == h[1..] + [x];
      TotalAppend(h[1..], x, t);
    } else {
      assert [x][1..] == [];
    }
  }

  /** On a chained ledger of income, expense and payment rows, the oldest shown
      row's opening balance plus the shown net equals the current balance, and
      "was" is the balance before the newest operation. */
  lemma BalanceWindow(s: Database.Store, limit: nat)
    requires Database.Chained(s.ledger) && 0 < limit && |s.ledger| > 0
    requires forall i :: 0 <= i < |s.ledger| ==> KnownType(s.ledger[i])
    ensures var h := Database.History(s, limit);
      var v := BalanceReport(Database.Balance(s), h);
      && v.summary.Some?
      && v.summary.value.was + Database.Signed(h[0].operationType, h[0].amount) == v.rest
      && h[|h| - 1].before + Net(h) == v.rest
  {
    var n := |s.ledger|;
    var h := Database.History(s, limit);
    assert Database.LinkedAt(s.ledger, n - 1);
    WindowNet(s, |h|);
  }

  /** The newest `k` rows, newest first, reconcile with the balance. */
  lemma {:induction false} WindowNet(s: Database.Store, k: nat)
    requires Database.Chained(s.ledger) && 0 < k <= |s.ledger|
    requires forall i :: 0 <= i < |s.ledger| ==> KnownType(s.ledger[i])
    ensures var h := Database.History(s, k);
      h[k - 1].before + Net(h) == Database.Balance(s)
    decreases k
  {
    var n := |s.ledger|;
    var h := Database.History(s, k);
    var x := s.ledger[n - k];
    assert h[k - 1] == x;
    assert Database.LinkedAt(s.ledger, n - k);
    assert KnownType(x);
    if k == 1 {
      assert h == [] + [x];
      TotalAppend([], x, "income");
      TotalAppend([], x, "expense");
      TotalAppend([], x, "payment");
    } else {
      WindowNet(s, k - 1);
      var g := Database.History(s, k - 1);
      assert h == g + [x];
      TotalAppend(g, x, "income");
      TotalAppend(g, x, "expense");
      TotalAppend(g, x, "payment");
      assert g[k - 2] == s.ledger[n - k + 1];
      assert Database.LinkedAt(s.ledger, n - k + 1);
    }
  }
}
