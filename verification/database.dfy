/** The SQLite store (`Database`) as a value: the servers and payments tables as
    sequences in insertion (id) order, the balance ledger in insertion order, and
    the settings and admins tables as maps keyed by their primary keys. Every
    write is a function from the store before to the store after. */
module Database {
  import opened Wrappers
  import opened Text

  // ---------------------------------------------------------------------------
  // Rows

  /** A row of `servers`; `active` is the `is_active` flag. */
  datatype Server = Server(
    id: int, name: string, host: string, port: int, username: string,
    authType: string, password: Option<string>, sshKey: Option<string>, active: bool)

  /** A row of `payments`. `serverId` and `notifiedDays` may be NULL. */
  datatype Payment = Payment(
    id: int, serverId: Option<int>, description: string, amount: real, currency: string,
    dueDate: string, recurring: int, recurringMonths: int, paid: bool, notifiedDays: Option<string>)

  /** A row of `balance_history`. */
  datatype BalanceRow = BalanceRow(
    operationType: string, amount: real, description: Option<string>, before: real, after: real)

  /** The whole database. `admins` maps a Telegram id to the stored username. */
  datatype Store = Store(
    servers: seq<Server>, payments: seq<Payment>, ledger: seq<BalanceRow>,
    settings: map<string, string>, admins: map<int, Option<string>>)

  /** The freshly created database. */
  const EmptyStore := Store([], [], [], map[], map[])

  // ---------------------------------------------------------------------------
  // Servers

  /** The row with the given id, if any (`SELECT … WHERE id = ?`). */
  function FindServer(xs: seq<Server>, id: int): (r: Option<Server>)
    ensures r.Some? ==> r.value in xs && r.value.id == id
    ensures r.None? ==> forall x :: x in xs ==> x.id != id
    decreases |xs|
  {
    if xs == [] then None else if xs[0].id == id then Some(xs[0]) else FindServer(xs[1..], id)
  }

  /** The largest id in use, 0 for an empty table. */
  function MaxServerId(xs: seq<Server>): (m: int)
    ensures m >= 0
    ensures forall x :: x in xs ==> x.id <= m
    decreases |xs|
  {
    if xs == [] then 0 else Max(xs[0].id, MaxServerId(xs[1..]))
  }

  /** `add_server`: a new active row whose `AUTOINCREMENT` id exceeds every id in
      use; no other table changes. */
  function AddServer(s: Store, name: string, host: string, port: int, username: string,
                     authType: string, password: Option<string>, sshKey: Option<string>): (r: Store)
    ensures |r.servers| == |s.servers| + 1 && r.servers[..|s.servers|] == s.servers
    ensures var row := r.servers[|s.servers|];
      && row == Server(row.id, name, host, port, username, authType, password, sshKey, true)
      && forall x :: x in s.servers ==> x.id < row.id
    ensures r.payments == s.payments && r.ledger == s.ledger && r.settings == s.settings && r.admins == s.admins
  {
    s.(servers := s.servers + [Server(MaxServerId(s.servers) + 1, name, host, port, username,
                                      authType, password, sshKey, true)])
  }

  /** `get_servers`: the active rows, in table order. */
  function ActiveServers(xs: seq<Server>): (r: seq<Server>)
    ensures forall x :: x in r <==> x in xs && x.active
    ensures |r| <= |xs|
    decreases |xs|
  {
    if xs == [] then []
    else (if xs[0].active then [xs[0]] else []) + ActiveServers(xs[1..])
  }

  /** `get_server`: a row by id, deleted or not. */
  function GetServer(s: Store, id: int): Option<Server> {
    FindServer(s.servers, id)
  }

  /** `delete_server`: only clears `is_active` on the rows with that id. */
  function DeleteServer(s: Store, id: int): (r: Store)
    ensures |r.servers| == |s.servers|
    ensures forall i :: 0 <= i < |s.servers| ==>
      r.servers[i] == if s.servers[i].id == id then s.servers[i].(active := false) else s.servers[i]
    ensures r.payments == s.payments && r.ledger == s.ledger && r.settings == s.settings && r.admins == s.admins
  {
    s.(servers := seq(|s.servers|, i requires 0 <= i < |s.servers| =>
         if s.servers[i].id == id then s.servers[i].(active := false) else s.servers[i]))
  }

  /** A deleted server disappears from `get_servers` but `get_server` still finds
      it, with every column but `is_active` intact. */
  lemma {:induction false} DeleteHidesButKeeps(s: Store, id: int)
    requires GetServer(s, id).Some?
    ensures GetServer(DeleteServer(s, id), id) == Some(GetServer(s, id).value.(active := false))
    ensures forall x :: x in ActiveServers(DeleteServer(s, id).servers) ==> x.id != id
  {
    var r := DeleteServer(s, id);
    FindAfterDelete(s.servers, r.servers, id);
  }

  lemma {:induction false} FindAfterDelete(xs: seq<Server>, ys: seq<Server>, id: int)
    requires |ys| == |xs|
    requires forall i :: 0 <= i < |xs| ==> ys[i] == if xs[i].id == id then xs[i].(active := false) else xs[i]
    requires FindServer(xs, id).Some?
    ensures FindServer(ys, id) == Some(FindServer(xs, id).value.(active := false))
    decreases |xs|
  {
    if xs[0].id != id {
      FindAfterDelete(xs[1..], ys[1..], id);
    }
  }

  /** One column assignment of `update_server(server_id, **kwargs)`. */
  datatype Column =
    | Name(text: string)
    | Host(text: string)
    | Port(number: int)
    | Username(text: string)
    | Password(text: string)

  /** The assignments applied in turn to one row. */
  function Assign(row: Server, cols: seq<Column>): (r: Server)
    ensures r.id == row.id && r.authType == row.authType && r.sshKey == row.sshKey && r.active == row.active
    decreases |cols|
  {
    if cols == [] then row
    else
      var next := match cols[0]
        case Name(t) => row.(name := t)
        case Host(t) => row.(host := t)
        case Port(n) => row.(port := n)
        case Username(t) => row.(username := t)
        case Password(t) => row.(password := Some(t));
      Assign(next, cols[1..])
  }

  /** `update_server`: the named columns of the rows with that id take the new
      values and nothing else changes; with no columns the generated SQL is
      malformed and the call fails (`None`). */
  function UpdateServer(s: Store, id: int, cols: seq<Column>): (r: Option<Store>)
    ensures r.None? <==> cols == []
    ensures r.Some? ==> |r.value.servers| == |s.servers|
    ensures r.Some? ==> forall i :: 0 <= i < |s.servers| ==>
      r.value.servers[i] == if s.servers[i].id == id then Assign(s.servers[i], cols) else s.servers[i]
    ensures r.Some? ==> (r.value.payments == s.payments && r.value.ledger == s.ledger
      && r.value.settings == s.settings && r.value.admins == s.admins)
  {
    if cols == [] then None
    else Some(s.(servers := seq(|s.servers|, i requires 0 <= i < |s.servers| =>
                  if s.servers[i].id == id then Assign(s.servers[i], cols) else s.servers[i])))
  }

  /** Columns an update leaves alone keep their values. */
  lemma {:induction false} AssignOthersKept(row: Server, cols: seq<Column>)
    ensures (forall i :: 0 <= i < |cols| ==> !cols[i].Name?) ==> Assign(row, cols).name == row.name
    ensures (forall i :: 0 <= i < |cols| ==> !cols[i].Host?) ==> Assign(row, cols).host == row.host
    ensures (forall i :: 0 <= i < |cols| ==> !cols[i].Port?) ==> Assign(row, cols).port == row.port
    ensures (forall i :: 0 <= i < |cols| ==> !cols[i].Username?) ==> Assign(row, cols).username == row.username
    ensures (forall i :: 0 <= i < |cols| ==> !cols[i].Password?) ==> Assign(row, cols).password == row.password
    decreases |cols|
  {
    if cols != [] {
      var next := match cols[0]
        case Name(t) => row.(name := t)
        case Host(t) => row.(host := t)
        case Port(n) => row.(port := n)
        case Username(t) => row.(username := t)
        case Password(t) => row.(password := Some(t));
      assert forall i :: 0 <= i < |cols| - 1 ==> cols[1..][i] == cols[i + 1];
      AssignOthersKept(next, cols[1..]);
    }
  }

  // ---------------------------------------------------------------------------
  // Payments

  function FindPayment(xs: seq<Payment>, id: int): (r: Option<Payment>)
    ensures r.Some? ==> r.value in xs && r.value.id == id
    ensures r.None? ==> forall x :: x in xs ==> x.id != id
    decreases |xs|
  {
    if xs == [] then None else if xs[0].id == id then Some(xs[0]) else FindPayment(xs[1..], id)
  }

  function MaxPaymentId(xs: seq<Payment>): (m: int)
    ensures m >= 0
    ensures forall x :: x in xs ==> x.id <= m
    decreases |xs|
  {
    if xs == [] then 0 else Max(xs[0].id, MaxPaymentId(xs[1..]))
  }

  /** `add_payment` with its defaults: currency RUB, recurring monthly, unpaid,
      nothing notified yet. */
  function AddPayment(s: Store, serverId: int, description: string, amount: real, dueDate: string): (r: Store)
    ensures |r.payments| == |s.payments| + 1 && r.payments[..|s.payments|] == s.payments
    ensures var row := r.payments[|s.payments|];
      && row.serverId == Some(serverId) && row.description == description
      && row.dueDate == dueDate && row.amount == amount
      && !row.paid && row.notifiedDays == Some("") && row.currency == "RUB"
      && row.recurring == 1 && row.recurringMonths == 1
      && forall x :: x in s.payments ==> x.id < row.id
    ensures r.servers == s.servers && r.ledger == s.ledger && r.settings == s.settings && r.admins == s.admins
  {
    s.(payments := s.payments + [Payment(MaxPaymentId(s.payments) + 1, Some(serverId), description, amount,
                                         "RUB", dueDate, 1, 1, false, Some(""))])
  }

  /** `get_payment` */
  function GetPayment(s: Store, id: int): Option<Payment> {
    FindPayment(s.payments, id)
  }

  /** The joined `server_name` column: the name of the payment's server, deleted or
      not, or NULL. */
  function ServerName(s: Store, p: Payment): (name: Option<string>)
    ensures name.Some? ==> p.serverId.Some? && exists x :: x in s.servers && x.id == p.serverId.value && x.name == name.value
    ensures name.Some? <==> p.serverId.Some? && exists x :: x in s.servers && x.id == p.serverId.value
  {
    match p.serverId
    case None => None
    case Some(sid) =>
      match FindServer(s.servers, sid)
      case Some(x) => Some(x.name)
      case None => None
  }

  /** The join picks the server whose id the payment names; with ids unique,
      as the primary key makes them, that server's name is the one shown. */
  lemma ServerNameOfRow(s: Store, p: Payment, i: nat)
    requires i < |s.servers| && p.serverId == Some(s.servers[i].id)
    requires forall j :: 0 <= j < |s.servers| && s.servers[j].id == s.servers[i].id ==> j == i
    ensures ServerName(s, p) == Some(s.servers[i].name)
  {
    var x := FindServer(s.servers, s.servers[i].id).value;
    var j :| 0 <= j < |s.servers| && s.servers[j] == x;
  }

  /** `a <= b` in SQLite's default text collation (code point order). */
  predicate TextLe(a: string, b: string)
    decreases |a|
  {
    |a| == 0 || (|b| > 0 && (a[0] < b[0] || (a[0] == b[0] && TextLe(a[1..], b[1..]))))
  }

  lemma {:induction false} TextLeTotal(a: string, b: string)
    ensures TextLe(a, b) || TextLe(b, a)
    decreases |a|
  {
    if |a| > 0 && |b| > 0 && a[0] == b[0] {
      TextLeTotal(a[1..], b[1..]);
    }
  }

  lemma {:induction false} TextLeTrans(a: string, b: string, c: string)
    requires TextLe(a, b) && TextLe(b, c)
    ensures TextLe(a, c)
    decreases |a|
  {
    if |a| > 0 && a[0] == b[0] && b[0] == c[0] {
      TextLeTrans(a[1..], b[1..], c[1..]);
    }
  }

  /** Ordered by `due_date`. */
  ghost predicate SortedByDue(xs: seq<Payment>) {
    forall i, j :: 0 <= i < j < |xs| ==> TextLe(xs[i].dueDate, xs[j].dueDate)
  }

  /** Every row is due no earlier than `d`. */
  ghost predicate DueAtLeast(d: string, xs: seq<Payment>) {
    forall j :: 0 <= j < |xs| ==> TextLe(d, xs[j].dueDate)
  }

  lemma SortedCons(x: Payment, xs: seq<Payment>)
    requires DueAtLeast(x.dueDate, xs) && SortedByDue(xs)
    ensures SortedByDue([x] + xs)
  {
    var r := [x] + xs;
    forall i, j | 0 <= i < j < |r|
      ensures TextLe(r[i].dueDate, r[j].dueDate)
    {
      assert r[j] == xs[j - 1];
      if i > 0 {
        assert r[i] == xs[i - 1];
      }
    }
  }

  /** A lower bound of a sorted sequence's head bounds the whole sequence. */
  lemma HeadBound(d: string, xs: seq<Payment>)
    requires SortedByDue(xs) && |xs| > 0 && TextLe(d, xs[0].dueDate)
    ensures DueAtLeast(d, xs)
  {
    forall j | 0 <= j < |xs|
      ensures TextLe(d, xs[j].dueDate)
    {
      if j > 0 {
        TextLeTrans(d, xs[0].dueDate, xs[j].dueDate);
      }
    }
  }

  lemma TailSorted(xs: seq<Payment>)
    requires SortedByDue(xs) && |xs| > 0
    ensures SortedByDue(xs[1..]) && DueAtLeast(xs[0].dueDate, xs[1..])
  {
    var t := xs[1..];
    forall j | 0 <= j < |t|
      ensures TextLe(xs[0].dueDate, t[j].dueDate)
    {
      assert t[j] == xs[j + 1];
    }
    forall i, j | 0 <= i < j < |t|
      ensures TextLe(t[i].dueDate, t[j].dueDate)
    {
      assert t[i] == xs[i + 1] && t[j] == xs[j + 1];
    }
  }

  /** Puts `p` before the first row due no earlier. */
  function InsertByDue(p: Payment, xs: seq<Payment>): (r: seq<Payment>)
    requires SortedByDue(xs)
    ensures SortedByDue(r)
    ensures multiset(r) == multiset(xs) + multiset{p}
    decreases |xs|, 0
  {
    if xs == [] then [p]
    else if TextLe(p.dueDate, xs[0].dueDate) then
      HeadBound(p.dueDate, xs);
      SortedCons(p, xs);
      [p] + xs
    else
      TextLeTotal(p.dueDate, xs[0].dueDate);
      TailSorted(xs);
      var rest := InsertByDue(p, xs[1..]);
      InsertLowerBound(xs[0].dueDate, p, xs[1..]);
      SortedCons(xs[0], rest);
      assert xs == [xs[0]] + xs[1..];
      [xs[0]] + rest
  }

  /** Inserting a row due no earlier than `d` keeps `d` a lower bound. */
  lemma {:induction false} InsertLowerBound(d: string, p: Payment, xs: seq<Payment>)
    requires SortedByDue(xs) && DueAtLeast(d, xs)
    requires TextLe(d, p.dueDate)
    ensures DueAtLeast(d, InsertByDue(p, xs))
    decreases |xs|, 1
  {
    var r := InsertByDue(p, xs);
    if xs == [] {
    } else if TextLe(p.dueDate, xs[0].dueDate) {
      assert r == [p] + xs;
      forall j | 0 <= j < |r|
        ensures TextLe(d, r[j].dueDate)
      {
        if j > 0 {
          assert r[j] == xs[j - 1];
        }
      }
    } else {
      TailSorted(xs);
      assert DueAtLeast(d, xs[1..]) by {
        forall j | 0 <= j < |xs| - 1
          ensures TextLe(d, xs[1..][j].dueDate)
        {
          assert xs[1..][j] == xs[j + 1];
        }
      }
      InsertLowerBound(d, p, xs[1..]);
      var rest := InsertByDue(p, xs[1..]);
      assert r == [xs[0]] + rest;
      forall j | 0 <= j < |r|
        ensures TextLe(d, r[j].dueDate)
      {
        if j > 0 {
          assert r[j] == rest[j - 1];
        }
      }
    }
  }

  /** The rows ordered by due date (insertion sort; equal dates keep table order). */
  function SortByDue(xs: seq<Payment>): (r: seq<Payment>)
    ensures SortedByDue(r)
    ensures multiset(r) == multiset(xs)
    decreases |xs|
  {
    if xs == [] then []
    else
      assert xs == [xs[0]] + xs[1..];
      InsertByDue(xs[0], SortByDue(xs[1..]))
  }

  /** The unpaid rows, in table order. */
  function Unpaid(xs: seq<Payment>): (r: seq<Payment>)
    ensures forall x :: x in r <==> x in xs && !x.paid
    ensures multiset(r) <= multiset(xs)
    decreases |xs|
  {
    if xs == [] then []
    else
      assert xs == [xs[0]] + xs[1..];
      (if xs[0].paid then [] else [xs[0]]) + Unpaid(xs[1..])
  }

  /** `get_payments(active_only)`: the unpaid rows (or all rows), ordered by due
      date; a reordering of exactly those rows. */
  function GetPayments(s: Store, activeOnly: bool): (r: seq<Payment>)
    ensures SortedByDue(r)
    ensures activeOnly ==> multiset(r) == multiset(Unpaid(s.payments))
    ensures !activeOnly ==> multiset(r) == multiset(s.payments)
  {
    SortByDue(if activeOnly then Unpaid(s.payments) else s.payments)
  }

  /** A row is listed by `get_payments(True)` exactly when it is unpaid. */
  lemma ActivePaymentsListed(s: Store, p: Payment)
    ensures p in GetPayments(s, true) <==> p in s.payments && !p.paid
  {
    var r := GetPayments(s, true);
    assert p in r <==> p in multiset(r);
    assert p in Unpaid(s.payments) <==> p in multiset(Unpaid(s.payments));
  }

  /** Sets one column on the rows with that id and nothing else. */
  function UpdatePayments(xs: seq<Payment>, id: int, paid: Option<bool>, dueDate: Option<string>,
                          notified: Option<string>): (r: seq<Payment>)
    ensures |r| == |xs|
    ensures forall i :: 0 <= i < |xs| ==> r[i] == if xs[i].id != id then xs[i] else
      xs[i].(paid := paid.GetOr(xs[i].paid), dueDate := dueDate.GetOr(xs[i].dueDate),
             notifiedDays := if notified.Some? then notified else xs[i].notifiedDays)
  {
    seq(|xs|, i requires 0 <= i < |xs| =>
      if xs[i].id != id then xs[i] else
        xs[i].(paid := paid.GetOr(xs[i].paid), dueDate := dueDate.GetOr(xs[i].dueDate),
               notifiedDays := if notified.Some? then notified else xs[i].notifiedDays))
  }

  /** `mark_paid`: sets `is_paid` on the target row only; the row stays. */
  function MarkPaid(s: Store, id: int): (r: Store)
    ensures |r.payments| == |s.payments|
    ensures forall i :: 0 <= i < |s.payments| ==>
      r.payments[i] == if s.payments[i].id == id then s.payments[i].(paid := true) else s.payments[i]
    ensures r.servers == s.servers && r.ledger == s.ledger && r.settings == s.settings && r.admins == s.admins
  {
    s.(payments := UpdatePayments(s.payments, id, Some(true), None, None))
  }

  /** `update_payment_notified`: replaces the notified offsets of the target row. */
  function UpdatePaymentNotified(s: Store, id: int, notified: string): (r: Store)
    ensures |r.payments| == |s.payments|
    ensures forall i :: 0 <= i < |s.payments| ==>
      r.payments[i] == if s.payments[i].id == id then s.payments[i].(notifiedDays := Some(notified)) else s.payments[i]
    ensures r.servers == s.servers && r.ledger == s.ledger && r.settings == s.settings && r.admins == s.admins
  {
    s.(payments := UpdatePayments(s.payments, id, None, None, Some(notified)))
  }

  /** The renew statement: new due date, unpaid again, nothing notified. */
  function RenewPayment(s: Store, id: int, dueDate: string): (r: Store)
    ensures |r.payments| == |s.payments|
    ensures forall i :: 0 <= i < |s.payments| ==>
      r.payments[i] == if s.payments[i].id == id
        then s.payments[i].(dueDate := dueDate, paid := false, notifiedDays := Some(""))
        else s.payments[i]
    ensures r.servers == s.servers && r.ledger == s.ledger && r.settings == s.settings && r.admins == s.admins
  {
    s.(payments := UpdatePayments(s.payments, id, Some(false), Some(dueDate), Some("")))
  }

  /** The edit-date statement: new due date, nothing notified, `is_paid` kept. */
  function RescheduleUnnotified(s: Store, id: int, dueDate: string): (r: Store)
    ensures |r.payments| == |s.payments|
    ensures forall i :: 0 <= i < |s.payments| ==>
      r.payments[i] == if s.payments[i].id == id
        then s.payments[i].(dueDate := dueDate, notifiedDays := Some(""))
        else s.payments[i]
    ensures r.servers == s.servers && r.ledger == s.ledger && r.settings == s.settings && r.admins == s.admins
  {
    s.(payments := UpdatePayments(s.payments, id, None, Some(dueDate), Some("")))
  }

  /** After `mark_paid` the row is still there, and no longer listed as active. */
  lemma MarkPaidKeepsRow(s: Store, id: int, i: nat)
    requires i < |s.payments| && s.payments[i].id == id
    ensures var r := MarkPaid(s, id);
      r.payments[i] == s.payments[i].(paid := true) && r.payments[i] !in GetPayments(r, true)
  {
    ActivePaymentsListed(MarkPaid(s, id), MarkPaid(s, id).payments[i]);
  }

  // ---------------------------------------------------------------------------
  // Balance ledger

  /** The effect of an operation on the balance: income adds, every other type
      subtracts. */
  function Signed(operationType: string, amount: real): real {
    if operationType == "income" then amount else -amount
  }

  /** `get_balance`: the newest row's `balance_after`, 0 for an empty ledger. */
  function Balance(s: Store): real {
    if s.ledger == [] then 0.0 else s.ledger[|s.ledger| - 1].after
  }

  /** Row `i` starts where the previous one ended (the first at 0) and moves the
      balance by its signed amount. */
  ghost predicate LinkedAt(rows: seq<BalanceRow>, i: nat)
    requires i < |rows|
  {
    && rows[i].before == (if i == 0 then 0.0 else rows[i - 1].after)
    && rows[i].after == rows[i].before + Signed(rows[i].operationType, rows[i].amount)
  }

  /** The ledger every row agrees with. */
  ghost predicate Chained(rows: seq<BalanceRow>) {
    forall i: nat :: i < |rows| ==> LinkedAt(rows, i)
  }

  /** The sum of the signed amounts. */
  function NetFlow(rows: seq<BalanceRow>): real
    decreases |rows|
  {
    if rows == [] then 0.0 else NetFlow(rows[..|rows| - 1]) + Signed(rows[|rows| - 1].operationType, rows[|rows| - 1].amount)
  }

  /** What `add_balance_operation` returns, and the store after it. */
  datatype Posted = Posted(before: real, after: real, store: Store)

  /** `add_balance_operation`: one row appended, starting from the current balance
      and moving it by the signed amount; returns both ends. */
  function AddBalanceOperation(s: Store, operationType: string, amount: real, description: Option<string>): (r: Posted)
    ensures r.before == Balance(s) && r.after == r.before + Signed(operationType, amount)
    ensures r.store.ledger == s.ledger + [BalanceRow(operationType, amount, description, r.before, r.after)]
    ensures Balance(r.store) == r.after
    ensures r.store.servers == s.servers && r.store.payments == s.payments
      && r.store.settings == s.settings && r.store.admins == s.admins
  {
    var before := Balance(s);
    var after := before + Signed(operationType, amount);
    Posted(before, after, s.(ledger := s.ledger + [BalanceRow(operationType, amount, description, before, after)]))
  }

  /** Appending through `add_balance_operation` keeps the ledger chained. */
  lemma AddKeepsChained(s: Store, operationType: string, amount: real, description: Option<string>)
    requires Chained(s.ledger)
    ensures Chained(AddBalanceOperation(s, operationType, amount, description).store.ledger)
  {
    var rows := AddBalanceOperation(s, operationType, amount, description).store.ledger;
    var n := |s.ledger|;
    forall i: nat | i < |rows|
      ensures LinkedAt(rows, i)
    {
      if i < n {
        assert LinkedAt(s.ledger, i);
        assert rows[i] == s.ledger[i];
        if i > 0 {
          assert rows[i - 1] == s.ledger[i - 1];
        }
      } else if i > 0 {
        assert rows[i - 1] == s.ledger[n - 1];
      }
    }
  }

  /** In a chained ledger the balance is the net of all operations. */
  lemma {:induction false} ChainedBalance(s: Store)
    requires Chained(s.ledger)
    ensures Balance(s) == NetFlow(s.ledger)
    decreases |s.ledger|
  {
    if s.ledger != [] {
      var n := |s.ledger|;
      var init := s.(ledger := s.ledger[..n - 1]);
      forall i: nat | i < n - 1
        ensures LinkedAt(init.ledger, i)
      {
        assert LinkedAt(s.ledger, i);
        assert init.ledger[i] == s.ledger[i];
        if i > 0 {
          assert init.ledger[i - 1] == s.ledger[i - 1];
        }
      }
      ChainedBalance(init);
      assert LinkedAt(s.ledger, n - 1);
      assert Balance(init) == s.ledger[n - 1].before;
    }
  }

  /** `get_balance_history(limit)`: the newest `limit` rows, newest first. */
  function History(s: Store, limit: nat): (r: seq<BalanceRow>)
    ensures |r| == if limit < |s.ledger| then limit else |s.ledger|
    ensures forall i :: 0 <= i < |r| ==> r[i] == s.ledger[|s.ledger| - 1 - i]
  {
    var n := if limit < |s.ledger| then limit else |s.ledger|;
    seq(n, i requires 0 <= i < n => s.ledger[|s.ledger| - 1 - i])
  }

  // ---------------------------------------------------------------------------
  // Settings and admins

  /** `get_setting(key, default)` */
  function GetSetting(s: Store, key: string, default: Option<string>): (r: Option<string>)
    ensures key in s.settings ==> r == Some(s.settings[key])
    ensures key !in s.settings ==> r == default
  {
    if key in s.settings then Some(s.settings[key]) else default
  }

  /** `set_setting`: insert or replace. */
  function SetSetting(s: Store, key: string, value: string): (r: Store)
    ensures r.settings.Keys == s.settings.Keys + {key}
    ensures r.servers == s.servers && r.payments == s.payments && r.ledger == s.ledger && r.admins == s.admins
  {
    s.(settings := s.settings[key := value])
  }

  /** A setting reads back as last set, and setting one key leaves every other. */
  lemma SetThenGet(s: Store, key: string, value: string, other: string, default: Option<string>)
    ensures GetSetting(SetSetting(s, key, value), key, default) == Some(value)
    ensures other != key ==> GetSetting(SetSetting(s, key, value), other, default) == GetSetting(s, other, default)
  {
  }

  /** `add_admin`: `INSERT OR IGNORE`, so an existing row (and its username) stays. */
  function AddAdmin(s: Store, id: int, username: Option<string>): (r: Store)
    ensures r.admins.Keys == s.admins.Keys + {id}
    ensures id in s.admins ==> r == s
    ensures r.servers == s.servers && r.payments == s.payments && r.ledger == s.ledger && r.settings == s.settings
  {
    if id in s.admins then s else s.(admins := s.admins[id := username])
  }

  /** `remove_admin` */
  function RemoveAdmin(s: Store, id: int): (r: Store)
    ensures r.admins.Keys == s.admins.Keys - {id}
    ensures forall k :: k in r.admins ==> r.admins[k] == s.admins[k]
    ensures r.servers == s.servers && r.payments == s.payments && r.ledger == s.ledger && r.settings == s.settings
  {
    s.(admins := s.admins - {id})
  }

  /** `is_admin`: listed in `ADMIN_IDS`, or a row in `admins`. */
  function IsAdmin(s: Store, adminIds: seq<int>, id: int): (b: bool)
    ensures b <==> id in adminIds || id in s.admins
  {
    id in adminIds || id in s.admins
  }

  /** Adding an admin twice is adding once, whatever username the second call
      carries; afterwards the id is an admin, and removing it revokes that unless
      it is listed in `ADMIN_IDS`. */
  lemma AdminLifecycle(s: Store, adminIds: seq<int>, id: int, u1: Option<string>, u2: Option<string>)
    ensures AddAdmin(AddAdmin(s, id, u1), id, u2) == AddAdmin(s, id, u1)
    ensures IsAdmin(AddAdmin(s, id, u1), adminIds, id)
    ensures IsAdmin(RemoveAdmin(AddAdmin(s, id, u1), id), adminIds, id) <==> id in adminIds
  {
  }
}
