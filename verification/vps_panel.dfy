/** The server screens of `handlers/vps_panel.py`: the server list with the
    days left on each server's payments, the server card, the add-server and
    edit-server dialogues, the delete confirmation, the terminal, the
    Remnawave actions and the password change. Remote commands are given by
    their results; "now" is a parameter. */
module VpsPanel {
  import opened Wrappers
  import opened Text
  import Dates
  import Database
  import SshManager
  import Payments

  // ---------------------------------------------------------------------------
  // Days left per server (`vps:list`)

  /** `if sid:`: a payment counts for a server only when its server id is
      neither NULL nor 0. */
  predicate Tracked(p: Database.Payment) {
    p.serverId.Some? && p.serverId.value != 0
  }

  /** Whether every tracked payment has a due date that parses; the first one
      that does not raises out of the handler. */
  predicate Readable(ps: seq<Database.Payment>) {
    forall i :: 0 <= i < |ps| && Tracked(ps[i]) ==> Dates.ParseIsoDate(ps[i].dueDate).Some?
  }

  function PaymentDays(p: Database.Payment, today: Dates.Date): int
    requires Dates.Valid(today) && Dates.ParseIsoDate(p.dueDate).Some?
  {
    Dates.DaysLeft(Dates.ParseIsoDate(p.dueDate).value, today)
  }

  /** The payment at `i` is tracked and its server's entry in `m` is at most
      its days left. */
  predicate BoundedAt(ps: seq<Database.Payment>, m: map<int, int>, today: Dates.Date, i: int)
    requires Dates.Valid(today) && Readable(ps) && 0 <= i < |ps| && Tracked(ps[i])
  {
    ps[i].serverId.value in m && m[ps[i].serverId.value] <= PaymentDays(ps[i], today)
  }

  /** The entry of `sid` in `m` is the days left of the tracked payment at `i`. */
  predicate AttainedAt(ps: seq<Database.Payment>, m: map<int, int>, today: Dates.Date, sid: int, i: int)
    requires Dates.Valid(today) && Readable(ps) && sid in m
  {
    0 <= i < |ps| && Tracked(ps[i]) && ps[i].serverId.value == sid && m[sid] == PaymentDays(ps[i], today)
  }

  /** `m` holds, for each server with a tracked payment, the least days left
      over that server's payments, and nothing else. */
  ghost predicate Nearest(ps: seq<Database.Payment>, m: map<int, int>, today: Dates.Date)
    requires Dates.Valid(today) && Readable(ps)
  {
    && (forall i :: 0 <= i < |ps| && Tracked(ps[i]) ==> BoundedAt(ps, m, today, i))
    && (forall sid :: sid in m ==> exists i :: AttainedAt(ps, m, today, sid, i))
  }

  lemma ReadableCons(ps: seq<Database.Payment>)
    requires |ps| > 0
    ensures Readable(ps) <==> (Tracked(ps[0]) ==> Dates.ParseIsoDate(ps[0].dueDate).Some?) && Readable(ps[1..])
  {
    if Readable(ps) {
      forall i | 0 <= i < |ps[1..]| && Tracked(ps[1..][i])
        ensures Dates.ParseIsoDate(ps[1..][i].dueDate).Some?
      {
        assert ps[1..][i] == ps[i + 1];
      }
    }
    if (Tracked(ps[0]) ==> Dates.ParseIsoDate(ps[0].dueDate).Some?) && Readable(ps[1..]) {
      forall i | 0 <= i < |ps| && Tracked(ps[i])
        ensures Dates.ParseIsoDate(ps[i].dueDate).Some?
      {
        if i > 0 {
          assert ps[i] == ps[1..][i - 1];
        }
      }
    }
  }

  /** `server_days`: for each server, the fewest days left over its payments. */
  function ServerDays(ps: seq<Database.Payment>, today: Dates.Date): (r: Option<map<int, int>>)
    requires Dates.Valid(today)
    ensures r.Some? <==> Readable(ps)
    ensures r.Some? ==> Readable(ps) && Nearest(ps, r.value, today)
    decreases |ps|
  {
    if ps == [] then Some(map[])
    else
      ReadableCons(ps);
      var p := ps[0];
      match ServerDays(ps[1..], today)
      case None => None
      case Some(rest) =>
        if !Tracked(p) then
          ServerDaysSkip(ps, rest, today);
          Some(rest)
        else if Dates.ParseIsoDate(p.dueDate).None? then None
        else
          var d := PaymentDays(p, today);
          var sid := p.serverId.value;
          var m := if sid !in rest || d < rest[sid] then rest[sid := d] else rest;
          ServerDaysTake(ps, rest, m, today);
          Some(m)
  }

  lemma ServerDaysSkip(ps: seq<Database.Payment>, rest: map<int, int>, today: Dates.Date)
    requires Dates.Valid(today) && |ps| > 0 && !Tracked(ps[0]) && Readable(ps) && Readable(ps[1..])
    requires Nearest(ps[1..], rest, today)
    ensures Nearest(ps, rest, today)
  {
    forall i | 0 <= i < |ps| && Tracked(ps[i])
      ensures BoundedAt(ps, rest, today, i)
    {
      assert ps[i] == ps[1..][i - 1];
      assert BoundedAt(ps[1..], rest, today, i - 1);
    }
    forall sid | sid in rest
      ensures exists i :: AttainedAt(ps, rest, today, sid, i)
    {
      var j :| AttainedAt(ps[1..], rest, today, sid, j);
      assert ps[j + 1] == ps[1..][j];
      assert AttainedAt(ps, rest, today, sid, j + 1);
    }
  }

  lemma ServerDaysTake(ps: seq<Database.Payment>, rest: map<int, int>, m: map<int, int>, today: Dates.Date)
    requires Dates.Valid(today) && |ps| > 0 && Tracked(ps[0]) && Readable(ps) && Readable(ps[1..])
    requires Nearest(ps[1..], rest, today)
    requires var d := PaymentDays(ps[0], today); var sid := ps[0].serverId.value;
      m == if sid !in rest || d < rest[sid] then rest[sid := d] else rest
    ensures Nearest(ps, m, today)
  {
    TakeBounded(ps, rest, m, today);
    TakeAttained(ps, rest, m, today);
  }

  lemma TakeBounded(ps: seq<Database.Payment>, rest: map<int, int>, m: map<int, int>, today: Dates.Date)
    requires Dates.Valid(today) && |ps| > 0 && Tracked(ps[0]) && Readable(ps) && Readable(ps[1..])
    requires forall i :: 0 <= i < |ps[1..]| && Tracked(ps[1..][i]) ==> BoundedAt(ps[1..], rest, today, i)
    requires var d := PaymentDays(ps[0], today); var sid := ps[0].serverId.value;
      m == if sid !in rest || d < rest[sid] then rest[sid := d] else rest
    ensures forall i :: 0 <= i < |ps| && Tracked(ps[i]) ==> BoundedAt(ps, m, today, i)
  {
    forall i | 0 <= i < |ps| && Tracked(ps[i])
      ensures BoundedAt(ps, m, today, i)
    {
      if i > 0 {
        assert ps[i] == ps[1..][i - 1];
        assert BoundedAt(ps[1..], rest, today, i - 1);
      }
    }
  }

  lemma TakeAttained(ps: seq<Database.Payment>, rest: map<int, int>, m: map<int, int>, today: Dates.Date)
    requires Dates.Valid(today) && |ps| > 0 && Tracked(ps[0]) && Readable(ps) && Readable(ps[1..])
    requires forall sid :: sid in rest ==> exists i :: AttainedAt(ps[1..], rest, today, sid, i)
    requires var d := PaymentDays(ps[0], today); var sid := ps[0].serverId.value;
      m == if sid !in rest || d < rest[sid] then rest[sid := d] else rest
    ensures forall sid :: sid in m ==> exists i :: AttainedAt(ps, m, today, sid, i)
  {
    var d := PaymentDays(ps[0], today);
    var s0 := ps[0].serverId.value;
    forall sid | sid in m
      ensures exists i :: AttainedAt(ps, m, today, sid, i)
    {
      if sid == s0 && m[sid] == d {
        assert AttainedAt(ps, m, today, sid, 0);
      } else {
        assert sid in rest && m[sid] == rest[sid];
        var j :| AttainedAt(ps[1..], rest, today, sid, j);
        assert ps[j + 1] == ps[1..][j];
        assert AttainedAt(ps, m, today, sid, j + 1);
      }
    }
  }

  /** What a server's line shows: the white circle and no suffix without a
      payment, otherwise the icon and the days for its nearest payment. */
  datatype Badge = NoPayment | Due(icon: Payments.Icon, shown: Payments.DaysLabel)

  /** The list's tiers: overdue red, up to three days (today included) yellow,
      up to a week orange, then green. */
  function ListTier(daysLeft: int): Payments.Icon {
    if daysLeft < 0 then Payments.Red else if daysLeft <= 3 then Payments.Yellow
    else if daysLeft <= 7 then Payments.Orange else Payments.Green
  }

  /** The badge of one server in the list. */
  function ServerBadge(days: map<int, int>, sid: int): (b: Badge)
    ensures b.NoPayment? <==> sid !in days
    ensures b.Due? ==> b.icon == ListTier(days[sid])
    ensures b.Due? ==> (b.shown.Overdue? <==> days[sid] < 0)
  {
    if sid !in days then NoPayment
    else
      var d := days[sid];
      Due(ListTier(d), if d < 0 then Payments.Overdue(-d) else Payments.In(d))
  }

  /** The server card has only three tiers: no orange. */
  function CardTier(daysLeft: int): Payments.Icon {
    if daysLeft < 0 then Payments.Red else if daysLeft <= 3 then Payments.Yellow else Payments.Green
  }

  /** How the three tier rules relate: the card is the list without orange, and
      the server list puts a payment due today in yellow where the payment list
      puts it in red; elsewhere the two lists agree. */
  lemma TiersRelated(d: int)
    ensures CardTier(d) == if ListTier(d) == Payments.Orange then Payments.Green else ListTier(d)
    ensures d != 0 ==> ListTier(d) == Payments.ListIcon(d)
    ensures ListTier(0) == Payments.Yellow && Payments.ListIcon(0) == Payments.Red
  {
  }

  /** `vps:list`: one badge per active server, in table order. With no active
      server the empty screen is shown before any payment is read; otherwise an
      unparsable due date raises out of the handler. */
  function ServerList(store: Database.Store, today: Dates.Date): (r: Option<seq<(Database.Server, Badge)>>)
    requires Dates.Valid(today)
    ensures |Database.ActiveServers(store.servers)| == 0 ==> r == Some([])
    ensures r.None? <==>
      |Database.ActiveServers(store.servers)| > 0 && ServerDays(Database.GetPayments(store, true), today).None?
    ensures r.Some? ==> |r.value| == |Database.ActiveServers(store.servers)|
    ensures r.Some? ==> forall i :: 0 <= i < |r.value| ==> r.value[i].0 == Database.ActiveServers(store.servers)[i]
    ensures r.Some? && |r.value| > 0 ==> forall i :: 0 <= i < |r.value| ==>
      r.value[i].1 == ServerBadge(ServerDays(Database.GetPayments(store, true), today).value, r.value[i].0.id)
  {
    var servers := Database.ActiveServers(store.servers);
    if |servers| == 0 then Some([])
    else
      match ServerDays(Database.GetPayments(store, true), today)
      case None => None
      case Some(days) =>
        Some(seq(|servers|, i requires 0 <= i < |servers| => (servers[i], ServerBadge(days, servers[i].id))))
  }

  /** Without active servers the list is empty whatever the payments hold,
      even a due date that does not parse. */
  lemma EmptyListReadsNoPayment(store: Database.Store, today: Dates.Date, p: Database.Payment)
    requires Dates.Valid(today) && Database.ActiveServers(store.servers) == []
    ensures ServerList(store.(payments := store.payments + [p]), today) == Some([])
  {
  }

  /** A server's badge shows its most urgent unpaid payment: never more days
      than any of them, and exactly the days of one of them. */
  lemma BadgeIsNearest(store: Database.Store, today: Dates.Date, sid: int, p: Database.Payment)
    requires Dates.Valid(today) && p in store.payments && !p.paid && p.serverId == Some(sid) && sid != 0
    requires Dates.ParseIsoDate(p.dueDate).Some?
    requires ServerDays(Database.GetPayments(store, true), today).Some?
    ensures var days := ServerDays(Database.GetPayments(store, true), today).value;
      sid in days && days[sid] <= PaymentDays(p, today)
      && ServerBadge(days, sid).Due? && ServerBadge(days, sid).icon == ListTier(days[sid])
  {
    var ps := Database.GetPayments(store, true);
    var days := ServerDays(ps, today).value;
    Database.ActivePaymentsListed(store, p);
    var i :| 0 <= i < |ps| && ps[i] == p;
    assert Tracked(ps[i]);
    assert BoundedAt(ps, days, today, i);
  }

  // ---------------------------------------------------------------------------
  // Adding a server (`vps:add` and its dialogue)

  const DefaultPort := 22
  const DefaultUsername := "root"

  /** The port reply: digits give the port, anything else (an empty reply
      included) the default 22. */
  function PortReply(text: string): (port: int)
    ensures port >= 0
    ensures !IsDigits(Strip(text)) ==> port == DefaultPort
  {
    var t := Strip(text);
    if IsDigits(t) then DigitsValue(t) else DefaultPort
  }

  /** Any port written in digits is taken as typed. */
  lemma PortReplyTyped(n: nat)
    ensures PortReply(NatToString(n)) == n
  {
    var t := NatToString(n);
    assert t[0] != ' ';
    assert Trimmed(t);
    StripTrimmed(t);
    NatToStringValue(n);
  }

  /** The username reply: stripped, or "root" when blank. */
  function UsernameReply(text: string): (u: string)
    ensures u != ""
    ensures Strip(text) != "" ==> u == Strip(text)
  {
    var t := Strip(text);
    if t == "" then DefaultUsername else t
  }

  /** The add-server dialogue from its replies: name, host, port, username, the
      auth button, then the password or the key. Every reply is accepted. */
  function AddServerDialogue(store: Database.Store, name: string, host: string, port: string, username: string,
                             authType: string, secret: string): (r: Database.Store)
    ensures |r.servers| == |store.servers| + 1 && r.servers[..|store.servers|] == store.servers
    ensures var row := r.servers[|store.servers|];
      && row.active && row.name == Strip(name) && row.host == Strip(host)
      && row.port == PortReply(port) && row.username == UsernameReply(username) && row.authType == authType
      && (authType == "password" ==> row.password == Some(Strip(secret)) && row.sshKey.None?)
      && (authType != "password" ==> row.sshKey == Some(Strip(secret)) && row.password.None?)
    ensures r.payments == store.payments && r.ledger == store.ledger
  {
    var password := if authType == "password" then Some(Strip(secret)) else None;
    var key := if authType == "password" then None else Some(Strip(secret));
    Database.AddServer(store, Strip(name), Strip(host), PortReply(port), UsernameReply(username), authType, password, key)
  }

  /** The saved server authenticates with the secret it was given: the
      password for a password server, the key for a key server; a blank key
      leaves the connection with no credential at all. */
  lemma AddedServerCredential(store: Database.Store, name: string, host: string, port: string, username: string,
                              authType: string, secret: string)
    ensures var r := AddServerDialogue(store, name, host, port, username, authType, secret);
      var row := r.servers[|store.servers|];
      var t := SshManager.Target(row.host, row.port, row.username, row.authType, row.password, row.sshKey);
      SshManager.CredentialFor(t) == if authType == "key" && Strip(secret) != "" then SshManager.KeyAuth(Strip(secret))
        else if authType == "password" then SshManager.PasswordAuth(Some(Strip(secret)))
        else SshManager.PasswordAuth(None)
  {
  }

  // ---------------------------------------------------------------------------
  // Editing a server (`srv:editf:<field>:<id>` and the reply)

  datatype Field = NameField | HostField | PortField | UsernameField | PasswordField

  datatype EditReply = EditCancelled | PortRejected | Updated(column: Database.Column)

  datatype Edited = Edited(reply: EditReply, store: Database.Store, waiting: bool)

  /** `fsm_edit_server_value`: `/cancel` (compared before stripping) ends the
      dialogue; a port that is not all digits is dropped and the dialogue keeps
      waiting; any other reply sets that one column. */
  function EditValue(store: Database.Store, sid: int, field: Field, text: string): (r: Edited)
    ensures text == "/cancel" ==> r == Edited(EditCancelled, store, false)
    ensures r.waiting <==> r.reply.PortRejected?
    ensures r.reply.PortRejected? <==> text != "/cancel" && field == PortField && !IsDigits(Strip(text))
    ensures !r.reply.Updated? ==> r.store == store
    ensures r.reply.Updated? ==> Database.UpdateServer(store, sid, [r.reply.column]) == Some(r.store)
  {
    if text == "/cancel" then Edited(EditCancelled, store, false)
    else
      var value := Strip(text);
      if field == PortField && !IsDigits(value) then Edited(PortRejected, store, true)
      else
        var col := match field
          case NameField => Database.Name(value)
          case HostField => Database.Host(value)
          case PortField => Database.Port(DigitsValue(value))
          case UsernameField => Database.Username(value)
          case PasswordField => Database.Password(value);
        Edited(Updated(col), Database.UpdateServer(store, sid, [col]).value, false)
  }

  /** A port edit sets the port to the typed number and leaves every other
      column of the server as it was. */
  lemma PortEdit(store: Database.Store, sid: int, n: nat, i: nat)
    requires i < |store.servers| && store.servers[i].id == sid
    ensures var r := EditValue(store, sid, PortField, NatToString(n));
      r.reply.Updated? && r.store.servers[i] == store.servers[i].(port := n)
  {
    var t := NatToString(n);
    assert t[0] != ' ';
    StripTrimmed(t);
    NatToStringValue(n);
    var r := EditValue(store, sid, PortField, t);
    assert r.reply == Updated(Database.Port(n));
    assert Database.Assign(store.servers[i], [Database.Port(n)]) == store.servers[i].(port := n);
  }

  /** The dialogue state `srv:editf:` stores for the user who pressed it. */
  datatype EditSession = EditSession(server: int, field: Field)

  /** `cb_edit_server_field` as written: it opens the edit dialogue for
      whoever presses the button, without asking whether the caller is an
      admin. */
  function OpenEditAsWritten(store: Database.Store, caller: int, sid: int, field: Field): (r: Option<EditSession>)
    ensures r.Some? && r.value.server == sid && r.value.field == field
  {
    Some(EditSession(sid, field))
  }

  /** The button with the admin check that `srv:edit:` makes. */
  function OpenEdit(store: Database.Store, adminIds: seq<int>, caller: int, sid: int, field: Field): (r: Option<EditSession>)
    ensures r.Some? <==> Database.IsAdmin(store, adminIds, caller)
    ensures r.Some? ==> r.value == EditSession(sid, field)
  {
    if Database.IsAdmin(store, adminIds, caller) then Some(EditSession(sid, field)) else None
  }

  /** The caller's next message: applied by `fsm_edit_server_value` when the
      caller has an open session, ignored otherwise. */
  function ReplyToEdit(store: Database.Store, session: Option<EditSession>, text: string): (r: Database.Store)
    ensures session.None? ==> r == store
    ensures session.Some? ==> r == EditValue(store, session.value.server, session.value.field, text).store
  {
    match session
    case None => store
    case Some(e) => EditValue(store, e.server, e.field, text).store
  }

  /** A caller who is no admin can press the edit button and then set a
      server's password. */
  lemma EditNeedsNoAdmin()
    ensures var srv := Database.Server(1, "vps", "10.0.0.1", 22, "root", "password", Some("pw"), None, true);
      var store := Database.EmptyStore.(servers := [srv]);
      var r := ReplyToEdit(store, OpenEditAsWritten(store, 7, 1, PasswordField), "evil");
      && !Database.IsAdmin(store, [], 7)
      && r.servers[0] == srv.(password := Some("evil"))
  {
    var srv := Database.Server(1, "vps", "10.0.0.1", 22, "root", "password", Some("pw"), None, true);
    var store := Database.EmptyStore.(servers := [srv]);
    StripTrimmed("evil");
    assert EditValue(store, 1, PasswordField, "evil").reply == Updated(Database.Password("evil"));
    assert Database.Assign(srv, [Database.Password("evil")]) == srv.(password := Some("evil"));
  }

  /** Guarded, a reply changes a server's password exactly when the caller who
      pressed the button is an admin. */
  lemma EditGuarded(store: Database.Store, adminIds: seq<int>, caller: int, sid: int, i: nat, text: string)
    requires i < |store.servers| && store.servers[i].id == sid
    requires text != "/cancel" && store.servers[i].password != Some(Strip(text))
    ensures var r := ReplyToEdit(store, OpenEdit(store, adminIds, caller, sid, PasswordField), text);
      Database.IsAdmin(store, adminIds, caller) <==> r.servers[i].password == Some(Strip(text))
  {
    if Database.IsAdmin(store, adminIds, caller) {
      var e := EditValue(store, sid, PasswordField, text);
      assert e.reply == Updated(Database.Password(Strip(text)));
      assert Database.Assign(store.servers[i], [Database.Password(Strip(text))])
          == store.servers[i].(password := Some(Strip(text)));
    }
  }

  // ---------------------------------------------------------------------------
  // Deleting a server (`confirm:del_srv:<id>`)

  /** `cb_confirm_delete_server` as written: it soft-deletes the server
      without asking whether the caller is an admin. */
  function ConfirmDeleteAsWritten(store: Database.Store, caller: int, id: int): (r: Database.Store)
    ensures |r.servers| == |store.servers|
    ensures forall i :: 0 <= i < |store.servers| && store.servers[i].id == id ==> !r.servers[i].active
  {
    Database.DeleteServer(store, id)
  }

  /** A caller who is no admin can hide a server through the confirmation. */
  lemma ConfirmDeleteNeedsNoAdmin()
    ensures var srv := Database.Server(1, "vps", "10.0.0.1", 22, "root", "password", Some("pw"), None, true);
      var store := Database.EmptyStore.(servers := [srv]);
      && !Database.IsAdmin(store, [], 7)
      && Database.ActiveServers(ConfirmDeleteAsWritten(store, 7, 1).servers) == []
      && Database.ActiveServers(store.servers) == [srv]
  {
    var srv := Database.Server(1, "vps", "10.0.0.1", 22, "root", "password", Some("pw"), None, true);
    var store := Database.EmptyStore.(servers := [srv]);
    var r := ConfirmDeleteAsWritten(store, 7, 1);
    assert !r.servers[0].active;
    assert r.servers[1..] == [];
  }

  /** The confirmation with the admin check that `srv:delete:` makes. */
  function ConfirmDelete(store: Database.Store, adminIds: seq<int>, caller: int, id: int): (r: Database.Store)
    ensures !Database.IsAdmin(store, adminIds, caller) ==> r == store
    ensures |r.servers| == |store.servers|
    ensures Database.IsAdmin(store, adminIds, caller) ==> forall i :: 0 <= i < |store.servers| ==>
      r.servers[i] == if store.servers[i].id == id then store.servers[i].(active := false) else store.servers[i]
  {
    if Database.IsAdmin(store, adminIds, caller) then Database.DeleteServer(store, id) else store
  }

  /** Guarded, an active server disappears from the list exactly when the
      caller is an admin. */
  lemma ConfirmDeleteGuarded(store: Database.Store, adminIds: seq<int>, caller: int, id: int, i: nat)
    requires i < |store.servers| && store.servers[i].id == id && store.servers[i].active
    ensures var r := ConfirmDelete(store, adminIds, caller, id);
      Database.IsAdmin(store, adminIds, caller) <==> r.servers[i] !in Database.ActiveServers(r.servers)
  {
  }

  // ---------------------------------------------------------------------------
  // Command output shown in a message

  /** Messages keep at most this many characters of output. */
  const OutputLimit := 3500

  /** What the terminal appends to cut output: a new line, then "...обрезано". */
  const CutMarker := "\n...обрезано"

  /** `out or err or placeholder` */
  function Shown(r: SshManager.CommandResult, placeholder: string): (s: string)
    ensures r.out != "" ==> s == r.out
    ensures r.out == "" && r.err != "" ==> s == r.err
    ensures r.out == "" && r.err == "" ==> s == placeholder
  {
    if r.out != "" then r.out else if r.err != "" then r.err else placeholder
  }

  const TerminalPlaceholder := "(пустой вывод)"
  const RemnawavePlaceholder := "(пусто)"

  /** The terminal keeps the head of long output and marks the cut. */
  function TerminalOutput(r: SshManager.CommandResult): (s: string)
    ensures var full := Shown(r, TerminalPlaceholder);
      && (|full| <= OutputLimit ==> s == full)
      && (|full| > OutputLimit ==>
            |s| == OutputLimit + |CutMarker| && s[..OutputLimit] == full[..OutputLimit] && s[OutputLimit..] == CutMarker)
  {
    var full := Shown(r, TerminalPlaceholder);
    if |full| > OutputLimit then full[..OutputLimit] + CutMarker else full
  }

  /** The Remnawave actions keep the tail of long output (the end of the logs). */
  function RemnawaveOutput(r: SshManager.CommandResult): (s: string)
    ensures var full := Shown(r, RemnawavePlaceholder);
      && |s| == (if |full| > OutputLimit then OutputLimit else |full|)
      && full == full[..|full| - |s|] + s
  {
    var full := Shown(r, RemnawavePlaceholder);
    if |full| > OutputLimit then full[|full| - OutputLimit..] else full
  }

  /** Either way the output part of the message stays bounded, and short output
      is shown whole. */
  lemma OutputBounded(r: SshManager.CommandResult)
    ensures |TerminalOutput(r)| <= OutputLimit + |CutMarker|
    ensures |RemnawaveOutput(r)| <= OutputLimit
    ensures |Shown(r, TerminalPlaceholder)| <= OutputLimit ==> TerminalOutput(r) == Shown(r, TerminalPlaceholder)
    ensures |Shown(r, RemnawavePlaceholder)| <= OutputLimit ==> RemnawaveOutput(r) == Shown(r, RemnawavePlaceholder)
  {
  }

  // ---------------------------------------------------------------------------
  // Remnawave actions (`remna:<component>:<id>`)

  /** The buttons' component names. */
  const Components := ["panel", "node", "sub", "clean"]

  /** The button's `sub` is the manager's `subscription`; other names pass through. */
  function ComponentKey(component: string): (key: string)
    ensures component != "sub" ==> key == component
  {
    if component == "sub" then "subscription" else component
  }

  /** Every button reaches a real script, never the "unknown component" echo. */
  lemma ButtonsReachScripts(i: nat)
    requires i < |Components|
    ensures ComponentKey(Components[i]) in SshManager.RemnawaveScripts
    ensures SshManager.RemnawaveRequest(ComponentKey(Components[i])).command != SshManager.UnknownComponentCommand
  {
    var key := ComponentKey(Components[i]);
    assert key in SshManager.RemnawaveScripts;
    var cmd := SshManager.RemnawaveScripts[key];
    assert cmd != SshManager.UnknownComponentCommand by {
      assert cmd[0] != SshManager.UnknownComponentCommand[0];
    }
  }

  // ---------------------------------------------------------------------------
  // Changing the SSH password (`ssh:chpwd:<id>` and the reply)

  datatype PasswordOutcome = PasswordOutcome(
    request: Option<SshManager.Request>, changed: bool, message: string, store: Database.Store)

  /** `fsm_change_password`: a missing server ends the dialogue; otherwise the
      stripped reply is sent to the server, and only when the remote change
      succeeded is it stored as the server's password. */
  function ChangePassword(store: Database.Store, sid: int, text: string, remote: SshManager.CommandResult): (r: PasswordOutcome)
    ensures Database.GetServer(store, sid).None? ==> r.request.None? && r.store == store
    ensures Database.GetServer(store, sid).Some? ==>
      r.request == Some(SshManager.ChangePasswordRequest(Database.GetServer(store, sid).value.username, Strip(text)))
    ensures r.changed <==> r.request.Some? && remote.code == 0
    ensures !r.changed ==> r.store == store
    ensures r.changed ==> Database.UpdateServer(store, sid, [Database.Password(Strip(text))]) == Some(r.store)
  {
    match Database.GetServer(store, sid)
    case None => PasswordOutcome(None, false, "", store)
    case Some(server) =>
      var pwd := Strip(text);
      var (ok, msg) := SshManager.ChangePassword(remote);
      PasswordOutcome(Some(SshManager.ChangePasswordRequest(server.username, pwd)), ok, msg,
                      if ok then Database.UpdateServer(store, sid, [Database.Password(pwd)]).value else store)
  }

  /** The stored password follows the server's: after a success the server
      row holds the new password, after a failure the old one. */
  lemma StoredPasswordFollowsRemote(store: Database.Store, sid: int, text: string, remote: SshManager.CommandResult, i: nat)
    requires i < |store.servers| && store.servers[i].id == sid
    ensures var r := ChangePassword(store, sid, text, remote);
      r.store.servers[i].password == if remote.code == 0 then Some(Strip(text)) else store.servers[i].password
  {
    var r := ChangePassword(store, sid, text, remote);
    assert Database.GetServer(store, sid).Some? by {
      assert store.servers[i] in store.servers;
    }
    if remote.code == 0 {
      assert Database.Assign(store.servers[i], [Database.Password(Strip(text))]).password == Some(Strip(text));
    }
  }
}
