/** The payment screens of `handlers/payments.py`: the list of active payments,
    the payment card, renewing, rescheduling, the add-payment dialogue, the
    delete confirmation and the history. "Now" is a parameter (`today`); the
    messages are abstracted to the values they show. */
module Payments {
  import opened Wrappers
  import opened Text
  import Dates
  import Database
  import Formatters

  /** The day counts offered on the renew and quick-date buttons. */
  const DayButtons := [30, 60, 90, 180, 360]

  /** The history shows at most this many rows. */
  const HistoryLimit := 15

  // ---------------------------------------------------------------------------
  // The active payment list

  datatype Icon = Red | Yellow | Orange | Green

  /** How the list words the days left. */
  datatype DaysLabel = Overdue(days: nat) | DueToday | In(days: nat)

  /** The icon for `days_left`: red up to today, yellow within three days,
      orange within a week, green after that. */
  function ListIcon(daysLeft: int): Icon {
    if daysLeft <= 0 then Red else if daysLeft <= 3 then Yellow else if daysLeft <= 7 then Orange else Green
  }

  /** How urgent an icon reads. */
  function Warmth(i: Icon): nat {
    match i
    case Red => 3
    case Yellow => 2
    case Orange => 1
    case Green => 0
  }

  /** The days text: overdue by `abs(days_left)`, today, or in `days_left` days. */
  function ListLabel(daysLeft: int): (l: DaysLabel)
    ensures l.Overdue? <==> daysLeft < 0
    ensures l.DueToday? <==> daysLeft == 0
    ensures l.Overdue? ==> l.days as int == -daysLeft
    ensures l.In? ==> l.days as int == daysLeft
  {
    if daysLeft < 0 then Overdue(-daysLeft) else if daysLeft == 0 then DueToday else In(daysLeft)
  }

  /** A nearer due date never gets a cooler icon, and for payments not yet
      overdue the list and the reminder agree: red exactly on the day, yellow
      exactly for "tomorrow" and "in two or three days". */
  lemma ListIconOrder(a: int, b: int)
    ensures a <= b ==> Warmth(ListIcon(a)) >= Warmth(ListIcon(b))
    ensures a >= 0 ==> (ListIcon(a) == Red <==> Formatters.UrgencyOf(a) == Formatters.Today)
    ensures a >= 0 ==> (ListIcon(a) == Yellow <==> Formatters.UrgencyOf(a).Tomorrow? || Formatters.UrgencyOf(a).Soon?)
  {
  }

  /** One line of the list. */
  datatype ListRow = ListRow(payment: int, icon: Icon, description: string, serverName: string, amount: real,
                             dueIn: DaysLabel, dueDate: string)

  predicate DueParses(p: Database.Payment) {
    Dates.ParseIsoDate(p.dueDate).Some?
  }

  /** `row` lists payment `p`: its description, joined server name (`""` for
      none), amount and due date, with the icon and days text of its days left. */
  predicate RowFor(store: Database.Store, row: ListRow, p: Database.Payment, today: Dates.Date)
    requires Dates.Valid(today)
  {
    && row.payment == p.id
    && row.description == p.description
    && row.serverName == Database.ServerName(store, p).GetOr("")
    && row.amount == p.amount
    && row.dueDate == p.dueDate
    && DueParses(p)
    && var d := Dates.DaysLeft(Dates.ParseIsoDate(p.dueDate).value, today);
    && row.icon == ListIcon(d) && row.dueIn == ListLabel(d)
  }

  /** The list rows for a snapshot of payments; `None` when a due date does not
      parse, which raises out of the handler. */
  function ListRows(store: Database.Store, ps: seq<Database.Payment>, today: Dates.Date): (r: Option<seq<ListRow>>)
    requires Dates.Valid(today)
    ensures r.Some? <==> forall i :: 0 <= i < |ps| ==> DueParses(ps[i])
    ensures r.Some? ==> |r.value| == |ps| && forall i :: 0 <= i < |ps| ==> RowFor(store, r.value[i], ps[i], today)
    decreases |ps|
  {
    if ps == [] then Some([])
    else
      match Dates.ParseIsoDate(ps[0].dueDate)
      case None => None
      case Some(due) =>
        var d := Dates.DaysLeft(due, today);
        var p := ps[0];
        var row := ListRow(p.id, ListIcon(d), p.description, Database.ServerName(store, p).GetOr(""), p.amount,
                           ListLabel(d), p.dueDate);
        match ListRows(store, ps[1..], today)
        case None => None
        case Some(rest) => Some([row] + rest)
  }

  /** `pay:list`: one row per unpaid payment, nearest due date first. */
  function PaymentList(store: Database.Store, today: Dates.Date): (r: Option<seq<ListRow>>)
    requires Dates.Valid(today)
    ensures r.Some? <==> forall p :: p in store.payments && !p.paid ==> DueParses(p)
    ensures r.Some? ==> |r.value| == |Database.Unpaid(store.payments)|
    ensures r.Some? ==> forall i :: 0 <= i < |r.value| ==> RowFor(store, r.value[i], Database.GetPayments(store, true)[i], today)
  {
    var ps := Database.GetPayments(store, true);
    ActiveSnapshot(store);
    ListedParse(store, ps);
    ListRows(store, ps, today)
  }

  /** The active snapshot has one entry per unpaid row and lists exactly them. */
  lemma ActiveSnapshot(store: Database.Store)
    ensures |Database.GetPayments(store, true)| == |Database.Unpaid(store.payments)|
    ensures forall p :: p in Database.GetPayments(store, true) <==> p in store.payments && !p.paid
  {
    var ps := Database.GetPayments(store, true);
    assert |ps| == |multiset(ps)| == |multiset(Database.Unpaid(store.payments))|;
    forall p ensures p in ps <==> p in store.payments && !p.paid {
      Database.ActivePaymentsListed(store, p);
    }
  }

  lemma ListedParse(store: Database.Store, ps: seq<Database.Payment>)
    requires forall p :: p in ps <==> p in store.payments && !p.paid
    ensures (forall i :: 0 <= i < |ps| ==> DueParses(ps[i])) <==>
            (forall p :: p in store.payments && !p.paid ==> DueParses(p))
  {
    if forall i :: 0 <= i < |ps| ==> DueParses(ps[i]) {
      forall p | p in store.payments && !p.paid ensures DueParses(p) {
        var i :| 0 <= i < |ps| && ps[i] == p;
      }
    }
  }

  /** Every unpaid payment has its row in the list, nearest due date first. */
  lemma UnpaidListed(store: Database.Store, today: Dates.Date, p: Database.Payment)
    requires Dates.Valid(today) && PaymentList(store, today).Some?
    requires p in store.payments && !p.paid
    ensures exists i :: 0 <= i < |PaymentList(store, today).value| && PaymentList(store, today).value[i].payment == p.id
    ensures forall i, j :: 0 <= i < j < |PaymentList(store, today).value| ==>
      Database.TextLe(Database.GetPayments(store, true)[i].dueDate, Database.GetPayments(store, true)[j].dueDate)
  {
    var ps := Database.GetPayments(store, true);
    Database.ActivePaymentsListed(store, p);
    var i :| 0 <= i < |ps| && ps[i] == p;
    assert PaymentList(store, today).value[i].payment == p.id;
  }

  /** `pay:view`: the reminder card of one payment. The row comes from a plain
      `SELECT *`, without the joined server name, so the card's server line is
      empty. `None` when the payment is missing or its due date does not parse. */
  function PaymentCard(store: Database.Store, id: int, today: Dates.Date): (r: Option<Formatters.Reminder>)
    requires Dates.Valid(today)
    ensures r.Some? ==> exists p :: p in store.payments && p.id == id && r.value.description == p.description
    ensures Database.GetPayment(store, id).None? ==> r.None?
    ensures r.Some? ==> r.value.serverName == ""
  {
    match Database.GetPayment(store, id)
    case None => None
    case Some(p) =>
      match Dates.ParseIsoDate(p.dueDate)
      case None => None
      case Some(due) => Some(Formatters.PaymentReminder(p, Some(""), Dates.DaysLeft(due, today)))
  }

  // ---------------------------------------------------------------------------
  // Reading a due date typed by the user

  /** What a typed due date resolves to. */
  datatype DueInput =
    | NewDue(date: Dates.Date, daysLeft: int)
    | Malformed      // neither `+N` nor `DD.MM.YYYY`: the error message, the dialogue waits
    | OutOfRange     // `today + N` past year 9999: the addition raises, the dialogue waits

  /** `text.startswith("+") and text[1:].isdigit()` */
  predicate IsPlusDays(t: string) {
    |t| >= 1 && t[0] == '+' && IsDigits(t[1..])
  }

  /** The stripped text as `+N` days from today, or else as a `DD.MM.YYYY` date. */
  function ReadDue(text: string, today: Dates.Date): (r: DueInput)
    requires Dates.Valid(today)
    ensures r.NewDue? ==> Dates.Valid(r.date) && r.daysLeft == Dates.DaysLeft(r.date, today)
    ensures r.OutOfRange? ==> IsPlusDays(Strip(text))
    ensures r.Malformed? ==> !IsPlusDays(Strip(text)) && Dates.ParseDayMonthYear(Strip(text)).None?
  {
    var t := Strip(text);
    if IsPlusDays(t) then
      var n := DigitsValue(t[1..]);
      match Dates.AddDays(today, n)
      case Some(d) => NewDue(d, n)
      case None => OutOfRange
    else
      match Dates.ParseDayMonthYear(t)
      case Some(d) => NewDue(d, Dates.DaysLeft(d, today))
      case None => Malformed
  }

  /** `+N` means N days from today, whitespace around it ignored. */
  lemma ReadPlusDays(ws1: string, n: nat, ws2: string, today: Dates.Date)
    requires Dates.Valid(today) && AllSpace(ws1) && AllSpace(ws2)
    requires Dates.Ordinal(today) + n <= Dates.MaxOrdinal
    ensures var r := ReadDue(ws1 + "+" + NatToString(n) + ws2, today);
      r.NewDue? && r.daysLeft == n
  {
    var x := "+" + NatToString(n);
    assert ws1 + "+" + NatToString(n) + ws2 == ws1 + x + ws2;
    StripFrame(ws1, x, ws2);
    NatToStringValue(n);
    assert x[1..] == NatToString(n);
    Dates.AddDaysInRange(today, n);
  }

  /** A date written as the bot writes it reads back as that date. */
  lemma ReadCalendarDate(dt: Dates.Date, today: Dates.Date)
    requires Dates.Valid(dt) && Dates.Valid(today)
    ensures ReadDue(Dates.FormatDayMonthYear(dt), today) == NewDue(dt, Dates.DaysLeft(dt, today))
  {
    var t := Dates.FormatDayMonthYear(dt);
    var day := Dates.Padded(dt.day, 2);
    assert t[0] == day[0];
    assert IsDigit(t[0]) && t[|t| - 1] == Dates.Padded(dt.year, 4)[3];
    StripTrimmed(t);
    Dates.ParseFormatDayMonthYear(dt);
  }

  // ---------------------------------------------------------------------------
  // Rescheduling (`pay:edit_date` and the reply to it)

  /** What the reply to "enter a new date" leads to. */
  datatype EditReply = Cancelled | Rejected(why: DueInput) | Rescheduled(date: Dates.Date, daysLeft: int)

  /** The store after the reply, and whether the dialogue still waits for a date. */
  datatype Edited = Edited(reply: EditReply, store: Database.Store, waiting: bool)

  /** `fsm_edit_date` for the payment the dialogue was opened on. `/cancel` is
      compared before stripping. A readable date is stored in ISO form with
      the notified offsets cleared; `is_paid` is left as it was. */
  function EditDate(store: Database.Store, id: int, text: string, today: Dates.Date): (r: Edited)
    requires Dates.Valid(today)
    ensures text == "/cancel" ==> r == Edited(Cancelled, store, false)
    ensures r.waiting <==> r.reply.Rejected?
    ensures !r.reply.Rescheduled? ==> r.store == store
    ensures r.reply.Rescheduled? ==>
      && Dates.Valid(r.reply.date)
      && r.reply.daysLeft == Dates.DaysLeft(r.reply.date, today)
      && r.store == Database.RescheduleUnnotified(store, id, Dates.FormatIsoDate(r.reply.date))
  {
    if text == "/cancel" then Edited(Cancelled, store, false)
    else
      match ReadDue(text, today)
      case NewDue(d, n) => Edited(Rescheduled(d, n), Database.RescheduleUnnotified(store, id, Dates.FormatIsoDate(d)), false)
      case other => Edited(Rejected(other), store, true)
  }

  /** After a reschedule the row's due date is one the reminder job can read,
      it has no recorded offsets, and nothing but the date and the offsets changed. */
  lemma RescheduleReadable(store: Database.Store, id: int, text: string, today: Dates.Date, i: nat)
    requires Dates.Valid(today) && i < |store.payments| && store.payments[i].id == id
    requires EditDate(store, id, text, today).reply.Rescheduled?
    ensures var r := EditDate(store, id, text, today);
      var row := r.store.payments[i];
      && Dates.ParseIsoDate(row.dueDate) == Some(r.reply.date)
      && row.notifiedDays == Some("")
      && row.paid == store.payments[i].paid
      && row.(dueDate := store.payments[i].dueDate, notifiedDays := store.payments[i].notifiedDays) == store.payments[i]
  {
    Dates.ParseFormatIsoDate(EditDate(store, id, text, today).reply.date);
  }

  // ---------------------------------------------------------------------------
  // Renewing (`pay:renew:<days>:<id>`)

  datatype RenewReply = NotFound | Renewed(date: Dates.Date) | RenewOverflow

  datatype RenewOutcome = RenewOutcome(reply: RenewReply, store: Database.Store)

  /** `cb_renew_payment`: a missing payment changes nothing; otherwise the due
      date becomes today plus the chosen days, the payment is unpaid again and
      its offsets are cleared. */
  function Renew(store: Database.Store, days: int, id: int, today: Dates.Date): (r: RenewOutcome)
    requires Dates.Valid(today)
    ensures !r.reply.Renewed? ==> r.store == store
    ensures Database.GetPayment(store, id).None? <==> r.reply.NotFound?
    ensures r.reply.Renewed? ==> Dates.Valid(r.reply.date) && Dates.Ordinal(r.reply.date) == Dates.Ordinal(today) + days
  {
    match Database.GetPayment(store, id)
    case None => RenewOutcome(NotFound, store)
    case Some(_) =>
      match Dates.AddDays(today, days)
      case None => RenewOutcome(RenewOverflow, store)
      case Some(d) =>
        var cleared := Database.UpdatePaymentNotified(store, id, "");
        RenewOutcome(Renewed(d), Database.RenewPayment(cleared, id, Dates.FormatIsoDate(d)))
  }

  /** A renewed payment is active again, due on the new date, with every
      reminder offset armed again; other rows are untouched. */
  lemma RenewRearms(store: Database.Store, days: int, id: int, today: Dates.Date, i: nat)
    requires Dates.Valid(today) && i < |store.payments|
    requires Renew(store, days, id, today).reply.Renewed?
    ensures var r := Renew(store, days, id, today);
      var row := r.store.payments[i];
      if store.payments[i].id == id then
        && !row.paid && row in Database.GetPayments(r.store, true)
        && Dates.ParseIsoDate(row.dueDate) == Some(r.reply.date)
        && row.notifiedDays == Some("")
      else row == store.payments[i]
  {
    var r := Renew(store, days, id, today);
    Dates.ParseFormatIsoDate(r.reply.date);
    Database.ActivePaymentsListed(r.store, r.store.payments[i]);
  }

  // ---------------------------------------------------------------------------
  // Deleting (`confirm:del_pay:<id>`)

  /** `cb_confirm_del_payment` as written: it marks the payment paid (the row
      stays), and it does not ask whether the caller is an admin. */
  function ConfirmDeleteAsWritten(store: Database.Store, caller: int, id: int): (r: Database.Store)
    ensures |r.payments| == |store.payments|
    ensures forall i :: 0 <= i < |store.payments| && store.payments[i].id == id ==>
      r.payments[i] == store.payments[i].(paid := true)
  {
    Database.MarkPaid(store, id)
  }

  /** A caller who is no admin can retire a payment through the confirmation. */
  lemma ConfirmDeleteNeedsNoAdmin()
    ensures var p := Database.Payment(1, None, "vps", 1.0, "RUB", "2026-01-01", 1, 1, false, Some(""));
      var store := Database.EmptyStore.(payments := [p]);
      && !Database.IsAdmin(store, [], 7)
      && ConfirmDeleteAsWritten(store, 7, 1) != store
  {
    var p := Database.Payment(1, None, "vps", 1.0, "RUB", "2026-01-01", 1, 1, false, Some(""));
    var store := Database.EmptyStore.(payments := [p]);
    assert ConfirmDeleteAsWritten(store, 7, 1).payments[0].paid;
  }

  /** The confirmation with the admin check every other payment handler makes. */
  function ConfirmDelete(store: Database.Store, adminIds: seq<int>, caller: int, id: int): (r: Database.Store)
    ensures !Database.IsAdmin(store, adminIds, caller) ==> r == store
    ensures |r.payments| == |store.payments|
    ensures Database.IsAdmin(store, adminIds, caller) ==>
      forall i :: 0 <= i < |store.payments| ==>
        r.payments[i] == if store.payments[i].id == id then store.payments[i].(paid := true) else store.payments[i]
  {
    if Database.IsAdmin(store, adminIds, caller) then Database.MarkPaid(store, id) else store
  }

  /** Guarded, an unpaid payment leaves the active list exactly when the caller
      is an admin. */
  lemma ConfirmDeleteGuarded(store: Database.Store, adminIds: seq<int>, caller: int, id: int, i: nat)
    requires i < |store.payments| && store.payments[i].id == id && !store.payments[i].paid
    ensures var r := ConfirmDelete(store, adminIds, caller, id);
      Database.IsAdmin(store, adminIds, caller) <==> r.payments[i] !in Database.GetPayments(r, true)
  {
    var r := ConfirmDelete(store, adminIds, caller, id);
    Database.ActivePaymentsListed(r, r.payments[i]);
    Database.ActivePaymentsListed(store, store.payments[i]);
  }

  // ---------------------------------------------------------------------------
  // Adding a payment (`pay:add` and its dialogue)

  /** `float(text.strip().replace(",", "."))`: a decimal comma is accepted. */
  function ParseAmount(text: string): (r: Option<real>)
    ensures ',' !in Strip(text) ==> r == ParseDecimal(Strip(text))
  {
    var t := Strip(text);
    var u := ReplaceChar(t, ',', '.');
    assert ',' !in t ==> u == t;
    ParseDecimal(u)
  }

  lemma CommaToPoint(w: string, f: string)
    requires IsDigits(w) && IsDigits(f)
    ensures Strip(w + "," + f) == w + "," + f
    ensures ReplaceChar(w + "," + f, ',', '.') == w + "." + f
  {
    var s := w + "," + f;
    assert s[0] == w[0] && s[|s| - 1] == f[|f| - 1];
    StripTrimmed(s);
    var t := w + "." + f;
    forall i | 0 <= i < |s|
      ensures ReplaceChar(s, ',', '.')[i] == t[i]
    {
      if i < |w| {
        assert s[i] == w[i] && t[i] == w[i];
      } else if i > |w| {
        assert s[i] == f[i - |w| - 1] && t[i] == f[i - |w| - 1];
      }
    }
  }

  /** `12,50` reads as 12.5, like `12.50`. */
  lemma AmountWithComma(w: string, f: string)
    requires IsDigits(w) && IsDigits(f)
    ensures ParseAmount(w + "," + f) == Some(DigitsValue(w) as real + Fraction(f))
    ensures ParseAmount(w + "," + f) == ParseAmount(w + "." + f)
  {
    CommaToPoint(w, f);
    DecimalWithPoint(w, f);
    var t := w + "." + f;
    assert t[0] == w[0] && t[|t| - 1] == f[|f| - 1];
    StripTrimmed(t);
    assert forall i :: 0 <= i < |t| ==> t[i] != ',' by {
      forall i | 0 <= i < |t|
        ensures t[i] != ','
      {
        if i < |w| {
          assert t[i] == w[i];
        } else if i > |w| {
          assert t[i] == f[i - |w| - 1];
        }
      }
    }
  }

  /** A whole amount typed as digits reads as that amount. */
  lemma AmountOfWhole(n: int)
    ensures ParseAmount(IntToString(n)) == Some(n as real)
  {
    var t := IntToString(n);
    IntToStringAbsent(n, ',');
    IntToStringTrimmed(n);
    StripTrimmed(t);
    DecimalOfIntToString(n);
  }

  /** Where the add-payment dialogue stands. */
  datatype AddStage =
    | Idle
    | PickServer
    | Describe(serverId: int)
    | Price(serverId: int, description: string)
    | Schedule(serverId: int, description: string, amount: real)

  /** What the user does in the dialogue. */
  datatype Input = Pick(serverId: int) | Typed(text: string) | QuickDays(days: int)

  datatype AddStep = AddStep(stage: AddStage, store: Database.Store)

  /** `pay:add` opens the dialogue only when there is an active server. */
  function StartAdd(store: Database.Store): (s: AddStage)
    ensures s == PickServer <==> |Database.ActiveServers(store.servers)| > 0
    ensures s == Idle || s == PickServer
  {
    if Database.ActiveServers(store.servers) == [] then Idle else PickServer
  }

  /** The payment the dialogue saves for a due date, stored in ISO form. */
  function Save(store: Database.Store, serverId: int, description: string, amount: real, due: Dates.Date): (r: Database.Store)
    requires Dates.Valid(due)
    ensures Saved(store, r, serverId, description, amount)
    ensures Dates.ParseIsoDate(r.payments[|store.payments|].dueDate) == Some(due)
  {
    Dates.ParseFormatIsoDate(due);
    Database.AddPayment(store, serverId, description, amount, Dates.FormatIsoDate(due))
  }

  /** `b` is `a` with one unpaid payment appended, carrying the dialogue's data
      and a due date the reminder job can read. */
  ghost predicate Saved(a: Database.Store, b: Database.Store, serverId: int, description: string, amount: real) {
    && |b.payments| == |a.payments| + 1 && b.payments[..|a.payments|] == a.payments
    && b.servers == a.servers && b.ledger == a.ledger && b.settings == a.settings && b.admins == a.admins
    && var row := b.payments[|a.payments|];
    && row.serverId == Some(serverId) && row.description == description && row.amount == amount
    && !row.paid && row.notifiedDays == Some("") && Dates.ParseIsoDate(row.dueDate).Some?
  }

  /** The amount reply: a number moves on to the due date, anything else is
      asked again. */
  function PriceReply(id: int, desc: string, text: string, store: Database.Store): AddStep {
    match ParseAmount(text)
    case Some(a) => AddStep(Schedule(id, desc, a), store)
    case None => AddStep(Price(id, desc), store)
  }

  /** A typed due date saves the payment; a bad one is asked again. */
  function DueReply(id: int, desc: string, a: real, text: string, store: Database.Store, today: Dates.Date): AddStep
    requires Dates.Valid(today)
  {
    match ReadDue(text, today)
    case NewDue(d, _) => AddStep(Idle, Save(store, id, desc, a, d))
    case _ => AddStep(Schedule(id, desc, a), store)
  }

  /** A quick-date button saves the payment due that many days from today. */
  function QuickReply(id: int, desc: string, a: real, n: int, store: Database.Store, today: Dates.Date): AddStep
    requires Dates.Valid(today)
  {
    match Dates.AddDays(today, n)
    case Some(d) => AddStep(Idle, Save(store, id, desc, a, d))
    case None => AddStep(Schedule(id, desc, a), store)
  }

  /** One input to the dialogue. An input no handler of the current stage takes
      is ignored; a bad amount or due date keeps the stage. */
  function Advance(stage: AddStage, store: Database.Store, input: Input, today: Dates.Date): AddStep
    requires Dates.Valid(today)
  {
    match stage
    case Idle => AddStep(stage, store)
    case PickServer => if input.Pick? then AddStep(Describe(input.serverId), store) else AddStep(stage, store)
    case Describe(id) => if input.Typed? then AddStep(Price(id, Strip(input.text)), store) else AddStep(stage, store)
    case Price(id, desc) => if input.Typed? then PriceReply(id, desc, input.text, store) else AddStep(stage, store)
    case Schedule(id, desc, a) =>
      match input
      case Typed(text) => DueReply(id, desc, a, text, store, today)
      case QuickDays(n) => QuickReply(id, desc, a, n, store, today)
      case Pick(_) => AddStep(stage, store)
  }

  /** The store changes only when a due date completes the dialogue, and then
      by one new payment carrying the dialogue's data. */
  lemma AdvanceSaves(stage: AddStage, store: Database.Store, input: Input, today: Dates.Date)
    requires Dates.Valid(today)
    ensures var r := Advance(stage, store, input, today);
      r.store == store || (stage.Schedule? && r.stage == Idle &&
        Saved(store, r.store, stage.serverId, stage.description, stage.amount))
    ensures Advance(stage, store, input, today).stage == Idle ==> stage == Idle || stage.Schedule?
  {
  }

  /** A run of inputs through the dialogue. Payments are only ever appended. */
  function Dialogue(stage: AddStage, store: Database.Store, inputs: seq<Input>, today: Dates.Date): (r: AddStep)
    requires Dates.Valid(today)
    ensures |r.store.payments| >= |store.payments| && r.store.payments[..|store.payments|] == store.payments
    decreases |inputs|
  {
    if inputs == [] then AddStep(stage, store)
    else
      var s := Advance(stage, store, inputs[0], today);
      AdvanceSaves(stage, store, inputs[0], today);
      var r := Dialogue(s.stage, s.store, inputs[1..], today);
      assert r.store.payments[..|store.payments|] == r.store.payments[..|s.store.payments|][..|store.payments|];
      r
  }

  lemma DialogueCons(stage: AddStage, store: Database.Store, input: Input, rest: seq<Input>, today: Dates.Date)
    requires Dates.Valid(today)
    ensures var s := Advance(stage, store, input, today);
      Dialogue(stage, store, [input] + rest, today) == Dialogue(s.stage, s.store, rest, today)
  {
    assert ([input] + rest)[1..] == rest;
  }

  lemma PriceStep(serverId: int, desc: string, store: Database.Store, amount: int, today: Dates.Date)
    requires Dates.Valid(today)
    ensures Advance(Price(serverId, desc), store, Typed(IntToString(amount)), today)
      == AddStep(Schedule(serverId, desc, amount as real), store)
  {
    calc {
      Advance(Price(serverId, desc), store, Typed(IntToString(amount)), today);
    == { AdvancePrice(serverId, desc, IntToString(amount), store, today); }
      PriceReply(serverId, desc, IntToString(amount), store);
    == { AmountOfWhole(amount); }
      AddStep(Schedule(serverId, desc, amount as real), store);
    }
  }

  lemma AdvancePrice(serverId: int, desc: string, text: string, store: Database.Store, today: Dates.Date)
    requires Dates.Valid(today)
    ensures Advance(Price(serverId, desc), store, Typed(text), today) == PriceReply(serverId, desc, text, store)
  {
  }

  lemma QuickStep(serverId: int, desc: string, amount: real, store: Database.Store, days: nat, today: Dates.Date,
                  d: Dates.Date)
    requires Dates.Valid(today) && Dates.AddDays(today, days) == Some(d)
    ensures Advance(Schedule(serverId, desc, amount), store, QuickDays(days), today)
      == AddStep(Idle, Save(store, serverId, desc, amount, d))
  {
    calc {
      Advance(Schedule(serverId, desc, amount), store, QuickDays(days), today);
    == { AdvanceQuick(serverId, desc, amount, days, store, today); }
      QuickReply(serverId, desc, amount, days, store, today);
    }
  }

  lemma AdvanceQuick(serverId: int, desc: string, amount: real, n: int, store: Database.Store, today: Dates.Date)
    requires Dates.Valid(today)
    ensures Advance(Schedule(serverId, desc, amount), store, QuickDays(n), today)
      == QuickReply(serverId, desc, amount, n, store, today)
  {
  }

  lemma PricedRun(store: Database.Store, serverId: int, desc: string, amount: int, days: nat,
                  today: Dates.Date, d: Dates.Date)
    requires Dates.Valid(today) && Dates.AddDays(today, days) == Some(d)
    ensures Dialogue(Price(serverId, desc), store, [Typed(IntToString(amount)), QuickDays(days)], today)
      == AddStep(Idle, Save(store, serverId, desc, amount as real, d))
  {
    var a := amount as real;
    QuickStep(serverId, desc, a, store, days, today, d);
    DialogueCons(Schedule(serverId, desc, a), store, QuickDays(days), [], today);
    assert [QuickDays(days)] == [QuickDays(days)] + [];
    PriceStep(serverId, desc, store, amount, today);
    DialogueCons(Price(serverId, desc), store, Typed(IntToString(amount)), [QuickDays(days)], today);
    assert [Typed(IntToString(amount)), QuickDays(days)] == [Typed(IntToString(amount))] + [QuickDays(days)];
  }

  lemma OpeningSteps(store: Database.Store, serverId: int, description: string, rest: seq<Input>, today: Dates.Date)
    requires Dates.Valid(today)
    ensures Dialogue(PickServer, store, [Pick(serverId), Typed(description)] + rest, today)
      == Dialogue(Price(serverId, Strip(description)), store, rest, today)
  {
    DialogueCons(Describe(serverId), store, Typed(description), rest, today);
    DialogueCons(PickServer, store, Pick(serverId), [Typed(description)] + rest, today);
    assert [Pick(serverId), Typed(description)] + rest == [Pick(serverId)] + ([Typed(description)] + rest);
  }

  lemma DialogueRun(store: Database.Store, serverId: int, description: string, amount: int, days: nat,
                    today: Dates.Date, d: Dates.Date)
    requires Dates.Valid(today) && |Database.ActiveServers(store.servers)| > 0
    requires Dates.AddDays(today, days) == Some(d)
    ensures Dialogue(StartAdd(store), store,
                     [Pick(serverId), Typed(description), Typed(IntToString(amount)), QuickDays(days)], today)
      == AddStep(Idle, Save(store, serverId, Strip(description), amount as real, d))
  {
    var rest := [Typed(IntToString(amount)), QuickDays(days)];
    PricedRun(store, serverId, Strip(description), amount, days, today, d);
    OpeningSteps(store, serverId, description, rest, today);
    assert [Pick(serverId), Typed(description), Typed(IntToString(amount)), QuickDays(days)]
      == [Pick(serverId), Typed(description)] + rest;
  }

  /** The whole dialogue in one go: a server, a description, a whole amount and a
      quick-date button add exactly one unpaid payment with that data, due the
      chosen number of days from today, which the active list then shows. */
  lemma AddDialogue(store: Database.Store, serverId: int, description: string, amount: int, days: nat,
                    today: Dates.Date)
    requires Dates.Valid(today) && |Database.ActiveServers(store.servers)| > 0
    requires Dates.Ordinal(today) + days <= Dates.MaxOrdinal
    ensures var r := Dialogue(StartAdd(store), store,
                              [Pick(serverId), Typed(description), Typed(IntToString(amount)), QuickDays(days)], today);
      && r.stage == Idle
      && Saved(store, r.store, serverId, Strip(description), amount as real)
      && var row := r.store.payments[|store.payments|];
      && row in Database.GetPayments(r.store, true)
      && Dates.Ordinal(Dates.ParseIsoDate(row.dueDate).value) == Dates.Ordinal(today) + days
  {
    Dates.AddDaysInRange(today, days);
    var d := Dates.AddDays(today, days).value;
    var saved := Save(store, serverId, Strip(description), amount as real, d);
    calc {
      Dialogue(StartAdd(store), store,
               [Pick(serverId), Typed(description), Typed(IntToString(amount)), QuickDays(days)], today);
    == { DialogueRun(store, serverId, description, amount, days, today, d); }
      AddStep(Idle, saved);
    }
    SaveListed(store, serverId, Strip(description), amount as real, days, today, d);
  }

  /** The payment a quick-date button saves is listed as active, due the chosen
      number of days from today. */
  lemma SaveListed(store: Database.Store, serverId: int, description: string, amount: real, days: nat,
                   today: Dates.Date, d: Dates.Date)
    requires Dates.Valid(today) && Dates.AddDays(today, days) == Some(d)
    ensures var saved := Save(store, serverId, description, amount, d);
      var row := saved.payments[|store.payments|];
      && row in Database.GetPayments(saved, true)
      && Dates.Ordinal(Dates.ParseIsoDate(row.dueDate).value) == Dates.Ordinal(today) + days
  {
    var saved := Save(store, serverId, description, amount, d);
    Database.ActivePaymentsListed(saved, saved.payments[|store.payments|]);
  }

  // ---------------------------------------------------------------------------
  // History (`pay:history`)

  /** No row of `table` left out of `r` is due before `r`'s last row. */
  ghost predicate LeftOutLater(r: seq<Database.Payment>, table: seq<Database.Payment>) {
    |r| > 0 ==> forall p :: p in multiset(table) - multiset(r) ==> Database.TextLe(r[|r| - 1].dueDate, p.dueDate)
  }

  /** The first `k` rows of a sorted copy of `table` are drawn from `table`,
      and come no later than any row left out. */
  lemma FirstOfSorted(all: seq<Database.Payment>, table: seq<Database.Payment>, k: nat)
    requires Database.SortedByDue(all) && multiset(all) == multiset(table) && k <= |all|
    ensures |all| == |table|
    ensures Database.SortedByDue(all[..k])
    ensures multiset(all[..k]) <= multiset(table)
    ensures forall p :: p in all[..k] ==> p in table
    ensures LeftOutLater(all[..k], table)
  {
    assert |all| == |multiset(all)| == |multiset(table)| == |table|;
    PrefixDrawn(all, table, k);
    PrefixFirst(all, table, k);
  }

  lemma PrefixDrawn(all: seq<Database.Payment>, table: seq<Database.Payment>, k: nat)
    requires multiset(all) == multiset(table) && k <= |all|
    ensures multiset(all[..k]) <= multiset(table)
    ensures forall p :: p in all[..k] ==> p in table
  {
    assert all == all[..k] + all[k..];
    forall p | p in all[..k]
      ensures p in table
    {
      assert p in multiset(all);
    }
  }

  lemma PrefixFirst(all: seq<Database.Payment>, table: seq<Database.Payment>, k: nat)
    requires Database.SortedByDue(all) && multiset(all) == multiset(table) && k <= |all|
    ensures LeftOutLater(all[..k], table)
  {
    assert all == all[..k] + all[k..];
    assert multiset(table) - multiset(all[..k]) == multiset(all[k..]);
    if 0 < k {
      forall p | p in multiset(all[k..])
        ensures Database.TextLe(all[k - 1].dueDate, p.dueDate)
      {
        var j :| 0 <= j < |all[k..]| && all[k..][j] == p;
        assert all[k + j] == p;
      }
      assert all[..k][k - 1] == all[k - 1];
    }
  }

  /** Every payment, paid or not, by due date, cut to the first fifteen. */
  function History(store: Database.Store): (r: seq<Database.Payment>)
    ensures |r| == if |store.payments| < HistoryLimit then |store.payments| else HistoryLimit
    ensures Database.SortedByDue(r)
    ensures forall p :: p in r ==> p in store.payments
    ensures multiset(r) <= multiset(store.payments)
    ensures LeftOutLater(r, store.payments)
  {
    var all := Database.GetPayments(store, false);
    var k := if |all| < HistoryLimit then |all| else HistoryLimit;
    FirstOfSorted(all, store.payments, k);
    all[..k]
  }
}
