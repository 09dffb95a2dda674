# sentinel-bot core, modelled in Dafny

sentinel-bot is a Telegram bot that watches a fleet of VPS servers over SSH and
keeps track of what they cost. This project models its core as pure Dafny
functions over immutable data and proves properties of that model.

- **Metrics probe** (`SshManager`, `MetricsProofs`). The probe output is split
  on `===`. The CPU, MEM, DISK, UPTIME and CPU_PERCENT sections are read, and
  any missing key is filled in with its default.
- **Monitoring service** (`MonitoringService`). It collects metrics into a
  cache and checks each server's CPU, RAM and disk against thresholds. Alerts
  are throttled per `server:metric` key with a 600-second window. The window
  is measured with `timedelta.seconds`, which wraps every day.
- **Scheduler jobs** (`Scheduler`):
  - the monitoring job, which alerts;
  - the payment reminder job, which reminds at 7, 3, 1 and 0 days before the
    due date and records each offset only after a successful send.
- **Store** (`Database`). The SQLite tables are modelled as sequences and maps:
  - servers with soft delete;
  - payments listed in due-date order;
  - the balance ledger;
  - settings;
  - admins.
- **Formatters** (`Formatters`): progress bars, uptime text, money text,
  reminder urgency tiers, the server status card and the balance report.
- **Handlers**:
  - `Payments`: payment list, card, renewal, date edit, delete and the
    add-payment dialogue;
  - `VpsPanel`: server list badges, the add-server and edit dialogues, delete,
    terminal and Remnawave output, and password change;
  - `Admin`: admin management and the notification switches.

Supporting modules:

- `Wrappers`: `Option`, standing for `None` or a raised exception.
- `Text`: Python's `strip`, `split`, `join`, `int()`, a subset of `float()`
  and `isdigit` on ASCII.
- `Dates`: proleptic Gregorian dates, `strptime`/`strftime` for `%Y-%m-%d` and
  `%d.%m.%Y`, and `timedelta(days=…)`.

Boundaries:

- The clock, the SSH transport, Telegram delivery and the environment
  configuration are parameters of the model:
  - `today` and `now` are the current date and time;
  - a `CommandResult` or `Transport` is what the remote command returned;
  - a `delivered` set or `ok` flags say which sends succeeded;
  - `adminIds` is `ADMIN_IDS`, and `botPresent`/`groupId` are the scheduler's
    guards.
- The `Payments` and `VpsPanel` screens open with an `is_admin` check, for example handlers/payments.py:46 and handlers/vps_panel.py:95. Their members model an admin caller. The handlers that skip the check are modelled with a caller and listed under "## Findings".
- Message texts are abstracted to view datatypes. These carry icons, tiers
  and values, not the Russian strings.

## Verifying

All files are verified together, with the solver bounded by resource count rather than wall-clock time:

```
dafny verify --resource-limit 2000000 --verification-time-limit 0 *.dfy
```

## Model

| member | source | states |
|---|---|---|
| SshManager.Execute | services/ssh_manager.py:38-55 | A raised exception becomes `("", str(e), -1)`; a completed command yields its own output, error text and exit code |
| SshManager.CredentialFor | services/ssh_manager.py:13-36 | Key authentication is used exactly when the auth type is "key" and a non-empty key is stored; otherwise the stored password, possibly none, is used |
| SshManager.CheckConnection | services/ssh_manager.py:57-62 | A server is online iff `echo ok` exits 0 and "ok" occurs somewhere in its output |
| SshManager.ChangePassword | services/ssh_manager.py:149-154 | Success iff the exit code is 0; success carries the fixed message, failure carries stderr |
| SshManager.RemnawaveRequest | services/ssh_manager.py:156-164 | The four known components map to their fixed scripts; any other component maps to the echo fallback; the timeout is 120 |
| SshManager.SectionOf | services/ssh_manager.py:100-127 | Only the five label texts select a section, and each selects the one whose label it is |
| SshManager.Percent | services/ssh_manager.py:113 | A zero total gives 0; otherwise used ≤ total gives a percentage within 0..100 |
| SshManager.ReadSectionKeys | services/ssh_manager.py:100-132 | Each section writes only its own keys; CPU_PERCENT always yields a value, falling back when `float()` fails |
| SshManager.CpuFallback | services/ssh_manager.py:132 | The fallback estimate uses load_1m (default 0) over cpu_cores (default 1) |
| SshManager.Step | services/ssh_manager.py:95-98 | A chunk that is not a label leaves the metrics unchanged; a label in the last chunk raises, because `sections[i + 1]` does not exist |
| SshManager.Finish | services/ssh_manager.py:134-147 | Every key is present after the setdefault calls, with the documented defaults; percentages agree with used/total; network and ping stay 0 |
| SshManager.ParseMetrics | services/ssh_manager.py:91-147 | A parse that succeeds gives consistent percentages and zero network and ping |
| MetricsProofs.ProbeRoundTrip | services/ssh_manager.py:64-147 | The probe script's output parses back to exactly its readings: the 1-minute load, core count, RAM and disk totals and used figures, and uptime. The CPU percentage is the `top` figure, printed with a decimal comma, or the load/cores estimate when `top` printed nothing. Network and ping read as 0. Fractions without a leading zero only; the other columns are fixed (see "## Left out") |
| MetricsProofs.NoSeparatorGivesDefaults | services/ssh_manager.py:92-147 | Output with no `===` and no label parses to the all-defaults metrics |
| MetricsProofs.TrailingLabelFails | services/ssh_manager.py:101-128 | Output whose last chunk is a label fails to parse (the IndexError becomes `None`) |
| MetricsProofs.ShortDiskIgnored | services/ssh_manager.py:115-121 | A df line with fewer than four fields is skipped, leaving the disk keys at their defaults |
| MetricsProofs.RunSkipsAll | services/ssh_manager.py:95-98 | Chunks that are not labels never change the metrics |
| MonitoringService.ElapsedSeconds | services/monitoring_service.py:70 | `(now - last).seconds` is the whole-second part of the gap, taken modulo one day |
| MonitoringService.KeyTextInjective | services/monitoring_service.py:67 | Distinct server/metric pairs have distinct `"{server_id}:{key}"` log keys |
| MonitoringService.Throttle | services/monitoring_service.py:68-77 | An alert fires iff the metric is breached and its key is unlogged or more than 600 seconds old; firing stamps the key; a recovery clears it |
| MonitoringService.WithinWindowQuiet | services/monitoring_service.py:70 | A repeat breach at most 600 seconds later is silent |
| MonitoringService.AfterWindowFires | services/monitoring_service.py:70 | A breach more than 600 seconds but under a day later fires again |
| MonitoringService.DayLaterQuiet | services/monitoring_service.py:70 | Because of the day wrap, a breach exactly a day later (up to 600 seconds more) is silent |
| MonitoringService.BurstAlertsOnce | services/monitoring_service.py:68-75 | A burst of breaches within the window alerts once |
| MonitoringService.RecoveryRearms | services/monitoring_service.py:76-77 | A recovery followed by a breach alerts at once |
| MonitoringService.CheckOf | services/monitoring_service.py:60-64 | The CPU check pairs `cpu_percent` with the CPU threshold, the RAM check `ram_percent` with the RAM threshold, the disk check `disk_percent` with the disk threshold |
| MonitoringService.Evaluate | services/monitoring_service.py:66-77 | One loop pass adds an alert exactly when its key fires and touches no other key |
| MonitoringService.CheckAlerts | services/monitoring_service.py:56-79 | At most three alerts, in CPU, RAM, disk order, each carrying its metric's value and threshold; other servers' keys are untouched |
| MonitoringService.FirstSweepAlerts | services/monitoring_service.py:56-75 | With nothing logged, the sweep alerts about CPU, RAM and disk exactly when each reading reaches its own threshold |
| MonitoringService.CheckAlertsMetric | services/monitoring_service.py:56-79 | Per metric, the sweep alerts once iff that key's throttle fires, and the key ends as the throttle says |
| MonitoringService.MonitorMetric | services/monitoring_service.py:56-79 | Over successive checks, a metric's alert count and log entry are those of its own throttle run |
| MonitoringService.MonitorBurstAlertsOnce | services/monitoring_service.py:56-79 | Repeated checks breaching a fresh key within the window alert once |
| MonitoringService.CollectAll | services/monitoring_service.py:17-34 | Every probed server gets a result and no other id does; the cache changes only for servers whose probe returned metrics. Scheduler.CollectCoversActive ties the probes to the active servers |
| MonitoringService.CollectAllEntry | services/monitoring_service.py:26-32 | Each server's result is its probe's outcome; its cache entry is the fresh metrics, or the old entry when the probe failed |
| MonitoringService.CollectServer | services/monitoring_service.py:44-51 | An unknown server gives `None` and changes nothing; otherwise the probe's outcome is returned and no other entry changes |
| MonitoringService.CollectThenGet | services/monitoring_service.py:44-54 | The cached value after a collection is the fresh metrics if there are any, else the previous cache entry |
| Scheduler.MonitoringJob | services/scheduler.py:45-69 | The probes are those of the active servers, in list order. Without a bot or a group the job does nothing; otherwise only active servers' cache entries and alert keys can change |
| Scheduler.ProbedAreActive | services/monitoring_service.py:18-22 | `collect_all` probes exactly the active servers |
| Scheduler.CollectCoversActive | services/monitoring_service.py:18-34 | `collect_all` returns an entry for every active server and for no other id |
| Scheduler.JobCachesProbe | services/scheduler.py:50 | In a run, each active server's cache entry becomes its fresh metrics, or stays as it was when the probe failed |
| Scheduler.AlertRound | services/scheduler.py:53-59 | At most three alerts per listed server; keys of servers without metrics are untouched |
| Scheduler.AlertRoundOne | services/scheduler.py:53-59 | For a single server with metrics, the round is exactly its alert check |
| Scheduler.FailedAlertNotResent | services/scheduler.py:59-69 | The log is stamped before the send, so a failed send is not retried within the window |
| Scheduler.DeliverSucceeded | services/scheduler.py:60-69 | Every alert whose send succeeded is delivered, and a failed send does not stop the loop |
| Scheduler.ParseNotified | services/scheduler.py:83-84 | The stored list reads back as clean offsets: non-empty, stripped, comma-free |
| Scheduler.NotifiedRoundTrip | services/scheduler.py:84-97 | A joined list of clean offsets reads back as itself |
| Scheduler.RemindOne | services/scheduler.py:80-100 | A reminder is attempted iff the days left are configured and not yet recorded; the store changes only after a successful send |
| Scheduler.RetryAfterFailure | services/scheduler.py:88-100 | A failed send records nothing, so the next run tries again |
| Scheduler.SecondRunQuiet | services/scheduler.py:95-98 | After a successful send, the same offset is never attempted again |
| Scheduler.RemindAll | services/scheduler.py:80-100 | At most one attempt per payment, each for a configured offset; only `notified_days` changes |
| Scheduler.ReminderJob | services/scheduler.py:72-100 | Without a bot or a group the job does nothing; otherwise only `notified_days` columns change |
| Scheduler.AttemptsIgnoreDelivery | services/scheduler.py:80-100 | Which reminders are attempted does not depend on which earlier sends in the run succeeded |
| Scheduler.BadDueDateAborts | services/scheduler.py:81 | An unparsable due date raises out of the job, ending the run with no further attempts |
| Scheduler.DefaultOffsetsUrgency | config.py:27 | The default offsets 7, 3, 1, 0 fall in the "later", "soon", "tomorrow" and "today" tiers |
| Database.FindServer | database/db.py:96-98 | A found row has the id; no row is found only when none has it |
| Database.AddServer | database/db.py:83-90 | Appends one active row with the given columns and a fresh id above all existing ids; other tables unchanged |
| Database.ActiveServers | database/db.py:92-94 | Exactly the active rows |
| Database.DeleteServer | database/db.py:100-102 | Clears `is_active` on the rows with that id and nothing else |
| Database.DeleteHidesButKeeps | database/db.py:96-102 | After deletion the row can still be fetched by id, marked inactive, and no longer appears among the active servers |
| Database.UpdateServer | database/db.py:104-108 | The listed columns are assigned on the rows with that id; an empty update is malformed SQL; other rows and tables unchanged |
| Database.AssignOthersKept | database/db.py:104-108 | A column not named in the update keeps its value |
| Database.AddPayment | database/db.py:112-119 | Appends one unpaid RUB row with the given server, description, amount and due date, `is_recurring` 1, `recurring_months` 1, empty `notified_days` and a fresh id; other tables unchanged |
| Database.ServerName | database/db.py:121-122 | The joined `server_name` is present iff some server row, deleted or not, has the payment's `server_id`, and is then that row's name |
| Database.ServerNameOfRow | database/db.py:121-122 | With unique server ids, the joined name is the name of the row whose id the payment names |
| Database.InsertByDue | database/db.py:124 | Insertion keeps the rows sorted by due date and is a permutation of the input plus the new row |
| Database.SortByDue | database/db.py:124 | `ORDER BY due_date` gives a sorted permutation |
| Database.GetPayments | database/db.py:121-127 | Rows sorted by due date, a permutation of the unpaid rows (active only) or of all rows |
| Database.ActivePaymentsListed | database/db.py:121-127 | A payment is listed as active iff it is stored and unpaid |
| Database.MarkPaid | database/db.py:133-135 | Sets `is_paid` on the rows with that id and nothing else |
| Database.MarkPaidKeepsRow | database/db.py:121-135 | A row marked paid is kept but drops out of the active list |
| Database.UpdatePaymentNotified | database/db.py:137-142 | Replaces `notified_days` on the rows with that id and nothing else |
| Database.AddBalanceOperation | database/db.py:146-165 | The new row starts at the current balance (0 when empty) and moves it up for income, down otherwise; the balance is then the row's `balance_after` |
| Database.AddKeepsChained | database/db.py:153-165 | Every row continues from the one before it, and adding an operation keeps that true |
| Database.ChainedBalance | database/db.py:146-151 | For a chained ledger the balance is the sum of the signed amounts |
| Database.History | database/db.py:167-171 | The newest `limit` rows, newest first |
| Database.SetThenGet | database/db.py:175-184 | A setting reads back as last set, absent keys read as the default, and other keys are unaffected |
| Database.AdminLifecycle | database/db.py:192-211 | `INSERT OR IGNORE` makes adding idempotent; an added id is an admin; removal revokes it unless the id is in `ADMIN_IDS` |
| Dates.AddDays | handlers/payments.py:193 | `today + timedelta(days=n)` lands n days later, failing only outside years 1..9999 |
| Dates.ParseFormatIsoDate | services/scheduler.py:81 | `%Y-%m-%d` text written for a date parses back to that date |
| Dates.ParseFormatDayMonthYear | handlers/payments.py:440-442 | `%d.%m.%Y` text written for a date parses back to that date |
| Dates.ParseIsoDate | services/scheduler.py:81 | Whatever parses is a valid calendar date |
| Formatters.ProgressBar | utils/formatters.py:4-7 | For a percentage in 0..100 the bar has exactly `length` cells |
| Formatters.ProgressBarCells | utils/formatters.py:4-7 | Cell i is full iff (i + 1)·100 ≤ length·percent; every cell is full or empty |
| Formatters.ProgressBarWidth | utils/formatters.py:4-7 | The default bar has 10 cells; 0% is all empty and 100% is all full |
| Formatters.UptimeParts | utils/formatters.py:19-21 | Days, hours below 24 and minutes below 60 account for the seconds to the minute |
| Formatters.UptimeShape | utils/formatters.py:22-28 | Days and hours are shown only when non-zero; minutes are always shown, last |
| Formatters.UptimeRoundTrip | utils/formatters.py:18-28 | Reading the uptime text back gives the seconds rounded down to the minute |
| Formatters.MoneyRoundTrip | utils/formatters.py:31-33 | Dropping the spaces and the rouble sign from the money text gives back the integer |
| Formatters.MoneyNoComma | utils/formatters.py:33 | Every thousands comma is replaced |
| Formatters.GroupUngroup | utils/formatters.py:33 | Grouping digits in threes loses nothing |
| Formatters.UrgencyOrdering | utils/formatters.py:83-90 | Tiers grow more pressing as the due date nears; an overdue payment drops back to the "soon" tier; "later" iff more than 3 days |
| Formatters.PaymentReminder | utils/formatters.py:77-100 | The reminder carries the payment's description, amount and due date, the joined server name (the text "None" when the join found none), and the urgency tier of the days left |
| Formatters.ServerStatus | utils/formatters.py:37-74 | Offline iff there are no metrics; offline shows the host, online shows cores and ping from the metrics |
| Formatters.OnlineBars | utils/formatters.py:65-67 | With percentages in range, all three bars are 10 cells |
| Formatters.BalanceReport | utils/formatters.py:103-138 | The remainder is the balance; the summary appears iff there is history, starting from the newest row's `balance_before`; income, expense and payment each show the sum of that type's amounts, or a dash when the sum is 0 |
| Formatters.DashIffNoOperation | utils/formatters.py:114-131 | With positive amounts, a field shows a dash exactly when the window has no operation of its type |
| Formatters.BalanceWindow | utils/formatters.py:110-134 | On a chained ledger, the newest operation moves the shown "was" balance to the remainder, and the window's net flow links its oldest row to the remainder |
| Payments.ListLabel | handlers/payments.py:67-81 | Overdue iff the days left are negative (showing their absolute value), today iff 0, otherwise in that many days |
| Payments.ListIconOrder | handlers/payments.py:67-81 | Icons warm as the due date nears; red and yellow agree with the reminder's today and tomorrow-or-soon tiers |
| Payments.ListRows | handlers/payments.py:64-91 | One row per payment, in order: its id, description, joined server name (`""` for none), amount and due date, with the icon and label of its days left. Any unparsable due date fails the whole list |
| Payments.PaymentList | handlers/payments.py:44-100 | The list exists iff every unpaid payment's due date parses; then row i shows the i-th unpaid payment by due date, with its fields, server name, icon and days text |
| Payments.UnpaidListed | handlers/payments.py:44-100 | Every unpaid payment has a row, and the rows run from the nearest due date |
| Payments.PaymentCard | handlers/payments.py:105-121 | A card exists only for a stored payment and shows its description; `get_payment` does no join, so the server name is empty |
| Payments.ReadDue | handlers/payments.py:257-276 | `+N` (stripped) is N days from today, otherwise `DD.MM.YYYY`; anything else is malformed |
| Payments.ReadPlusDays | handlers/payments.py:260-263 | `+N` with surrounding spaces is read as N days left |
| Payments.ReadCalendarDate | handlers/payments.py:266-269 | A date typed as `DD.MM.YYYY` is read as that date |
| Payments.EditDate | handlers/payments.py:246-296 | `/cancel` changes nothing; a bad reply is rejected and keeps waiting; otherwise the due date is moved and the notifications reset |
| Payments.RescheduleReadable | handlers/payments.py:278-286 | The stored new due date reads back as the date shown, with `notified_days` cleared and everything else kept |
| Payments.Renew | handlers/payments.py:177-201 | A missing payment is reported and nothing changes; otherwise the due date becomes today plus the chosen days |
| Payments.RenewRearms | handlers/payments.py:192-201 | The renewed row is unpaid, listed as active, due on the new date and has its reminders cleared; other rows are untouched |
| Payments.ConfirmDeleteNeedsNoAdmin | handlers/payments.py:314-322 | As written, a non-admin confirming the delete hides a payment |
| Payments.ConfirmDeleteGuarded | handlers/payments.py:301-322 | With the admin check restored, a payment leaves the active list iff the caller is an admin |
| Payments.ParseAmount | handlers/payments.py:389 | Without a comma the amount is `float()` of the stripped reply |
| Payments.AmountWithComma | handlers/payments.py:389 | A decimal comma reads like a decimal point |
| Payments.AmountOfWhole | handlers/payments.py:389 | An integer reply is read as that amount |
| Payments.StartAdd | handlers/payments.py:337-364 | The dialogue opens iff there is an active server |
| Payments.Save | handlers/payments.py:469-476 | Appends one unpaid row for the chosen server, description and amount, due on the chosen date |
| Payments.AdvanceSaves | handlers/payments.py:367-466 | A dialogue step either leaves the store unchanged or, at the due-date stage, saves the payment and ends |
| Payments.Dialogue | handlers/payments.py:367-466 | A dialogue only ever appends payments |
| Payments.AddDialogue | handlers/payments.py:337-488 | Server, description, amount, then a quick-days button saves an active payment due that many days after today, with the description stripped |
| Payments.History | handlers/payments.py:499-512 | The first 15 payments by due date, paid or not: sorted, drawn from the table without repetition, and no payment left out is due before the last one shown |
| VpsPanel.ServerDays | handlers/vps_panel.py:110-119 | The map holds, for every server with a payment, its nearest due date's days left; an unparsable due date fails the view |
| VpsPanel.ServerBadge | handlers/vps_panel.py:121-142 | A badge appears iff the server has a payment, with the list tier of its days left; "overdue" iff negative |
| VpsPanel.TiersRelated | handlers/vps_panel.py:127-190 | The card tier is the list tier with orange shown as green; the server list and payment list agree except at 0 days (yellow vs red) |
| VpsPanel.ServerList | handlers/vps_panel.py:93-155 | With no active server the list is empty and no payment is read; otherwise it fails iff a tracked unpaid due date does not parse, and else has one entry per active server, in order, with its badge |
| VpsPanel.EmptyListReadsNoPayment | handlers/vps_panel.py:98-107 | Without active servers, even an unparsable due date leaves the list empty |
| VpsPanel.BadgeIsNearest | handlers/vps_panel.py:110-142 | An unpaid payment's server has a badge no later than that payment's due date |
| VpsPanel.PortReply | handlers/vps_panel.py:245-246 | A reply that is not all digits gives port 22 |
| VpsPanel.PortReplyTyped | handlers/vps_panel.py:245-246 | A typed number is the port |
| VpsPanel.UsernameReply | handlers/vps_panel.py:254 | An empty reply gives "root"; otherwise the stripped reply |
| VpsPanel.AddServerDialogue | handlers/vps_panel.py:229-303 | Saves one active server with the stripped name and host, the port and username rules, and the secret stored as the password or the key according to the auth type |
| VpsPanel.AddedServerCredential | handlers/vps_panel.py:264-303 | A saved server connects with its key iff the auth type is "key" and the key is non-empty |
| VpsPanel.EditValue | handlers/vps_panel.py:385-413 | `/cancel` changes nothing; a non-numeric port is rejected and keeps waiting; otherwise that one column is updated |
| VpsPanel.PortEdit | handlers/vps_panel.py:401-407 | A typed port number is stored as the server's port |
| VpsPanel.OpenEdit | handlers/vps_panel.py:331-335 | With the admin check of `srv:edit:`, the field button opens the dialogue iff the caller is an admin |
| VpsPanel.EditNeedsNoAdmin | handlers/vps_panel.py:362-413 | As written, a non-admin presses the field button and then sets a server's password |
| VpsPanel.EditGuarded | handlers/vps_panel.py:362-413 | With the check on the button, a reply changes the password iff the caller is an admin |
| VpsPanel.ConfirmDeleteNeedsNoAdmin | handlers/vps_panel.py:436-445 | As written, a non-admin confirming the delete removes a server from the list |
| VpsPanel.ConfirmDeleteGuarded | handlers/vps_panel.py:418-445 | With the admin check restored, a server leaves the list iff the caller is an admin |
| VpsPanel.Shown | handlers/vps_panel.py:538 | stdout if non-empty, else stderr if non-empty, else the placeholder |
| VpsPanel.TerminalOutput | handlers/vps_panel.py:538-540 | Output up to 3500 characters is shown whole; longer output keeps its first 3500 characters plus the cut marker |
| VpsPanel.RemnawaveOutput | handlers/vps_panel.py:611-613 | Output keeps its last 3500 characters |
| VpsPanel.OutputBounded | handlers/vps_panel.py:538-613 | Shown output never exceeds the limit plus the marker, and short output is never altered |
| VpsPanel.ButtonsReachScripts | handlers/vps_panel.py:604-609 | Every Remnawave button reaches a real script, with "sub" renamed to "subscription" |
| VpsPanel.ChangePassword | handlers/vps_panel.py:688-711 | A missing server sends nothing; otherwise chpasswd is sent for its user, and the stored password changes iff the remote command exits 0 |
| VpsPanel.StoredPasswordFollowsRemote | handlers/vps_panel.py:697-701 | The stored password is the new one iff the remote change succeeded |
| Admin.ManagersAreAdmins | handlers/admin.py:103-142 | Managers are admins, but a bot-added admin is an admin who cannot manage admins |
| Admin.AddAdminReply | handlers/admin.py:118-133 | A reply that is not an integer changes nothing; an integer is added as an admin; other tables unchanged |
| Admin.TypedIdBecomesAdmin | handlers/admin.py:118-126 | An id typed as digits becomes an admin |
| Admin.RemoveAdminAction | handlers/admin.py:138-145 | Only an `ADMIN_IDS` caller removes, and then exactly that admin row goes |
| Admin.RemoveRevokes | handlers/admin.py:138-145 | Removal revokes a bot-added admin; an `ADMIN_IDS` member stays an admin |
| Admin.NotificationsView | handlers/admin.py:157-167 | Admins only; a switch shows on iff its setting is absent or "1" |
| Admin.Toggle | handlers/admin.py:190-199 | Non-admins change nothing; an admin's press stores "0" or "1", flips what the switch shows and leaves every other setting |
| Admin.ToggleTwice | handlers/admin.py:196-199 | Two presses show the switch as before; a stored "0"/"1" returns exactly, an absent one returns as "1", any other value as "0" |
| Admin.ToggleFlipsView | handlers/admin.py:157-202 | A press on the monitoring switch flips its view and leaves the payments view alone |
| Admin.SwitchesIgnored | services/scheduler.py:45-47 | As written, after an admin turns monitoring off, the job is still enabled whenever the bot and group are set, and does exactly what it did with the switch on |
| Admin.GatedMonitoringJob | handlers/admin.py:163 | With the switch off, the gated monitoring job does nothing; with it on, it is the job as written |
| Admin.GatedReminderJob | handlers/admin.py:164 | With the switch off, the gated reminder job does nothing; with it on, it is the job as written |
| Admin.SwitchOffSilences | handlers/admin.py:190-202 | After an admin turns a switch off, the gated job attempts nothing and changes nothing |
| Text.IntToStringRoundTrip | handlers/admin.py:121 | `int(str(n)) == n` for every integer |
| Text.DecimalWithPoint | handlers/payments.py:389 | `float("W.F")` for digit strings is W plus the fraction F |

## Left out

- Telegram transport is not modelled: message editing and deletion, callback answers, keyboards, and the `_delete_msg`/`_edit_bot_msg`/`_safe_callback_answer` helpers. They have no effect on stored state.
- SSH connection setup (paramiko, `_create_client`) is not modelled: the transport's result is a parameter.
- Concurrency (`asyncio.gather`, the scheduler's timers) is not modelled: collection is modelled as a sequence of per-server outcomes.
- `log_action`, `get_logs`, the admin log view, the export handler and the admin list view are display and audit only and are not modelled.
- `format_bytes` and `format_server_list` are not modelled; they only produce text.
- Formatters.FormatMoney: only integral amounts are modelled, because the `:,.2f` branch needs IEEE float rounding.
- Floats are modelled as exact reals. Percentages, CPU estimates and balances therefore carry no rounding error.
- Text.DecimalWithPoint: `float()` is modelled only for an optional sign, ASCII digits and an optional fraction. Exponents, `inf`/`nan`, underscores and non-ASCII digits are not modelled; such input is read as a failure.
- `int()` likewise accepts only an optional sign and ASCII digits; underscores and Unicode digits are not modelled.
- Dates.ParseIsoDate, Dates.ParseDayMonthYear, Payments.ReadDue, VpsPanel.PortReply and VpsPanel.EditValue: `strptime`'s `%d`/`%m`/`%Y`, `str.isdigit` and `int()` accept any Unicode decimal digit. For example, "١٥.٠١.٢٠٢٦" parses as a date in Python, and "+٣" is read as three days. The model accepts ASCII digits only and reads such input as a failure, or, for a port, as not a number.
- MetricsProofs.ProbeRoundTrip: a reading's fraction is written as a natural number, so fractions with a leading zero (`0.05`, `12.03`) are not covered. The 5- and 15-minute load averages, the fourth `free`/`df` column, the second uptime column and the `eth0:` line are fixed text. The `top` figure is printed only with a decimal comma.
- Dates.AddDays: years outside 1..9999 fail, as in Python. `%Y` rendering of years below 1000 is not modelled beyond four-digit zero padding.
- Callback data is assumed to be as the bot's own buttons build it; forged callback strings are not modelled.
- Database.SortByDue: rows with equal due dates are ordered by an insertion sort. SQLite leaves the order of ties unspecified; the model proves only sortedness and permutation.
- The reboot confirmation (`confirm:reboot:`) has no admin check either. Its only effect is the remote command, which is outside the model.
- Admin.AddAdminReply: the `ADMIN_IDS` gate sits on the button that opens the dialogue and is not repeated on the reply, so the model of the reply does not check it.
- Payments.PaymentCard: only the description, the empty server name and the missing-payment case are stated; the amount and due date pass through unchanged.
- `init_scheduler` only registers the two jobs on a timer. The jobs are modelled as single runs, and `MONITOR_INTERVAL` appears only as a constant.

## Findings

| source | as written | input that shows it | evidently intended | confidence | as-written member | corrected member |
|---|---|---|---|---|---|---|
| handlers/payments.py:314-322 | `confirm:del_pay:` marks the payment paid without checking `is_admin`, unlike every other payment handler | a non-admin (id 7) sends `confirm:del_pay:1` for an unpaid payment 1 | only admins can delete a payment | not executed | Payments.ConfirmDeleteNeedsNoAdmin | Payments.ConfirmDeleteGuarded |
| handlers/vps_panel.py:362-382 | `srv:editf:` opens the edit dialogue without checking `is_admin`, and the reply handler (385-413) does not check it either | a non-admin (id 7) presses `srv:editf:password:1` and replies `evil` | only admins can edit a server | not executed | VpsPanel.EditNeedsNoAdmin | VpsPanel.EditGuarded |
| handlers/vps_panel.py:436-445 | `confirm:del_srv:` deactivates the server without checking `is_admin` | a non-admin (id 7) sends `confirm:del_srv:1` for active server 1 | only admins can delete a server | not executed | VpsPanel.ConfirmDeleteNeedsNoAdmin | VpsPanel.ConfirmDeleteGuarded |
| services/scheduler.py:45-47 | the jobs check only the bot and `GROUP_ID`, never the `monitor_enabled` / `payment_notify_enabled` settings that the admin switches toggle | an admin turns monitoring off, making `monitor_enabled` "0", and a server then exceeds its threshold | a switch shown off stops its job's notifications | not executed | Admin.SwitchesIgnored | Admin.SwitchOffSilences |
