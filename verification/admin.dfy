/** The admin handlers of `handlers/admin.py`: who may manage admins, adding
    and removing them, and the two notification switches. */
module Admin {
  import opened Wrappers
  import opened Text
  import Dates
  import Database
  import Scheduler
  import MonitoringService

  // ---------------------------------------------------------------------------
  // Who may manage admins

  /** `adm:add` and `adm:remove:` answer only the ids in `ADMIN_IDS`. */
  predicate CanManageAdmins(adminIds: seq<int>, caller: int) {
    caller in adminIds
  }

  /** Managing admins needs more than being one: every manager is an admin, but
      an admin added through the bot may use every other handler and still not
      manage admins. */
  lemma ManagersAreAdmins(store: Database.Store, adminIds: seq<int>, caller: int)
    ensures CanManageAdmins(adminIds, caller) ==> Database.IsAdmin(store, adminIds, caller)
    ensures caller in store.admins && caller !in adminIds ==>
      Database.IsAdmin(store, adminIds, caller) && !CanManageAdmins(adminIds, caller)
  {
  }

  // ---------------------------------------------------------------------------
  // Adding an admin (`fsm_add_admin`)

  datatype AddReply = NotANumber | Added(id: int)

  /** The typed Telegram id, stripped and read as an integer, is added without a
      username; a reply that is not an integer is deleted and the dialogue keeps
      waiting. */
  function AddAdminReply(store: Database.Store, text: string): (r: (AddReply, Database.Store))
    ensures r.0 == NotANumber <==> ParseInt(Strip(text)).None?
    ensures r.0 == NotANumber ==> r.1 == store
    ensures r.0.Added? ==> Some(r.0.id) == ParseInt(Strip(text))
    ensures r.0.Added? ==> r.1.admins.Keys == store.admins.Keys + {r.0.id}
    ensures r.1.servers == store.servers && r.1.payments == store.payments && r.1.settings == store.settings
  {
    match ParseInt(Strip(text))
    case None => (NotANumber, store)
    case Some(id) => (Added(id), Database.AddAdmin(store, id, None))
  }

  /** An id typed as the bot prints it becomes an admin. */
  lemma TypedIdBecomesAdmin(store: Database.Store, adminIds: seq<int>, id: int)
    ensures var r := AddAdminReply(store, IntToString(id));
      r.0 == Added(id) && Database.IsAdmin(r.1, adminIds, id)
  {
    IntToStringTrimmed(id);
    StripTrimmed(IntToString(id));
    IntToStringRoundTrip(id);
  }

  // ---------------------------------------------------------------------------
  // Removing an admin (`adm:remove:<id>`)

  /** Only a main admin removes, and only the bot-added row goes. */
  function RemoveAdminAction(store: Database.Store, adminIds: seq<int>, caller: int, id: int): (r: Database.Store)
    ensures !CanManageAdmins(adminIds, caller) ==> r == store
    ensures CanManageAdmins(adminIds, caller) ==> r.admins.Keys == store.admins.Keys - {id}
    ensures r.servers == store.servers && r.payments == store.payments && r.settings == store.settings
  {
    if CanManageAdmins(adminIds, caller) then Database.RemoveAdmin(store, id) else store
  }

  /** Removal revokes a bot-added admin; an id from `ADMIN_IDS` stays an admin. */
  lemma RemoveRevokes(store: Database.Store, adminIds: seq<int>, caller: int, id: int)
    requires CanManageAdmins(adminIds, caller)
    ensures Database.IsAdmin(RemoveAdminAction(store, adminIds, caller, id), adminIds, id) <==> id in adminIds
  {
  }

  // ---------------------------------------------------------------------------
  // Notification switches (`adm:notifications`, `adm:toggle:<key>`)

  const MonitorSwitch := "monitor_enabled"
  const PaymentSwitch := "payment_notify_enabled"

  /** A switch is shown on exactly when its setting reads "1"; an absent setting
      reads "1". */
  predicate SwitchOn(store: Database.Store, key: string) {
    Database.GetSetting(store, key, Some("1")) == Some("1")
  }

  datatype Switches = Switches(monitoring: bool, payments: bool)

  /** `cb_notifications`: the two switches, for admins only. */
  function NotificationsView(store: Database.Store, adminIds: seq<int>, caller: int): (r: Option<Switches>)
    ensures r.None? <==> !Database.IsAdmin(store, adminIds, caller)
    ensures r.Some? ==> (r.value.monitoring <==> MonitorSwitch !in store.settings || store.settings[MonitorSwitch] == "1")
    ensures r.Some? ==> (r.value.payments <==> PaymentSwitch !in store.settings || store.settings[PaymentSwitch] == "1")
  {
    if Database.IsAdmin(store, adminIds, caller) then Some(Switches(SwitchOn(store, MonitorSwitch), SwitchOn(store, PaymentSwitch)))
    else None
  }

  /** `cb_toggle_setting`: an admin's press stores "0" when the setting reads
      "1" (absent counting as "1") and "1" for any other value. */
  function Toggle(store: Database.Store, adminIds: seq<int>, caller: int, key: string): (r: Database.Store)
    ensures !Database.IsAdmin(store, adminIds, caller) ==> r == store
    ensures Database.IsAdmin(store, adminIds, caller) ==>
      && key in r.settings && (r.settings[key] == "0" || r.settings[key] == "1")
      && (SwitchOn(r, key) <==> !SwitchOn(store, key))
    ensures forall other :: other != key ==> Database.GetSetting(r, other, None) == Database.GetSetting(store, other, None)
    ensures r.servers == store.servers && r.payments == store.payments && r.admins == store.admins
  {
    if !Database.IsAdmin(store, adminIds, caller) then store
    else
      var current := Database.GetSetting(store, key, Some("1")).value;
      var next := if current == "1" then "0" else "1";
      Database.SetThenGet(store, key, next, key, Some("1"));
      Database.SetSetting(store, key, next)
  }

  /** Two presses show the switch as it was. A stored "0" or "1" comes back
      exactly; an absent setting comes back stored as "1", and any other value
      as "0". */
  lemma ToggleTwice(store: Database.Store, adminIds: seq<int>, caller: int, key: string)
    requires Database.IsAdmin(store, adminIds, caller)
    ensures var r := Toggle(Toggle(store, adminIds, caller, key), adminIds, caller, key);
      && (SwitchOn(r, key) <==> SwitchOn(store, key))
      && r.settings[key] == (if key !in store.settings then "1"
                             else if store.settings[key] == "0" || store.settings[key] == "1" then store.settings[key]
                             else "0")
  {
  }

  /** A press changes what the view shows for that switch and nothing else. */
  lemma ToggleFlipsView(store: Database.Store, adminIds: seq<int>, caller: int)
    requires Database.IsAdmin(store, adminIds, caller)
    ensures var before := NotificationsView(store, adminIds, caller).value;
      var after := NotificationsView(Toggle(store, adminIds, caller, MonitorSwitch), adminIds, caller).value;
      after == Switches(!before.monitoring, before.payments)
  {
    var r := Toggle(store, adminIds, caller, MonitorSwitch);
    assert Database.GetSetting(r, PaymentSwitch, None) == Database.GetSetting(store, PaymentSwitch, None);
  }

  // ---------------------------------------------------------------------------
  // The switches and the scheduled jobs

  /** As written, neither job reads its switch: with monitoring shown off, the
      job is still enabled and does exactly what it does with the switch on. */
  lemma SwitchesIgnored(store: Database.Store, adminIds: seq<int>, caller: int, groupId: int,
                        st: Scheduler.MonitorState, probes: seq<MonitoringService.Collected>,
                        t: MonitoringService.Thresholds, now: MonitoringService.Instant)
    requires Database.IsAdmin(store, adminIds, caller) && SwitchOn(store, MonitorSwitch) && groupId != 0
    requires Scheduler.ProbesActive(store, probes)
    ensures var off := Toggle(store, adminIds, caller, MonitorSwitch);
      && !NotificationsView(off, adminIds, caller).value.monitoring
      && Scheduler.Enabled(true, groupId)
      && Scheduler.MonitoringJob(Scheduler.Enabled(true, groupId), st, off, probes, t, now)
         == Scheduler.MonitoringJob(Scheduler.Enabled(true, groupId), st, store, probes, t, now)
  {
  }

  /** A job runs when the scheduler's own conditions hold and its switch is on. */
  predicate JobSwitch(store: Database.Store, key: string, botPresent: bool, groupId: int) {
    Scheduler.Enabled(botPresent, groupId) && SwitchOn(store, key)
  }

  /** `monitoring_job` behind its switch. */
  function GatedMonitoringJob(st: Scheduler.MonitorState, store: Database.Store, botPresent: bool, groupId: int,
                              probes: seq<MonitoringService.Collected>, t: MonitoringService.Thresholds,
                              now: MonitoringService.Instant): (r: Scheduler.MonitorRound)
    requires Scheduler.ProbesActive(store, probes)
    ensures !SwitchOn(store, MonitorSwitch) ==> r == Scheduler.MonitorRound([], st)
    ensures SwitchOn(store, MonitorSwitch) ==>
      r == Scheduler.MonitoringJob(Scheduler.Enabled(botPresent, groupId), st, store, probes, t, now)
  {
    Scheduler.MonitoringJob(JobSwitch(store, MonitorSwitch, botPresent, groupId), st, store, probes, t, now)
  }

  /** `payment_reminder_job` behind its switch. */
  function GatedReminderJob(store: Database.Store, botPresent: bool, groupId: int, today: Dates.Date,
                            reminderDays: seq<int>, delivered: set<int>): (r: Scheduler.Run)
    requires Dates.Valid(today)
    ensures !SwitchOn(store, PaymentSwitch) ==> r == Scheduler.Run([], store, false)
    ensures SwitchOn(store, PaymentSwitch) ==>
      r == Scheduler.ReminderJob(Scheduler.Enabled(botPresent, groupId), store, today, reminderDays, delivered)
  {
    Scheduler.ReminderJob(JobSwitch(store, PaymentSwitch, botPresent, groupId), store, today, reminderDays, delivered)
  }

  /** Turning a switch off through the bot silences its job: no alert or
      reminder is attempted and nothing is recorded. */
  lemma SwitchOffSilences(store: Database.Store, adminIds: seq<int>, caller: int, botPresent: bool, groupId: int,
                          st: Scheduler.MonitorState, probes: seq<MonitoringService.Collected>,
                          t: MonitoringService.Thresholds, now: MonitoringService.Instant,
                          today: Dates.Date, reminderDays: seq<int>, delivered: set<int>)
    requires Database.IsAdmin(store, adminIds, caller) && Dates.Valid(today)
    requires SwitchOn(store, MonitorSwitch) && SwitchOn(store, PaymentSwitch)
    requires Scheduler.ProbesActive(store, probes)
    ensures var off := Toggle(store, adminIds, caller, MonitorSwitch);
      GatedMonitoringJob(st, off, botPresent, groupId, probes, t, now) == Scheduler.MonitorRound([], st)
    ensures var off := Toggle(store, adminIds, caller, PaymentSwitch);
      GatedReminderJob(off, botPresent, groupId, today, reminderDays, delivered) == Scheduler.Run([], off, false)
  {
  }
}
