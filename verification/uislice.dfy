/** The interface slice of the store, frontend/src/store/slices/uiSlice.js:
    the mobile menu, the open modal, the toast, the search text, the login
    popup flag and the notification data. */
module UiSlice {
  import opened Wrappers
  import Events
  import Users
  import Bookings

  /** What the notification popup shows: the new events and the upcoming
      alerts, both always present. */
  datatype Notifications = Notifications(newEvents: seq<Events.Event>, upcomingAlerts: seq<Users.Alert>)

  /** A toast as dispatched; its content is whatever the caller passes. */
  datatype Toast = Toast(message: string, kind: string)

  datatype State = State(
    mobileMenuOpen: bool,
    activeModal: Option<string>,
    toast: Option<Toast>,
    searchQuery: string,
    showLoginNotification: bool,
    notificationData: Notifications)

  const Initial: State := State(false, None, None, "", false, Notifications([], []))

  /** `toggleMobileMenu`. */
  function ToggleMobileMenu(s: State): (r: State)
    ensures r.mobileMenuOpen != s.mobileMenuOpen
    ensures r.(mobileMenuOpen := s.mobileMenuOpen) == s
  {
    s.(mobileMenuOpen := !s.mobileMenuOpen)
  }

  /** Toggling twice changes nothing. */
  lemma ToggleTwice(s: State)
    ensures ToggleMobileMenu(ToggleMobileMenu(s)) == s
  {
  }

  /** `closeMobileMenu`. */
  function CloseMobileMenu(s: State): (r: State)
    ensures !r.mobileMenuOpen
    ensures r.(mobileMenuOpen := s.mobileMenuOpen) == s
  {
    s.(mobileMenuOpen := false)
  }

  /** After closing, a toggle always opens the menu. */
  lemma CloseThenToggleOpens(s: State)
    ensures ToggleMobileMenu(CloseMobileMenu(s)).mobileMenuOpen
  {
  }

  /** `openModal` and `closeModal`. */
  function OpenModal(s: State, name: string): (r: State)
    ensures r.activeModal == Some(name)
    ensures r.(activeModal := s.activeModal) == s
  {
    s.(activeModal := Some(name))
  }

  function CloseModal(s: State): (r: State)
    ensures r.activeModal.None?
    ensures r.(activeModal := s.activeModal) == s
  {
    s.(activeModal := None)
  }

  /** Opening and closing a modal from a state with none open returns to it. */
  lemma OpenThenClose(s: State, name: string)
    requires s.activeModal.None?
    ensures CloseModal(OpenModal(s, name)) == s
  {
  }

  /** `showToast` and `hideToast`. */
  function ShowToast(s: State, t: Toast): (r: State)
    ensures r.toast == Some(t)
    ensures r.(toast := s.toast) == s
  {
    s.(toast := Some(t))
  }

  function HideToast(s: State): (r: State)
    ensures r.toast.None?
    ensures r.(toast := s.toast) == s
  {
    s.(toast := None)
  }

  /** `setSearchQuery` and `setShowLoginNotification`. */
  function SetSearchQuery(s: State, q: string): (r: State)
    ensures r.searchQuery == q
    ensures r.(searchQuery := s.searchQuery) == s
  {
    s.(searchQuery := q)
  }

  function SetShowLoginNotification(s: State, show: bool): (r: State)
    ensures r.showLoginNotification == show
    ensures r.(showLoginNotification := s.showLoginNotification) == s
  {
    s.(showLoginNotification := show)
  }

  /** The payload of `setNotificationData`: possibly missing, and each list
      possibly missing. */
  datatype NotificationPayload = NotificationPayload(newEvents: Option<seq<Events.Event>>,
                                                     upcomingAlerts: Option<seq<Users.Alert>>)

  /** `setNotificationData`: both lists are always set, a missing one to
      the empty list (an empty array is kept as it is). */
  function SetNotificationData(s: State, payload: Option<NotificationPayload>): (r: State)
    ensures payload.None? ==> r.notificationData == Notifications([], [])
    ensures payload.Some? ==> r.notificationData.newEvents == payload.value.newEvents.GetOr([])
                              && r.notificationData.upcomingAlerts == payload.value.upcomingAlerts.GetOr([])
    ensures r.(notificationData := s.notificationData) == s
  {
    var n := match payload
      case None => Notifications([], [])
      case Some(p) => Notifications(p.newEvents.GetOr([]), p.upcomingAlerts.GetOr([]));
    s.(notificationData := n)
  }

  /** A successful notification response is shown as the server sent it:
      the new events and the alerts of the user. */
  lemma ShowsServerNotifications(s: State, db: Bookings.Db, userId: Id, now: int)
    requires Users.UpcomingAlerts(db, userId, now).Ok?
    ensures var newEvents := Users.NewEvents(db.events, now);
      var alerts := Users.UpcomingAlerts(db, userId, now).value;
      var r := SetNotificationData(s, Some(NotificationPayload(Some(newEvents), Some(alerts))));
      |r.notificationData.newEvents| <= Users.NewEventsLimit
      && r.notificationData.upcomingAlerts == alerts
  {
  }
}
