/** Accounts: backend/models/userModel.js and the account handlers of
    backend/controllers/userController.js.

    bcrypt is not computed. A stored credential is either `Hashed(p)`, a
    bcrypt hash of the password `p`, or `Raw(s)`, a string stored as is.
    bcrypt's compare succeeds exactly on a hash of the same password; a raw
    string is not a valid hash, so nothing matches it. */
module Users {
  import opened Wrappers
  import Text
  import Seqs
  import Events
  import Bookings

  datatype Role = UserRole | OrganizerRole

  function RoleName(r: Role): string {
    match r
    case UserRole => "user"
    case OrganizerRole => "organizer"
  }

  /** The role enum of the schema: only the two names are accepted. */
  function ParseRole(s: string): (r: Option<Role>)
    ensures r.Some? <==> s in {"user", "organizer"}
    ensures r.Some? ==> RoleName(r.value) == s
  {
    if s == "user" then Some(UserRole)
    else if s == "organizer" then Some(OrganizerRole)
    else None
  }

  datatype Credential = Hashed(password: string) | Raw(text: string)

  /** `bcrypt.compare(password, stored)`. */
  predicate Matches(password: string, stored: Credential) {
    stored == Hashed(password)
  }

  datatype User = User(
    id: Id,
    name: string,
    email: string,
    phoneNo: Option<nat>,
    password: Credential,
    role: Role,
    avatar: Option<string>,
    otp: Option<string>,
    otpExpiry: Option<int>,
    interests: seq<string>)

  /** The schema's unique index on `email`. */
  predicate EmailsUnique(users: seq<User>) {
    forall i, j :: 0 <= i < j < |users| ==> users[i].email != users[j].email
  }

  /** `User.findOne({ email })`. */
  function FindByEmail(users: seq<User>, email: string): (r: Option<nat>)
    ensures r.None? <==> forall i :: 0 <= i < |users| ==> users[i].email != email
    ensures r.Some? ==> r.value < |users| && users[r.value].email == email
    ensures r.Some? ==> forall i :: 0 <= i < r.value ==> users[i].email != email
  {
    Seqs.FirstIndex(users, (u: User) => u.email == email)
  }

  /** `User.findById(id)`. */
  function FindById(users: seq<User>, id: Id): (r: Option<nat>)
    ensures r.None? <==> forall i :: 0 <= i < |users| ==> users[i].id != id
    ensures r.Some? ==> r.value < |users| && users[r.value].id == id
  {
    Seqs.FirstIndex(users, (u: User) => u.id == id)
  }

  /** Changing fields other than the email keeps every email lookup in place. */
  lemma FindByEmailAfterUpdate(users: seq<User>, k: nat, u: User, email: string)
    requires k < |users| && u.email == users[k].email
    ensures FindByEmail(users[k := u], email) == FindByEmail(users, email)
  {
    var after := users[k := u];
    assert forall i :: 0 <= i < |after| ==> after[i].email == users[i].email;
    var a := FindByEmail(after, email);
    match FindByEmail(users, email)
    case None =>
      assert a.None?;
    case Some(x) =>
      assert after[x].email == email;
      assert a.Some? && a.value <= x;
      assert users[a.value].email == email;
  }

  /** The registration body. An absent role is `None`. */
  datatype Registration = Registration(name: string, email: string, phoneNo: Option<nat>, password: string, role: Option<string>)

  /** Schema validation of the new document: `name` and `email` are required
      (Mongoose rejects the empty string), and a given role must be in the
      enum. The hashed password is never empty. */
  predicate Valid(form: Registration) {
    form.name != "" && form.email != "" && (form.role.None? || ParseRole(form.role.value).Some?)
  }

  /** `registerUser`: 400 when the email is taken, 500 when validation
      fails, otherwise the user is appended with a hashed password and the
      role defaulting to `user`. */
  function Register(users: seq<User>, form: Registration, id: Id): (r: Result<(seq<User>, User), HttpError>)
    ensures r.Err? <==> FindByEmail(users, form.email).Some? || !Valid(form)
    ensures FindByEmail(users, form.email).Some? ==> r == Err(HttpError(400, "User already exists"))
    ensures r.Err? ==> r.error.status in {400, 500}
    ensures r.Ok? ==> r.value.0 == users + [r.value.1]
    ensures r.Ok? ==> var u := r.value.1;
      u.id == id && u.email == form.email && u.name == form.name
      && u.password == Hashed(form.password)
      && (form.role.None? ==> u.role == UserRole)
      && (form.role.Some? ==> RoleName(u.role) == form.role.value)
      && u.otp.None? && u.interests == []
  {
    if FindByEmail(users, form.email).Some? then Err(HttpError(400, "User already exists"))
    else if !Valid(form) then Err(HttpError(500, "Error creating user"))
    else
      var role := if form.role.None? then UserRole else ParseRole(form.role.value).value;
      var u := User(id, form.name, form.email, form.phoneNo, Hashed(form.password), role, None, None, None, []);
      Ok((users + [u], u))
  }

  /** Registration keeps emails unique. */
  lemma RegisterKeepsEmailsUnique(users: seq<User>, form: Registration, id: Id)
    requires EmailsUnique(users)
    ensures Register(users, form, id).Ok? ==> EmailsUnique(Register(users, form, id).value.0)
  {
  }

  /** `loginUser`: 401 for an unknown email or a wrong password. */
  function Login(users: seq<User>, email: string, password: string): (r: Result<User, HttpError>)
    ensures r.Ok? <==> FindByEmail(users, email).Some? && Matches(password, users[FindByEmail(users, email).value].password)
    ensures r.Ok? ==> r.value.email == email && r.value in users
    ensures r.Err? ==> r.error.status == 401
  {
    match FindByEmail(users, email)
    case None => Err(HttpError(401, "Invalid email"))
    case Some(k) =>
      if Matches(password, users[k].password) then Ok(users[k])
      else Err(HttpError(401, "Invalid email or password"))
  }

  /** A freshly registered user can log in with the password given. */
  lemma RegisterThenLogin(users: seq<User>, form: Registration, id: Id)
    requires Register(users, form, id).Ok?
    ensures Login(Register(users, form, id).value.0, form.email, form.password) == Ok(Register(users, form, id).value.1)
  {
    var after := Register(users, form, id).value.0;
    assert forall i :: 0 <= i < |users| ==> after[i] == users[i];
    assert after[|users|].email == form.email;
  }

  /** Fifteen minutes, in milliseconds. */
  const OtpLifetime: int := 15 * 60 * 1000

  /** The code issued for a draw `rand` of `Math.random() * 900000`, floored. */
  function OtpCode(rand: nat): (r: string)
    requires rand < 900000
    ensures |r| == 6
    ensures forall i :: 0 <= i < |r| ==> Text.IsDigit(r[i])
    ensures 100000 <= Text.DigitsValue(r) <= 999999
  {
    assert Text.Pow10(5) == 100000 && Text.Pow10(6) == 1000000 by {
      assert Text.Pow10(1) == 10;
      assert Text.Pow10(2) == 100;
      assert Text.Pow10(3) == 1000;
      assert Text.Pow10(4) == 10000;
    }
    Text.DecimalLength(100000 + rand, 6);
    Text.DecimalRoundTrip(100000 + rand);
    Text.Decimal(100000 + rand)
  }

  /** `sendOtpForPasswordReset`: 404 for an unknown email, otherwise the
      user gets a fresh code that expires fifteen minutes from now. Sending
      the email is not modelled. */
  function SendOtp(users: seq<User>, email: string, rand: nat, now: int): (r: Result<seq<User>, HttpError>)
    requires rand < 900000
    ensures r.Err? <==> FindByEmail(users, email).None?
    ensures r.Err? ==> r.error.status == 404
    ensures r.Ok? ==> var k := FindByEmail(users, email).value;
      |r.value| == |users|
      && r.value[k] == users[k].(otp := Some(OtpCode(rand)), otpExpiry := Some(now + OtpLifetime))
      && forall i :: 0 <= i < |users| && i != k ==> r.value[i] == users[i]
  {
    match FindByEmail(users, email)
    case None => Err(HttpError(404, "User not found"))
    case Some(k) => Ok(users[k := users[k].(otp := Some(OtpCode(rand)), otpExpiry := Some(now + OtpLifetime))])
  }

  /** The request of a reset. An absent `otp` is `None`. */
  datatype ResetRequest = ResetRequest(email: string, otp: Option<string>, newPassword: string)

  /** The guard of `verifyOtpAndResetPassword`. The stored and the given
      code are compared as they are, so two absent codes are equal; the
      expiry test then rejects. */
  predicate OtpAccepted(users: seq<User>, req: ResetRequest, now: int) {
    var k := FindByEmail(users, req.email);
    k.Some? && users[k.value].otp == req.otp && users[k.value].otpExpiry.Some? && users[k.value].otpExpiry.value >= now
  }

  /** The reset as written: the new password is stored as given, not
      hashed. An empty password fails the schema's `required` check (500). */
  function ResetPasswordAsWritten(users: seq<User>, req: ResetRequest, now: int): (r: Result<seq<User>, HttpError>)
    ensures r.Err? <==> !OtpAccepted(users, req, now) || req.newPassword == ""
    ensures !OtpAccepted(users, req, now) ==> r == Err(HttpError(400, "Invalid or expired OTP"))
    ensures r.Ok? ==> var k := FindByEmail(users, req.email).value;
      |r.value| == |users| && r.value[k] == users[k].(password := Raw(req.newPassword), otp := None, otpExpiry := None)
      && forall i :: 0 <= i < |users| && i != k ==> r.value[i] == users[i]
  {
    if !OtpAccepted(users, req, now) then Err(HttpError(400, "Invalid or expired OTP"))
    else if req.newPassword == "" then Err(HttpError(500, "Server error during reset"))
    else
      var k := FindByEmail(users, req.email).value;
      Ok(users[k := users[k].(password := Raw(req.newPassword), otp := None, otpExpiry := None)])
  }

  /** The discrepancy: after a successful reset as written, logging in with
      the new password is refused. */
  lemma ResetAsWrittenLocksOut(users: seq<User>, req: ResetRequest, now: int)
    requires ResetPasswordAsWritten(users, req, now).Ok?
    ensures Login(ResetPasswordAsWritten(users, req, now).value, req.email, req.newPassword).Err?
  {
    var k := FindByEmail(users, req.email).value;
    var u := users[k].(password := Raw(req.newPassword), otp := None, otpExpiry := None);
    FindByEmailAfterUpdate(users, k, u, req.email);
  }

  /** The reset as evidently intended: the new password is hashed, as at
      registration. */
  function ResetPassword(users: seq<User>, req: ResetRequest, now: int): (r: Result<seq<User>, HttpError>)
    ensures r.Err? <==> !OtpAccepted(users, req, now)
    ensures r.Err? ==> r == Err(HttpError(400, "Invalid or expired OTP"))
    ensures r.Ok? ==> var k := FindByEmail(users, req.email).value;
      |r.value| == |users| && r.value[k] == users[k].(password := Hashed(req.newPassword), otp := None, otpExpiry := None)
      && forall i :: 0 <= i < |users| && i != k ==> r.value[i] == users[i]
  {
    if !OtpAccepted(users, req, now) then Err(HttpError(400, "Invalid or expired OTP"))
    else
      var k := FindByEmail(users, req.email).value;
      Ok(users[k := users[k].(password := Hashed(req.newPassword), otp := None, otpExpiry := None)])
  }

  /** After the intended reset, the new password logs in. */
  lemma ResetThenLogin(users: seq<User>, req: ResetRequest, now: int)
    requires ResetPassword(users, req, now).Ok?
    ensures Login(ResetPassword(users, req, now).value, req.email, req.newPassword).Ok?
  {
    var k := FindByEmail(users, req.email).value;
    var u := users[k].(password := Hashed(req.newPassword), otp := None, otpExpiry := None);
    FindByEmailAfterUpdate(users, k, u, req.email);
  }

  /** A code is single-use: once a reset succeeded, the same request (or
      any other) is refused until a new code is sent. */
  lemma OtpSingleUse(users: seq<User>, req: ResetRequest, again: ResetRequest, now: int, later: int)
    requires ResetPasswordAsWritten(users, req, now).Ok?
    requires again.email == req.email
    ensures ResetPasswordAsWritten(ResetPasswordAsWritten(users, req, now).value, again, later)
            == Err(HttpError(400, "Invalid or expired OTP"))
    ensures ResetPassword(ResetPassword(users, req, now).value, again, later)
            == Err(HttpError(400, "Invalid or expired OTP"))
  {
    var k := FindByEmail(users, req.email).value;
    var u1 := users[k].(password := Raw(req.newPassword), otp := None, otpExpiry := None);
    FindByEmailAfterUpdate(users, k, u1, req.email);
    var u2 := users[k].(password := Hashed(req.newPassword), otp := None, otpExpiry := None);
    FindByEmailAfterUpdate(users, k, u2, req.email);
  }

  /** A code just sent is accepted until it expires, fifteen minutes later. */
  lemma SendThenReset(users: seq<User>, email: string, rand: nat, sent: int, newPassword: string, now: int)
    requires rand < 900000
    requires FindByEmail(users, email).Some?
    requires sent <= now <= sent + OtpLifetime
    ensures ResetPassword(SendOtp(users, email, rand, sent).value, ResetRequest(email, Some(OtpCode(rand)), newPassword), now).Ok?
  {
    var k := FindByEmail(users, email).value;
    var u := users[k].(otp := Some(OtpCode(rand)), otpExpiry := Some(sent + OtpLifetime));
    FindByEmailAfterUpdate(users, k, u, email);
  }

  /** An issued code is refused once its expiry has passed. */
  lemma ExpiredOtpRefused(users: seq<User>, email: string, rand: nat, sent: int, newPassword: string, now: int)
    requires rand < 900000
    requires FindByEmail(users, email).Some?
    requires now > sent + OtpLifetime
    ensures ResetPassword(SendOtp(users, email, rand, sent).value, ResetRequest(email, Some(OtpCode(rand)), newPassword), now).Err?
  {
    var k := FindByEmail(users, email).value;
    var u := users[k].(otp := Some(OtpCode(rand)), otpExpiry := Some(sent + OtpLifetime));
    FindByEmailAfterUpdate(users, k, u, email);
  }

  /** The profile form. `name` and an uploaded avatar URL count only when
      non-empty; `phone` is `None` when absent or empty; an `interests`
      array, even an empty one, always counts. */
  datatype ProfileForm = ProfileForm(name: string, phone: Option<nat>, interests: Option<seq<string>>, avatarUrl: Option<string>)

  /** The merge `updateProfile` sets: only supplied, truthy fields. */
  function Merge(u: User, form: ProfileForm): (r: User)
    ensures r.id == u.id && r.email == u.email && r.password == u.password && r.role == u.role
    ensures r.otp == u.otp && r.otpExpiry == u.otpExpiry
    ensures r.name == (if form.name != "" then form.name else u.name)
    ensures r.phoneNo == (if form.phone.Some? then form.phone else u.phoneNo)
    ensures r.interests == form.interests.GetOr(u.interests)
    ensures r.avatar == (if form.avatarUrl.Some? && form.avatarUrl.value != "" then form.avatarUrl else u.avatar)
  {
    u.(name := if form.name != "" then form.name else u.name,
       phoneNo := if form.phone.Some? then form.phone else u.phoneNo,
       interests := if form.interests.Some? then form.interests.value else u.interests,
       avatar := if form.avatarUrl.Some? && form.avatarUrl.value != "" then form.avatarUrl else u.avatar)
  }

  /** An empty form changes nothing. */
  lemma MergeEmptyIsIdentity(u: User)
    ensures Merge(u, ProfileForm("", None, None, None)) == u
  {
  }

  /** Merging the same form twice is merging it once. */
  lemma MergeIdempotent(u: User, form: ProfileForm)
    ensures Merge(Merge(u, form), form) == Merge(u, form)
  {
  }

  /** `updateProfile`: the merged user, or `null` (still a success) when the
      caller's account is gone. */
  function UpdateProfile(users: seq<User>, id: Id, form: ProfileForm): (r: (seq<User>, Option<User>))
    ensures FindById(users, id).None? <==> r.1.None?
    ensures r.1.None? ==> r.0 == users
    ensures r.1.Some? ==> var k := FindById(users, id).value;
      r.0 == users[k := Merge(users[k], form)] && r.1.value == Merge(users[k], form)
  {
    match FindById(users, id)
    case None => (users, None)
    case Some(k) => (users[k := Merge(users[k], form)], Some(Merge(users[k], form)))
  }

  /** A profile update never touches an email, so emails stay unique. */
  lemma UpdateProfileKeepsEmailsUnique(users: seq<User>, id: Id, form: ProfileForm)
    requires EmailsUnique(users)
    ensures EmailsUnique(UpdateProfile(users, id, form).0)
  {
    var after := UpdateProfile(users, id, form).0;
    assert forall i :: 0 <= i < |users| ==> after[i].email == users[i].email;
  }

  /** `updateUserInterests`: a missing array is 400, a missing user 404;
      otherwise the list is replaced wholesale. */
  function UpdateInterests(users: seq<User>, id: Id, interests: Option<seq<string>>): (r: Result<seq<User>, HttpError>)
    ensures interests.None? ==> r == Err(HttpError(400, "Interests must be an array."))
    ensures interests.Some? && FindById(users, id).None? ==> r == Err(HttpError(404, "User not found."))
    ensures r.Ok? <==> interests.Some? && FindById(users, id).Some?
    ensures r.Ok? ==> var k := FindById(users, id).value;
      |r.value| == |users| && r.value[k].interests == interests.value
      && r.value[k].(interests := users[k].interests) == users[k]
      && forall i :: 0 <= i < |users| && i != k ==> r.value[i] == users[i]
  {
    if interests.None? then Err(HttpError(400, "Interests must be an array."))
    else
      match FindById(users, id)
      case None => Err(HttpError(404, "User not found."))
      case Some(k) => Ok(users[k := users[k].(interests := interests.value)])
  }

  /** One day, in milliseconds. */
  const Day: int := 24 * 60 * 60 * 1000

  /** Midnight of the day holding `t` (the server's clock taken as UTC). */
  function DayStart(t: int): (r: int)
    ensures r <= t < r + Day
    ensures r % Day == 0
  {
    t - t % Day
  }

  /** How many new events the notifications carry. */
  const NewEventsLimit: nat := 3

  /** An event is announced when created in the last seven days and not yet past. */
  predicate IsNew(e: Events.Event, today: int) {
    e.createdAt >= today - 7 * Day && e.date >= today
  }

  /** The `newEvents` part of `getUserNotifications`: the first three
      matching events in store order. */
  function NewEvents(events: seq<Events.Event>, now: int): (r: seq<Events.Event>)
    ensures |r| <= NewEventsLimit
    ensures forall i :: 0 <= i < |r| ==> IsNew(r[i], DayStart(now)) && r[i] in events
    ensures var matching := Seqs.Filter(events, (e: Events.Event) => IsNew(e, DayStart(now)));
      |r| == Events.Min(NewEventsLimit, |matching|) && r <= matching
  {
    var today := DayStart(now);
    var all := Seqs.Filter(events, (e: Events.Event) => IsNew(e, today));
    Seqs.Take(all, NewEventsLimit)
  }

  datatype Alert = Alert(eventTitle: string, eventDate: int, bookingId: string, eventId: Id)

  /** A confirmed booking of the user. */
  predicate ConfirmedOf(b: Bookings.Booking, userId: Id) {
    b.userId == userId && b.status == Bookings.Confirmed
  }

  /** The alert window: the event's day is within the next thirty days, today included. */
  predicate InWindow(date: int, today: int) {
    today <= DayStart(date) <= today + 30 * Day
  }

  /** A booking whose event exists and can be read. */
  predicate Readable(b: Bookings.Booking, events: seq<Events.Event>) {
    Bookings.FindEvent(events, b.eventId).Some?
  }

  /** `a` is an alert for some booking of `bs`, within the window. */
  predicate AlertFor(a: Alert, bs: seq<Bookings.Booking>, today: int) {
    InWindow(a.eventDate, today) && exists b :: b in bs && b.bookingId == a.bookingId && b.eventId == a.eventId
  }

  /** A readable booking whose event falls within the window. */
  predicate Due(b: Bookings.Booking, events: seq<Events.Event>, today: int) {
    Readable(b, events) && InWindow(events[Bookings.FindEvent(events, b.eventId).value].date, today)
  }

  /** The alert a readable booking gives: its event's title, date and id. */
  function AlertOf(b: Bookings.Booking, events: seq<Events.Event>): (a: Alert)
    requires Readable(b, events)
    ensures a.bookingId == b.bookingId && a.eventId == b.eventId
  {
    var e := events[Bookings.FindEvent(events, b.eventId).value];
    Alert(e.title, e.date, b.bookingId, e.id)
  }

  /** The alerts for the confirmed bookings `bs`, or `None` when one of
      their events is gone (the handler then fails reading its date). */
  function AlertsOf(bs: seq<Bookings.Booking>, events: seq<Events.Event>, today: int): (r: Option<seq<Alert>>)
    ensures r.None? <==> exists b :: b in bs && !Readable(b, events)
    ensures r.Some? ==> |r.value| <= |bs|
    ensures r.Some? ==> forall a :: a in r.value ==> AlertFor(a, bs, today)
    decreases |bs|
  {
    if |bs| == 0 then Some([])
    else
      var tail := AlertsOf(bs[1..], events, today);
      assert forall b :: b in bs[1..] ==> b in bs;
      assert bs[0] in bs;
      match Bookings.FindEvent(events, bs[0].eventId)
      case None => None
      case Some(k) =>
        if tail.None? then None
        else
          var e := events[k];
          var here := if InWindow(e.date, today) then [Alert(e.title, e.date, bs[0].bookingId, e.id)] else [];
          Some(here + tail.value)
  }

  /** The alerts are, in booking order, one per booking whose event is due. */
  lemma {:induction false} AlertsInBookingOrder(bs: seq<Bookings.Booking>, events: seq<Events.Event>, today: int)
    requires AlertsOf(bs, events, today).Some?
    ensures var r := AlertsOf(bs, events, today).value;
      var due := Seqs.Filter(bs, (b: Bookings.Booking) => Due(b, events, today));
      |r| == |due| && forall i :: 0 <= i < |due| ==> r[i] == AlertOf(due[i], events)
    decreases |bs|
  {
    if |bs| > 0 {
      var p := (b: Bookings.Booking) => Due(b, events, today);
      var tail := AlertsOf(bs[1..], events, today).value;
      var dueTail := Seqs.Filter(bs[1..], p);
      AlertsInBookingOrder(bs[1..], events, today);
      assert Seqs.Filter(bs, p) == if p(bs[0]) then [bs[0]] + dueTail else dueTail;
      if p(bs[0]) {
        assert AlertsOf(bs, events, today).value == [AlertOf(bs[0], events)] + tail;
      } else {
        assert AlertsOf(bs, events, today).value == tail;
      }
    }
  }

  /** The `upcomingAlerts` part of `getUserNotifications`: only the user's
      confirmed bookings, only events within the window; 500 when a booked
      event no longer exists. Every confirmed booking of the user whose
      event is due gets its alert. */
  function UpcomingAlerts(db: Bookings.Db, userId: Id, now: int): (r: Result<seq<Alert>, HttpError>)
    ensures var mine := Seqs.Filter(db.bookings, (b: Bookings.Booking) => ConfirmedOf(b, userId));
      (r.Err? <==> exists b :: b in mine && !Readable(b, db.events))
      && (r.Err? ==> r.error.status == 500)
      && (r.Ok? ==> forall a :: a in r.value ==> AlertFor(a, mine, DayStart(now)))
    ensures r.Ok? ==> forall b :: b in db.bookings && ConfirmedOf(b, userId) && Due(b, db.events, DayStart(now)) ==>
      exists i :: 0 <= i < |r.value| && r.value[i] == AlertOf(b, db.events)
  {
    var mine := Seqs.Filter(db.bookings, (b: Bookings.Booking) => ConfirmedOf(b, userId));
    match AlertsOf(mine, db.events, DayStart(now))
    case None => Err(HttpError(500, "Server error"))
    case Some(alerts) =>
      AlertsComplete(mine, db.events, DayStart(now));
      Ok(alerts)
  }

  /** Every due booking of `bs` has its alert in the list. */
  lemma AlertsComplete(bs: seq<Bookings.Booking>, events: seq<Events.Event>, today: int)
    requires AlertsOf(bs, events, today).Some?
    ensures forall b :: b in bs && Due(b, events, today) ==>
      exists i :: 0 <= i < |AlertsOf(bs, events, today).value| && AlertsOf(bs, events, today).value[i] == AlertOf(b, events)
  {
    var due := Seqs.Filter(bs, (b: Bookings.Booking) => Due(b, events, today));
    AlertsInBookingOrder(bs, events, today);
    forall b | b in bs && Due(b, events, today)
      ensures exists i :: 0 <= i < |AlertsOf(bs, events, today).value| && AlertsOf(bs, events, today).value[i] == AlertOf(b, events)
    {
      assert b in due;
      var i :| 0 <= i < |due| && due[i] == b;
      assert AlertsOf(bs, events, today).value[i] == AlertOf(b, events);
    }
  }
}
