/** Interest picking on the client: the profile editor,
    frontend/src/components/EditProfile.jsx, and the first-visit modal,
    frontend/src/components/InterestSelectionModal.jsx. Both toggle an
    interest in or out of a list; the editor then sends a profile update
    and the modal the chosen list. */
module Interests {
  import opened Wrappers
  import Seqs
  import Users
  import Text

  /** `handleInterestToggle`: a listed interest is taken out, any other is
      added at the end. */
  function Toggle(interests: seq<string>, x: string): (r: seq<string>)
    ensures x in r <==> x !in interests
    ensures forall y :: y != x ==> (y in r <==> y in interests)
    ensures x !in interests ==> r == interests + [x]
  {
    if x in interests then Seqs.Filter(interests, (i: string) => i != x) else interests + [x]
  }

  /** A toggle keeps a list free of repeats. */
  lemma ToggleNoDuplicates(interests: seq<string>, x: string)
    requires Seqs.NoDuplicates(interests)
    ensures Seqs.NoDuplicates(Toggle(interests, x))
  {
    if x in interests {
      Seqs.FilterNoDuplicates(interests, (i: string) => i != x);
    }
  }

  /** Toggling an interest twice restores which interests are listed; for
      an interest not yet listed it restores the list itself. */
  lemma ToggleTwice(interests: seq<string>, x: string)
    ensures forall y :: y in Toggle(Toggle(interests, x), x) <==> y in interests
    ensures x !in interests ==> Toggle(Toggle(interests, x), x) == interests
  {
    if x !in interests {
      var p := (i: string) => i != x;
      Seqs.FilterAppendRejected(interests, x, p);
      Seqs.FilterAll(interests, p);
    }
  }

  /** The selection after a series of clicks, starting from `start`. */
  function Clicks(start: seq<string>, clicked: seq<string>): (r: seq<string>)
    decreases |clicked|
  {
    if |clicked| == 0 then start else Clicks(Toggle(start, clicked[0]), clicked[1..])
  }

  /** However the user clicks, a selection that starts empty holds no repeats. */
  lemma {:induction false} ClicksNoDuplicates(start: seq<string>, clicked: seq<string>)
    requires Seqs.NoDuplicates(start)
    ensures Seqs.NoDuplicates(Clicks(start, clicked))
    decreases |clicked|
  {
    if |clicked| > 0 {
      ToggleNoDuplicates(start, clicked[0]);
      ClicksNoDuplicates(Toggle(start, clicked[0]), clicked[1..]);
    }
  }

  /** The signed-in user the pages read from the store. `login` keeps the
      user object `loginUser` answers with, and that object has no
      `interests`; a session filled from the stored profile carries them. */
  datatype Session = Session(id: Id, name: string, phoneNo: Option<nat>, role: Users.Role, interests: Option<seq<string>>)

  /** The session a sign-in leaves: the user's id, name, phone and role,
      and no interests. */
  function SessionOf(u: Users.User): (r: Session)
    ensures r.id == u.id && r.name == u.name && r.phoneNo == u.phoneNo && r.role == u.role
    ensures r.interests.None?
  {
    Session(u.id, u.name, u.phoneNo, u.role, None)
  }

  /** A session that carries the stored interests too, as the editor
      evidently expects of the user it reads. */
  function ProfileSession(u: Users.User): (r: Session)
    ensures r.id == u.id && r.name == u.name && r.phoneNo == u.phoneNo && r.role == u.role
    ensures r.interests == Some(u.interests)
  {
    Session(u.id, u.name, u.phoneNo, u.role, Some(u.interests))
  }

  /** The editor's form: name, phone (`None` for the empty field) and the
      interests. */
  datatype EditForm = EditForm(name: string, phone: Option<nat>, interests: seq<string>)

  /** The form as the editor first fills it from the session user: a
      missing or zero phone number shows as the empty field, and missing
      interests as the empty list. */
  function InitForm(s: Session): (r: EditForm)
    ensures r.name == s.name
    ensures r.interests == (if s.interests.Some? then s.interests.value else [])
    ensures r.phone.Some? <==> s.phoneNo.Some? && s.phoneNo.value != 0
    ensures r.phone.Some? ==> r.phone == s.phoneNo
  {
    EditForm(s.name, if s.phoneNo.Some? && s.phoneNo.value != 0 then s.phoneNo else None, s.interests.GetOr([]))
  }

  /** Whatever the stored user holds, the editor of a signed-in user starts
      with no interests selected. */
  lemma SessionFormStartsEmpty(u: Users.User)
    ensures InitForm(SessionOf(u)).interests == []
    ensures InitForm(SessionOf(u)).name == u.name
  {
  }

  /** The profile update as evidently intended: the interests, as a list,
      only for the `user` role, and an avatar only when a file was chosen
      (`avatarUrl` stands for the address the upload of that file yields). */
  function Request(form: EditForm, role: string, avatarUrl: Option<string>): (r: Users.ProfileForm)
    ensures r.interests.Some? <==> role == "user"
    ensures r.interests.Some? ==> r.interests.value == form.interests
    ensures r.avatarUrl == avatarUrl
    ensures r.name == form.name && r.phone == form.phone
  {
    Users.ProfileForm(form.name, form.phone, if role == "user" then Some(form.interests) else None, avatarUrl)
  }

  /** The profile update as the editor writes it: the multipart body
      carries the interests as their JSON text, the backend sets that text
      without parsing it, and the schema casts the one string into a
      one-element list. */
  function RequestAsSent(form: EditForm, role: string, avatarUrl: Option<string>): (r: Users.ProfileForm)
    ensures r.interests.Some? <==> role == "user"
    ensures r.interests.Some? ==> r.interests.value == [Text.StringifyList(form.interests)]
    ensures r.avatarUrl == avatarUrl
    ensures r.name == form.name && r.phone == form.phone
  {
    Users.ProfileForm(form.name, form.phone,
                      if role == "user" then Some([Text.StringifyList(form.interests)]) else None, avatarUrl)
  }

  /** The discrepancy: a user who saves the editor unchanged sends the
      text `[]`, and that text becomes their only interest, whatever they
      had chosen before. */
  lemma SaveAsSentStoresText(u: Users.User)
    requires u.role == Users.UserRole
    ensures var form := InitForm(SessionOf(u));
      Users.Merge(u, RequestAsSent(form, Users.RoleName(SessionOf(u).role), None)).interests == ["[]"]
  {
    assert Text.StringifyList([]) == "[]";
  }

  /** Sending the list instead of its text is not enough on its own: the
      unchanged editor of a signed-in user still sends the empty list, and
      the user's interests are wiped. */
  lemma SessionSaveWipesInterests(u: Users.User)
    requires u.role == Users.UserRole
    ensures Users.Merge(u, Request(InitForm(SessionOf(u)), Users.RoleName(SessionOf(u).role), None)).interests == []
  {
  }

  /** An organiser's update never changes their stored interests. */
  lemma OrganizerKeepsInterests(u: Users.User, form: EditForm, avatarUrl: Option<string>)
    ensures Users.Merge(u, Request(form, "organizer", avatarUrl)).interests == u.interests
  {
  }

  /** With both defects corrected (the editor starts from the stored
      interests, and sends them as a list), saving the form as it was first
      filled, without a new avatar, leaves the stored user as it was. */
  lemma SaveUnchangedIsIdentity(u: Users.User)
    ensures Users.Merge(u, Request(InitForm(ProfileSession(u)), Users.RoleName(u.role), None)) == u
  {
  }

  /** Whether the modal renders at all. */
  function ModalShown(show: bool, selected: seq<string>): (r: Option<seq<string>>)
    ensures r.Some? <==> show
    ensures r.Some? ==> r.value == selected
  {
    if show then Some(selected) else None
  }

  const NoInterestAlert: string := "Please select at least one interest."

  /** The modal's submit: an empty selection only alerts; otherwise the
      request body is the selection itself. */
  function SubmitSelection(selected: seq<string>): (r: Result<seq<string>, string>)
    ensures r.Err? <==> |selected| == 0
    ensures r.Err? ==> r.error == NoInterestAlert
    ensures r.Ok? ==> r.value == selected
  {
    if |selected| == 0 then Err(NoInterestAlert) else Ok(selected)
  }

  /** What the modal sends, the backend stores: the user's interests become
      exactly the selection, without repeats. */
  lemma ModalStoresSelection(users: seq<Users.User>, id: Id, clicked: seq<string>)
    requires SubmitSelection(Clicks([], clicked)).Ok?
    requires Users.FindById(users, id).Some?
    ensures var body := SubmitSelection(Clicks([], clicked)).value;
      var r := Users.UpdateInterests(users, id, Some(body));
      r.Ok? && r.value[Users.FindById(users, id).value].interests == body
      && Seqs.NoDuplicates(body)
  {
    ClicksNoDuplicates([], clicked);
  }
}
