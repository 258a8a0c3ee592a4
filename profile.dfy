/**
 * The profile page: the form shows the user's profile with empty text for missing
 * fields, and saving writes the form back to the user's own row, storing empty optional
 * fields as `NULL`.
 */
module ProfilePage {
  import opened Wrappers
  import opened Listing
  import opened Db

  /** The five form fields. */
  datatype ProfileForm = ProfileForm(fullName: string, username: string, birthDate: string, grade: string, field: string)

  const EmptyForm := ProfileForm("", "", "", "", "")

  /** `x || ""` on a nullable text column. */
  function OrEmpty(x: Option<string>): (s: string)
    ensures x.Some? ==> s == x.value
    ensures x.None? ==> s == ""
  {
    x.GetOr("")
  }

  /** `x || null` on a text field: the empty string is stored as `NULL`. */
  function NullIfEmpty(s: string): (x: Option<string>)
    ensures x.None? <==> s == ""
    ensures x.Some? ==> x.value == s
  {
    if s == "" then None else Some(s)
  }

  /** Writing a field and reading it back gives the field. */
  lemma NullRoundTrip(s: string)
    ensures OrEmpty(NullIfEmpty(s)) == s
  {
  }

  /** The form a loaded profile fills in. */
  function FormOf(p: Profile): ProfileForm {
    ProfileForm(p.fullName, OrEmpty(p.username), OrEmpty(p.birthDate), OrEmpty(p.grade), OrEmpty(p.field))
  }

  /**
   * The profile after `.update(...)` with the form: the name and username as typed, the
   * optional fields as `NULL` when empty; the id and the counters are not written.
   */
  function Saved(p: Profile, f: ProfileForm): (q: Profile)
    ensures q.id == p.id && q.points == p.points && q.examsTaken == p.examsTaken
    ensures q.fullName == f.fullName && q.username == Some(f.username)
    ensures q.birthDate == NullIfEmpty(f.birthDate) && q.grade == NullIfEmpty(f.grade) && q.field == NullIfEmpty(f.field)
  {
    p.(fullName := f.fullName, username := Some(f.username), birthDate := NullIfEmpty(f.birthDate),
       grade := NullIfEmpty(f.grade), field := NullIfEmpty(f.field))
  }

  /** Loading after saving a form shows the same form again. */
  lemma SaveLoadRoundTrip(p: Profile, f: ProfileForm)
    ensures FormOf(Saved(p, f)) == f
  {
    NullRoundTrip(f.birthDate);
    NullRoundTrip(f.grade);
    NullRoundTrip(f.field);
  }

  /** Saving the loaded form unchanged stores what was there, except a missing username becomes "". */
  lemma SaveLoadedForm(p: Profile)
    requires p.username.Some? && p.birthDate != Some("") && p.grade != Some("") && p.field != Some("")
    ensures Saved(p, FormOf(p)) == p
  {
  }

  /** `.update(...).eq("id", me)` on `profiles`: only the user's row changes. */
  function UpdateProfile(rows: seq<Profile>, me: string, f: ProfileForm): (r: seq<Profile>)
    ensures |r| == |rows|
    ensures forall i :: 0 <= i < |rows| && rows[i].id != me ==> r[i] == rows[i]
    ensures forall i :: 0 <= i < |rows| && rows[i].id == me ==> r[i] == Saved(rows[i], f)
  {
    if rows == [] then []
    else [if rows[0].id == me then Saved(rows[0], f) else rows[0]] + UpdateProfile(rows[1..], me, f)
  }

  /** Saving keeps each row's id, so the user's own row is found again after the update. */
  lemma {:induction false} UpdateKeepsIds(rows: seq<Profile>, me: string, f: ProfileForm)
    ensures Filter(UpdateProfile(rows, me, f), (p: Profile) => p.id == me)
         == UpdateProfileFiltered(Filter(rows, (p: Profile) => p.id == me), f)
  {
    if rows != [] {
      var pick := (p: Profile) => p.id == me;
      var u := UpdateProfile(rows, me, f);
      var x := if rows[0].id == me then Saved(rows[0], f) else rows[0];
      assert u == [x] + UpdateProfile(rows[1..], me, f);
      assert u[1..] == UpdateProfile(rows[1..], me, f);
      UpdateKeepsIds(rows[1..], me, f);
      var tail := Filter(rows[1..], pick);
      if rows[0].id == me {
        assert Filter(rows, pick) == [rows[0]] + tail;
        assert ([rows[0]] + tail)[1..] == tail;
        assert Filter(u, pick) == [Saved(rows[0], f)] + UpdateProfileFiltered(tail, f);
      } else {
        assert Filter(rows, pick) == tail;
        assert Filter(u, pick) == UpdateProfileFiltered(tail, f);
      }
    }
  }

  /** `Saved` applied to every row. */
  function UpdateProfileFiltered(rows: seq<Profile>, f: ProfileForm): (r: seq<Profile>)
    ensures |r| == |rows| && forall i :: 0 <= i < |rows| ==> r[i] == Saved(rows[i], f)
  {
    if rows == [] then [] else [Saved(rows[0], f)] + UpdateProfileFiltered(rows[1..], f)
  }

  /** When the user has exactly one row, reloading after a save fills in the saved form. */
  lemma ReloadAfterSave(rows: seq<Profile>, me: string, f: ProfileForm)
    requires ProfileOf(rows, me).Some?
    ensures ProfileOf(UpdateProfile(rows, me, f), me).Some?
    ensures FormOf(ProfileOf(UpdateProfile(rows, me, f), me).value) == f
  {
    UpdateKeepsIds(rows, me, f);
    SaveLoadRoundTrip(Filter(rows, (p: Profile) => p.id == me)[0], f);
  }

  class ProfileScreen {
    const db: Database
    var profile: Option<Profile>
    var formData: ProfileForm

    constructor (db: Database)
      ensures this.db == db && profile == None && formData == EmptyForm
    {
      this.db := db;
      profile, formData := None, EmptyForm;
    }

    /**
     * `loadProfile` for the signed-in `user`: returns whether the page sends the visitor
     * to sign in; a profile that cannot be loaded leaves the form as it was.
     */
    method LoadProfile(user: Option<string>) returns (toAuth: bool)
      modifies this`profile, this`formData
      ensures toAuth <==> user.None?
      ensures var row := if user.Some? then ProfileOf(db.profiles, user.value) else None;
        if row.Some? then profile == row && formData == FormOf(row.value)
        else profile == old(profile) && formData == old(formData)
    {
      if user.None? {
        return true;
      }
      toAuth := false;
      var row := ProfileOf(db.profiles, user.value);
      if row.Some? {
        profile := row;
        formData := FormOf(row.value);
      }
    }

    /** `handleSave` for the signed-in `user`: updates the user's row, then loads the profile again. */
    method HandleSave(user: Option<string>, updateFails: bool)
      modifies this`profile, this`formData, db`profiles
      ensures user.None? || updateFails ==> unchanged(db) && unchanged(this)
      ensures user.Some? && !updateFails ==> db.profiles == UpdateProfile(old(db.profiles), user.value, old(formData))
      ensures user.Some? && !updateFails && ProfileOf(old(db.profiles), user.value).Some? ==>
        formData == old(formData) && profile == ProfileOf(db.profiles, user.value)
    {
      if user.None? || updateFails {
        return;
      }
      var f := formData;
      db.profiles := UpdateProfile(db.profiles, user.value, f);
      if ProfileOf(old(db.profiles), user.value).Some? {
        ReloadAfterSave(old(db.profiles), user.value, f);
      }
      var _ := LoadProfile(user);
    }
  }
}
