/**
 * Study plans: a signed-in user creates plans with a title and a date range, lists their
 * own plans newest first, and deletes them.
 */
module StudyPlans {
  import opened Wrappers
  import opened Listing
  import opened Db

  /** The user's plans, as `.eq("user_id", me).order("created_at", { ascending: false })` returns them. */
  function PlansOf(rows: seq<StudyPlan>, me: string): seq<StudyPlan> {
    SortBy(Filter(rows, (p: StudyPlan) => p.userId == me), (p: StudyPlan) => -p.createdAt)
  }

  /** The listing holds exactly the user's plans, each once, newest first. */
  lemma PlansOfShape(rows: seq<StudyPlan>, me: string)
    ensures multiset(PlansOf(rows, me)) == multiset(Filter(rows, (p: StudyPlan) => p.userId == me))
    ensures forall i, j :: 0 <= i < j < |PlansOf(rows, me)| ==> PlansOf(rows, me)[i].createdAt >= PlansOf(rows, me)[j].createdAt
    ensures forall p :: p in PlansOf(rows, me) ==> p in rows && p.userId == me
  {
    var mine := Filter(rows, (p: StudyPlan) => p.userId == me);
    SortByPermutation(mine, (p: StudyPlan) => -p.createdAt);
    SortBySorted(mine, (p: StudyPlan) => -p.createdAt);
    forall p | p in PlansOf(rows, me) ensures p in rows && p.userId == me {
      assert p in multiset(PlansOf(rows, me));
    }
  }

  /** How `handleCreate` ends. */
  datatype CreateOutcome = MissingFields | NotSignedIn | InsertFailed | Created

  /** The required fields are the title and both dates; an empty description is fine. */
  predicate HasRequiredFields(title: string, startDate: string, endDate: string) {
    title != "" && startDate != "" && endDate != ""
  }

  /** The row a new plan is inserted as: the form's fields, owned by the user, with no subjects yet. */
  function NewPlan(id: string, user: string, title: string, description: string, startDate: string,
                   endDate: string, now: int): (p: StudyPlan)
    ensures p.userId == user && p.subjects == Some([])
    ensures p.title == title && p.description == Some(description)
    ensures p.startDate == startDate && p.endDate == endDate
  {
    StudyPlan(id, user, title, Some(description), startDate, endDate, Some([]), now)
  }

  class StudyPlanScreen {
    const db: Database
    var plans: seq<StudyPlan>
    var showForm: bool
    var title: string
    var description: string
    var startDate: string
    var endDate: string

    constructor (db: Database)
      ensures this.db == db && plans == [] && !showForm
      ensures title == "" && description == "" && startDate == "" && endDate == ""
    {
      this.db := db;
      plans, showForm := [], false;
      title, description, startDate, endDate := "", "", "", "";
    }

    /** `loadPlans` for the signed-in `user`; without one nothing is loaded. */
    method LoadPlans(user: Option<string>)
      modifies this`plans
      ensures user.Some? ==> plans == PlansOf(db.studyPlans, user.value)
      ensures user.None? ==> plans == old(plans)
    {
      if user.Some? {
        plans := PlansOf(db.studyPlans, user.value);
      }
    }

    /**
     * `handleCreate` for the signed-in `user`: `newId` and `now` are the new row's id and
     * time and `insertFails` the insert's outcome. A created plan clears and hides the form.
     */
    method HandleCreate(user: Option<string>, newId: string, now: int, insertFails: bool) returns (outcome: CreateOutcome)
      modifies this`plans, this`showForm, this`title, this`description, this`startDate, this`endDate, db`studyPlans
      ensures outcome == MissingFields <==> !HasRequiredFields(old(title), old(startDate), old(endDate))
      ensures outcome == Created <==> HasRequiredFields(old(title), old(startDate), old(endDate)) && user.Some? && !insertFails
      ensures outcome == Created ==>
        && db.studyPlans == old(db.studyPlans) + [NewPlan(newId, user.value, old(title), old(description), old(startDate), old(endDate), now)]
        && title == "" && description == "" && startDate == "" && endDate == "" && !showForm
        && plans == PlansOf(db.studyPlans, user.value)
      ensures outcome != Created ==> unchanged(db) && unchanged(this)
    {
      if !HasRequiredFields(title, startDate, endDate) {
        return MissingFields;
      }
      if user.None? {
        return NotSignedIn;
      }
      if insertFails {
        return InsertFailed;
      }
      db.studyPlans := db.studyPlans + [NewPlan(newId, user.value, title, description, startDate, endDate, now)];
      title, description, startDate, endDate := "", "", "", "";
      showForm := false;
      LoadPlans(user);
      outcome := Created;
    }

    /** `handleDelete`: removes the plan; on success the plans are loaded again. */
    method HandleDelete(id: string, deleteFails: bool, user: Option<string>)
      modifies this`plans, db`studyPlans
      ensures deleteFails ==> db.studyPlans == old(db.studyPlans) && plans == old(plans)
      ensures !deleteFails ==> db.studyPlans == DeleteId(old(db.studyPlans), id, (p: StudyPlan) => p.id)
      ensures !deleteFails && user.Some? ==> plans == PlansOf(db.studyPlans, user.value)
      ensures !deleteFails && user.None? ==> plans == old(plans)
    {
      if !deleteFails {
        db.studyPlans := DeleteId(db.studyPlans, id, (p: StudyPlan) => p.id);
        LoadPlans(user);
      }
    }
  }

  /** A created plan shows up in its owner's listing. */
  lemma CreatedPlanListed(rows: seq<StudyPlan>, p: StudyPlan)
    ensures p in PlansOf(rows + [p], p.userId)
  {
    var all := rows + [p];
    assert all[|rows|] == p;
    var mine := Filter(all, (q: StudyPlan) => q.userId == p.userId);
    assert p in mine;
    PlansOfShape(all, p.userId);
    assert p in multiset(PlansOf(all, p.userId));
  }
}
