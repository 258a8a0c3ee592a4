/**
 * The step-by-step solutions page: solutions from `step_by_step_solutions`, narrowed on
 * the server by an optional grade, subject and page number and ordered by page, then on
 * the page by a case-insensitive search on the subject alone.
 */
module StepByStep {
  import opened Wrappers
  import opened Strings
  import opened Listing
  import opened Db
  import StudyBooks

  /** The page condition: none for an empty field, otherwise `parseInt` of it, `None` when that is `NaN`. */
  datatype PageCondition = AnyPage | OnPage(page: int) | NotANumber

  function PageConditionOf(pageNumber: string): (c: PageCondition)
    ensures c == AnyPage <==> pageNumber == ""
    ensures c.OnPage? ==> ParseInt(pageNumber) == Some(c.page)
    ensures c == NotANumber <==> pageNumber != "" && ParseInt(pageNumber).None?
  {
    if pageNumber == "" then AnyPage
    else match ParseInt(pageNumber)
      case Some(n) => OnPage(n)
      case None => NotANumber
  }

  /** The range of the `page_number` column, a 32-bit `integer`. */
  const Int4Min := -0x8000_0000
  const Int4Max := 0x7fff_ffff

  /**
   * The database refuses the filter: the field is not a number, or its number lies
   * outside the column's range.
   */
  predicate Refused(page: PageCondition) {
    page == NotANumber || (page.OnPage? && !(Int4Min <= page.page <= Int4Max))
  }

  predicate Selected(s: Solution, selectedGrade: string, selectedSubject: string, page: PageCondition)
    requires page != NotANumber
  {
    StudyBooks.Selects(selectedGrade, s.grade) && StudyBooks.Selects(selectedSubject, s.subject)
    && (page.OnPage? ==> s.pageNumber == page.page)
  }

  /**
   * The query `loadSolutions` builds, ordered by `page_number`; `None` when the database
   * refuses it, which happens for a page number that is not a number or does not fit
   * the column, and then the page keeps the solutions it had.
   */
  function SolutionsQuery(rows: seq<Solution>, selectedGrade: string, selectedSubject: string, pageNumber: string)
    : (r: Option<seq<Solution>>)
    ensures r.None? <==> Refused(PageConditionOf(pageNumber))
  {
    var page := PageConditionOf(pageNumber);
    if Refused(page) then None
    else Some(SortBy(Filter(rows, (s: Solution) => Selected(s, selectedGrade, selectedSubject, page)),
                     (s: Solution) => s.pageNumber))
  }

  /** What the page shows after loading: the query's rows, or the previous ones when it failed. */
  function LoadSolutions(previous: seq<Solution>, rows: seq<Solution>, selectedGrade: string,
                         selectedSubject: string, pageNumber: string): seq<Solution>
  {
    SolutionsQuery(rows, selectedGrade, selectedSubject, pageNumber).GetOr(previous)
  }

  /** The loaded solutions are exactly the selected ones, each once, in ascending page order. */
  lemma LoadedSolutionsShape(previous: seq<Solution>, rows: seq<Solution>, grade: string, subject: string, pageNumber: string)
    requires !Refused(PageConditionOf(pageNumber))
    ensures var page := PageConditionOf(pageNumber);
      var loaded := LoadSolutions(previous, rows, grade, subject, pageNumber);
      multiset(loaded) == multiset(Filter(rows, (s: Solution) => Selected(s, grade, subject, page)))
      && SortedBy(loaded, (s: Solution) => s.pageNumber)
      && (forall s :: s in loaded ==> s in rows && Selected(s, grade, subject, page))
  {
    var page := PageConditionOf(pageNumber);
    var mine := Filter(rows, (s: Solution) => Selected(s, grade, subject, page));
    SortByPermutation(mine, (s: Solution) => s.pageNumber);
    SortBySorted(mine, (s: Solution) => s.pageNumber);
    var loaded := LoadSolutions(previous, rows, grade, subject, pageNumber);
    forall s | s in loaded ensures s in rows && Selected(s, grade, subject, page) {
      assert s in multiset(loaded);
    }
  }

  /** A page number that is not a number leaves the list as it was. */
  lemma NonNumericPageKeepsList(previous: seq<Solution>, rows: seq<Solution>, grade: string, subject: string,
                                pageNumber: string)
    requires pageNumber != "" && ParseInt(pageNumber).None?
    ensures LoadSolutions(previous, rows, grade, subject, pageNumber) == previous
  {
  }

  /** Letters are not a number: "abc" is one such page field. */
  lemma LettersAreNotANumber()
    ensures PageConditionOf("abc") == NotANumber
  {
    assert TrimStart("abc") == "abc";
    assert LeadingDigits("abc", 10) == [];
  }

  /** A page number beyond the column's range, such as 3000000000, leaves the list as it was. */
  lemma OutOfRangePageKeepsList(previous: seq<Solution>, rows: seq<Solution>, grade: string, subject: string, n: nat)
    requires n > Int4Max
    ensures LoadSolutions(previous, rows, grade, subject, NatToString(n)) == previous
  {
    ParseIntOfNatToString(n);
  }

  /** A page field holding the decimal rendering of a number selects that page. */
  lemma PageNumberParsed(n: nat)
    ensures PageConditionOf(NatToString(n)) == OnPage(n)
  {
    ParseIntOfNatToString(n);
  }

  /** The search looks at the subject only. */
  predicate MatchesSearch(s: Solution, searchTerm: string) {
    IncludesIgnoringCase(s.subject, searchTerm)
  }

  /** `filteredSolutions`: the loaded solutions whose subject contains the search, in their order. */
  function FilteredSolutions(solutions: seq<Solution>, searchTerm: string): (r: seq<Solution>)
    ensures forall s :: s in r <==> s in solutions && MatchesSearch(s, searchTerm)
  {
    var r := Filter(solutions, (s: Solution) => MatchesSearch(s, searchTerm));
    assert forall s :: s in solutions && MatchesSearch(s, searchTerm) ==> s in r by {
      forall s | s in solutions && MatchesSearch(s, searchTerm) ensures s in r {
        var i :| 0 <= i < |solutions| && solutions[i] == s;
      }
    }
    r
  }

  /** The text of a solution never decides whether it matches the search. */
  lemma SearchIgnoresSolutionText(s: Solution, text: string, searchTerm: string)
    ensures MatchesSearch(s.(solution := text), searchTerm) == MatchesSearch(s, searchTerm)
  {
  }

  /** The search keeps the page order. */
  lemma FilteredSolutionsInOrder(solutions: seq<Solution>, searchTerm: string)
    ensures IsSubsequence(FilteredSolutions(solutions, searchTerm), solutions)
  {
    FilterIsSubsequence(solutions, (s: Solution) => MatchesSearch(s, searchTerm));
  }

  /** `[...new Set(solutions.map(s => s.subject))]`. */
  function Subjects(solutions: seq<Solution>): (r: seq<string>)
    ensures NoDuplicates(r)
    ensures forall i :: 0 <= i < |solutions| ==> solutions[i].subject in r
    ensures forall x :: x in r ==> exists i :: 0 <= i < |solutions| && solutions[i].subject == x
  {
    var subjects := Map(solutions, (s: Solution) => s.subject);
    var r := Dedup(subjects);
    assert forall i :: 0 <= i < |solutions| ==> solutions[i].subject in r by {
      forall i | 0 <= i < |solutions| ensures solutions[i].subject in r {
        assert subjects[i] == solutions[i].subject;
      }
    }
    assert forall x :: x in r ==> exists i :: 0 <= i < |solutions| && solutions[i].subject == x by {
      forall x | x in r ensures exists i :: 0 <= i < |solutions| && solutions[i].subject == x {
        var i :| 0 <= i < |subjects| && subjects[i] == x;
        assert solutions[i].subject == x;
      }
    }
    r
  }

  /** Loading more solutions never drops or reorders the subjects already offered. */
  lemma SubjectsFirstOccurrence(solutions: seq<Solution>, k: nat)
    requires k <= |solutions|
    ensures Subjects(solutions[..k]) <= Subjects(solutions)
  {
    var subjects := Map(solutions, (s: Solution) => s.subject);
    DedupPrefix(subjects, k);
    assert subjects[..k] == Map(solutions[..k], (s: Solution) => s.subject);
  }

  /** The grade options, the same "1" to "12" as on the study-books page. */
  function GradeOptions(): seq<string> {
    StudyBooks.GradeOptions()
  }
}
