/**
 * The study-books page: books from the `study_books` table, narrowed on the server by an
 * optional grade and subject and on the page by a case-insensitive search on title or
 * subject, with the grade and subject options.
 */
module StudyBooks {
  import opened Strings
  import opened Listing
  import opened Db

  /** An empty selection places no condition on the column. */
  predicate Selects(selection: string, value: string) {
    selection == "" || value == selection
  }

  /** The query `loadBooks` builds: `.eq('grade', …)` and `.eq('subject', …)` only for non-empty selections. */
  function BooksQuery(rows: seq<StudyBook>, selectedGrade: string, selectedSubject: string): (r: seq<StudyBook>)
    ensures forall b :: b in r <==> b in rows && Selects(selectedGrade, b.grade) && Selects(selectedSubject, b.subject)
  {
    var keep := (b: StudyBook) => Selects(selectedGrade, b.grade) && Selects(selectedSubject, b.subject);
    var r := Filter(rows, keep);
    assert forall b :: b in rows && keep(b) ==> b in r by {
      forall b | b in rows && keep(b) ensures b in r {
        var i :| 0 <= i < |rows| && rows[i] == b;
      }
    }
    r
  }

  /** Without selections the whole table is loaded. */
  lemma NoSelectionLoadsAll(rows: seq<StudyBook>)
    ensures BooksQuery(rows, "", "") == rows
  {
    FilterAll(rows, (b: StudyBook) => Selects("", b.grade) && Selects("", b.subject));
  }

  predicate MatchesSearch(b: StudyBook, searchTerm: string) {
    IncludesIgnoringCase(b.title, searchTerm) || IncludesIgnoringCase(b.subject, searchTerm)
  }

  /** `filteredBooks`: the loaded books whose title or subject contains the search, in their order. */
  function FilteredBooks(books: seq<StudyBook>, searchTerm: string): (r: seq<StudyBook>)
    ensures forall b :: b in r <==> b in books && MatchesSearch(b, searchTerm)
  {
    var r := Filter(books, (b: StudyBook) => MatchesSearch(b, searchTerm));
    assert forall b :: b in books && MatchesSearch(b, searchTerm) ==> b in r by {
      forall b | b in books && MatchesSearch(b, searchTerm) ensures b in r {
        var i :| 0 <= i < |books| && books[i] == b;
      }
    }
    r
  }

  /** The search keeps the loaded order. */
  lemma FilteredBooksInOrder(books: seq<StudyBook>, searchTerm: string)
    ensures IsSubsequence(FilteredBooks(books, searchTerm), books)
  {
    FilterIsSubsequence(books, (b: StudyBook) => MatchesSearch(b, searchTerm));
  }

  /** The grade options, "1" to "12". */
  function GradeOptions(): seq<string> {
    NumberedOptions(12)
  }

  lemma GradeOptionsExact()
    ensures GradeOptions() == ["1", "2", "3", "4", "5", "6", "7", "8", "9", "10", "11", "12"]
  {
    var r := GradeOptions();
    OneDigitOptions();
    TwoDigitOptions();
    assert r == r[..9] + r[9..];
  }

  lemma OneDigitOptions()
    ensures GradeOptions()[..9] == ["1", "2", "3", "4", "5", "6", "7", "8", "9"]
  {
    var r := GradeOptions();
    forall i | 0 <= i < 9 ensures r[i] == [DigitChar(i + 1)] {
      assert r[i] == NatToString(i + 1);
    }
  }

  lemma TwoDigitOptions()
    ensures GradeOptions()[9..] == ["10", "11", "12"]
  {
    var r := GradeOptions();
    TeenToString(10);
    TeenToString(11);
    TeenToString(12);
    assert r[9] == "10" && r[10] == "11" && r[11] == "12";
  }

  /** The numbers 10 to 19 are written as "1" followed by their last digit. */
  lemma TeenToString(n: nat)
    requires 10 <= n < 20
    ensures NatToString(n) == ['1', DigitChar(n - 10)]
  {
    assert n / 10 == 1 && n % 10 == n - 10;
  }

  /** `[...new Set(books.map(book => book.subject))]`: the subjects of the loaded books. */
  function Subjects(books: seq<StudyBook>): seq<string> {
    Dedup(Map(books, (b: StudyBook) => b.subject))
  }

  /** Each loaded book's subject is offered exactly once, and nothing else is. */
  lemma SubjectsShape(books: seq<StudyBook>)
    ensures NoDuplicates(Subjects(books))
    ensures forall i :: 0 <= i < |books| ==> books[i].subject in Subjects(books)
    ensures forall s :: s in Subjects(books) ==> exists i :: 0 <= i < |books| && books[i].subject == s
  {
    var subjects := Map(books, (b: StudyBook) => b.subject);
    forall i | 0 <= i < |books| ensures books[i].subject in Subjects(books) {
      assert subjects[i] == books[i].subject;
    }
    forall s | s in Subjects(books) ensures exists i :: 0 <= i < |books| && books[i].subject == s {
      var i :| 0 <= i < |subjects| && subjects[i] == s;
      assert books[i].subject == s;
    }
  }

  /** Loading more books never drops or reorders the subjects already offered. */
  lemma SubjectsFirstOccurrence(books: seq<StudyBook>, k: nat)
    requires k <= |books|
    ensures Subjects(books[..k]) <= Subjects(books)
  {
    var subjects := Map(books, (b: StudyBook) => b.subject);
    DedupPrefix(subjects, k);
    assert subjects[..k] == Map(books[..k], (b: StudyBook) => b.subject);
  }
}
