/**
 * The booklet page: a fixed catalogue of booklets for grades 1 to 9, narrowed by a
 * case-insensitive search on title or subject and by an optional grade.
 */
module PdfBooks {
  import opened Strings
  import opened Listing

  datatype PdfBook = PdfBook(grade: string, subject: string, title: string, link: string)

  /** The catalogue, in display order. */
  const Catalogue: seq<PdfBook> := [
    PdfBook("1", "فارسی", "جزوه فارسی اول ابتدایی", "https://hamyar.in/book/farsi-1"),
    PdfBook("1", "ریاضی", "جزوه ریاضی اول ابتدایی", "https://hamyar.in/book/math-1"),
    PdfBook("1", "علوم", "جزوه علوم اول ابتدایی", "https://hamyar.in/book/science-1"),
    PdfBook("2", "فارسی", "جزوه فارسی دوم ابتدایی", "https://hamyar.in/book/farsi-2"),
    PdfBook("2", "ریاضی", "جزوه ریاضی دوم ابتدایی", "https://hamyar.in/book/math-2"),
    PdfBook("2", "علوم", "جزوه علوم دوم ابتدایی", "https://hamyar.in/book/science-2"),
    PdfBook("3", "فارسی", "جزوه فارسی سوم ابتدایی", "https://hamyar.in/book/farsi-3"),
    PdfBook("3", "ریاضی", "جزوه ریاضی سوم ابتدایی", "https://hamyar.in/book/math-3"),
    PdfBook("3", "علوم", "جزوه علوم سوم ابتدایی", "https://hamyar.in/book/science-3"),
    PdfBook("4", "فارسی", "جزوه فارسی چهارم ابتدایی", "https://hamyar.in/book/farsi-4"),
    PdfBook("4", "ریاضی", "جزوه ریاضی چهارم ابتدایی", "https://hamyar.in/book/math-4"),
    PdfBook("4", "علوم", "جزوه علوم چهارم ابتدایی", "https://hamyar.in/book/science-4"),
    PdfBook("4", "مطالعات", "جزوه مطالعات اجتماعی چهارم", "https://hamyar.in/book/social-4"),
    PdfBook("5", "فارسی", "جزوه فارسی پنجم ابتدایی", "https://hamyar.in/book/farsi-5"),
    PdfBook("5", "ریاضی", "جزوه ریاضی پنجم ابتدایی", "https://hamyar.in/book/math-5"),
    PdfBook("5", "علوم", "جزوه علوم پنجم ابتدایی", "https://hamyar.in/book/science-5"),
    PdfBook("5", "مطالعات", "جزوه مطالعات اجتماعی پنجم", "https://hamyar.in/book/social-5"),
    PdfBook("6", "فارسی", "جزوه فارسی ششم ابتدایی", "https://hamyar.in/book/farsi-6"),
    PdfBook("6", "ریاضی", "جزوه ریاضی ششم ابتدایی", "https://hamyar.in/book/math-6"),
    PdfBook("6", "علوم", "جزوه علوم ششم ابتدایی", "https://hamyar.in/book/science-6"),
    PdfBook("6", "مطالعات", "جزوه مطالعات اجتماعی ششم", "https://hamyar.in/book/social-6"),
    PdfBook("7", "فارسی", "جزوه فارسی هفتم", "https://hamyar.in/book/farsi-7"),
    PdfBook("7", "ریاضی", "جزوه ریاضی هفتم", "https://hamyar.in/book/math-7"),
    PdfBook("7", "علوم", "جزوه علوم هفتم", "https://hamyar.in/book/science-7"),
    PdfBook("7", "مطالعات", "جزوه مطالعات اجتماعی هفتم", "https://hamyar.in/book/social-7"),
    PdfBook("7", "عربی", "جزوه عربی هفتم", "https://hamyar.in/book/arabic-7"),
    PdfBook("8", "فارسی", "جزوه فارسی هشتم", "https://hamyar.in/book/farsi-8"),
    PdfBook("8", "ریاضی", "جزوه ریاضی هشتم", "https://hamyar.in/book/math-8"),
    PdfBook("8", "علوم", "جزوه علوم هشتم", "https://hamyar.in/book/science-8"),
    PdfBook("8", "مطالعات", "جزوه مطالعات اجتماعی هشتم", "https://hamyar.in/book/social-8"),
    PdfBook("8", "عربی", "جزوه عربی هشتم", "https://hamyar.in/book/arabic-8"),
    PdfBook("9", "فارسی", "جزوه فارسی نهم", "https://hamyar.in/book/farsi-9"),
    PdfBook("9", "ریاضی", "جزوه ریاضی نهم", "https://hamyar.in/book/math-9"),
    PdfBook("9", "علوم", "جزوه علوم نهم", "https://hamyar.in/book/science-9"),
    PdfBook("9", "مطالعات", "جزوه مطالعات اجتماعی نهم", "https://hamyar.in/book/social-9"),
    PdfBook("9", "عربی", "جزوه عربی نهم", "https://hamyar.in/book/arabic-9")
  ]

  /** The grade options. */
  const Grades: seq<string> := ["1", "2", "3", "4", "5", "6", "7", "8", "9"]

  /** A booklet matches the search when its title or its subject contains it, ignoring case. */
  predicate MatchesSearch(b: PdfBook, searchTerm: string) {
    IncludesIgnoringCase(b.title, searchTerm) || IncludesIgnoringCase(b.subject, searchTerm)
  }

  /** No grade selected, or the booklet's grade. */
  predicate MatchesGrade(b: PdfBook, selectedGrade: string) {
    selectedGrade == "" || b.grade == selectedGrade
  }

  /** `filteredBooks`: the booklets that match both the search and the grade, in their order. */
  function FilteredBooks(books: seq<PdfBook>, searchTerm: string, selectedGrade: string): seq<PdfBook> {
    Filter(books, (b: PdfBook) => MatchesSearch(b, searchTerm) && MatchesGrade(b, selectedGrade))
  }

  /** A booklet is listed exactly when it is offered and matches search and grade. */
  lemma FilteredBooksIff(books: seq<PdfBook>, searchTerm: string, selectedGrade: string, b: PdfBook)
    ensures b in FilteredBooks(books, searchTerm, selectedGrade) <==>
      b in books && MatchesSearch(b, searchTerm) && MatchesGrade(b, selectedGrade)
  {
    if b in books && MatchesSearch(b, searchTerm) && MatchesGrade(b, selectedGrade) {
      var i :| 0 <= i < |books| && books[i] == b;
    }
  }

  /** The list keeps the catalogue's order. */
  lemma FilteredBooksInOrder(books: seq<PdfBook>, searchTerm: string, selectedGrade: string)
    ensures IsSubsequence(FilteredBooks(books, searchTerm, selectedGrade), books)
  {
    FilterIsSubsequence(books, (b: PdfBook) => MatchesSearch(b, searchTerm) && MatchesGrade(b, selectedGrade));
  }

  /** With an empty search and no grade every booklet is listed. */
  lemma NoFilterListsAll(books: seq<PdfBook>)
    ensures FilteredBooks(books, "", "") == books
  {
    forall b | b in books ensures MatchesSearch(b, "") && MatchesGrade(b, "") {
      ContainsEmpty(Lower(b.title));
    }
    FilterAll(books, (b: PdfBook) => MatchesSearch(b, "") && MatchesGrade(b, ""));
  }

  /** Every booklet of the catalogue belongs to one of the grade options. */
  lemma CatalogueGrades()
    ensures forall i :: 0 <= i < |Catalogue| ==> Catalogue[i].grade in Grades
  {
  }

  /** With a grade selected, every listed booklet is of that grade. */
  lemma SelectedGradeOnly(books: seq<PdfBook>, searchTerm: string, selectedGrade: string)
    requires selectedGrade != ""
    ensures forall b :: b in FilteredBooks(books, searchTerm, selectedGrade) ==> b.grade == selectedGrade
  {
    forall b | b in FilteredBooks(books, searchTerm, selectedGrade) ensures b.grade == selectedGrade {
      FilteredBooksIff(books, searchTerm, selectedGrade, b);
    }
  }
}
