/**
 * The two record types, `Book` and `BorrowRecord`, and the one-line text form
 * each takes in `library_data.txt` and `borrow_data.txt`.
 */
module Records {
  import opened Wrappers
  import opened Decimal
  import opened Csv

  datatype Book = Book(title: string, author: string, isbn: string, category: string)

  datatype BorrowRecord = BorrowRecord(isbn: string, borrowerName: string, borrowDate: string, borrowDays: Int32)

  /** A book whose line reads back as itself: no comma before the category. */
  predicate StorableBook(b: Book)
  {
    NoComma(b.title) && NoComma(b.author) && NoComma(b.isbn)
  }

  /** A loan whose line reads back as itself: no comma in its three text fields. */
  predicate StorableLoan(r: BorrowRecord)
  {
    NoComma(r.isbn) && NoComma(r.borrowerName) && NoComma(r.borrowDate)
  }

  /** `title,author,ISBN,category`, as `saveToFile` writes it. */
  function BookLine(b: Book): string
  {
    Join(Fields(b.title, b.author, b.isbn, b.category))
  }

  /** One line of the catalogue file, as `loadFromFile` reads it. */
  function ParseBookLine(line: string): Option<Book>
  {
    match SplitFour(line)
    case None => None
    case Some(f) => Some(Book(f.first, f.second, f.third, f.rest))
  }

  /** `ISBN,borrower,date,days`, as `saveBorrowListToFile` writes it. */
  function LoanLine(r: BorrowRecord): string
  {
    Join(Fields(r.isbn, r.borrowerName, r.borrowDate, IntToString(r.borrowDays as int)))
  }

  /**
   * One line of the loan file, as `loadBorrowListFromFile` reads it: fewer than
   * three commas skip the line; a fourth field `stoi` rejects is `Malformed`
   * (the source's `stoi` throws there).
   */
  datatype LoanParse = Skipped | Malformed | Loan(record: BorrowRecord)

  function ParseLoanLine(line: string): LoanParse
  {
    match SplitFour(line)
    case None => Skipped
    case Some(f) =>
      match Stoi(f.rest)
      case None => Malformed
      case Some(days) => Loan(BorrowRecord(f.first, f.second, f.third, days as Int32))
  }

  /** A book line reads back as the book exactly when title, author and ISBN hold no comma. */
  lemma BookLineRoundTrip(b: Book)
    ensures ParseBookLine(BookLine(b)) == Some(b) <==> StorableBook(b)
  {
    if StorableBook(b) {
      SplitJoin(Fields(b.title, b.author, b.isbn, b.category));
    } else if SplitFour(BookLine(b)).Some? {
      JoinSplit(BookLine(b));
    }
  }

  /** Every book line that parses is the line of the book it parses to. */
  lemma ParseBookLineLossless(line: string)
    requires ParseBookLine(line).Some?
    ensures StorableBook(ParseBookLine(line).value)
    ensures BookLine(ParseBookLine(line).value) == line
  {
  }

  /** A catalogue line is skipped exactly when it has fewer than three commas. */
  lemma ParseBookLineSkips(line: string)
    ensures ParseBookLine(line).None? <==> CommaCount(line) < 3
  {
    SplitFourNoneIff(line);
  }

  /** A loan line reads back as the loan, for every `borrowDays`, exactly when its text fields hold no comma. */
  lemma LoanLineRoundTrip(r: BorrowRecord)
    ensures ParseLoanLine(LoanLine(r)) == Loan(r) <==> StorableLoan(r)
  {
    var days := IntToString(r.borrowDays as int);
    if StorableLoan(r) {
      SplitJoin(Fields(r.isbn, r.borrowerName, r.borrowDate, days));
      StoiIntToString(r.borrowDays as int);
    } else if SplitFour(LoanLine(r)).Some? {
      JoinSplit(LoanLine(r));
    }
  }

  /** A loan line is skipped exactly when it has fewer than three commas; otherwise it is a record or malformed. */
  lemma ParseLoanLineSkips(line: string)
    ensures ParseLoanLine(line).Skipped? <==> CommaCount(line) < 3
  {
    SplitFourNoneIff(line);
  }
}
