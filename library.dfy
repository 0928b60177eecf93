/**
 * The `Library` object: the catalogue and the loan ledger it keeps in memory,
 * loaded from the two data files when it is built and written back after
 * every change. A file is given as its lines (`None`: the file could not be
 * opened); what a method writes is returned as the lines of the new file
 * (`None`: nothing was written, the operation reported an error instead).
 */
module LibraryManagement {
  import opened Wrappers
  import opened Decimal
  import opened Records
  import opened Catalogue
  import opened Ledger

  class Library {
    var books: Books
    var borrowList: seq<BorrowRecord>

    /** The catalogue invariant: each book is filed under its own ISBN. */
    predicate Valid()
      reads this
    {
      KeyedByIsbn(books)
    }

    /** Loads the catalogue file, then the loan file; a file that cannot be opened leaves its part empty. */
    constructor (libraryData: Option<seq<string>>, borrowData: Option<seq<string>>)
      ensures Valid()
      ensures books == if libraryData.Some? then LoadBooks(libraryData.value) else map[]
      ensures borrowList == if borrowData.Some? then LoadedLoans(borrowData.value) else []
    {
      books := map[];
      borrowList := [];
      new;
      LoadFromFile(libraryData);
      var complete := LoadBorrowListFromFile(borrowData);
    }

    /** Replaces the catalogue by what the file holds, line by line; a later line for an ISBN overwrites an earlier one. */
    method LoadFromFile(data: Option<seq<string>>)
      requires Valid()
      modifies this
      ensures Valid()
      ensures books == if data.Some? then LoadBooks(data.value) else old(books)
      ensures borrowList == old(borrowList)
    {
      if data.Some? {
        var lines := data.value;
        books := map[];
        var i := 0;
        while i < |lines|
          invariant 0 <= i <= |lines|
          invariant books == LoadBooks(lines[..i])
          invariant borrowList == old(borrowList)
        {
          var parsed := ParseBookLine(lines[i]);
          if parsed.Some? {
            var b := parsed.value;
            books := books[b.isbn := b];
          }
          assert lines[..i + 1][..i] == lines[..i];
          i := i + 1;
        }
        assert lines[..i] == lines;
      }
    }

    /**
     * Replaces the ledger by the records the file holds, in file order.
     * `complete` is false when a line's day count is not a number: the source's
     * `stoi` throws there and the records read so far are all that was loaded.
     */
    method LoadBorrowListFromFile(data: Option<seq<string>>) returns (complete: bool)
      requires Valid()
      modifies this
      ensures Valid()
      ensures books == old(books)
      ensures borrowList == if data.Some? then LoadedLoans(data.value) else old(borrowList)
      ensures complete <==> data.None? || LoansWellFormed(data.value)
    {
      complete := true;
      if data.Some? {
        var loaded: seq<BorrowRecord>;
        loaded, complete := ReadLoanLines(data.value);
        borrowList := loaded;
      }
    }

    /** Writes the catalogue file: one line per book, in the map's iteration order. */
    method SaveToFile() returns (lines: seq<string>)
      ensures IsSaveOf(lines, books)
    {
      lines := [];
      ghost var order: seq<string> := [];
      var remaining := books.Keys;
      while remaining != {}
        invariant remaining <= books.Keys
        invariant |order| == |lines|
        invariant forall i :: 0 <= i < |order| ==> order[i] in books && order[i] !in remaining && lines[i] == BookLine(books[order[i]])
        invariant forall k :: k in books ==> k in order || k in remaining
        invariant forall i, j :: 0 <= i < j < |order| ==> order[i] != order[j]
        decreases remaining
      {
        var k :| k in remaining;
        lines := lines + [BookLine(books[k])];
        order := order + [k];
        remaining := remaining - {k};
      }
      assert SavedInOrder(lines, books, order);
    }

    /** Writes the loan file: one line per record, in ledger order. */
    method SaveBorrowListToFile() returns (lines: seq<string>)
      ensures IsLoanFileOf(lines, borrowList)
    {
      lines := [];
      for i := 0 to |borrowList|
        invariant IsLoanFileOf(lines, borrowList[..i])
      {
        lines := lines + [LoanLine(borrowList[i])];
      }
      assert borrowList[..|borrowList|] == borrowList;
    }

    /** `addBook`: a new ISBN is filed and the catalogue saved; a known ISBN changes nothing. */
    method AddBook(book: Book) returns (written: Option<seq<string>>)
      requires Valid()
      modifies this
      ensures Valid()
      ensures borrowList == old(borrowList)
      ensures book.isbn !in old(books) ==> books == old(books)[book.isbn := book]
      ensures book.isbn in old(books) ==> books == old(books)
      ensures written.Some? <==> book.isbn !in old(books)
      ensures written.Some? ==> IsSaveOf(written.value, books)
    {
      if book.isbn !in books {
        books := books[book.isbn := book];
        var lines := SaveToFile();
        written := Some(lines);
      } else {
        written := None;
      }
    }

    /** `deleteBook`: the ISBN is no longer a key and every other entry stays; loans are not consulted. */
    method DeleteBook(isbn: string) returns (written: Option<seq<string>>)
      requires Valid()
      modifies this
      ensures Valid()
      ensures borrowList == old(borrowList)
      ensures isbn !in books
      ensures forall k :: k in old(books) && k != isbn ==> k in books && books[k] == old(books)[k]
      ensures forall k :: k in books ==> k in old(books)
      ensures written.Some? <==> isbn in old(books)
      ensures written.Some? ==> IsSaveOf(written.value, books)
    {
      if isbn in books {
        books := books - {isbn};
        var lines := SaveToFile();
        written := Some(lines);
      } else {
        written := None;
      }
    }

    /** `updateBook`: title, author and category of a filed book are replaced; its ISBN and every other entry stay. */
    method UpdateBook(isbn: string, newTitle: string, newAuthor: string, newCategory: string)
      returns (written: Option<seq<string>>)
      requires Valid()
      modifies this
      ensures Valid()
      ensures borrowList == old(borrowList)
      ensures isbn in old(books) ==>
        books == old(books)[isbn := Book(newTitle, newAuthor, isbn, newCategory)]
      ensures isbn !in old(books) ==> books == old(books)
      ensures written.Some? <==> isbn in old(books)
      ensures written.Some? ==> IsSaveOf(written.value, books)
    {
      if isbn in books {
        var b := books[isbn];
        books := books[isbn := b.(title := newTitle, author := newAuthor, category := newCategory)];
        var lines := SaveToFile();
        written := Some(lines);
      } else {
        written := None;
      }
    }

    /** `displayBooksByCategory`: the books of exactly that category; `found` is false when there are none. */
    method DisplayBooksByCategory(category: string) returns (found: bool, matches: set<Book>)
      ensures matches == InCategory(books, category)
      ensures found <==> exists k :: k in books && books[k].category == category
    {
      found := false;
      matches := {};
      var remaining := books.Keys;
      while remaining != {}
        invariant remaining <= books.Keys
        invariant matches == set k | k in books.Keys - remaining && books[k].category == category :: books[k]
        invariant found <==> exists k :: k in books.Keys - remaining && books[k].category == category
        decreases remaining
      {
        var k :| k in remaining;
        if books[k].category == category {
          matches := matches + {books[k]};
          found := true;
        }
        remaining := remaining - {k};
      }
    }

    /** `searchByTitle`: the books with exactly that title; `found` is false when there are none. */
    method SearchByTitle(title: string) returns (found: bool, matches: set<Book>)
      ensures matches == WithTitle(books, title)
      ensures found <==> exists k :: k in books && books[k].title == title
    {
      found := false;
      matches := {};
      var remaining := books.Keys;
      while remaining != {}
        invariant remaining <= books.Keys
        invariant matches == set k | k in books.Keys - remaining && books[k].title == title :: books[k]
        invariant found <==> exists k :: k in books.Keys - remaining && books[k].title == title
        decreases remaining
      {
        var k :| k in remaining;
        if books[k].title == title {
          matches := matches + {books[k]};
          found := true;
        }
        remaining := remaining - {k};
      }
    }

    /** `searchByISBN`: the book filed under `isbn`, whose ISBN is `isbn`, or none. */
    function SearchByISBN(isbn: string): (r: Option<Book>)
      reads this
      requires Valid()
      ensures r.Some? <==> isbn in books
      ensures r.Some? ==> r.value.isbn == isbn && r.value == books[isbn]
    {
      if isbn in books then Some(books[isbn]) else None
    }

    /** `addBorrowRecord`: a loan of a catalogued ISBN is appended and the ledger saved; `books` is only read. */
    method AddBorrowRecord(isbn: string, borrowerName: string, borrowDate: string, borrowDays: Int32)
      returns (written: Option<seq<string>>)
      requires Valid()
      modifies this
      ensures Valid()
      ensures books == old(books)
      ensures isbn in books ==> borrowList == old(borrowList) + [BorrowRecord(isbn, borrowerName, borrowDate, borrowDays)]
      ensures isbn !in books ==> borrowList == old(borrowList)
      ensures written.Some? <==> isbn in books
      ensures written.Some? ==> IsLoanFileOf(written.value, borrowList)
    {
      if isbn !in books {
        written := None;
        return;
      }
      borrowList := borrowList + [BorrowRecord(isbn, borrowerName, borrowDate, borrowDays)];
      var lines := SaveBorrowListToFile();
      written := Some(lines);
    }

    /**
     * `manageReturns`: the first loan of `isbn` to `borrowerName` is removed,
     * the ledger saved, and the penalty returned; with no such loan nothing changes.
     */
    method ManageReturns(borrowerName: string, isbn: string, overdueDays: int, condition: string)
      returns (penalty: Option<int>, written: Option<seq<string>>)
      requires Valid()
      modifies this
      ensures Valid()
      ensures books == old(books)
      ensures var m := FirstMatch(old(borrowList), borrowerName, isbn);
        && (m.None? ==> borrowList == old(borrowList) && penalty.None? && written.None?)
        && (m.Some? ==> borrowList == RemoveAt(old(borrowList), m.value)
                        && penalty == Some(TotalPenalty(overdueDays, condition))
                        && written.Some? && IsLoanFileOf(written.value, borrowList))
    {
      var i := 0;
      while i < |borrowList| && !Matches(borrowList[i], borrowerName, isbn)
        invariant 0 <= i <= |borrowList|
        invariant forall j :: 0 <= j < i ==> !Matches(borrowList[j], borrowerName, isbn)
      {
        i := i + 1;
      }
      if i < |borrowList| {
        assert FirstMatch(borrowList, borrowerName, isbn) == Some(i);
        penalty := Some(TotalPenalty(overdueDays, condition));
        borrowList := RemoveAt(borrowList, i);
        var lines := SaveBorrowListToFile();
        written := Some(lines);
      } else {
        penalty := None;
        written := None;
      }
    }
  }
}
