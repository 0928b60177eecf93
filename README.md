# Library catalogue and loan ledger

A Dafny model of the `Library` class of a console library manager
(`library_management.cpp`). The class keeps two things in memory:

- `books`, the catalogue, an `unordered_map` from ISBN to `Book` (title, author, ISBN, category);
- `borrowList`, the loan ledger, a `vector` of `BorrowRecord` (ISBN, borrower name, borrow date, number of days).

Both are read from flat text files when the object is built, and each is rewritten
in full after every change. The operations are:

- adding, deleting and updating books;
- searching by category, by title and by ISBN;
- recording a loan of a catalogued book;
- returning a book, which removes the first matching loan and charges a penalty.

Modules, leaf first:

- `Wrappers` (wrappers.dfy): `Option`.
- `Decimal` (decimal.dfy): the `int` of `borrowDays` (`Int32`), how an integer is written (`IntToString`) and how `std::stoi` reads one back (`Stoi`).
- `Csv` (csv.dfy): splitting a line at its first three commas (`SplitFour`) and joining four fields with commas (`Join`), shared by both files.
- `Records` (records.dfy): `Book`, `BorrowRecord`, and the one-line codec for each.
- `Catalogue` (catalogue.dfy): the catalogue as a map value. It covers what loading the catalogue file builds (`LoadBooks`), what saving it may write (`IsSaveOf`) and what the searches select.
- `Ledger` (ledger.dfy): the ledger as a sequence value. It covers what loading the loan file builds (`LoadedLoans`), what saving it writes (`IsLoanFileOf`), which loan a return removes (`FirstMatch`) and the penalty (`TotalPenalty`).
- `LibraryManagement` (library.dfy): the class `Library`, with `books` and `borrowList` as fields that its methods update in place.

Files are given to the model as their lines, `Option<seq<string>>`, where `None` is a file that could not be opened.
Every line comes from `getline`, so no field holds a newline.
The operator's input is also read with `getline`, so no field of a book or a loan typed in holds one either.
The file-level round-trip lemmas (`SaveLoadRoundTrip`, `SaveLoadLoansRoundTrip`) rely on this.
Their lines are the lines of the saved file only when no field holds `'\n'`, and the model does not check it.
A method that saves returns the lines it wrote as `Some(lines)`; `None` means nothing was written because the operation reported an error.
The save and load functions are private helpers in the source; they appear here as the methods `SaveToFile`, `SaveBorrowListToFile`, `LoadFromFile` and `LoadBorrowListFromFile`.

The source finds the second and third commas with `find(',', pos + 1)`.
When the comma before is missing, `pos` is `npos` and `npos + 1` wraps to 0.
The line is then skipped anyway, because all three commas must be found, so this case needs no modelling.
`SourceSplit` writes the split as the source does: three `find` calls on the whole line and four `substr`s.
The rest of the model uses `SplitFour`, which splits off one field at a time.
`SourceSplitIsSplitFour` proves that the two give the same result on every line.

The class invariant `Valid()` says that every ISBN key maps to a book whose own ISBN is that key.
Loading establishes it, and every operation keeps it.

A book line survives a save and a load exactly when the book's title, author and ISBN contain no comma (`BookLineRoundTrip`, both directions).
The category may contain commas, because the parser gives it everything after the third comma.
The source writes the fields without escaping, so a book whose title contains a comma comes back with its fields shifted.
The model states this condition on the round trip; it does not change the file format.

The code enforces none of the following rules, and the model keeps its behaviour:

- An empty ISBN is accepted.
- Deleting a book does not look at open loans, so a deleted book may still have loans.
- One book may be lent to several borrowers at once.
- `borrowDays` may be zero or negative.
- A catalogue file that cannot be opened leaves the catalogue as it was; it is not reported as an error.
- A loan line whose day count `stoi` rejects stops the load; in the source the exception ends the program.

## Model

| member | source | states |
|---|---|---|
| `Decimal.NatToString` | library_management.cpp:84 | what `<<` writes for a non-negative int: a non-empty run of digits with no leading zero |
| `Decimal.DigitsValueOfNatToString` | library_management.cpp:84 | the digits written for `n` read back as `n` |
| `Decimal.Stoi` | library_management.cpp:127 | `stoi` succeeds only on text that holds a digit, and only with a value inside the `int` range |
| `Decimal.StoiIntToString` | library_management.cpp:127 | `stoi` reads back every `int` as `<<` writes it |
| `Csv.IndexOf` | library_management.cpp:99-101 | `find(',', from)` gives the first comma at or after `from`, or none when there is none |
| `Csv.IndexOfShift` | library_management.cpp:100-101 | `find(',', pos + 1)` on the line finds what a search of the text after `pos` finds, shifted by `pos + 1` |
| `Csv.SplitFirstAfter` | library_management.cpp:100-101 | splitting the text after a comma at `p` finds the comma that `find(',', p + 1)` finds on the whole line |
| `Csv.SourceSplitAt` | library_management.cpp:99-106 | once the three `find` calls have found their commas, the fields are the four `substr`s between them |
| `Csv.SourceSplitFromSecond` | library_management.cpp:101-106 | once the first two commas are found, the third search decides the source's split and `SplitFour` alike |
| `Csv.SourceSplitIsSplitFour` | library_management.cpp:99-106 | the source's split with three `find` calls (`npos + 1` wrapping to 0 included) equals `SplitFour` on every line |
| `Csv.SplitFirstField` | library_management.cpp:99-104 | a comma-free field followed by a comma splits off exactly at that comma |
| `Csv.SplitFirstJoin` | library_management.cpp:99-104 | splitting at the first comma loses nothing: the parts rejoin to the text, the first holds no comma, one comma is used up |
| `Csv.SplitFirstNone` | library_management.cpp:102 | text without a first comma holds no comma at all |
| `Csv.SplitJoin` | library_management.cpp:99-106 | four fields joined by commas split back into the same fields when the first three hold no comma |
| `Csv.JoinSplit` | library_management.cpp:99-106 | a line that splits is exactly its four fields rejoined, and the first three hold no comma |
| `Csv.SplitFourNoneIff` | library_management.cpp:102 | a line is skipped if and only if it has fewer than three commas |
| `Records.BookLineRoundTrip` | library_management.cpp:99-107 | the parse of a book's line (written as at line 72) is the book if and only if title, author and ISBN hold no comma |
| `Records.ParseBookLineLossless` | library_management.cpp:99-107 | every catalogue line that parses is exactly the line of the book it yields |
| `Records.ParseBookLineSkips` | library_management.cpp:102 | a catalogue line yields no book if and only if it has fewer than three commas |
| `Records.LoanLineRoundTrip` | library_management.cpp:120-128 | the parse of a loan's line (written as at line 84) is the loan, for every `borrowDays`, if and only if ISBN, name and date hold no comma |
| `Records.ParseLoanLineSkips` | library_management.cpp:123 | a loan line is skipped if and only if it has fewer than three commas |
| `Catalogue.LoadBooks` | library_management.cpp:93-112 | the loaded catalogue files every book under its own ISBN |
| `Catalogue.LoadBooksKeys` | library_management.cpp:98-108 | an ISBN is a key after loading if and only if some line parses to a book with that ISBN |
| `Catalogue.LoadBooksLastWins` | library_management.cpp:107 | the book kept for an ISBN is the one from the last line for that ISBN |
| `Catalogue.LoadSavedLines` | library_management.cpp:71-72 | loading lines that are each the line of a catalogue entry gives back exactly those entries |
| `Catalogue.SaveLoadRoundTrip` | library_management.cpp:68-112 | loading what `saveToFile` wrote, in whatever order, rebuilds the catalogue, when no title, author or ISBN holds a comma |
| `Ledger.LoansWellFormedPrefix` | library_management.cpp:127 | a malformed day count ends the well-formed prefix of the file |
| `Ledger.ReadLoanLines` | library_management.cpp:117-131 | the read loop returns the records in file order, up to the first line whose day count `stoi` rejects, and says whether it reached the end |
| `Ledger.SaveLoadLoansRoundTrip` | library_management.cpp:80-133 | loading what `saveBorrowListToFile` wrote reads every line and rebuilds the ledger in the same order, when no ISBN, name or date holds a comma |
| `Ledger.FirstMatch` | library_management.cpp:288-290 | `find_if` gives the first record with that borrower and that ISBN, or none when no record matches |
| `Ledger.RemoveAtSpec` | library_management.cpp:311 | `erase` removes that one record: the records before it are unchanged and the records after it move up one place |
| `Ledger.ConditionPenalty` | library_management.cpp:298-306 | the condition surcharge lies between 0 and 8 |
| `Ledger.TotalPenalty` | library_management.cpp:308 | the penalty is twice the overdue days plus at most 8; a condition outside the table adds nothing |
| `Ledger.PenaltyTable` | library_management.cpp:298-308 | "100%" adds 0, "75%" 3, "50%" 5 and "25%" 8; 5 overdue days at "75%" cost 13; "unknown" adds 0 |
| `LibraryManagement.Library.constructor` | library_management.cpp:136-139 | the catalogue and ledger are what the two files hold, or empty when a file cannot be opened |
| `LibraryManagement.Library.LoadFromFile` | library_management.cpp:93-112 | the catalogue becomes `LoadBooks` of the file's lines; a file that cannot be opened changes nothing; the ledger is untouched |
| `LibraryManagement.Library.LoadBorrowListFromFile` | library_management.cpp:114-133 | the ledger becomes the records read before the first malformed line; it reports whether the whole file was read; the catalogue is untouched |
| `LibraryManagement.Library.SaveToFile` | library_management.cpp:68-78 | writes one `title,author,ISBN,category` line per book, each key once, in iteration order |
| `LibraryManagement.Library.SaveBorrowListToFile` | library_management.cpp:80-90 | writes one `ISBN,borrower,date,days` line per record, in ledger order |
| `LibraryManagement.Library.AddBook` | library_management.cpp:142-150 | a new ISBN adds exactly that entry and saves; an ISBN already present leaves `books` unchanged and saves nothing |
| `LibraryManagement.Library.DeleteBook` | library_management.cpp:153-160 | the ISBN is no longer a key and every other entry is unchanged; it saves only if the ISBN was present; the ledger is untouched, so loans may be left without a book |
| `LibraryManagement.Library.UpdateBook` | library_management.cpp:163-173 | on a present ISBN only that entry's title, author and category change and its ISBN stays; an absent ISBN changes nothing |
| `LibraryManagement.Library.DisplayBooksByCategory` | library_management.cpp:176-192 | returns exactly the books whose category equals the argument; `found` is false exactly when there are none |
| `LibraryManagement.Library.SearchByTitle` | library_management.cpp:195-211 | returns exactly the books whose title equals the argument; `found` is false exactly when there are none |
| `LibraryManagement.Library.SearchByISBN` | library_management.cpp:214-226 | finds a book exactly when the ISBN is a key, and the book found has that ISBN |
| `LibraryManagement.Library.AddBorrowRecord` | library_management.cpp:247-261 | an ISBN not in the catalogue changes nothing; otherwise the new record is appended and the ledger saved; `borrowDays` is not checked; `books` is never modified |
| `LibraryManagement.Library.ManageReturns` | library_management.cpp:288-316 | with no record matching borrower and ISBN nothing changes and there is no penalty; otherwise exactly the first match is removed, the ledger saved and `overdueDays*2` plus the surcharge charged |

## Left out

- The menus and operator prompts (`borrowMenu`, `libraryMenu`, `main`): this is interactive I/O. It also covers reading with `cin`, `getline` and `cin.ignore`, and `system("cls")` and `system("pause")`. The values the operator types are parameters of the methods.
- The `Admin` class, login, `verifyCredentials` and `createAccount`. This is an authorization loop around a credentials file, which is taken as passed before any catalogue operation.
- The console output of every operation: messages and `setw` tables. The searches return the matching books instead of printing them.
- `displayAllBooks` and `viewBorrowList`: these only print `books` and `borrowList`, which are fields of the model.
- Opening, reading and writing the files. A file is its lines. A save always succeeds, so the "Unable to open file for writing" branch is not modelled.
- The iteration order of `unordered_map`. `SaveToFile` may write the lines in any order (`IsSaveOf`), and the searches return sets.
- Ending the program when `stoi` throws: `LoadBorrowListFromFile` reports `complete == false` and keeps the records read before the bad line. The constructor ignores this flag.
- LibraryManagement.Library.LoadBorrowListFromFile: the records are collected by `ReadLoanLines` and assigned to `borrowList` once, rather than pushed onto it one by one. The resulting list is the same.
- Ledger.TotalPenalty: does not model the overflow of `int` in `overdueDays * 2` or the conversion of the sum to `double`, because every penalty value is integral and the model uses unbounded `int`.
- Decimal.Stoi: reads white space as the "C" locale defines it and assumes a 32-bit `int`. `strtol`'s own range check gives the same result (an exception) as the `int` range check modelled here.
- What `cin >> borrowDays` and `cin >> overdueDays` do on input that is not a number.
- A `'\r'` left at the end of a line read from a file with Windows line endings is kept as part of the last field. The source does the same; `stoi` ignores it in a day count.
