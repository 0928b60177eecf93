/**
 * The book catalogue as a value: a map from ISBN to `Book`, what loading the
 * catalogue file builds, what saving it writes, and what the searches select.
 */
module Catalogue {
  import opened Wrappers
  import opened Records

  type Books = map<string, Book>

  /** Every key is the ISBN of the book it maps to. */
  predicate KeyedByIsbn(books: Books)
  {
    forall k :: k in books ==> books[k].isbn == k
  }

  /** Every book can be written and read back. */
  predicate AllStorable(books: Books)
  {
    forall k :: k in books ==> StorableBook(books[k])
  }

  /** `books[ISBN] = Book(...)` for a line that parsed; a skipped line changes nothing. */
  function Insert(books: Books, parsed: Option<Book>): Books
  {
    match parsed
    case None => books
    case Some(b) => books[b.isbn := b]
  }

  /** The catalogue `loadFromFile` builds from the lines of the file, first line first. */
  function LoadBooks(lines: seq<string>): (books: Books)
    ensures KeyedByIsbn(books)
  {
    if lines == [] then map[]
    else Insert(LoadBooks(lines[..|lines| - 1]), ParseBookLine(lines[|lines| - 1]))
  }

  /** Line `line` is a catalogue line for ISBN `isbn`. */
  predicate LineFor(line: string, isbn: string)
  {
    ParseBookLine(line).Some? && ParseBookLine(line).value.isbn == isbn
  }

  /** The loaded catalogue has a key exactly for each ISBN some line parses to. */
  lemma {:induction false} LoadBooksKeys(lines: seq<string>, isbn: string)
    ensures isbn in LoadBooks(lines) <==> exists i :: 0 <= i < |lines| && LineFor(lines[i], isbn)
  {
    if lines != [] {
      var init := lines[..|lines| - 1];
      LoadBooksKeys(init, isbn);
      if isbn in LoadBooks(init) {
        var i :| 0 <= i < |init| && LineFor(init[i], isbn);
        assert LineFor(lines[i], isbn);
      }
      if exists i :: 0 <= i < |lines| && LineFor(lines[i], isbn) {
        var i :| 0 <= i < |lines| && LineFor(lines[i], isbn);
        if i < |init| {
          assert LineFor(init[i], isbn);
        }
      }
    }
  }

  /** A later line for the same ISBN overwrites an earlier one: the last line for an ISBN wins. */
  lemma {:induction false} LoadBooksLastWins(lines: seq<string>, i: nat)
    requires i < |lines| && ParseBookLine(lines[i]).Some?
    requires forall j :: i < j < |lines| ==> !LineFor(lines[j], ParseBookLine(lines[i]).value.isbn)
    ensures var b := ParseBookLine(lines[i]).value; b.isbn in LoadBooks(lines) && LoadBooks(lines)[b.isbn] == b
  {
    var init := lines[..|lines| - 1];
    if i < |lines| - 1 {
      LoadBooksLastWins(init, i);
    }
  }

  /** `order` lists each key of `books` once, and `lines` holds one book line per key in that order. */
  predicate SavedInOrder(lines: seq<string>, books: Books, order: seq<string>)
  {
    && |order| == |lines|
    && (forall i :: 0 <= i < |order| ==> order[i] in books && lines[i] == BookLine(books[order[i]]))
    && (forall k :: k in books ==> k in order)
    && (forall i, j :: 0 <= i < j < |order| ==> order[i] != order[j])
  }

  /** What `saveToFile` writes: one line per book, in the map's (unspecified) iteration order. */
  ghost predicate IsSaveOf(lines: seq<string>, books: Books)
  {
    exists order :: SavedInOrder(lines, books, order)
  }

  /** Loading lines that each are the line of a catalogue entry gives exactly those entries back. */
  lemma {:induction false} LoadSavedLines(lines: seq<string>, books: Books, order: seq<string>)
    requires KeyedByIsbn(books) && AllStorable(books)
    requires |order| == |lines|
    requires forall i :: 0 <= i < |order| ==> order[i] in books && lines[i] == BookLine(books[order[i]])
    ensures forall k :: k in LoadBooks(lines) <==> k in order
    ensures forall k :: k in LoadBooks(lines) ==> k in books && LoadBooks(lines)[k] == books[k]
  {
    if lines != [] {
      var n := |lines| - 1;
      LoadSavedLines(lines[..n], books, order[..n]);
      BookLineRoundTrip(books[order[n]]);
      forall k ensures k in LoadBooks(lines) <==> k in order {
        assert k in order <==> k in order[..n] || k == order[n] by {
          assert order == order[..n] + [order[n]];
        }
      }
    }
  }

  /** Saving then loading the catalogue rebuilds it, whatever order the save wrote the lines in. */
  lemma SaveLoadRoundTrip(lines: seq<string>, books: Books)
    requires KeyedByIsbn(books) && AllStorable(books)
    requires IsSaveOf(lines, books)
    ensures LoadBooks(lines) == books
  {
    var order :| SavedInOrder(lines, books, order);
    LoadSavedLines(lines, books, order);
  }

  /** The books `displayBooksByCategory` lists: those whose category is exactly `category`. */
  function InCategory(books: Books, category: string): set<Book>
  {
    set k | k in books && books[k].category == category :: books[k]
  }

  /** The books `searchByTitle` lists: those whose title is exactly `title`. */
  function WithTitle(books: Books, title: string): set<Book>
  {
    set k | k in books && books[k].title == title :: books[k]
  }
}
